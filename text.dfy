/**
 * The few string operations the compiler borrows from Go's `strings` and
 * `fmt` packages, written as sequence functions over `seq<char>`:
 * counting, joining, splitting, prefix tests, first-occurrence search and
 * replacement, and decimal formatting of natural numbers.
 */
module Text {
  import opened Wrappers

  /** Number of occurrences of the character `c` in `s`. */
  function Count(c: char, s: string): (n: nat)
    ensures n <= |s|
    ensures n == 0 <==> c !in s
  {
    if s == [] then 0
    else
      assert s == s[..|s| - 1] + [s[|s| - 1]];
      Count(c, s[..|s| - 1]) + (if s[|s| - 1] == c then 1 else 0)
  }

  lemma {:induction false} CountConcat(c: char, a: string, b: string)
    ensures Count(c, a + b) == Count(c, a) + Count(c, b)
    decreases |b|
  {
    if b == [] {
      assert a + b == a;
    } else {
      CountConcat(c, a, b[..|b| - 1]);
      assert (a + b)[..|a + b| - 1] == a + b[..|b| - 1];
    }
  }

  /** One `c` between pieces free of `c` adds exactly one occurrence to those of `v`. */
  lemma CountAround(c: char, pre: string, v: string, mid: string, post: string)
    requires c !in pre && c !in mid && c !in post
    ensures Count(c, pre + v + mid + [c] + post) == Count(c, v) + 1
  {
    CountConcat(c, pre, v);
    CountConcat(c, pre + v, mid);
    CountConcat(c, pre + v + mid, [c]);
    CountConcat(c, pre + v + mid + [c], post);
    assert [c][..0] == [];
  }

  lemma CountAfter(c: char, v: string, mid: string, post: string)
    requires c !in mid && c !in post
    ensures Count(c, v + mid + [c] + post) == Count(c, v) + 1
  {
    CountAround(c, "", v, mid, post);
    assert "" + v == v;
  }

  /** A marked piece `m` holding one `c`, between pieces free of `c`, adds
      exactly one occurrence to those of `v`. */
  lemma CountMarked(c: char, v: string, left: string, m: string, right: string)
    requires c !in left && c !in right && Count(c, m) == 1
    ensures Count(c, v + left + m + right) == Count(c, v) + 1
  {
    CountConcat(c, v, left);
    CountConcat(c, v + left, m);
    CountConcat(c, v + left + m, right);
  }

  lemma CountThree(c: char, a: string, b: string, d: string)
    ensures Count(c, a + b + d) == Count(c, a) + Count(c, b) + Count(c, d)
  {
    CountConcat(c, a, b);
    CountConcat(c, a + b, d);
  }

  /** Go's `strings.Join`: the parts with `sep` between consecutive ones. */
  function Join(parts: seq<string>, sep: string): string
  {
    if |parts| == 0 then ""
    else if |parts| == 1 then parts[0]
    else Join(parts[..|parts| - 1], sep) + sep + parts[|parts| - 1]
  }

  /** Joining a list with one more part on its front. */
  lemma {:induction false} JoinCons(p: string, parts: seq<string>, sep: string)
    requires |parts| >= 1
    ensures Join([p] + parts, sep) == p + sep + Join(parts, sep)
    decreases |parts|
  {
    var all := [p] + parts;
    if |parts| == 1 {
      assert all[..1] == [p];
    } else {
      JoinCons(p, parts[..|parts| - 1], sep);
      assert all[..|all| - 1] == [p] + parts[..|parts| - 1];
    }
  }

  /** Sum of the counts of `c` over all parts. */
  function CountAll(c: char, parts: seq<string>): nat
  {
    if parts == [] then 0 else CountAll(c, parts[..|parts| - 1]) + Count(c, parts[|parts| - 1])
  }

  /** A separator free of `c` adds no occurrence of `c` to the joined text. */
  lemma {:induction false} CountJoin(c: char, parts: seq<string>, sep: string)
    requires c !in sep
    ensures Count(c, Join(parts, sep)) == CountAll(c, parts)
    decreases |parts|
  {
    if |parts| == 1 {
      assert parts[..0] == [];
    } else if |parts| > 1 {
      var init := parts[..|parts| - 1];
      CountJoin(c, init, sep);
      CountConcat(c, Join(init, sep), sep);
      CountConcat(c, Join(init, sep) + sep, parts[|parts| - 1]);
    }
  }

  /** Index of the first `c` in `s`, if any. */
  function IndexOf(s: string, c: char): (r: Option<nat>)
    ensures r.None? <==> c !in s
    ensures r.Some? ==> r.value < |s| && s[r.value] == c && c !in s[..r.value]
  {
    if s == [] then None
    else if s[0] == c then Some(0)
    else match IndexOf(s[1..], c)
      case None => None
      case Some(i) =>
        assert s[..i + 1] == [s[0]] + s[1..][..i];
        Some(i + 1)
  }

  /** The first `c` of `a + [c] + b` is the one after `a` when `a` has none. */
  lemma {:induction false} IndexOfAfter(a: string, c: char, b: string)
    requires c !in a
    ensures IndexOf(a + [c] + b, c) == Some(|a|)
    decreases |a|
  {
    var s := a + [c] + b;
    if a != [] {
      assert s[0] == a[0] && s[1..] == a[1..] + [c] + b;
      IndexOfAfter(a[1..], c, b);
    }
  }

  /** A string is its part before `i`, its `i`-th character, and the rest. */
  lemma SliceAt(s: string, i: nat)
    requires i < |s|
    ensures s == s[..i] + [s[i]] + s[i + 1..]
  {
    assert s[i..] == [s[i]] + s[i + 1..];
    assert s == s[..i] + s[i..];
  }

  /** Gluing the piece before the first separator back onto the pieces of
      the rest rebuilds the text. */
  lemma JoinStep(s: string, i: nat, sep: char, rest: seq<string>)
    requires i < |s| && s[i] == sep && |rest| >= 1
    requires Join(rest, [sep]) == s[i + 1..]
    ensures Join([s[..i]] + rest, [sep]) == s
  {
    JoinCons(s[..i], rest, [sep]);
    SliceAt(s, i);
  }

  /** Go's `strings.Split` with a one-character separator. */
  function Split(s: string, sep: char): (r: seq<string>)
    ensures |r| >= 1
    ensures forall i :: 0 <= i < |r| ==> sep !in r[i]
    ensures Join(r, [sep]) == s
    decreases |s|
  {
    match IndexOf(s, sep)
    case None => [s]
    case Some(i) =>
      var rest := Split(s[i + 1..], sep);
      JoinStep(s, i, sep, rest);
      [s[..i]] + rest
  }

  /** Go's `strings.SplitN` with a one-character separator and `n >= 1`:
      at most `n` pieces, the last one holding the unsplit remainder. */
  function SplitN(s: string, sep: char, n: nat): (r: seq<string>)
    requires n >= 1
    ensures 1 <= |r| <= n
    ensures forall i :: 0 <= i < |r| - 1 ==> sep !in r[i]
    ensures |r| < n ==> sep !in r[|r| - 1]
    ensures Join(r, [sep]) == s
    decreases n
  {
    if n == 1 then [s]
    else match IndexOf(s, sep)
      case None => [s]
      case Some(i) =>
        var rest := SplitN(s[i + 1..], sep, n - 1);
        JoinStep(s, i, sep, rest);
        [s[..i]] + rest
  }

  /** Splitting a text whose first piece is `a`. */
  lemma SplitAfter(a: string, sep: char, b: string)
    requires sep !in a
    ensures Split(a + [sep] + b, sep) == [a] + Split(b, sep)
  {
    var s := a + [sep] + b;
    IndexOfAfter(a, sep, b);
    assert s[..|a|] == a && s[|a| + 1..] == b;
  }

  lemma SplitNAfter(a: string, sep: char, b: string, n: nat)
    requires n >= 2 && sep !in a
    ensures SplitN(a + [sep] + b, sep, n) == [a] + SplitN(b, sep, n - 1)
  {
    var s := a + [sep] + b;
    IndexOfAfter(a, sep, b);
    assert s[..|a|] == a && s[|a| + 1..] == b;
  }

  /** Go's `strings.HasPrefix`. */
  predicate HasPrefix(s: string, prefix: string)
  {
    |prefix| <= |s| && s[..|prefix|] == prefix
  }

  /** `pat` occurs in `s` starting at index `i`. */
  predicate OccursAt(s: string, pat: string, i: nat)
  {
    i + |pat| <= |s| && s[i..i + |pat|] == pat
  }

  /** Index of the first occurrence of `pat` in `s` at or after `from`. */
  function IndexOfTextFrom(s: string, pat: string, from: nat): (r: Option<nat>)
    requires from <= |s|
    ensures r.Some? ==> from <= r.value && OccursAt(s, pat, r.value)
    ensures r.Some? ==> forall j :: from <= j < r.value ==> !OccursAt(s, pat, j)
    ensures r.None? ==> forall j :: from <= j <= |s| ==> !OccursAt(s, pat, j)
    decreases |s| - from
  {
    if from + |pat| > |s| then None
    else if OccursAt(s, pat, from) then Some(from)
    else IndexOfTextFrom(s, pat, from + 1)
  }

  /** Go's `strings.Contains`. */
  predicate ContainsText(s: string, pat: string)
  {
    IndexOfTextFrom(s, pat, 0).Some?
  }

  /** Go's `strings.Replace(s, pat, rep, 1)`: the first occurrence of `pat`
      replaced by `rep`; `s` itself when there is none. */
  function ReplaceFirst(s: string, pat: string, rep: string): string
  {
    match IndexOfTextFrom(s, pat, 0)
    case None => s
    case Some(i) => s[..i] + rep + s[i + |pat|..]
  }

  predicate IsDigit(c: char)
  {
    '0' <= c <= '9'
  }

  function DigitChar(d: nat): (c: char)
    requires d < 10
    ensures IsDigit(c)
  {
    (48 + d) as char
  }

  /** Go's `fmt.Sprintf("%d", n)` for a natural number: decimal digits,
      no leading zero. */
  function NatToString(n: nat): (r: string)
    ensures |r| >= 1
    ensures forall i :: 0 <= i < |r| ==> IsDigit(r[i])
    decreases n
  {
    if n < 10 then [DigitChar(n)] else NatToString(n / 10) + [DigitChar(n % 10)]
  }

  /** The number a string of decimal digits stands for. */
  function ParseNat(s: string): nat
    requires forall i :: 0 <= i < |s| ==> IsDigit(s[i])
  {
    if s == [] then 0
    else
      assert IsDigit(s[|s| - 1]);
      ParseNat(s[..|s| - 1]) * 10 + (s[|s| - 1] as int - 48)
  }

  /** Decimal formatting loses nothing: parsing the digits gives the number back. */
  lemma {:induction false} ParseNatToString(n: nat)
    ensures ParseNat(NatToString(n)) == n
    decreases n
  {
    if n >= 10 {
      var s := NatToString(n);
      ParseNatToString(n / 10);
      assert s[..|s| - 1] == NatToString(n / 10);
    }
  }
}
