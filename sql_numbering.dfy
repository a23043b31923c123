/**
 * How the PostgreSQL markers are numbered (sql.go:248-254). A composite
 * replaces the markers ` $ ` of its own text by `$1`, `$2`, ... from left
 * to right. Every composite restarts at 1, and the markers of a child
 * composite are already numbered when its parent looks, so two sibling
 * composites bind different values to the same number. The corrected
 * translation numbers the whole text once, at the root.
 */
module SqlNumbering {
  import opened Wrappers
  import opened Text
  import opened Condition
  import opened Sql
  import PostgreSql
  import SqlRules
  import SqlPlaceholders

  /** Every `$` of `s` is followed, inside `s`, by a character other than a
      space: no marker can start in `s`. */
  predicate Settled(s: string)
  {
    forall k :: 0 <= k < |s| && s[k] == '$' ==> k + 1 < |s| && s[k + 1] != ' '
  }

  lemma SettledConcat(a: string, b: string)
    requires Settled(a) && Settled(b)
    ensures Settled(a + b)
  {
    forall k | 0 <= k < |a + b| && (a + b)[k] == '$'
      ensures k + 1 < |a + b| && (a + b)[k + 1] != ' '
    {
      if k < |a| {
        assert a[k] == '$';
      } else {
        assert b[k - |a|] == '$';
      }
    }
  }

  /** A numbered placeholder is settled: its `$` is followed by a digit. */
  lemma MarkSettled(n: nat)
    ensures Settled(PostgreSql.MarkText(n))
  {
    var digits := NatToString(n);
    assert forall i :: 0 <= i < |digits| ==> digits[i] != '$' && digits[i] != ' ';
  }

  /** A settled text holds no marker, so the numbering loop leaves it as it is. */
  lemma SettledHasNoMarker(s: string)
    requires Settled(s)
    ensures !ContainsText(s, Marker)
    ensures Renumber(s, 1) == s
  {
    forall j | 0 <= j <= |s|
      ensures !OccursAt(s, Marker, j)
    {
      if j + 3 <= |s| {
        assert s[j..j + 3][1] == s[j + 1] && s[j..j + 3][2] == s[j + 2];
      }
    }
  }

  /** After a settled text, the first marker is the one right after it. */
  lemma FirstMarker(a: string, b: string)
    requires Settled(a)
    ensures IndexOfTextFrom(a + Marker + b, Marker, 0) == Some(|a|)
  {
    var s := a + Marker + b;
    assert s[|a|..|a| + 3] == Marker;
    assert OccursAt(s, Marker, |a|);
    forall j | 0 <= j < |a|
      ensures !OccursAt(s, Marker, j)
    {
      if j + 1 < |a| {
        assert s[j + 1] == a[j + 1];
        if a[j + 1] == '$' {
          assert s[j + 2] == a[j + 2];
        }
      } else {
        assert s[j + 1] == Marker[0];
      }
    }
  }

  /** One turn of the numbering loop: the marker after a settled text
      becomes `$n`, and the loop goes on from `n + 1`. */
  lemma RenumberStep(a: string, b: string, n: nat)
    requires Settled(a)
    ensures Renumber(a + Marker + b, n) == Renumber(a + PostgreSql.MarkText(n) + b, n + 1)
    ensures Settled(a + PostgreSql.MarkText(n))
  {
    var s := a + Marker + b;
    FirstMarker(a, b);
    assert s[..|a|] == a && s[|a| + 3..] == b;
    MarkSettled(n);
    SettledConcat(a, PostgreSql.MarkText(n));
  }

  /** The pieces of a text between its markers, with the markers numbered
      from `n`. */
  function Numbered(pieces: seq<string>, n: nat): string
    decreases |pieces|
  {
    if |pieces| == 0 then ""
    else if |pieces| == 1 then pieces[0]
    else pieces[0] + PostgreSql.MarkText(n) + Numbered(pieces[1..], n + 1)
  }

  /** After a settled prefix, the loop numbers the markers between
      `$`-free pieces from `n` on, left to right. */
  lemma {:induction false} RenumberAfter(done: string, pieces: seq<string>, n: nat)
    requires Settled(done)
    requires forall i :: 0 <= i < |pieces| ==> '$' !in pieces[i]
    ensures Renumber(done + Join(pieces, Marker), n) == done + Numbered(pieces, n)
    decreases |pieces|
  {
    if |pieces| == 0 {
      assert done + "" == done;
      SettledNoMarkerFrom(done, n);
    } else if |pieces| == 1 {
      SettledConcat(done, pieces[0]);
      SettledNoMarkerFrom(done + pieces[0], n);
    } else {
      var p, rest := pieces[0], pieces[1..];
      SettledConcat(done, p);
      MarkSettled(n);
      SettledConcat(done + p, PostgreSql.MarkText(n));
      RenumberAfter(done + p + PostgreSql.MarkText(n), rest, n + 1);
      RenumberCons(done, pieces, n);
    }
  }

  /** The step of `RenumberAfter`: numbering the first marker and then the
      rest. */
  lemma RenumberCons(done: string, pieces: seq<string>, n: nat)
    requires |pieces| >= 2 && Settled(done + pieces[0])
    requires var next := done + pieces[0] + PostgreSql.MarkText(n);
      Renumber(next + Join(pieces[1..], Marker), n + 1) == next + Numbered(pieces[1..], n + 1)
    ensures Renumber(done + Join(pieces, Marker), n) == done + Numbered(pieces, n)
  {
    var p, rest := pieces[0], pieces[1..];
    var j, m, t := Join(rest, Marker), PostgreSql.MarkText(n), Numbered(rest, n + 1);
    assert pieces == [p] + rest;
    JoinCons(p, rest, Marker);
    assert Join(pieces, Marker) == p + Marker + j;
    ConcatShift(done, p, Marker, j);
    RenumberStep(done + p, j, n);
    assert Numbered(pieces, n) == p + m + t;
    ConcatShift(done, p, m, t);
  }

  lemma ConcatShift(a: string, b: string, c: string, d: string)
    ensures a + (b + c + d) == a + b + c + d
  {
  }

  lemma SettledNoMarkerFrom(s: string, n: nat)
    requires Settled(s)
    ensures Renumber(s, n) == s
  {
    SettledHasNoMarker(s);
  }

  /** Go's loop numbers the markers of a text `$1`, `$2`, ... from left to
      right, one number per marker. */
  lemma RenumberJoin(pieces: seq<string>)
    requires forall i :: 0 <= i < |pieces| ==> '$' !in pieces[i]
    ensures Renumber(Join(pieces, Marker), 1) == Numbered(pieces, 1)
  {
    RenumberAfter("", pieces, 1);
    assert "" + Join(pieces, Marker) == Join(pieces, Marker);
    assert "" + Numbered(pieces, 1) == Numbered(pieces, 1);
  }

  // Two sibling composites, as written and corrected.

  lemma MarkTexts()
    ensures PostgreSql.MarkText(1) == "$1" && PostgreSql.MarkText(2) == "$2"
  {
    assert NatToString(1) == "1" && NatToString(2) == "2";
  }

  /** A text with one marker after `$`-free text is numbered `$1`. */
  lemma NumberOne(a: string)
    requires '$' !in a
    ensures Finish(a + Marker, PostgreSql) == a + "$1"
    ensures Settled(a + "$1")
  {
    RenumberStep(a, "", 1);
    MarkTexts();
    assert a + Marker + "" == a + Marker;
    assert a + PostgreSql.MarkText(1) + "" == a + "$1";
    SettledNoMarkerFrom(a + "$1", 2);
  }

  /** Two children joined by a glue free of `$`, in parentheses. */
  lemma PairText(a: string, b: string, glue: string)
    requires '$' !in glue
    ensures Enclose(Join([a, b], glue), 2) == "( " + a + glue + b + " )"
    ensures Settled(a) && Settled(b) ==> Settled(Enclose(Join([a, b], glue), 2))
  {
    assert [a, b][..1] == [a];
    if Settled(a) && Settled(b) {
      SettledConcat("( ", a);
      SettledConcat("( " + a, glue);
      SettledConcat("( " + a + glue, b);
      SettledConcat("( " + a + glue + b, " )");
    }
  }

  /** A composite with one child that compiles. */
  lemma CompositeOfOne(f: Filter, config: Option<SqlConfig>, db: DatabaseType)
    requires f.kids.Slice? && |f.kids.list| == 1 && Compile(f.kids.list[0], config, db).Ok?
    ensures var frag := Compile(f.kids.list[0], config, db).value;
      Compile(f, config, db) == Ok(Fragment(Finish(frag.sql, db), frag.values))
  {
    var frag := Compile(f.kids.list[0], config, db).value;
    assert CompileKids(f, 0, config, db) == Ok(([], []));
    assert [] + [frag.sql] == [frag.sql] && [] + frag.values == frag.values;
    assert CompileKids(f, 1, config, db) == Ok(([frag.sql], frag.values));
    assert Enclose(Join([frag.sql], GlueText(f.glue)), 1) == frag.sql;
  }

  /** A composite with two children that compile. */
  lemma CompositeOfTwo(f: Filter, config: Option<SqlConfig>, db: DatabaseType)
    requires f.kids.Slice? && |f.kids.list| == 2
    requires Compile(f.kids.list[0], config, db).Ok? && Compile(f.kids.list[1], config, db).Ok?
    ensures var a, b := Compile(f.kids.list[0], config, db).value, Compile(f.kids.list[1], config, db).value;
      Compile(f, config, db) == Ok(Fragment(Finish(Enclose(Join([a.sql, b.sql], GlueText(f.glue)), 2), db), a.values + b.values))
  {
    var a, b := Compile(f.kids.list[0], config, db).value, Compile(f.kids.list[1], config, db).value;
    assert CompileKids(f, 0, config, db) == Ok(([], []));
    assert [] + [a.sql] == [a.sql] && [] + a.values == a.values;
    assert CompileKids(f, 1, config, db) == Ok(([a.sql], a.values));
    assert [a.sql] + [b.sql] == [a.sql, b.sql];
  }

  /** A composite of two composites of one leaf each. */
  predicate TwoNested(f: Filter)
  {
    && f.kids.Slice? && |f.kids.list| == 2
    && f.kids.list[0].kids.Slice? && |f.kids.list[0].kids.list| == 1 && f.kids.list[0].kids.list[0].kids.Nil?
    && f.kids.list[1].kids.Slice? && |f.kids.list[1].kids.list| == 1 && f.kids.list[1].kids.list[0].kids.Nil?
  }

  /** As written, two sibling composites each number their own marker `$1`,
      and their parent finds no marker left: two values, one number. */
  lemma NestedReuseNumbers(f: Filter, config: Option<SqlConfig>, a: string, b: string, vs1: seq<Value>, vs2: seq<Value>)
    requires TwoNested(f) && '$' !in a && '$' !in b
    requires Compile(f.kids.list[0].kids.list[0], config, PostgreSql) == Ok(Fragment(a + Marker, vs1))
    requires Compile(f.kids.list[1].kids.list[0], config, PostgreSql) == Ok(Fragment(b + Marker, vs2))
    ensures Compile(f, config, PostgreSql) == Ok(Fragment("( " + (a + "$1") + GlueText(f.glue) + (b + "$1") + " )", vs1 + vs2))
  {
    OneLeafNumbered(f.kids.list[0], config, a, vs1);
    OneLeafNumbered(f.kids.list[1], config, b, vs2);
    SettledPair(f, config, a + "$1", b + "$1", vs1, vs2);
  }

  /** A composite of two children whose texts are settled is left as it is. */
  lemma SettledPair(f: Filter, config: Option<SqlConfig>, x: string, y: string, vs1: seq<Value>, vs2: seq<Value>)
    requires f.kids.Slice? && |f.kids.list| == 2 && Settled(x) && Settled(y)
    requires Compile(f.kids.list[0], config, PostgreSql) == Ok(Fragment(x, vs1))
    requires Compile(f.kids.list[1], config, PostgreSql) == Ok(Fragment(y, vs2))
    ensures Compile(f, config, PostgreSql) == Ok(Fragment("( " + x + GlueText(f.glue) + y + " )", vs1 + vs2))
  {
    CompositeOfTwo(f, config, PostgreSql);
    var glue := GlueText(f.glue);
    GlueHasNoPlaceholder(f.glue);
    PairText(x, y, glue);
    PairSettled(x, y, glue);
  }

  /** A composite of one leaf with one marker numbers it `$1`. */
  lemma OneLeafNumbered(g: Filter, config: Option<SqlConfig>, a: string, vs: seq<Value>)
    requires g.kids.Slice? && |g.kids.list| == 1 && '$' !in a
    requires Compile(g.kids.list[0], config, PostgreSql) == Ok(Fragment(a + Marker, vs))
    ensures Compile(g, config, PostgreSql) == Ok(Fragment(a + "$1", vs))
    ensures Settled(a + "$1")
  {
    CompositeOfOne(g, config, PostgreSql);
    NumberOne(a);
  }

  /** Two settled children in parentheses are left as they are. */
  lemma PairSettled(x: string, y: string, glue: string)
    requires Settled(x) && Settled(y) && '$' !in glue
    ensures Finish("( " + x + glue + y + " )", PostgreSql) == "( " + x + glue + y + " )"
  {
    PairText(x, y, glue);
    SettledNoMarkerFrom("( " + x + glue + y + " )", 1);
  }

  /** A configuration without whitelist, operations or dynamic fields. */
  const Plain: Option<SqlConfig> := Some(SqlConfig(None, map[], [], ""))

  /** The leaf `field = value`. */
  function EqualLeaf(field: string, v: Value): Filter
  {
    Filter("", field, Condition("equal", v), [], Nil)
  }

  /** A PostgreSQL leaf `field = value` writes the unnumbered marker. */
  lemma EqualLeafText(field: string, v: Value)
    requires !v.Obj?
    ensures Compile(EqualLeaf(field, v), Plain, PostgreSql) == Ok(Fragment(field + " = " + Marker, [v]))
  {
    SqlRules.ParseRuleName(Equal);
  }

  /** A composite holding one leaf `field = value`. */
  function Single(field: string, v: Value): Filter
  {
    Filter("and", "", Condition("", Null), [], Slice([EqualLeaf(field, v)]))
  }

  /** Two one-leaf composites under an AND. */
  function Siblings(x: string, v1: Value, y: string, v2: Value): Filter
  {
    Filter("and", "", Condition("", Null), [], Slice([Single(x, v1), Single(y, v2)]))
  }

  /** `( x = $1 AND y = $1 )` for `{and: [{and: [x = v1]}, {and: [y = v2]}]}`. */
  lemma SiblingsReuseNumbers(x: string, v1: Value, y: string, v2: Value)
    requires !v1.Obj? && !v2.Obj? && '$' !in x && '$' !in y
    ensures Compile(Siblings(x, v1, y, v2), Plain, PostgreSql)
         == Ok(Fragment("( " + (x + " = " + "$1") + " AND " + (y + " = " + "$1") + " )", [v1, v2]))
  {
    EqualLeafText(x, v1);
    EqualLeafText(y, v2);
    NestedReuseNumbers(Siblings(x, v1, y, v2), Plain, x + " = ", y + " = ", [v1], [v2]);
    assert [v1] + [v2] == [v1, v2];
  }

  // The corrected translation: markers are numbered once, at the root.

  /** The translation without any numbering: every PostgreSQL placeholder
      is still the marker. */
  function Raw(f: Filter, config: Option<SqlConfig>, db: DatabaseType): Result<Fragment, Error>
    decreases f, 1
  {
    match f.kids
    case Nil => CompileLeaf(f, config, db)
    case Slice(kids) =>
      match RawKids(f, |kids|, config, db)
      case Err(e) => Err(e)
      case Ok(acc) => Ok(Fragment(Enclose(Join(acc.0, GlueText(f.glue)), |kids|), acc.1))
  }

  function RawKids(parent: Filter, n: nat, config: Option<SqlConfig>, db: DatabaseType): Result<(seq<string>, seq<Value>), Error>
    requires parent.kids.Slice? && n <= |parent.kids.list|
    decreases parent, 0, n
  {
    if n == 0 then Ok(([], []))
    else match RawKids(parent, n - 1, config, db)
      case Err(e) => Err(e)
      case Ok(acc) =>
        KidSmaller(parent, n - 1);
        match Raw(parent.kids.list[n - 1], config, db)
        case Err(e) => Err(e)
        case Ok(frag) => Ok((acc.0 + [frag.sql], acc.1 + frag.values))
  }

  /** The corrected translation: the unnumbered text, numbered once. */
  function CompileFixed(f: Filter, config: Option<SqlConfig>, db: DatabaseType): Result<Fragment, Error>
  {
    match Raw(f, config, db)
    case Err(e) => Err(e)
    case Ok(frag) => Ok(Fragment(Finish(frag.sql, db), frag.values))
  }

  /** A composite node from its children, before numbering. */
  function RawNode(acc: Result<(seq<string>, seq<Value>), Error>, glue: string, n: nat): Result<Fragment, Error>
  {
    match acc
    case Err(e) => Err(e)
    case Ok(a) => Ok(Fragment(Enclose(Join(a.0, GlueText(glue)), n), a.1))
  }

  /** A composite node from its children, as the translation writes it. */
  function CompiledNode(acc: Result<(seq<string>, seq<Value>), Error>, glue: string, n: nat, db: DatabaseType): Result<Fragment, Error>
  {
    match acc
    case Err(e) => Err(e)
    case Ok(a) => Ok(Fragment(Finish(Enclose(Join(a.0, GlueText(glue)), n), db), a.1))
  }

  /** Two results agree: they fail alike, or they bind the same values with
      as many `$` characters, and outside PostgreSQL in the same text. */
  predicate Agree(r: Result<Fragment, Error>, s: Result<Fragment, Error>, db: DatabaseType)
  {
    && (r.Ok? <==> s.Ok?)
    && (r.Err? ==> r.error == s.error)
    && (r.Ok? ==>
          && r.value.values == s.value.values
          && Count('$', r.value.sql) == Count('$', s.value.sql)
          && (!db.PostgreSql? ==> r.value.sql == s.value.sql))
  }

  /** The same agreement for the children compiled so far. */
  predicate AgreeKids(r: Result<(seq<string>, seq<Value>), Error>, s: Result<(seq<string>, seq<Value>), Error>, db: DatabaseType)
  {
    && (r.Ok? <==> s.Ok?)
    && (r.Err? ==> r.error == s.error)
    && (r.Ok? ==>
          && |r.value.0| == |s.value.0|
          && r.value.1 == s.value.1
          && CountAll('$', r.value.0) == CountAll('$', s.value.0)
          && (!db.PostgreSql? ==> r.value.0 == s.value.0))
  }

  lemma AgreeAddKid(rk: Result<(seq<string>, seq<Value>), Error>, sk: Result<(seq<string>, seq<Value>), Error>,
                    r: Result<Fragment, Error>, s: Result<Fragment, Error>, db: DatabaseType)
    requires AgreeKids(rk, sk, db) && Agree(r, s, db)
    ensures AgreeKids(AddKid(rk, r), AddKid(sk, s), db)
  {
    if rk.Ok? && r.Ok? {
      var a, b := rk.value.0 + [r.value.sql], sk.value.0 + [s.value.sql];
      assert a[..|a| - 1] == rk.value.0;
      assert b[..|b| - 1] == sk.value.0;
    }
  }

  lemma AgreeNode(rk: Result<(seq<string>, seq<Value>), Error>, sk: Result<(seq<string>, seq<Value>), Error>,
                  glue: string, n: nat, db: DatabaseType)
    requires AgreeKids(rk, sk, db)
    ensures Agree(RawNode(rk, glue, n), CompiledNode(sk, glue, n, db), db)
  {
    if rk.Ok? {
      var raw, acc := rk.value, sk.value;
      var g := GlueText(glue);
      GlueHasNoPlaceholder(glue);
      CountJoin('$', raw.0, g);
      CountJoin('$', acc.0, g);
      if n > 1 {
        assert '$' !in "( " && '$' !in " )";
        CountThree('$', "( ", Join(raw.0, g), " )");
        CountThree('$', "( ", Join(acc.0, g), " )");
      }
    }
  }

  lemma RawKidsStep(parent: Filter, n: nat, config: Option<SqlConfig>, db: DatabaseType)
    requires parent.kids.Slice? && 0 < n <= |parent.kids.list|
    ensures RawKids(parent, n, config, db) == AddKid(RawKids(parent, n - 1, config, db), Raw(parent.kids.list[n - 1], config, db))
  {
  }

  /** The correction fails exactly where the translation as written fails,
      binds the same values, and writes as many `$` characters; outside
      PostgreSQL it writes the same text. */
  lemma {:induction false} RawAgrees(f: Filter, config: Option<SqlConfig>, db: DatabaseType)
    ensures Agree(Raw(f, config, db), Compile(f, config, db), db)
    decreases f, 1
  {
    match f.kids
    case Nil =>
      assert Raw(f, config, db) == CompileLeaf(f, config, db) == Compile(f, config, db);
    case Slice(kids) =>
      RawKidsAgree(f, |kids|, config, db);
      assert Raw(f, config, db) == RawNode(RawKids(f, |kids|, config, db), f.glue, |kids|);
      assert Compile(f, config, db) == CompiledNode(CompileKids(f, |kids|, config, db), f.glue, |kids|, db);
      AgreeNode(RawKids(f, |kids|, config, db), CompileKids(f, |kids|, config, db), f.glue, |kids|, db);
  }

  /** The first `n` children agree in the same way. */
  lemma {:induction false} RawKidsAgree(parent: Filter, n: nat, config: Option<SqlConfig>, db: DatabaseType)
    requires parent.kids.Slice? && n <= |parent.kids.list|
    ensures AgreeKids(RawKids(parent, n, config, db), CompileKids(parent, n, config, db), db)
    decreases parent, 0, n
  {
    if n > 0 {
      RawKidsAgree(parent, n - 1, config, db);
      KidSmaller(parent, n - 1);
      RawAgrees(parent.kids.list[n - 1], config, db);
      AgreeAddKid(RawKids(parent, n - 1, config, db), CompileKids(parent, n - 1, config, db),
                  Raw(parent.kids.list[n - 1], config, db), Compile(parent.kids.list[n - 1], config, db), db);
      RawKidsStep(parent, n, config, db);
      CompileKidsStep(parent, n, config, db);
    }
  }

  /** Outside PostgreSQL the correction changes nothing. */
  lemma FixedIsCompileOffPostgreSql(f: Filter, config: Option<SqlConfig>, db: DatabaseType)
    requires !db.PostgreSql?
    ensures CompileFixed(f, config, db) == Compile(f, config, db)
  {
    RawAgrees(f, config, db);
  }

  /** The corrected translation leaves no marker unnumbered and binds the
      values of the translation as written, with as many `$` characters. */
  lemma FixedKeepsValues(f: Filter, config: Option<SqlConfig>, db: DatabaseType)
    ensures CompileFixed(f, config, db).Ok? <==> Compile(f, config, db).Ok?
    ensures CompileFixed(f, config, db).Ok? ==>
      && CompileFixed(f, config, db).value.values == Compile(f, config, db).value.values
      && Count('$', CompileFixed(f, config, db).value.sql) == Count('$', Compile(f, config, db).value.sql)
      && (db.PostgreSql? ==> !ContainsText(CompileFixed(f, config, db).value.sql, Marker))
  {
    RawAgrees(f, config, db);
  }

  /** A composite with one child, left unnumbered. */
  lemma RawOfOne(f: Filter, config: Option<SqlConfig>, db: DatabaseType)
    requires f.kids.Slice? && |f.kids.list| == 1 && Raw(f.kids.list[0], config, db).Ok?
    ensures Raw(f, config, db) == Raw(f.kids.list[0], config, db)
  {
    var frag := Raw(f.kids.list[0], config, db).value;
    assert RawKids(f, 0, config, db) == Ok(([], []));
    assert [] + [frag.sql] == [frag.sql] && [] + frag.values == frag.values;
    assert RawKids(f, 1, config, db) == Ok(([frag.sql], frag.values));
    assert Enclose(Join([frag.sql], GlueText(f.glue)), 1) == frag.sql;
  }

  /** A composite with two children, left unnumbered. */
  lemma RawOfTwo(f: Filter, config: Option<SqlConfig>, db: DatabaseType)
    requires f.kids.Slice? && |f.kids.list| == 2
    requires Raw(f.kids.list[0], config, db).Ok? && Raw(f.kids.list[1], config, db).Ok?
    ensures var a, b := Raw(f.kids.list[0], config, db).value, Raw(f.kids.list[1], config, db).value;
      Raw(f, config, db) == Ok(Fragment(Enclose(Join([a.sql, b.sql], GlueText(f.glue)), 2), a.values + b.values))
  {
    var a, b := Raw(f.kids.list[0], config, db).value, Raw(f.kids.list[1], config, db).value;
    assert RawKids(f, 0, config, db) == Ok(([], []));
    assert [] + [a.sql] == [a.sql] && [] + a.values == a.values;
    assert RawKids(f, 1, config, db) == Ok(([a.sql], a.values));
    assert [a.sql] + [b.sql] == [a.sql, b.sql];
  }

  lemma JoinThree(pieces: seq<string>)
    requires |pieces| == 3
    ensures Join(pieces, Marker) == pieces[0] + Marker + pieces[1] + Marker + pieces[2]
  {
    var init := pieces[..2];
    assert init[..1] == [pieces[0]] && init[1] == pieces[1];
    assert Join(init, Marker) == pieces[0] + Marker + pieces[1];
  }

  /** `( a  $ <glue>b  $  )` cut at its markers. */
  lemma PairPieces(a: string, b: string, glue: string)
    ensures "( " + (a + Marker) + glue + (b + Marker) + " )" == Join(["( " + a, glue + b, " )"], Marker)
  {
    JoinThree(["( " + a, glue + b, " )"]);
    ConcatShift("( ", a, Marker, glue + b + Marker + " )");
    ConcatShift("( " + a + Marker, glue, b, Marker + " )");
  }

  /** The pieces of `PairPieces` numbered from 1. */
  lemma PairPiecesNumbered(a: string, b: string, glue: string)
    ensures Numbered(["( " + a, glue + b, " )"], 1) == "( " + (a + "$1") + glue + (b + "$2") + " )"
  {
    var pieces := ["( " + a, glue + b, " )"];
    MarkTexts();
    assert pieces[1..][1..] == [" )"] && pieces[1..][0] == pieces[1];
    assert Numbered(pieces[1..], 2) == pieces[1] + "$2" + " )";
    assert Numbered(pieces, 1) == pieces[0] + "$1" + (pieces[1] + "$2" + " )");
    ConcatShift("( ", a, "$1", glue + b + "$2" + " )");
    ConcatShift("( " + a + "$1", glue, b, "$2" + " )");
  }

  /** Numbered once, the two markers of `( a  $ <glue>b  $  )` become `$1`
      and `$2`. */
  lemma PairNumbered(a: string, b: string, glue: string)
    requires '$' !in a && '$' !in b && '$' !in glue
    ensures Renumber("( " + (a + Marker) + glue + (b + Marker) + " )", 1) == "( " + (a + "$1") + glue + (b + "$2") + " )"
  {
    var pieces := ["( " + a, glue + b, " )"];
    assert '$' !in pieces[0] && '$' !in pieces[1] && '$' !in pieces[2];
    PairPieces(a, b, glue);
    RenumberJoin(pieces);
    PairPiecesNumbered(a, b, glue);
  }

  /** Corrected, a PostgreSQL filter that compiles carries one numbered
      placeholder per bound value and no marker left unnumbered (under the
      conditions of `SqlPlaceholders.PlaceholdersMatchValues`). */
  lemma FixedPlaceholdersMatchValues(f: Filter, config: Option<SqlConfig>)
    requires SqlPlaceholders.TreeFits(f, PostgreSql) && SqlPlaceholders.OperationsBalanced(config, '$')
    requires SqlPlaceholders.DynamicNamesClean(config)
    requires Compile(f, config, PostgreSql).Ok?
    ensures CompileFixed(f, config, PostgreSql).Ok?
    ensures Count('$', CompileFixed(f, config, PostgreSql).value.sql) == |CompileFixed(f, config, PostgreSql).value.values|
    ensures !ContainsText(CompileFixed(f, config, PostgreSql).value.sql, Marker)
  {
    FixedKeepsValues(f, config, PostgreSql);
    SqlPlaceholders.PlaceholdersMatchValues(f, config, PostgreSql);
  }

  /** Corrected, the two sibling composites number their markers `$1` and
      `$2`, in the order of their values. */
  lemma NestedNumberedOnce(f: Filter, config: Option<SqlConfig>, a: string, b: string, vs1: seq<Value>, vs2: seq<Value>)
    requires TwoNested(f) && '$' !in a && '$' !in b
    requires Compile(f.kids.list[0].kids.list[0], config, PostgreSql) == Ok(Fragment(a + Marker, vs1))
    requires Compile(f.kids.list[1].kids.list[0], config, PostgreSql) == Ok(Fragment(b + Marker, vs2))
    ensures CompileFixed(f, config, PostgreSql) == Ok(Fragment("( " + (a + "$1") + GlueText(f.glue) + (b + "$2") + " )", vs1 + vs2))
  {
    RawOneLeaf(f.kids.list[0], config, a + Marker, vs1);
    RawOneLeaf(f.kids.list[1], config, b + Marker, vs2);
    RawPair(f, config, a + Marker, b + Marker, vs1, vs2);
    PairNumbered(a, b, GlueText(f.glue));
  }

  /** A composite of one leaf, left unnumbered, is that leaf. */
  lemma RawOneLeaf(g: Filter, config: Option<SqlConfig>, t: string, vs: seq<Value>)
    requires g.kids.Slice? && |g.kids.list| == 1 && g.kids.list[0].kids.Nil?
    requires Compile(g.kids.list[0], config, PostgreSql) == Ok(Fragment(t, vs))
    ensures Raw(g, config, PostgreSql) == Ok(Fragment(t, vs))
  {
    assert Raw(g.kids.list[0], config, PostgreSql) == Compile(g.kids.list[0], config, PostgreSql);
    RawOfOne(g, config, PostgreSql);
  }

  /** A composite of two children, left unnumbered. */
  lemma RawPair(f: Filter, config: Option<SqlConfig>, x: string, y: string, vs1: seq<Value>, vs2: seq<Value>)
    requires f.kids.Slice? && |f.kids.list| == 2
    requires Raw(f.kids.list[0], config, PostgreSql) == Ok(Fragment(x, vs1))
    requires Raw(f.kids.list[1], config, PostgreSql) == Ok(Fragment(y, vs2))
    ensures Raw(f, config, PostgreSql) == Ok(Fragment("( " + x + GlueText(f.glue) + y + " )", vs1 + vs2))
  {
    RawOfTwo(f, config, PostgreSql);
    PairText(x, y, GlueText(f.glue));
  }

  /** Corrected, `{and: [{and: [x = v1]}, {and: [y = v2]}]}` is
      `( x = $1 AND y = $2 )`. */
  lemma SiblingsNumberedOnce(x: string, v1: Value, y: string, v2: Value)
    requires !v1.Obj? && !v2.Obj? && '$' !in x && '$' !in y
    ensures CompileFixed(Siblings(x, v1, y, v2), Plain, PostgreSql)
         == Ok(Fragment("( " + (x + " = " + "$1") + " AND " + (y + " = " + "$2") + " )", [v1, v2]))
  {
    EqualLeafText(x, v1);
    EqualLeafText(y, v2);
    NestedNumberedOnce(Siblings(x, v1, y, v2), Plain, x + " = ", y + " = ", [v1], [v2]);
    assert [v1] + [v2] == [v1, v2];
  }

  /** As written, a leaf handed straight to the translation keeps its
      marker unnumbered; corrected, it is `$1`. */
  lemma TopLevelLeaf(f: Filter, config: Option<SqlConfig>, a: string, vs: seq<Value>)
    requires f.kids.Nil? && '$' !in a
    requires Compile(f, config, PostgreSql) == Ok(Fragment(a + Marker, vs))
    ensures ContainsText(Compile(f, config, PostgreSql).value.sql, Marker)
    ensures CompileFixed(f, config, PostgreSql) == Ok(Fragment(a + "$1", vs))
  {
    FirstMarker(a, "");
    assert a + Marker + "" == a + Marker;
    NumberOne(a);
  }
}
