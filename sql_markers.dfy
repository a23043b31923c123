/**
 * What the corrected numbering writes for a whole tree. Before numbering,
 * every PostgreSQL placeholder of a compiled tree is the marker ` $ `, and
 * no `$` stands anywhere else; so the unnumbered text is a list of
 * `$`-free pieces joined by markers, one marker per bound value, and the
 * corrected translation writes those pieces with `$1`, `$2`, ... between
 * them, left to right: the k-th placeholder reads `$k`.
 */
module SqlMarkers {
  import opened Wrappers
  import opened Text
  import opened Condition
  import opened Sql
  import opened SqlNumbering
  import SqlPlaceholders

  /** Every `$` of `s` is the middle of a marker ` $ `, and no `$` follows
      that marker at once, so that the markers do not share a space. */
  predicate Shaped(s: string)
  {
    forall k :: 0 <= k < |s| && s[k] == '$' ==>
      && 0 < k && k + 1 < |s| && s[k - 1] == ' ' && s[k + 1] == ' '
      && (k + 2 < |s| ==> s[k + 2] != '$')
  }

  lemma MarkerShaped()
    ensures Shaped(Marker)
  {
    assert Marker == [' ', '$', ' '];
  }

  lemma ShapedConcat(a: string, b: string)
    requires Shaped(a) && Shaped(b)
    ensures Shaped(a + b)
  {
    var s := a + b;
    forall k | 0 <= k < |s| && s[k] == '$'
      ensures 0 < k && k + 1 < |s| && s[k - 1] == ' ' && s[k + 1] == ' '
      ensures k + 2 < |s| ==> s[k + 2] != '$'
    {
      if k < |a| {
        assert a[k] == '$';
        if k + 2 == |a| && |b| > 0 {
          assert s[k + 2] == b[0];
          assert b[0] != '$';
        }
      } else {
        assert b[k - |a|] == '$';
      }
    }
  }

  /** Text without `$` may follow a shaped text. */
  lemma ShapedAppend(a: string, b: string)
    requires Shaped(a) && '$' !in b
    ensures Shaped(a + b)
  {
    ShapedConcat(a, b);
  }

  /** Text without `$` is shaped. */
  lemma FreeShaped(a: string)
    requires '$' !in a
    ensures Shaped(a)
  {
  }

  /** Text without `$` may precede a shaped text. */
  lemma ShapedPrefix(a: string, b: string)
    requires '$' !in a && Shaped(b)
    ensures Shaped(a + b)
  {
    FreeShaped(a);
    ShapedConcat(a, b);
  }

  /** A marker may follow a shaped text. */
  lemma ShapedMark(a: string)
    requires Shaped(a)
    ensures Shaped(a + Marker)
  {
    MarkerShaped();
    ShapedConcat(a, Marker);
  }

  /** One marker between two pieces without `$`. */
  lemma MarkBetween(pre: string, post: string)
    requires '$' !in pre && '$' !in post
    ensures Shaped(pre + Marker) && Shaped(pre + Marker + post)
  {
    ShapedMark(pre);
    ShapedAppend(pre + Marker, post);
  }

  /** Shaped texts joined by a separator without `$`. */
  lemma {:induction false} ShapedJoin(parts: seq<string>, sep: string)
    requires forall i :: 0 <= i < |parts| ==> Shaped(parts[i])
    requires '$' !in sep
    ensures Shaped(Join(parts, sep))
    decreases |parts|
  {
    if |parts| > 1 {
      var init := parts[..|parts| - 1];
      ShapedJoin(init, sep);
      ShapedAppend(Join(init, sep), sep);
      ShapedConcat(Join(init, sep) + sep, parts[|parts| - 1]);
    }
  }

  // Cutting a shaped text at its markers.

  /** The first `$` of a shaped text is the middle of a marker, and what
      follows that marker is shaped again. */
  lemma ShapedAfterMark(s: string, i: nat)
    requires Shaped(s) && IndexOf(s, '$') == Some(i)
    ensures 0 < i && i + 2 <= |s|
    ensures s == s[..i - 1] + Marker + s[i + 2..]
    ensures '$' !in s[..i - 1]
    ensures Shaped(s[i + 2..])
  {
    MarkAt(s, i);
    assert s[..i - 1] == s[..i][..i - 1];
    ShapedSuffix(s, i);
  }

  /** A `$` of a shaped text is the middle of a marker. */
  lemma MarkAt(s: string, i: nat)
    requires Shaped(s) && i < |s| && s[i] == '$'
    ensures 0 < i && i + 2 <= |s|
    ensures s == s[..i - 1] + Marker + s[i + 2..]
  {
    assert s[i - 1..i + 2] == Marker;
    assert s == s[..i - 1] + s[i - 1..i + 2] + s[i + 2..];
  }

  /** What follows the marker around the `$` at `i` is shaped. */
  lemma ShapedSuffix(s: string, i: nat)
    requires Shaped(s) && i < |s| && s[i] == '$' && i + 2 <= |s|
    ensures Shaped(s[i + 2..])
  {
    var rest := s[i + 2..];
    forall k | 0 <= k < |rest| && rest[k] == '$'
      ensures 0 < k && k + 1 < |rest| && rest[k - 1] == ' ' && rest[k + 1] == ' '
      ensures k + 2 < |rest| ==> rest[k + 2] != '$'
    {
      assert s[k + i + 2] == '$';
    }
  }

  /** The pieces of a shaped text between its markers, left to right. */
  function Cut(s: string): (pieces: seq<string>)
    requires Shaped(s)
    ensures |pieces| >= 1
    ensures forall j :: 0 <= j < |pieces| ==> '$' !in pieces[j]
    decreases |s|
  {
    match IndexOf(s, '$')
    case None => [s]
    case Some(i) =>
      ShapedAfterMark(s, i);
      [s[..i - 1]] + Cut(s[i + 2..])
  }

  /** The pieces, joined by markers, give the text back, and there is one
      piece more than the text has `$` characters. */
  lemma {:induction false} CutJoin(s: string)
    requires Shaped(s)
    ensures Join(Cut(s), Marker) == s
    ensures |Cut(s)| == Count('$', s) + 1
    decreases |s|
  {
    match IndexOf(s, '$')
    case None =>
    case Some(i) =>
      ShapedAfterMark(s, i);
      var pre, rest := s[..i - 1], s[i + 2..];
      CutJoin(rest);
      JoinCons(pre, Cut(rest), Marker);
      MarkerCounts();
      CountThree('$', pre, Marker, rest);
  }

  /** Numbering a shaped text writes its pieces with `$1`, `$2`, ...
      between them. */
  lemma RenumberShaped(s: string)
    requires Shaped(s)
    ensures Renumber(s, 1) == Numbered(Cut(s), 1)
  {
    CutJoin(s);
    RenumberJoin(Cut(s));
  }

  // Every unnumbered PostgreSQL text is shaped.

  /** Every configured operation, given a field without `$`, writes its
      placeholders as markers. */
  ghost predicate OperationsMarked(config: Option<SqlConfig>)
  {
    config.None? ||
    forall name, field, rule, vs ::
      name in config.value.operations && '$' !in field && config.value.operations[name](field, rule, vs).Ok? ==>
        Shaped(config.value.operations[name](field, rule, vs).value.sql)
  }

  /** `n` markers separated by commas. */
  lemma {:induction false} MarkListShaped(n: nat)
    ensures Shaped(Join(Repeat(Marker, n), ","))
  {
    MarkerShaped();
    ShapedJoin(Repeat(Marker, n), ",");
  }

  /** The search expression of the prefix rules. */
  lemma BeginsSearchShaped(isDynamic: bool)
    ensures Shaped(BeginsSearchSql(isDynamic, PostgreSql))
  {
    if isDynamic {
      MarkBetween("'\"' || ", " || '%'");
    } else {
      MarkerShaped();
      ShapedAppend(Marker, " || '%'");
    }
  }

  /** The search expression of the suffix rules. */
  lemma EndsSearchShaped(isDynamic: bool, negated: bool)
    ensures Shaped(EndsSearchSql(isDynamic, PostgreSql, negated))
  {
    if isDynamic {
      MarkBetween("'%' || ", if negated then "|| '\"'" else " || '\"'");
    } else {
      MarkBetween("'%' || ", "");
    }
  }

  /** A range rule with both bounds: two markers. */
  lemma BothBoundsShaped(field: string, first: string, join: string, second: string)
    requires '$' !in field && '$' !in first && '$' !in join && '$' !in second
    ensures Shaped("( " + field + first + Marker + join + field + second + Marker + " )")
  {
    var left := "( " + field + first + Marker;
    MarkBetween("( " + field + first, "");
    ShapedAppend(left, join + field + second);
    assert left + join + field + second == left + (join + field + second);
    ShapedMark(left + join + field + second);
    ShapedAppend(left + join + field + second + Marker, " )");
  }

  /** A comparison rule on a field without `$`. */
  lemma ComparisonShaped(op: Builtin, field: string, isDynamic: bool, values: seq<Value>)
    requires '$' !in field
    requires op.Equal? || op.NotEqual? || op.LessOrEqual? || op.GreaterOrEqual? || op.Less? || op.Greater?
    requires BuiltinSql(op, field, isDynamic, values, Marker, PostgreSql).Ok?
    ensures Shaped(BuiltinSql(op, field, isDynamic, values, Marker, PostgreSql).value.sql)
  {
    match op
    case Equal => MarkBetween(field + " = ", "");
    case NotEqual => MarkBetween(field + " <> ", "");
    case LessOrEqual => MarkBetween(field + " <= ", "");
    case GreaterOrEqual => MarkBetween(field + " >= ", "");
    case Less => MarkBetween(field + " < ", "");
    case Greater => MarkBetween(field + " > ", "");
  }

  /** A substring rule on a field without `$`. */
  lemma ContainsShaped(op: Builtin, field: string, isDynamic: bool, values: seq<Value>)
    requires '$' !in field
    requires op.Contains? || op.NotContains?
    requires BuiltinSql(op, field, isDynamic, values, Marker, PostgreSql).Ok?
    ensures Shaped(BuiltinSql(op, field, isDynamic, values, Marker, PostgreSql).value.sql)
  {
    var not := if op == NotContains then " NOT" else "";
    var before := if isDynamic then " LIKE '\"%' || " else " LIKE '%' || ";
    var after := if isDynamic then " || '%\"'" else " || '%'";
    MarkBetween(field + not + before, after);
  }

  /** A prefix rule on a field without `$`. */
  lemma BeginsShaped(op: Builtin, field: string, isDynamic: bool, values: seq<Value>)
    requires '$' !in field
    requires op.BeginsWith? || op.NotBeginsWith?
    ensures Shaped(BuiltinSql(op, field, isDynamic, values, Marker, PostgreSql).value.sql)
  {
    var like := if op.BeginsWith? then " LIKE " else " NOT LIKE ";
    assert BuiltinSql(op, field, isDynamic, values, Marker, PostgreSql).value.sql == field + like + BeginsSearchSql(isDynamic, PostgreSql);
    BeginsSearchShaped(isDynamic);
    ShapedPrefix(field + like, BeginsSearchSql(isDynamic, PostgreSql));
  }

  /** A suffix rule on a field without `$`. */
  lemma EndsShaped(op: Builtin, field: string, isDynamic: bool, values: seq<Value>)
    requires '$' !in field
    requires op.EndsWith? || op.NotEndsWith?
    ensures Shaped(BuiltinSql(op, field, isDynamic, values, Marker, PostgreSql).value.sql)
  {
    var negated := op.NotEndsWith?;
    var like := if negated then " NOT LIKE " else " LIKE ";
    assert BuiltinSql(op, field, isDynamic, values, Marker, PostgreSql).value.sql == field + like + EndsSearchSql(isDynamic, PostgreSql, negated);
    EndsSearchShaped(isDynamic, negated);
    ShapedPrefix(field + like, EndsSearchSql(isDynamic, PostgreSql, negated));
  }

  /** A range rule on a field without `$`. */
  lemma RangeShaped(op: Builtin, field: string, isDynamic: bool, values: seq<Value>)
    requires '$' !in field
    requires op.Between? || op.NotBetween?
    requires BuiltinSql(op, field, isDynamic, values, Marker, PostgreSql).Ok?
    ensures Shaped(BuiltinSql(op, field, isDynamic, values, Marker, PostgreSql).value.sql)
  {
    if op.Between? {
      MarkBetween(field + " < ", "");
      MarkBetween(field + " > ", "");
      BothBoundsShaped(field, " > ", " AND ", " < ");
    } else {
      MarkBetween(field + " > ", "");
      MarkBetween(field + " < ", "");
      BothBoundsShaped(field, " < ", " OR ", " > ");
    }
  }

  /** A built-in rule on a field without `$`. */
  lemma BuiltinShaped(op: Builtin, field: string, isDynamic: bool, values: seq<Value>)
    requires '$' !in field
    requires BuiltinSql(op, field, isDynamic, values, Marker, PostgreSql).Ok?
    ensures Shaped(BuiltinSql(op, field, isDynamic, values, Marker, PostgreSql).value.sql)
  {
    if op.Empty? {
    } else if op.Between? || op.NotBetween? {
      RangeShaped(op, field, isDynamic, values);
    } else if op.Equal? || op.NotEqual? || op.LessOrEqual? || op.GreaterOrEqual? || op.Less? || op.Greater? {
      ComparisonShaped(op, field, isDynamic, values);
    } else if op.Contains? || op.NotContains? {
      ContainsShaped(op, field, isDynamic, values);
    } else if op.BeginsWith? || op.NotBeginsWith? {
      BeginsShaped(op, field, isDynamic, values);
    } else {
      EndsShaped(op, field, isDynamic, values);
    }
  }

  /** A PostgreSQL leaf that compiles is shaped. */
  lemma LeafShaped(f: Filter, config: Option<SqlConfig>)
    requires f.kids.Nil? && '$' !in f.field
    requires SqlPlaceholders.DynamicNamesClean(config) && OperationsMarked(config)
    requires CompileLeaf(f, config, PostgreSql).Ok?
    ensures Shaped(CompileLeaf(f, config, PostgreSql).value.sql)
  {
    SqlPlaceholders.ResolvedClean(f, config, PostgreSql);
    var resolved := ResolveField(f.field, config, PostgreSql).value;
    if |f.includes| > 0 {
      MarkListShaped(|f.includes|);
      ShapedPrefix(resolved.0 + " IN(", Join(Repeat(Marker, |f.includes|), ","));
      ShapedAppend(resolved.0 + " IN(" + Join(Repeat(Marker, |f.includes|), ","), ")");
    } else {
      match ParseRule(f.condition.rule)
      case Some(op) =>
        BuiltinShaped(op, resolved.0, resolved.1, f.condition.Values());
      case None =>
    }
  }

  /** Children compiled so far whose texts are all shaped, when they
      succeed. */
  predicate ShapedKids(acc: Result<(seq<string>, seq<Value>), Error>)
  {
    acc.Ok? ==> forall i :: 0 <= i < |acc.value.0| ==> Shaped(acc.value.0[i])
  }

  lemma ShapedAddKid(acc: Result<(seq<string>, seq<Value>), Error>, r: Result<Fragment, Error>)
    requires ShapedKids(acc) && (r.Ok? ==> Shaped(r.value.sql))
    ensures ShapedKids(AddKid(acc, r))
  {
  }

  /** The unnumbered children are shaped. */
  lemma {:induction false} RawKidsShaped(f: Filter, n: nat, config: Option<SqlConfig>)
    requires f.kids.Slice? && n <= |f.kids.list|
    requires SqlPlaceholders.TreeFits(f, PostgreSql)
    requires SqlPlaceholders.DynamicNamesClean(config) && OperationsMarked(config)
    ensures ShapedKids(RawKids(f, n, config, PostgreSql))
    decreases f, 0, n
  {
    if n > 0 {
      RawKidsShaped(f, n - 1, config);
      KidSmaller(f, n - 1);
      var kid := f.kids.list[n - 1];
      assert SqlPlaceholders.TreeFits(kid, PostgreSql);
      if Raw(kid, config, PostgreSql).Ok? {
        RawShaped(kid, config);
      }
      ShapedAddKid(RawKids(f, n - 1, config, PostgreSql), Raw(kid, config, PostgreSql));
      RawKidsStep(f, n, config, PostgreSql);
    }
  }

  /** The unnumbered PostgreSQL text of a whole tree is shaped. */
  lemma {:induction false} RawShaped(f: Filter, config: Option<SqlConfig>)
    requires SqlPlaceholders.TreeFits(f, PostgreSql)
    requires SqlPlaceholders.DynamicNamesClean(config) && OperationsMarked(config)
    requires Raw(f, config, PostgreSql).Ok?
    ensures Shaped(Raw(f, config, PostgreSql).value.sql)
    decreases f, 1
  {
    match f.kids
    case Nil =>
      LeafShaped(f, config);
    case Slice(kids) =>
      RawKidsShaped(f, |kids|, config);
      var texts := RawKids(f, |kids|, config, PostgreSql).value.0;
      GlueHasNoPlaceholder(f.glue);
      ShapedJoin(texts, GlueText(f.glue));
      if |kids| > 1 {
        ShapedConcat("( ", Join(texts, GlueText(f.glue)));
        ShapedAppend("( " + Join(texts, GlueText(f.glue)), " )");
      }
  }

  /** Corrected, a PostgreSQL filter that compiles is written as the
      `$`-free pieces of its unnumbered text with `$1`, `$2`, ... between
      them, left to right, one number per value it binds; it binds the
      values of the translation as written. */
  lemma FixedNumbersInOrder(f: Filter, config: Option<SqlConfig>)
    requires SqlPlaceholders.TreeFits(f, PostgreSql) && SqlPlaceholders.OperationsBalanced(config, '$')
    requires SqlPlaceholders.DynamicNamesClean(config) && OperationsMarked(config)
    requires Compile(f, config, PostgreSql).Ok?
    ensures Raw(f, config, PostgreSql).Ok? && Shaped(Raw(f, config, PostgreSql).value.sql)
    ensures var raw := Raw(f, config, PostgreSql).value;
      var pieces := Cut(raw.sql);
      && Join(pieces, Marker) == raw.sql
      && |pieces| == |raw.values| + 1
      && raw.values == Compile(f, config, PostgreSql).value.values
      && CompileFixed(f, config, PostgreSql) == Ok(Fragment(Numbered(pieces, 1), raw.values))
  {
    RawAgrees(f, config, PostgreSql);
    SqlPlaceholders.PlaceholdersMatchValues(f, config, PostgreSql);
    RawShaped(f, config);
    var raw := Raw(f, config, PostgreSql).value;
    CutJoin(raw.sql);
    RenumberShaped(raw.sql);
  }
}
