/**
 * Placeholders and values stay in step: a compiled filter carries exactly
 * one placeholder per bound value (`?` for MySQL, `$` for PostgreSQL, whose
 * markers keep their `$` when numbered), provided field names and
 * configured operations do not themselves contribute placeholder
 * characters and every non-range rule compares against a single value.
 */
module SqlPlaceholders {
  import opened Wrappers
  import opened Text
  import opened Condition
  import opened Sql
  import opened SqlTree
  import SqlRules

  /** The character that makes a placeholder on each known database. */
  function MarkChar(db: DatabaseType): char
  {
    if db.MySql? then '?' else '$'
  }

  /** A leaf whose field holds no placeholder character and whose value,
      for a built-in rule other than the empty and the range rules, is a
      single value rather than an object. */
  predicate LeafFits(f: Filter, db: DatabaseType)
  {
    && MarkChar(db) !in f.field
    && (|f.includes| == 0 && ParseRule(f.condition.rule).Some?
        && ParseRule(f.condition.rule).value !in {Empty, Between, NotBetween}
        ==> !f.condition.value.Obj?)
  }

  /** Every leaf of the tree fits. */
  predicate TreeFits(f: Filter, db: DatabaseType)
    decreases f
  {
    match f.kids
    case Nil => LeafFits(f, db)
    case Slice(kids) => forall i :: 0 <= i < |kids| ==> TreeFits(kids[i], db)
  }

  /** Every configured operation, given a field free of the placeholder
      character `c`, returns one placeholder per value it binds. */
  ghost predicate OperationsBalanced(config: Option<SqlConfig>, c: char)
  {
    config.None? ||
    forall name, field, rule, vs ::
      name in config.value.operations && c !in field && config.value.operations[name](field, rule, vs).Ok? ==>
        Count(c, config.value.operations[name](field, rule, vs).value.sql)
          == |config.value.operations[name](field, rule, vs).value.values|
  }

  /** The configuration column and the declared dynamic-field types hold no `$`. */
  predicate DynamicNamesClean(config: Option<SqlConfig>)
  {
    config.Some? ==>
      '$' !in config.value.dynamicConfigName
      && forall i :: 0 <= i < |config.value.dynamicFields| ==> '$' !in config.value.dynamicFields[i].fieldType
  }

  /** A comparison `field op ph` carries the placeholder alone. */
  lemma CompareCount(c: char, field: string, op: string, ph: string)
    requires c !in field && c !in op && Count(c, ph) == 1
    ensures Count(c, field + op + ph) == 1
  {
    CountThree(c, field, op, ph);
  }

  /** One bound of a range, `field op ph`, appended to `pre`. */
  lemma BoundCount(c: char, pre: string, field: string, op: string, ph: string)
    requires c !in field && c !in op && Count(c, ph) == 1
    ensures Count(c, pre + field + op + ph) == Count(c, pre) + 1
  {
    CountThree(c, pre, field, op);
    CountConcat(c, pre + field + op, ph);
  }

  /** Both bounds of a range carry one placeholder each. */
  lemma BothBoundsCount(c: char, field: string, ph: string, first: string, join: string, second: string)
    requires c == '?' || c == '$'
    requires c !in field && c !in first && c !in join && c !in second && Count(c, ph) == 1
    ensures Count(c, "( " + field + first + ph + join + field + second + ph + " )") == 2
  {
    assert c !in "( " && c !in " )";
    BoundCount(c, "( ", field, first, ph);
    var left := "( " + field + first + ph;
    CountConcat(c, left, join);
    BoundCount(c, left + join, field, second, ph);
    CountConcat(c, left + join + field + second + ph, " )");
  }

  lemma QuestionCount()
    ensures Count('?', "?") == 1
  {
    assert "?"[..0] == [];
  }

  /** A substring test carries one placeholder. */
  lemma MySqlContainsCount(field: string, negated: bool)
    requires '?' !in field
    ensures Count('?', ContainsSql(field, false, MySql, negated)) == 1
  {
    var tail := if negated then ") = 0" else ") > 0";
    assert '?' !in "INSTR(" && '?' !in ", " && '?' !in tail;
    QuestionCount();
    CountThree('?', "INSTR(", field, ", ");
    CountThree('?', "INSTR(" + field + ", ", "?", tail);
  }

  lemma PostgreSqlContainsCount(field: string, isDynamic: bool, negated: bool)
    requires '$' !in field
    ensures Count('$', ContainsSql(field, isDynamic, PostgreSql, negated)) == 1
  {
    var not := if negated then " NOT" else "";
    var before := if isDynamic then " LIKE '\"%' || " else " LIKE '%' || ";
    var after := if isDynamic then " || '%\"'" else " || '%'";
    assert '$' !in not && '$' !in before && '$' !in after;
    MarkerCounts();
    CountThree('$', field, not, before);
    CountThree('$', field + not + before, Marker, after);
  }

  /** The search expression of a prefix test carries one placeholder. */
  lemma BeginsSearchCount(isDynamic: bool, db: DatabaseType)
    requires !db.Unknown?
    ensures Count(MarkChar(db), BeginsSearchSql(isDynamic, db)) == 1
  {
    if db.MySql? {
      assert '?' !in "CONCAT(" && '?' !in ", '%')";
      QuestionCount();
      CountThree('?', "CONCAT(", "?", ", '%')");
    } else {
      var before := if isDynamic then "'\"' || " else "";
      assert '$' !in before && '$' !in " || '%'";
      MarkerCounts();
      CountThree('$', before, Marker, " || '%'");
      assert !isDynamic ==> before + Marker == Marker;
    }
  }

  /** The search expression of a suffix test carries one placeholder. */
  lemma EndsSearchCount(isDynamic: bool, db: DatabaseType, negated: bool)
    requires !db.Unknown?
    ensures Count(MarkChar(db), EndsSearchSql(isDynamic, db, negated)) == 1
  {
    if db.MySql? {
      assert '?' !in "CONCAT('%', " && '?' !in ")";
      QuestionCount();
      CountThree('?', "CONCAT('%', ", "?", ")");
    } else {
      var after := if !isDynamic then "" else if negated then "|| '\"'" else " || '\"'";
      assert '$' !in "'%' || " && '$' !in after;
      MarkerCounts();
      CountThree('$', "'%' || ", Marker, after);
      assert !isDynamic ==> "'%' || " + Marker + after == "'%' || " + Marker;
    }
  }

  /** A comparison writes the placeholder of its one value once. */
  lemma ComparisonCount(op: Builtin, field: string, isDynamic: bool, values: seq<Value>, ph: string, db: DatabaseType)
    requires MarkChar(db) !in field && Count(MarkChar(db), ph) == 1
    requires op in {Equal, NotEqual, LessOrEqual, GreaterOrEqual, Less, Greater}
    ensures Count(MarkChar(db), BuiltinSql(op, field, isDynamic, values, ph, db).value.sql) == 1
  {
    var c := MarkChar(db);
    var sym := match op
      case Equal => " = "
      case NotEqual => " <> "
      case LessOrEqual => " <= "
      case GreaterOrEqual => " >= "
      case Less => " < "
      case _ => " > ";
    assert BuiltinSql(op, field, isDynamic, values, ph, db).value.sql == field + sym + ph;
    CompareCount(c, field, sym, ph);
  }

  /** A substring, prefix or suffix test writes the placeholder of its one
      value once. */
  lemma PatternCount(op: Builtin, field: string, isDynamic: bool, values: seq<Value>, ph: string, db: DatabaseType)
    requires !db.Unknown? && MarkChar(db) !in field
    requires db.MySql? ==> !isDynamic
    requires op in {Contains, NotContains, BeginsWith, NotBeginsWith, EndsWith, NotEndsWith}
    ensures Count(MarkChar(db), BuiltinSql(op, field, isDynamic, values, ph, db).value.sql) == 1
  {
    var c := MarkChar(db);
    assert c !in " LIKE " && c !in " NOT LIKE ";
    match op
    case Contains =>
      if db.MySql? { MySqlContainsCount(field, false); } else { PostgreSqlContainsCount(field, isDynamic, false); }
    case NotContains =>
      if db.MySql? { MySqlContainsCount(field, true); } else { PostgreSqlContainsCount(field, isDynamic, true); }
    case BeginsWith =>
      BeginsSearchCount(isDynamic, db);
      CountThree(c, field, " LIKE ", BeginsSearchSql(isDynamic, db));
    case NotBeginsWith =>
      BeginsSearchCount(isDynamic, db);
      CountThree(c, field, " NOT LIKE ", BeginsSearchSql(isDynamic, db));
    case EndsWith =>
      EndsSearchCount(isDynamic, db, false);
      CountThree(c, field, " LIKE ", EndsSearchSql(isDynamic, db, false));
    case NotEndsWith =>
      EndsSearchCount(isDynamic, db, true);
      CountThree(c, field, " NOT LIKE ", EndsSearchSql(isDynamic, db, true));
  }

  /** A range rule writes one placeholder per bound it keeps. */
  lemma RangeCount(op: Builtin, field: string, values: seq<Value>, ph: string, c: char)
    requires op == Between || op == NotBetween
    requires c == '?' || c == '$'
    requires c !in field && Count(c, ph) == 1
    requires BuiltinSql(op, field, false, values, ph, MySql).Ok?
    ensures Count(c, BuiltinSql(op, field, false, values, ph, MySql).value.sql)
         == |BuiltinSql(op, field, false, values, ph, MySql).value.values|
  {
    assert c !in " > " && c !in " < " && c !in " AND " && c !in " OR ";
    if values[0] == Null || values[1] == Null {
      CompareCount(c, field, " > ", ph);
      CompareCount(c, field, " < ", ph);
    } else if op == Between {
      BothBoundsCount(c, field, ph, " > ", " AND ", " < ");
    } else {
      BothBoundsCount(c, field, ph, " < ", " OR ", " > ");
    }
  }

  /** A built-in rule writes one placeholder per value it binds. */
  lemma BuiltinCount(op: Builtin, field: string, isDynamic: bool, values: seq<Value>, ph: string, db: DatabaseType)
    requires !db.Unknown? && MarkChar(db) !in field && Count(MarkChar(db), ph) == 1
    requires db.MySql? ==> !isDynamic
    requires op !in {Empty, Between, NotBetween} ==> |values| == 1
    requires BuiltinSql(op, field, isDynamic, values, ph, db).Ok?
    ensures Count(MarkChar(db), BuiltinSql(op, field, isDynamic, values, ph, db).value.sql)
         == |BuiltinSql(op, field, isDynamic, values, ph, db).value.values|
  {
    if op == Empty {
    } else if op == Between || op == NotBetween {
      assert BuiltinSql(op, field, isDynamic, values, ph, db) == BuiltinSql(op, field, false, values, ph, MySql);
      RangeCount(op, field, values, ph, MarkChar(db));
    } else if op in {Equal, NotEqual, LessOrEqual, GreaterOrEqual, Less, Greater} {
      ComparisonCount(op, field, isDynamic, values, ph, db);
    } else {
      PatternCount(op, field, isDynamic, values, ph, db);
    }
  }

  lemma {:induction false} CountAllZero(c: char, parts: seq<string>)
    requires CountAll(c, parts) == 0
    ensures forall i :: 0 <= i < |parts| ==> c !in parts[i]
    decreases |parts|
  {
    if parts != [] {
      CountAllZero(c, parts[..|parts| - 1]);
      assert forall i :: 0 <= i < |parts| - 1 ==> parts[i] == parts[..|parts| - 1][i];
    }
  }

  /** The rewritten name of a dynamic field holds no `$` when its pieces hold none. */
  lemma DynamicFieldClean(field: string, cfg: string, tp: string)
    requires '$' !in field && '$' !in cfg && '$' !in tp
    ensures '$' !in DynamicFieldExpr(field, cfg, tp)
  {
    var parts := Split(field, '.');
    CountJoin('$', parts, ".");
    CountAllZero('$', parts);
    if |parts| <= 2 {
      ExtractionClean(parts, cfg, if tp == "date" then "text" else tp);
    }
  }

  lemma ExtractionClean(parts: seq<string>, cfg: string, tp: string)
    requires 1 <= |parts| <= 2 && forall i :: 0 <= i < |parts| ==> '$' !in parts[i]
    requires '$' !in cfg && '$' !in tp
    ensures '$' !in DynamicExtraction(parts, cfg, tp)
  {
    assert '$' !in parts[0];
    if |parts| == 2 {
      assert '$' !in parts[1];
    }
  }

  /** A resolved field holds no placeholder character. */
  lemma ResolvedClean(f: Filter, config: Option<SqlConfig>, db: DatabaseType)
    requires !db.Unknown? && MarkChar(db) !in f.field
    requires db.PostgreSql? ==> DynamicNamesClean(config)
    requires ResolveField(f.field, config, db).Ok?
    ensures MarkChar(db) !in ResolveField(f.field, config, db).value.0
    ensures db.MySql? ==> !ResolveField(f.field, config, db).value.1
  {
    if db.PostgreSql? {
      var d := FindDynamicField(config.value.dynamicFields, f.field);
      if d.Some? {
        var i :| 0 <= i < |config.value.dynamicFields| && config.value.dynamicFields[i] == d.value
                 && forall j :: 0 <= j < i ==> config.value.dynamicFields[j].key != f.field;
        DynamicFieldClean(f.field, config.value.dynamicConfigName, GetJsonbType(d.value.fieldType));
      }
    }
  }

  /** A leaf that compiles binds one value per placeholder. */
  lemma LeafBalanced(f: Filter, config: Option<SqlConfig>, db: DatabaseType)
    requires !db.Unknown? && f.kids.Nil? && LeafFits(f, db) && OperationsBalanced(config, MarkChar(db))
    requires db.PostgreSql? ==> DynamicNamesClean(config)
    requires Compile(f, config, db).Ok?
    ensures Count(MarkChar(db), Compile(f, config, db).value.sql) == |Compile(f, config, db).value.values|
  {
    var c := MarkChar(db);
    var ph := GetPlaceholder(db).value;
    if db.PostgreSql? { MarkerCounts(); }
    assert Count(c, ph) == 1;
    ResolvedClean(f, config, db);
    var resolved := ResolveField(f.field, config, db).value;
    if |f.includes| > 0 {
      SqlRules.InSqlPlaceholders(c, resolved.0, f.includes, ph);
    } else {
      match ParseRule(f.condition.rule)
      case Some(op) =>
        BuiltinCount(op, resolved.0, resolved.1, f.condition.Values(), ph, db);
      case None =>
    }
  }

  /** A result that, when it succeeds, holds one placeholder character
      `c` per bound value. */
  predicate Balanced(c: char, r: Result<Fragment, Error>)
  {
    r.Ok? ==> Count(c, r.value.sql) == |r.value.values|
  }

  /** Appending one balanced text and its values keeps a list of texts
      balanced against its values. */
  lemma CountSnoc(c: char, texts: seq<string>, values: seq<Value>, sql: string, more: seq<Value>)
    requires CountAll(c, texts) == |values| && Count(c, sql) == |more|
    ensures CountAll(c, texts + [sql]) == |values + more|
  {
    assert (texts + [sql])[..|texts|] == texts;
  }

  /** Children compiled so far that, when they succeed, hold one
      placeholder character `c` per collected value. */
  predicate BalancedKids(c: char, acc: Result<(seq<string>, seq<Value>), Error>)
  {
    acc.Ok? ==> CountAll(c, acc.value.0) == |acc.value.1|
  }

  /** A balanced child keeps the children balanced. */
  lemma BalancedAddKid(c: char, acc: Result<(seq<string>, seq<Value>), Error>, r: Result<Fragment, Error>)
    requires BalancedKids(c, acc) && Balanced(c, r)
    ensures BalancedKids(c, AddKid(acc, r))
  {
    if acc.Ok? && r.Ok? {
      CountSnoc(c, acc.value.0, acc.value.1, r.value.sql, r.value.values);
    }
  }

  /** The children compiled so far carry one placeholder per value. */
  lemma {:induction false} KidsBalanced(f: Filter, n: nat, config: Option<SqlConfig>, db: DatabaseType)
    requires !db.Unknown? && f.kids.Slice? && n <= |f.kids.list|
    requires TreeFits(f, db) && OperationsBalanced(config, MarkChar(db))
    requires db.PostgreSql? ==> DynamicNamesClean(config)
    ensures BalancedKids(MarkChar(db), CompileKids(f, n, config, db))
    decreases f, 0, n
  {
    if n > 0 {
      var c := MarkChar(db);
      KidsBalanced(f, n - 1, config, db);
      KidSmaller(f, n - 1);
      var kid := f.kids.list[n - 1];
      assert TreeFits(kid, db);
      if Compile(kid, config, db).Ok? {
        PlaceholdersMatchValues(kid, config, db);
      }
      BalancedAddKid(c, CompileKids(f, n - 1, config, db), Compile(kid, config, db));
      CompileKidsStep(f, n, config, db);
    }
  }

  /** Joining, parenthesising and numbering keep the count of placeholder
      characters. */
  lemma FinishCount(sqls: seq<string>, glue: string, n: nat, db: DatabaseType)
    requires !db.Unknown?
    ensures Count(MarkChar(db), Finish(Enclose(Join(sqls, GlueText(glue)), n), db)) == CountAll(MarkChar(db), sqls)
  {
    var c := MarkChar(db);
    var joined := Join(sqls, GlueText(glue));
    GlueHasNoPlaceholder(glue);
    CountJoin(c, sqls, GlueText(glue));
    if n > 1 {
      assert c !in "( " && c !in " )";
      CountThree(c, "( ", joined, " )");
    }
  }

  /** The whole tree: a filter that compiles binds exactly one value per
      placeholder. */
  lemma {:induction false} PlaceholdersMatchValues(f: Filter, config: Option<SqlConfig>, db: DatabaseType)
    requires !db.Unknown? && TreeFits(f, db) && OperationsBalanced(config, MarkChar(db))
    requires db.PostgreSql? ==> DynamicNamesClean(config)
    requires Compile(f, config, db).Ok?
    ensures Count(MarkChar(db), Compile(f, config, db).value.sql) == |Compile(f, config, db).value.values|
    decreases f, 1
  {
    match f.kids
    case Nil =>
      LeafBalanced(f, config, db);
    case Slice(kids) =>
      KidsBalanced(f, |kids|, config, db);
      var acc := CompileKids(f, |kids|, config, db).value;
      FinishCount(acc.0, f.glue, |kids|, db);
  }
}
