/**
 * What a single leaf compiles to (sql.go:60-221): the whitelist gate, the
 * `includes` list that overrides the rule, the empty rule, the range rules
 * and their degenerate forms, and the fallback to configured operations.
 */
module SqlRules {
  import opened Wrappers
  import opened Text
  import opened Condition
  import opened Sql

  /** Every built-in rule is found again from its name. */
  lemma ParseRuleName(b: Builtin)
    ensures ParseRule(RuleName(b)) == Some(b)
  {
    match b
    case Empty =>
    case Equal =>
    case NotEqual =>
    case Contains =>
    case NotContains =>
    case LessOrEqual =>
    case GreaterOrEqual =>
    case Less =>
    case NotBetween =>
    case Between =>
    case Greater =>
    case BeginsWith =>
    case NotBeginsWith =>
    case EndsWith =>
    case NotEndsWith =>
  }

  /** A built-in rule fails only on a range with the wrong number of
      bounds. */
  lemma BuiltinFailsOnCount(op: Builtin, field: string, isDynamic: bool, values: seq<Value>, ph: string, db: DatabaseType)
    ensures BuiltinSql(op, field, isDynamic, values, ph, db).Err? ==>
      BuiltinSql(op, field, isDynamic, values, ph, db).error.WrongParameterCount?
  {
  }

  /** A leaf fails with the whitelist error exactly when its field is not
      admitted, whatever its rule and whatever the database. */
  lemma WhitelistGate(f: Filter, config: Option<SqlConfig>, db: DatabaseType)
    requires f.kids.Nil?
    ensures Compile(f, config, db) == Err(NotInWhitelist(f.field)) <==> !Allowed(config, f.field)
  {
    assert Compile(f, config, db) == CompileLeaf(f, config, db);
    if Allowed(config, f.field) && !db.Unknown? {
      var ph := GetPlaceholder(db).value;
      var res := ResolveField(f.field, config, db);
      if res.Ok? && |f.includes| == 0 {
        var cond := f.condition;
        assert CompileLeaf(f, config, db) == RuleSql(res.value.0, res.value.1, cond, ph, config, db);
        match ParseRule(cond.rule)
        case Some(op) =>
          BuiltinFailsOnCount(op, res.value.0, res.value.1, cond.Values(), ph, db);
        case None =>
      }
    }
  }

  /** The leaf reaches its rule: it passes the whitelist, the database is
      known, its field is resolved to `field`, and it has no `includes`. */
  predicate ReachesRule(f: Filter, config: Option<SqlConfig>, db: DatabaseType, field: string, isDynamic: bool, ph: string)
  {
    f.kids.Nil? && Allowed(config, f.field) && GetPlaceholder(db) == Ok(ph)
    && ResolveField(f.field, config, db) == Ok((field, isDynamic)) && |f.includes| == 0
  }

  /** A non-empty `includes` list decides the leaf: its condition, built-in
      or custom, known or not, is never looked at. */
  lemma IncludesOverrideRule(f: Filter, config: Option<SqlConfig>, db: DatabaseType, other: Condition)
    requires f.kids.Nil? && |f.includes| > 0
    ensures Compile(f, config, db) == Compile(f.(condition := other), config, db)
    ensures Compile(f, config, db).Ok? ==> Compile(f, config, db).value.values == f.includes
  {
  }

  /** Each value of an `includes` list gets one placeholder in the `IN`
      list, and nothing else in the text adds one. */
  lemma InSqlPlaceholders(c: char, field: string, data: seq<Value>, ph: string)
    requires c != ' ' && c != 'I' && c != 'N' && c != '(' && c != ',' && c != ')'
    ensures Count(c, InSqlText(field, data, ph)) == Count(c, field) + |data| * Count(c, ph)
  {
    var marks := Repeat(ph, |data|);
    CountJoin(c, marks, ",");
    CountRepeat(c, ph, |data|);
    assert c !in " IN(" && c !in ")";
    CountConcat(c, field, " IN(");
    CountConcat(c, field + " IN(", Join(marks, ","));
    CountConcat(c, field + " IN(" + Join(marks, ","), ")");
    assert Count(c, " IN(") == 0 && Count(c, ")") == 0;
  }

  lemma {:induction false} CountRepeat(c: char, ph: string, n: nat)
    ensures CountAll(c, Repeat(ph, n)) == n * Count(c, ph)
    decreases n
  {
    if n > 0 {
      var k := Count(c, ph);
      CountRepeat(c, ph, n - 1);
      var marks := Repeat(ph, n);
      assert marks[..n - 1] == Repeat(ph, n - 1) && marks[n - 1] == ph;
      assert CountAll(c, marks) == (n - 1) * k + k;
      MulStep(n, k);
    }
  }

  lemma MulStep(n: int, k: int)
    ensures (n - 1) * k + k == n * k
  {
  }

  /** The empty rule compiles to no text and no values. */
  lemma EmptyRule(f: Filter, config: Option<SqlConfig>, db: DatabaseType, field: string, isDynamic: bool, ph: string)
    requires ReachesRule(f, config, db, field, isDynamic, ph) && f.condition.rule == ""
    ensures Compile(f, config, db) == Ok(Fragment("", []))
  {
  }

  /** The empty filter `{}` compiles to no text and no values. */
  lemma EmptyFilter()
    ensures Compile(Filter("", "", Condition("", Null), [], Nil), None, MySql) == Ok(Fragment("", []))
  {
  }

  /** `between`: both bounds give a conjunction; a missing lower bound
      leaves `field < ?` on the upper one, a missing upper bound leaves
      `field > ?` on the lower one. */
  lemma BetweenBounds(field: string, isDynamic: bool, start: Value, end: Value, ph: string, config: Option<SqlConfig>, db: DatabaseType)
    ensures var r := RuleSql(field, isDynamic, Condition("between", Obj(start, end)), ph, config, db);
      && (start == Null ==> r == Ok(Fragment(field + " < " + ph, [end])))
      && (start != Null && end == Null ==> r == Ok(Fragment(field + " > " + ph, [start])))
      && (start != Null && end != Null ==>
            r == Ok(Fragment("( " + field + " > " + ph + " AND " + field + " < " + ph + " )", [start, end])))
  {
    ParseRuleName(Between);
    assert [start, end][1..] == [end] && [start, end][..1] == [start];
  }

  /** `notBetween` flips every comparison of `between`: a missing lower
      bound leaves `field > ?`, a missing upper bound `field < ?`, and both
      bounds give a disjunction. */
  lemma NotBetweenBounds(field: string, isDynamic: bool, start: Value, end: Value, ph: string, config: Option<SqlConfig>, db: DatabaseType)
    ensures var r := RuleSql(field, isDynamic, Condition("notBetween", Obj(start, end)), ph, config, db);
      && (start == Null ==> r == Ok(Fragment(field + " > " + ph, [end])))
      && (start != Null && end == Null ==> r == Ok(Fragment(field + " < " + ph, [start])))
      && (start != Null && end != Null ==>
            r == Ok(Fragment("( " + field + " < " + ph + " OR " + field + " > " + ph + " )", [start, end])))
  {
    ParseRuleName(NotBetween);
    assert [start, end][1..] == [end] && [start, end][..1] == [start];
  }

  /** A range rule needs an object value: any other value is refused with a
      count of one, and the error names `notBetween` for both rules. */
  lemma RangeNeedsObject(field: string, isDynamic: bool, rule: string, v: Value, ph: string, config: Option<SqlConfig>, db: DatabaseType)
    requires rule == "between" || rule == "notBetween"
    requires !v.Obj?
    ensures RuleSql(field, isDynamic, Condition(rule, v), ph, config, db) == Err(WrongParameterCount("notBetween", 1))
  {
    ParseRuleName(Between);
    ParseRuleName(NotBetween);
  }

  /** A built-in rule never consults the configured operations, even one
      registered under the same name. */
  lemma BuiltinShadowsOperations(b: Builtin, field: string, isDynamic: bool, v: Value, ph: string,
                                 config: Option<SqlConfig>, other: Option<SqlConfig>, db: DatabaseType)
    ensures RuleSql(field, isDynamic, Condition(RuleName(b), v), ph, config, db)
         == RuleSql(field, isDynamic, Condition(RuleName(b), v), ph, other, db)
  {
    ParseRuleName(b);
  }

  /** Any other rule runs the configured operation of that name on the
      field, the rule name and the condition's values, and passes on its
      fragment or its failure. */
  lemma CustomOperationRuns(field: string, isDynamic: bool, cond: Condition, ph: string, config: Option<SqlConfig>, db: DatabaseType)
    requires forall b :: RuleName(b) != cond.rule
    requires config.Some? && cond.rule in config.value.operations
    ensures var out := config.value.operations[cond.rule](field, cond.rule, GetValues(cond.value));
      RuleSql(field, isDynamic, cond, ph, config, db) == if out.Ok? then Ok(out.value) else Err(OperationFailed(out.error))
  {
  }

  /** A rule that is neither built in nor configured is an unknown operation. */
  lemma UnknownRuleFails(field: string, isDynamic: bool, cond: Condition, ph: string, config: Option<SqlConfig>, db: DatabaseType)
    requires forall b :: RuleName(b) != cond.rule
    requires config.None? || cond.rule !in config.value.operations
    ensures RuleSql(field, isDynamic, cond, ph, config, db) == Err(UnknownOperation(cond.rule))
  {
  }

  /** Once the leaf reaches its rule, the rule alone decides the outcome. */
  lemma LeafRule(f: Filter, config: Option<SqlConfig>, db: DatabaseType, field: string, isDynamic: bool, ph: string)
    requires ReachesRule(f, config, db, field, isDynamic, ph)
    ensures Compile(f, config, db) == RuleSql(field, isDynamic, f.condition, ph, config, db)
  {
  }
}
