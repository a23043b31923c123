/**
 * The PostgreSQL dynamic-field rewrite (sql.go:70-94): a field listed
 * among the dynamic fields is read out of the JSONB configuration column,
 * as `key` or `table.key`, and cast to its declared type.
 */
module SqlDynamic {
  import opened Wrappers
  import opened Text
  import opened Condition
  import opened Sql
  import SqlRules

  /** A name without a dot is one piece. */
  lemma SplitWhole(s: string, sep: char)
    requires sep !in s
    ensures Split(s, sep) == [s]
  {
  }

  /** `table.key` with dot-free parts is two pieces. */
  lemma SplitPair(table: string, key: string)
    requires '.' !in table && '.' !in key
    ensures Split(table + "." + key, '.') == [table, key]
  {
    assert table + "." + key == table + ['.'] + key;
    SplitAfter(table, '.', key);
    SplitWhole(key, '.');
  }

  /** A dynamic `key` is read from the configuration column and cast to
      its type; a `date` is read as text and then cast to DATE. */
  lemma DynamicKey(key: string, cfg: string, tp: string)
    requires '.' !in key
    ensures tp != "date" ==> DynamicFieldExpr(key, cfg, tp) == "(" + cfg + "->'" + key + "')::" + tp
    ensures tp == "date" ==> DynamicFieldExpr(key, cfg, tp) == "CAST(" + ("(" + cfg + "->'" + key + "')::" + "text") + " AS DATE)"
  {
    SplitWhole(key, '.');
  }

  /** A dynamic `table.key` is read from the table's configuration column. */
  lemma DynamicTableKey(table: string, key: string, cfg: string, tp: string)
    requires '.' !in table && '.' !in key
    ensures tp != "date" ==>
      DynamicFieldExpr(table + "." + key, cfg, tp) == "(\"" + table + "\"." + cfg + "->'" + key + "')::" + tp
    ensures tp == "date" ==>
      DynamicFieldExpr(table + "." + key, cfg, tp) == "CAST(" + ("(\"" + table + "\"." + cfg + "->'" + key + "')::" + "text") + " AS DATE)"
  {
    SplitPair(table, key);
  }

  /** A name with more than one dot is kept as it is, though the leaf
      still counts as dynamic. */
  lemma DeepFieldKept(a: string, b: string, c: string, cfg: string, tp: string)
    requires '.' !in a && '.' !in b
    ensures DynamicFieldExpr(a + "." + b + "." + c, cfg, tp) == a + "." + b + "." + c
  {
    var s := a + "." + b + "." + c;
    assert s == a + ['.'] + (b + "." + c);
    SplitAfter(a, '.', b + "." + c);
    assert b + "." + c == b + ['.'] + c;
    SplitAfter(b, '.', c);
  }

  /** A `number` field is cast to `numeric`, every other type to itself. */
  lemma NumberIsNumeric(key: string, cfg: string)
    requires '.' !in key
    ensures DynamicFieldExpr(key, cfg, GetJsonbType("number")) == "(" + cfg + "->'" + key + "')::numeric"
  {
    DynamicKey(key, cfg, "numeric");
  }

  /** On PostgreSQL, a whitelisted leaf whose field is dynamic fails when
      no configuration column is named, whatever its rule; other
      databases never rewrite a field. */
  lemma EmptyConfigName(f: Filter, c: SqlConfig, db: DatabaseType)
    requires f.kids.Nil? && Allowed(Some(c), f.field)
    requires FindDynamicField(c.dynamicFields, f.field).Some? && c.dynamicConfigName == ""
    ensures db.PostgreSql? ==> Compile(f, Some(c), db) == Err(EmptyDynamicConfigName)
    ensures !db.PostgreSql? ==> ResolveField(f.field, Some(c), db) == Ok((f.field, false))
  {
  }

  /** On PostgreSQL, a leaf without a configuration fails before its field
      is looked up. */
  lemma MissingConfig(f: Filter)
    requires f.kids.Nil?
    ensures Compile(f, None, PostgreSql) == Err(NilConfig)
  {
  }

  /** A `contains` rule on a resolved PostgreSQL field. */
  lemma ContainsRule(e: string, isDynamic: bool, v: Value, config: Option<SqlConfig>)
    requires !v.Obj?
    ensures RuleSql(e, isDynamic, Condition("contains", v), Marker, config, PostgreSql)
         == Ok(Fragment(ContainsSql(e, isDynamic, PostgreSql, false), [v]))
  {
    SqlRules.ParseRuleName(Contains);
    assert Condition("contains", v).Values() == [v];
  }

  /** A `contains` leaf on a dynamic field matches the field's extraction. */
  lemma DynamicContains(f: Filter, c: SqlConfig, d: DynamicField, v: Value)
    requires f.kids.Nil? && Allowed(Some(c), f.field) && |f.includes| == 0
    requires FindDynamicField(c.dynamicFields, f.field) == Some(d) && c.dynamicConfigName != ""
    requires f.condition == Condition("contains", v) && !v.Obj?
    ensures Compile(f, Some(c), PostgreSql).Ok?
    ensures Compile(f, Some(c), PostgreSql).value.sql
         == DynamicFieldExpr(f.field, c.dynamicConfigName, GetJsonbType(d.fieldType)) + " LIKE '\"%' || " + Marker + " || '%\"'"
    ensures Compile(f, Some(c), PostgreSql).value.values == [v]
  {
    var e := DynamicFieldExpr(f.field, c.dynamicConfigName, GetJsonbType(d.fieldType));
    assert ResolveField(f.field, Some(c), PostgreSql) == Ok((e, true));
    assert SqlRules.ReachesRule(f, Some(c), PostgreSql, e, true, Marker);
    SqlRules.LeafRule(f, Some(c), PostgreSql, e, true, Marker);
    ContainsRule(e, true, v, Some(c));
  }

  /** A `contains` leaf on a dynamic `key` reads the key out of the
      configuration column, casts it, and matches it with the pattern
      quoted for JSON text, binding its one value. */
  lemma DynamicLeaf(f: Filter, c: SqlConfig, d: DynamicField, v: Value)
    requires f.kids.Nil? && Allowed(Some(c), f.field) && |f.includes| == 0 && '.' !in f.field
    requires FindDynamicField(c.dynamicFields, f.field) == Some(d) && c.dynamicConfigName != ""
    requires GetJsonbType(d.fieldType) != "date"
    requires f.condition == Condition("contains", v) && !v.Obj?
    ensures Compile(f, Some(c), PostgreSql)
         == Ok(Fragment("(" + c.dynamicConfigName + "->'" + f.field + "')::" + GetJsonbType(d.fieldType)
                        + " LIKE '\"%' || " + Marker + " || '%\"'", [v]))
  {
    DynamicContains(f, c, d, v);
    DynamicKey(f.field, c.dynamicConfigName, GetJsonbType(d.fieldType));
  }
}
