/**
 * The filter compiler (sql.go): a filter tree of leaf conditions joined by
 * AND/OR becomes one SQL WHERE fragment plus the ordered list of values to
 * bind to its placeholders, for MySQL (`?`) or PostgreSQL (`$1`, `$2`, ...).
 *
 * `Compile` is the specification of the whole translation; `GetSql` is the
 * step-by-step procedure of the source (its loops over the children, over
 * the dynamic-field list, over the `IN` placeholders and over the
 * PostgreSQL markers) proved to compute exactly `Compile`.
 */
module Sql {
  import opened Wrappers
  import opened Text
  import opened Condition
  import PostgreSql

  /** The target database. The source keeps it in a package-level variable
      of integer type; `Unknown` stands for every value other than the two
      it names. */
  datatype DatabaseType = MySql | PostgreSql | Unknown

  /** The failures `GetSql` reports. `NilConfig` is the nil-pointer panic of
      a PostgreSQL leaf compiled without a configuration; it ends the whole
      translation, as every other failure does. */
  datatype Error =
    | NotInWhitelist(field: string)
    | UnknownDatabase
    | NilConfig
    | EmptyDynamicConfigName
    | WrongParameterCount(operation: string, count: nat)
    | UnknownOperation(rule: string)
    | OperationFailed(message: string)

  /** A compiled fragment: the SQL text and the values for its placeholders. */
  datatype Fragment = Fragment(sql: string, values: seq<Value>)

  /** A user-supplied operation: given the field, the rule name and the
      condition's values, it yields a fragment or an error message. */
  type CustomOperation = (string, string, seq<Value>) -> Result<Fragment, string>

  /** A field whose values live in a JSONB configuration column. */
  datatype DynamicField = DynamicField(key: string, fieldType: string)

  /** The optional configuration. A `None` whitelist is Go's nil map (every
      field allowed); an absent operation name is looked up as missing. */
  datatype SqlConfig = SqlConfig(
    whitelist: Option<map<string, bool>>,
    operations: map<string, CustomOperation>,
    dynamicFields: seq<DynamicField>,
    dynamicConfigName: string)

  /** A node of the filter tree. `kids == Nil` (Go's nil slice) makes it a
      leaf; `Slice(ks)`, even with `ks` empty, makes it a composite. */
  datatype Filter = Filter(
    glue: string,
    field: string,
    condition: Condition,
    includes: seq<Value>,
    kids: Kids)

  /** A Go slice of children, which may be nil. */
  datatype Kids = Nil | Slice(list: seq<Filter>)

  /** The built-in rules a leaf's condition may name. */
  datatype Builtin =
    | Empty | Equal | NotEqual | Contains | NotContains
    | LessOrEqual | GreaterOrEqual | Less | NotBetween | Between | Greater
    | BeginsWith | NotBeginsWith | EndsWith | NotEndsWith

  /** The rule name under which a built-in rule is written in a filter. */
  function RuleName(b: Builtin): string
  {
    match b
    case Empty => ""
    case Equal => "equal"
    case NotEqual => "notEqual"
    case Contains => "contains"
    case NotContains => "notContains"
    case LessOrEqual => "lessOrEqual"
    case GreaterOrEqual => "greaterOrEqual"
    case Less => "less"
    case NotBetween => "notBetween"
    case Between => "between"
    case Greater => "greater"
    case BeginsWith => "beginsWith"
    case NotBeginsWith => "notBeginsWith"
    case EndsWith => "endsWith"
    case NotEndsWith => "notEndsWith"
  }

  /** The built-in rule a rule name selects, if any (sql.go:101-211). */
  function ParseRule(rule: string): (r: Option<Builtin>)
    ensures r.Some? ==> RuleName(r.value) == rule
    ensures r.None? ==> forall b :: RuleName(b) != rule
  {
    if rule == "" then Some(Empty)
    else if rule == "equal" then Some(Equal)
    else if rule == "notEqual" then Some(NotEqual)
    else if rule == "contains" then Some(Contains)
    else if rule == "notContains" then Some(NotContains)
    else if rule == "lessOrEqual" then Some(LessOrEqual)
    else if rule == "greaterOrEqual" then Some(GreaterOrEqual)
    else if rule == "less" then Some(Less)
    else if rule == "notBetween" then Some(NotBetween)
    else if rule == "between" then Some(Between)
    else if rule == "greater" then Some(Greater)
    else if rule == "beginsWith" then Some(BeginsWith)
    else if rule == "notBeginsWith" then Some(NotBeginsWith)
    else if rule == "endsWith" then Some(EndsWith)
    else if rule == "notEndsWith" then Some(NotEndsWith)
    else None
  }

  /** The placeholder each leaf writes: `?` for MySQL and the marker ` $ `
      for PostgreSQL, which a composite later numbers. */
  function GetPlaceholder(db: DatabaseType): (r: Result<string, Error>)
    ensures db.MySql? ==> r == Ok("?")
    ensures db.PostgreSql? ==> r == Ok(Marker)
    ensures db.Unknown? ==> r == Err(UnknownDatabase)
  {
    match db
    case MySql => Ok("?")
    case PostgreSql => Ok(Marker)
    case Unknown => Err(UnknownDatabase)
  }

  /** The unnumbered PostgreSQL placeholder. */
  const Marker := " $ "

  /** The whitelist admits `field`: there is no configuration, no
      whitelist, or the whitelist maps `field` to true (a missing entry
      reads as false). */
  predicate Allowed(config: Option<SqlConfig>, field: string)
  {
    config.None? || config.value.whitelist.None?
    || (field in config.value.whitelist.value && config.value.whitelist.value[field])
  }

  /** The first dynamic field whose key is `key` (sql.go:270-277). */
  function FindDynamicField(fields: seq<DynamicField>, key: string): (r: Option<DynamicField>)
    ensures r.None? <==> forall i :: 0 <= i < |fields| ==> fields[i].key != key
    ensures r.Some? ==> exists i :: 0 <= i < |fields| && fields[i] == r.value
                          && forall j :: 0 <= j < i ==> fields[j].key != key
    ensures r.Some? ==> r.value.key == key
  {
    if fields == [] then None
    else if fields[0].key == key then Some(fields[0])
    else
      var r := FindDynamicField(fields[1..], key);
      if r.Some? then
        var i :| 0 <= i < |fields[1..]| && fields[1..][i] == r.value
                 && forall j :: 0 <= j < i ==> fields[1..][j].key != key;
        assert fields[i + 1] == r.value;
        r
      else r
  }

  /** Go's `getDynamicField`: a linear search of the dynamic-field list. */
  method GetDynamicField(fields: seq<DynamicField>, key: string) returns (r: Option<DynamicField>)
    ensures r == FindDynamicField(fields, key)
  {
    var i := 0;
    while i < |fields|
      invariant 0 <= i <= |fields|
      invariant FindDynamicField(fields, key) == FindDynamicField(fields[i..], key)
    {
      if fields[i].key == key {
        return Some(fields[i]);
      }
      assert fields[i..][1..] == fields[i + 1..];
      i := i + 1;
    }
    return None;
  }

  /** The JSONB cast type for a declared field type (sql.go:279-286):
      `number` becomes `numeric`, every other name is kept. */
  function GetJsonbType(t: string): (r: string)
    ensures t == "number" ==> r == "numeric"
    ensures t != "number" ==> r == t
  {
    if t == "number" then "numeric" else t
  }

  /** The JSONB extraction of a `key` or `table.key` field from the
      configuration column `cfg`, cast to `tp` (sql.go:81-89). */
  function DynamicExtraction(parts: seq<string>, cfg: string, tp: string): string
    requires 1 <= |parts| <= 2
  {
    if |parts| == 1 then "(" + cfg + "->'" + parts[0] + "')::" + tp
    else "(\"" + parts[0] + "\"." + cfg + "->'" + parts[1] + "')::" + tp
  }

  /** The rewritten name of a dynamic field (sql.go:77-91): a `date` is
      read as text and then cast to DATE; a name with more than one dot is
      kept as it is. */
  function DynamicFieldExpr(field: string, cfg: string, tp: string): string
  {
    var parts := Split(field, '.');
    if |parts| > 2 then field
    else if tp == "date" then "CAST(" + DynamicExtraction(parts, cfg, "text") + " AS DATE)"
    else DynamicExtraction(parts, cfg, tp)
  }

  /** The field name a leaf compiles, and whether it was rewritten as a
      dynamic field (sql.go:70-94). Only PostgreSQL rewrites, and it needs
      the configuration to look the field up. */
  function ResolveField(field: string, config: Option<SqlConfig>, db: DatabaseType): Result<(string, bool), Error>
  {
    if !db.PostgreSql? then Ok((field, false))
    else if config.None? then Err(NilConfig)
    else match FindDynamicField(config.value.dynamicFields, field)
      case None => Ok((field, false))
      case Some(d) =>
        if config.value.dynamicConfigName == "" then Err(EmptyDynamicConfigName)
        else Ok((DynamicFieldExpr(field, config.value.dynamicConfigName, GetJsonbType(d.fieldType)), true))
  }

  /** `n` copies of the placeholder. */
  function Repeat(ph: string, n: nat): (r: seq<string>)
    ensures |r| == n && forall i :: 0 <= i < n ==> r[i] == ph
  {
    if n == 0 then [] else Repeat(ph, n - 1) + [ph]
  }

  /** The `IN` test of a leaf with an `includes` list (sql.go:49-57): one
      placeholder per value, comma-separated; the values are bound as given. */
  function InSqlText(field: string, data: seq<Value>, ph: string): string
  {
    field + " IN(" + Join(Repeat(ph, |data|), ",") + ")"
  }

  /** Go's `inSQL`: fills a buffer of placeholders and joins it. */
  method InSql(field: string, data: seq<Value>, ph: string) returns (r: Fragment)
    ensures r == Fragment(InSqlText(field, data, ph), data)
  {
    var marks := new string[|data|];
    var i := 0;
    while i < marks.Length
      invariant 0 <= i <= marks.Length
      invariant marks[..i] == Repeat(ph, i)
    {
      marks[i] := ph;
      assert marks[..i + 1] == marks[..i] + [ph];
      i := i + 1;
    }
    assert marks[..] == marks[..marks.Length];
    r := Fragment(field + " IN(" + Join(marks[..], ",") + ")", data);
  }

  /** The text of a substring test (sql.go:108-127). Each PostgreSQL text
      below carries the marker ` $ ` that the renumbering replaces. */
  function ContainsSql(field: string, isDynamic: bool, db: DatabaseType, negated: bool): string
  {
    if db.MySql? then "INSTR(" + field + ", " + "?" + (if negated then ") = 0" else ") > 0")
    else if isDynamic then field + (if negated then " NOT" else "") + " LIKE '\"%' || " + Marker + " || '%\"'"
    else field + (if negated then " NOT" else "") + " LIKE '%' || " + Marker + " || '%'"
  }

  /** The search expression of a prefix test (sql.go:161-171, 174-184). */
  function BeginsSearchSql(isDynamic: bool, db: DatabaseType): string
  {
    if db.MySql? then "CONCAT(" + "?" + ", '%')"
    else if isDynamic then "'\"' || " + Marker + " || '%'"
    else Marker + " || '%'"
  }

  /** The search expression of a suffix test (sql.go:187-197, 200-210); the
      negated JSON form has one space fewer after the marker. */
  function EndsSearchSql(isDynamic: bool, db: DatabaseType, negated: bool): string
  {
    if db.MySql? then "CONCAT('%', " + "?" + ")"
    else if isDynamic then "'%' || " + Marker + (if negated then "|| '\"'" else " || '\"'")
    else "'%' || " + Marker
  }

  /** A range test (sql.go:134-157). A value that is not an object has one
      entry and is refused. A missing lower bound compiles the upper bound
      alone (`noStart`), a missing upper bound the lower bound alone
      (`noEnd`); both present give `both`. */
  function RangeSql(field: string, ph: string, values: seq<Value>, noStart: string, noEnd: string, both: string): Result<Fragment, Error>
  {
    if |values| != 2 then Err(WrongParameterCount("notBetween", |values|))
    else if values[0] == Null then Ok(Fragment(field + noStart + ph, values[1..]))
    else if values[1] == Null then Ok(Fragment(field + noEnd + ph, values[..1]))
    else Ok(Fragment(both, values))
  }

  /** A leaf with a built-in rule (sql.go:100-211). */
  function BuiltinSql(op: Builtin, field: string, isDynamic: bool, values: seq<Value>, ph: string, db: DatabaseType): Result<Fragment, Error>
  {
    match op
    case Empty => Ok(Fragment("", []))
    case Equal => Ok(Fragment(field + " = " + ph, values))
    case NotEqual => Ok(Fragment(field + " <> " + ph, values))
    case Contains => Ok(Fragment(ContainsSql(field, isDynamic, db, false), values))
    case NotContains => Ok(Fragment(ContainsSql(field, isDynamic, db, true), values))
    case LessOrEqual => Ok(Fragment(field + " <= " + ph, values))
    case GreaterOrEqual => Ok(Fragment(field + " >= " + ph, values))
    case Less => Ok(Fragment(field + " < " + ph, values))
    case NotBetween =>
      RangeSql(field, ph, values, " > ", " < ", "( " + field + " < " + ph + " OR " + field + " > " + ph + " )")
    case Between =>
      RangeSql(field, ph, values, " < ", " > ", "( " + field + " > " + ph + " AND " + field + " < " + ph + " )")
    case Greater => Ok(Fragment(field + " > " + ph, values))
    case BeginsWith => Ok(Fragment(field + " LIKE " + BeginsSearchSql(isDynamic, db), values))
    case NotBeginsWith => Ok(Fragment(field + " NOT LIKE " + BeginsSearchSql(isDynamic, db), values))
    case EndsWith => Ok(Fragment(field + " LIKE " + EndsSearchSql(isDynamic, db, false), values))
    case NotEndsWith => Ok(Fragment(field + " NOT LIKE " + EndsSearchSql(isDynamic, db, true), values))
  }

  /** A rule that is not built in (sql.go:214-221): the configured
      operation of that name, or the unknown-operation error. */
  function CustomSql(field: string, cond: Condition, config: Option<SqlConfig>): Result<Fragment, Error>
  {
    if config.Some? && cond.rule in config.value.operations then
      match config.value.operations[cond.rule](field, cond.rule, cond.Values())
      case Ok(frag) => Ok(frag)
      case Err(message) => Err(OperationFailed(message))
    else Err(UnknownOperation(cond.rule))
  }

  /** The rule part of a leaf, once its field is resolved. */
  function RuleSql(field: string, isDynamic: bool, cond: Condition, ph: string, config: Option<SqlConfig>, db: DatabaseType): Result<Fragment, Error>
  {
    match ParseRule(cond.rule)
    case Some(op) => BuiltinSql(op, field, isDynamic, cond.Values(), ph, db)
    case None => CustomSql(field, cond, config)
  }

  /** A leaf (sql.go:60-221): the whitelist is checked first, then the
      database, then the dynamic-field rewrite; a non-empty `includes`
      list wins over the rule. */
  function CompileLeaf(f: Filter, config: Option<SqlConfig>, db: DatabaseType): Result<Fragment, Error>
  {
    if !Allowed(config, f.field) then Err(NotInWhitelist(f.field))
    else match GetPlaceholder(db)
      case Err(e) => Err(e)
      case Ok(ph) =>
        match ResolveField(f.field, config, db)
        case Err(e) => Err(e)
        case Ok(resolved) =>
          if |f.includes| > 0 then Ok(Fragment(InSqlText(resolved.0, f.includes, ph), f.includes))
          else RuleSql(resolved.0, resolved.1, f.condition, ph, config, db)
  }

  /** The text between two children: exactly `"or"` selects OR, any other
      glue AND. */
  function GlueText(glue: string): string
  {
    if glue == "or" then " OR " else " AND "
  }

  /** The glue holds neither placeholder character. */
  lemma GlueHasNoPlaceholder(glue: string)
    ensures '$' !in GlueText(glue) && '?' !in GlueText(glue)
  {
  }

  /** Parentheses around a composite of more than one child. */
  function Enclose(s: string, count: nat): string
  {
    if count > 1 then "( " + s + " )" else s
  }

  /** Numbers the PostgreSQL markers from `n` on, left to right
      (sql.go:248-254). */
  function Renumber(s: string, n: nat): (r: string)
    ensures !ContainsText(r, Marker)
    ensures Count('$', r) == Count('$', s)
    decreases Count(' ', s)
  {
    if ContainsText(s, Marker) then
      ReplaceMarker(s, n);
      Renumber(ReplaceFirst(s, Marker, PostgreSql.MarkText(n)), n + 1)
    else s
  }

  /** Replacing one marker by a number removes its two spaces and keeps
      its `$`. */
  lemma ReplaceMarker(s: string, n: nat)
    requires ContainsText(s, Marker)
    ensures Count(' ', ReplaceFirst(s, Marker, PostgreSql.MarkText(n))) + 2 == Count(' ', s)
    ensures Count('$', ReplaceFirst(s, Marker, PostgreSql.MarkText(n))) == Count('$', s)
  {
    var i := IndexOfTextFrom(s, Marker, 0).value;
    var m := PostgreSql.MarkText(n);
    assert s == s[..i] + Marker + s[i + 3..];
    MarkCounts(n);
    MarkerCounts();
    CountSwap(' ', s[..i], Marker, m, s[i + 3..]);
    CountSwap('$', s[..i], Marker, m, s[i + 3..]);
  }

  lemma MarkerCounts()
    ensures Count(' ', Marker) == 2 && Count('$', Marker) == 1
  {
    assert Marker[..2] == " $" && " $"[..1] == " " && " "[..0] == [];
  }

  lemma MarkCounts(n: nat)
    ensures Count(' ', PostgreSql.MarkText(n)) == 0 && Count('$', PostgreSql.MarkText(n)) == 1
  {
    var digits := NatToString(n);
    assert ' ' !in digits by {
      forall k | 0 <= k < |digits| ensures digits[k] != ' ' {
        assert IsDigit(digits[k]);
      }
    }
    CountConcat(' ', "$", digits);
    assert "$"[..0] == [];
    PostgreSql.MarkHasOneDollar(n);
  }

  /** Swapping the middle piece of a text changes its count by the
      difference of the pieces' counts. */
  lemma CountSwap(c: char, pre: string, x: string, y: string, post: string)
    ensures Count(c, pre + y + post) + Count(c, x) == Count(c, pre + x + post) + Count(c, y)
  {
    CountConcat(c, pre, x);
    CountConcat(c, pre + x, post);
    CountConcat(c, pre, y);
    CountConcat(c, pre + y, post);
  }

  /** Go's renumbering loop. */
  method RenumberMarkers(s: string) returns (r: string)
    ensures r == Renumber(s, 1)
  {
    r := s;
    var n := 1;
    while ContainsText(r, Marker)
      invariant Renumber(r, n) == Renumber(s, 1)
      decreases Count(' ', r)
    {
      ReplaceMarker(r, n);
      r := ReplaceFirst(r, Marker, PostgreSql.MarkText(n));
      n := n + 1;
    }
  }

  /** A composite's text once its children are joined: PostgreSQL numbers
      its markers. */
  function Finish(s: string, db: DatabaseType): string
  {
    if db.PostgreSql? then Renumber(s, 1) else s
  }

  /** The whole translation (sql.go:59-257). */
  function Compile(f: Filter, config: Option<SqlConfig>, db: DatabaseType): Result<Fragment, Error>
    decreases f, 1
  {
    match f.kids
    case Nil => CompileLeaf(f, config, db)
    case Slice(kids) =>
      match CompileKids(f, |kids|, config, db)
      case Err(e) => Err(e)
      case Ok(acc) => Ok(Fragment(Finish(Enclose(Join(acc.0, GlueText(f.glue)), |kids|), db), acc.1))
  }

  /** The first `n` children of a composite compiled left to right: their
      texts and their concatenated values, or the first error. */
  function CompileKids(parent: Filter, n: nat, config: Option<SqlConfig>, db: DatabaseType): Result<(seq<string>, seq<Value>), Error>
    requires parent.kids.Slice? && n <= |parent.kids.list|
    decreases parent, 0, n
  {
    if n == 0 then Ok(([], []))
    else match CompileKids(parent, n - 1, config, db)
      case Err(e) => Err(e)
      case Ok(acc) =>
        var kids := parent.kids.list;
        KidSmaller(parent, n - 1);
        match Compile(kids[n - 1], config, db)
        case Err(e) => Err(e)
        case Ok(frag) => Ok((acc.0 + [frag.sql], acc.1 + frag.values))
  }

  /** One more child result added to the children's texts and values. */
  function AddKid(acc: Result<(seq<string>, seq<Value>), Error>, r: Result<Fragment, Error>): Result<(seq<string>, seq<Value>), Error>
  {
    match acc
    case Err(e) => Err(e)
    case Ok(a) =>
      match r
      case Err(e) => Err(e)
      case Ok(frag) => Ok((a.0 + [frag.sql], a.1 + frag.values))
  }

  /** The children loop, one step at a time. */
  lemma CompileKidsStep(parent: Filter, n: nat, config: Option<SqlConfig>, db: DatabaseType)
    requires parent.kids.Slice? && 0 < n <= |parent.kids.list|
    ensures CompileKids(parent, n, config, db) == AddKid(CompileKids(parent, n - 1, config, db), Compile(parent.kids.list[n - 1], config, db))
  {
  }

  /** A child is smaller than its parent, which lets the translation
      recurse into it. */
  lemma KidSmaller(parent: Filter, i: nat)
    requires parent.kids.Slice? && i < |parent.kids.list|
    ensures parent.kids.list[i] < parent
  {
    var kids := parent.kids.list;
    assert kids[i] in kids;
  }

  /** Once a prefix of the children fails, the whole list fails with the
      same error. */
  lemma {:induction false} KidsFailFast(parent: Filter, i: nat, n: nat, config: Option<SqlConfig>, db: DatabaseType)
    requires parent.kids.Slice? && i <= n <= |parent.kids.list|
    requires CompileKids(parent, i, config, db).Err?
    ensures CompileKids(parent, n, config, db) == CompileKids(parent, i, config, db)
    decreases n
  {
    if n > i {
      KidsFailFast(parent, i, n - 1, config, db);
      CompileKidsStep(parent, n, config, db);
    }
  }

  /** A child that compiles extends the children's texts and values. */
  lemma KidsAppend(f: Filter, i: nat, config: Option<SqlConfig>, db: DatabaseType, out: seq<string>, values: seq<Value>, frag: Fragment)
    requires f.kids.Slice? && i < |f.kids.list|
    requires CompileKids(f, i, config, db) == Ok((out, values)) && Compile(f.kids.list[i], config, db) == Ok(frag)
    ensures CompileKids(f, i + 1, config, db) == Ok((out + [frag.sql], values + frag.values))
  {
    CompileKidsStep(f, i + 1, config, db);
  }

  /** A child that fails ends the children loop with its error. */
  lemma KidsStop(f: Filter, i: nat, config: Option<SqlConfig>, db: DatabaseType, e: Error)
    requires f.kids.Slice? && i < |f.kids.list|
    requires CompileKids(f, i, config, db).Ok? && Compile(f.kids.list[i], config, db) == Err(e)
    ensures CompileKids(f, |f.kids.list|, config, db) == Err(e)
  {
    CompileKidsStep(f, i + 1, config, db);
    KidsFailFast(f, i + 1, |f.kids.list|, config, db);
  }

  /** A composite's outcome in terms of its children loop. */
  lemma CompositeUnfold(f: Filter, config: Option<SqlConfig>, db: DatabaseType)
    requires f.kids.Slice?
    ensures var acc := CompileKids(f, |f.kids.list|, config, db);
      && (acc.Err? ==> Compile(f, config, db) == Err(acc.error))
      && (acc.Ok? ==> Compile(f, config, db) == Ok(Fragment(Finish(Enclose(Join(acc.value.0, GlueText(f.glue)), |f.kids.list|), db), acc.value.1)))
  {
  }

  /** Go's `GetSQL`. */
  method GetSql(f: Filter, config: Option<SqlConfig>, db: DatabaseType) returns (r: Result<Fragment, Error>)
    ensures r == Compile(f, config, db)
    decreases f
  {
    if f.kids.Nil? {
      r := GetLeafSql(f, config, db);
      return;
    }
    var kids := f.kids.list;
    var out: seq<string> := [];
    var values: seq<Value> := [];
    var i := 0;
    CompositeUnfold(f, config, db);
    while i < |kids|
      invariant 0 <= i <= |kids|
      invariant CompileKids(f, i, config, db) == Ok((out, values))
    {
      KidSmaller(f, i);
      var sub := GetSql(kids[i], config, db);
      match sub
      case Err(e) =>
        KidsStop(f, i, config, db, e);
        return Err(e);
      case Ok(frag) =>
        KidsAppend(f, i, config, db, out, values, frag);
        out := out + [frag.sql];
        values := values + frag.values;
        i := i + 1;
    }
    var outStr := Enclose(Join(out, GlueText(f.glue)), |kids|);
    if db.PostgreSql? {
      outStr := RenumberMarkers(outStr);
    }
    r := Ok(Fragment(outStr, values));
  }

  /** The leaf branch of `GetSQL`. */
  method GetLeafSql(f: Filter, config: Option<SqlConfig>, db: DatabaseType) returns (r: Result<Fragment, Error>)
    requires f.kids.Nil?
    ensures r == Compile(f, config, db)
  {
    if !Allowed(config, f.field) {
      return Err(NotInWhitelist(f.field));
    }
    var placeholder := GetPlaceholder(db);
    if placeholder.Err? {
      return Err(placeholder.error);
    }
    var ph := placeholder.value;
    var field := f.field;
    var isDynamic := false;
    if db.PostgreSql? {
      if config.None? {
        return Err(NilConfig);
      }
      var d := GetDynamicField(config.value.dynamicFields, f.field);
      if d.Some? {
        if config.value.dynamicConfigName == "" {
          return Err(EmptyDynamicConfigName);
        }
        field := DynamicFieldExpr(f.field, config.value.dynamicConfigName, GetJsonbType(d.value.fieldType));
        isDynamic := true;
      }
    }
    if |f.includes| > 0 {
      var frag := InSql(field, f.includes, ph);
      return Ok(frag);
    }
    r := RuleSql(field, isDynamic, f.condition, ph, config, db);
  }
}
