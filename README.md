# querysql in Dafny

querysql turns a filter tree into the text of an SQL `WHERE` fragment and
the list of values to bind to it. The filter tree normally arrives as JSON
from a web client. A leaf names a field and a condition: a rule such as
`equal`, `between` or `beginsWith`, plus a value. A leaf can instead carry a
list of `includes` values. An inner node joins its children with `AND` or
`OR`. The translation is driven by a configuration with four parts:

- a whitelist of fields;
- custom operations;
- "dynamic" fields, which live inside a PostgreSQL JSONB column;
- the name of that JSONB column.

The database type is either MySQL, where every placeholder is `?`, or
PostgreSQL, where placeholders are numbered `$1`, `$2`, and so on.

This project models that translation and proves properties of it.

- `Wrappers`: `Option` and `Result`.
- `Text`: the string operations the translation relies on, each with its
  own contract. These are character counts, `Join`, `Split`/`SplitN`,
  prefix tests, first-occurrence search and replacement, and decimal
  rendering.
- `Condition`: a condition value and its bind values (`getValues`).
- `MySql`, `PostgreSql`: the two dialect types. `PostgreSQL` is a class,
  because its methods advance a placeholder counter in place.
- `Sql`: `GetSQL` as a total function `Compile` over the filter tree. It
  has these pieces:
  - the whitelist gate;
  - the placeholder choice;
  - the dynamic-field rewrite;
  - `IN` lists;
  - every built-in rule;
  - custom operations;
  - composite nodes;
  - the PostgreSQL renumbering loop.

  The methods `GetSql`, `GetLeafSql`, `GetDynamicField`, `InSql` and
  `RenumberMarkers` keep the source's loops and are proved equal to those
  functions.
- `SqlRules`, `SqlTree`, `SqlDynamic`, `SqlPlaceholders`: lemmas about
  single leaves, about composite nodes, about the JSONB rewrite, and about
  placeholders matching bind values.
- `SqlNumbering`: the PostgreSQL numbering, including the findings below
  and a corrected translation, `CompileFixed`.
- `SqlMarkers`: the shape of unnumbered PostgreSQL text (every `$` inside a
  ` $ ` marker), its cut into marker-free pieces, and the theorem that the
  corrected translation numbers every tree `$1`, `$2`, ... left to right.

## Model

| member | source | states |
|---|---|---|
| Condition.GetValues | condition.go:12-19 | an object value yields exactly its two bounds, start then end; any other value yields itself alone; `FromValues` recovers the value from the list |
| Condition.Condition.Values | condition.go:8-10 | a condition's bind values are those of its value; one or two of them, two exactly for an object |
| MySql.MySQL.Mark | mysql.go:9-11 | every placeholder is `?` |
| MySql.MySQL.IsJson | mysql.go:13-15 | a field name is never rewritten and never reported as JSON |
| MySql.MySQL.Contains | mysql.go:17-19 | `INSTR(v, ?) > 0`; its placeholder count is `OnePlaceholderEach`, its independence of the JSON flag `JsonFlagIgnored` |
| MySql.MySQL.NotContains | mysql.go:21-23 | `INSTR(v, ?) = 0`; characterised by `OnePlaceholderEach` and `JsonFlagIgnored` |
| MySql.MySQL.BeginsSearch | mysql.go:26 | the prefix pattern `CONCAT(?, '%')`; `SearchesHoldOne` proves it holds one `?` |
| MySql.MySQL.EndsSearch | mysql.go:36 | the suffix pattern `CONCAT('%', ?)`; `SearchesHoldOne` proves it holds one `?` |
| MySql.MySQL.BeginsWith | mysql.go:25-28 | the field, `LIKE` and the prefix pattern; characterised by `OnePlaceholderEach`, `NotBeginsWithInsertsNot` and `JsonFlagIgnored` |
| MySql.MySQL.NotBeginsWith | mysql.go:30-33 | the negated prefix test; `NotBeginsWithInsertsNot` relates it to `BeginsWith` |
| MySql.MySQL.EndsWith | mysql.go:35-38 | the field, `LIKE` and the suffix pattern; characterised by `OnePlaceholderEach`, `NotEndsWithInsertsNot` and `JsonFlagIgnored` |
| MySql.MySQL.NotEndsWith | mysql.go:40-43 | the negated suffix test; `NotEndsWithInsertsNot` relates it to `EndsWith` |
| MySql.OnePlaceholderEach | mysql.go:17-43 | each of the six pattern builders adds exactly one `?` to the field's own |
| MySql.SearchesHoldOne | mysql.go:25-43 | each of the two search patterns holds exactly one `?` |
| MySql.NotBeginsWithInsertsNot | mysql.go:25-33 | the negated prefix test is the positive one with `NOT ` inserted before `LIKE` |
| MySql.NotEndsWithInsertsNot | mysql.go:35-43 | the negated suffix test is the positive one with `NOT ` inserted before `LIKE` |
| MySql.JsonFlagIgnored | mysql.go:17-43 | the JSON flag has no effect on any MySQL pattern text |
| PostgreSql.PostgreSQL.constructor | postgresql.go:8-10 | a fresh dialect starts with a zero counter |
| PostgreSql.PostgreSQL.Reset | postgresql.go:12-14 | reset sets the counter to 1 |
| PostgreSql.PostgreSQL.Restart | postgresql.go:12-14 | the corrected reset sets the counter to 0, so the next mark is `$1` |
| PostgreSql.PostgreSQL.Mark | postgresql.go:16-20 | the counter goes up by one and the mark is `$` followed by the new count in decimal |
| PostgreSql.PostgreSQL.IsJson | postgresql.go:22-49 | the flag is set exactly when the name starts with `json:`; a name without the prefix comes back unchanged |
| PostgreSql.PostgreSQL.Contains | postgresql.go:51-57 | takes one mark and returns the `LIKE '%' \|\| mark \|\| '%'` test, quoted for JSON text |
| PostgreSql.PostgreSQL.NotContains | postgresql.go:59-64 | takes one mark and returns the `NOT LIKE` form of the substring test |
| PostgreSql.PostgreSQL.BeginsWith | postgresql.go:66-74 | takes one mark and returns the prefix test, quoted for JSON text |
| PostgreSql.PostgreSQL.NotBeginsWith | postgresql.go:76-84 | takes one mark and returns the negated prefix test |
| PostgreSql.PostgreSQL.EndsWith | postgresql.go:86-94 | takes one mark and returns the suffix test, quoted for JSON text |
| PostgreSql.PostgreSQL.NotEndsWith | postgresql.go:96-104 | takes one mark and returns the negated suffix test |
| PostgreSql.TwoMarks | postgresql.go:16-20 | two marks on a fresh dialect are `$1` then `$2` |
| PostgreSql.ResetNumbersFromTwo | postgresql.go:12-20 | as written, the first mark after `Reset` is `$2`, not `$1` |
| PostgreSql.RestartNumbersFromOne | postgresql.go:12-20 | after the corrected reset, the first mark is `$1` |
| PostgreSql.MarkHasOneDollar | postgresql.go:16-20 | every mark holds exactly one `$` |
| PostgreSql.ContainsOneMark | postgresql.go:51-64 | the substring tests add exactly one `$` to the field's own |
| PostgreSql.BeginsWithOneMark | postgresql.go:66-84 | the prefix tests add exactly one `$` to the field's own |
| PostgreSql.EndsWithOneMark | postgresql.go:86-94 | the suffix test adds exactly one `$` to the field's own |
| PostgreSql.NotEndsWithOneMark | postgresql.go:96-104 | the negated suffix test adds exactly one `$` to the field's own |
| PostgreSql.NotContainsInsertsNot | postgresql.go:51-64 | the negated substring test is the positive one with `NOT ` inserted |
| PostgreSql.NotBeginsWithInsertsNot | postgresql.go:66-84 | the negated prefix test is the positive one with `NOT ` inserted |
| PostgreSql.NotEndsWithInsertsNot | postgresql.go:86-104 | on plain columns, the negated suffix test is the positive one with `NOT ` inserted |
| PostgreSql.NotEndsWithJsonDropsSpace | postgresql.go:86-104 | on JSON text, the negated suffix test is the positive one with ` NOT` inserted after the field and the space before ` \|\| '"'` removed |
| PostgreSql.MetaWithType | postgresql.go:27-34 | `json:path:type` splits into the path and the type |
| PostgreSql.MetaWithoutType | postgresql.go:27-34 | `json:path` with no type defaults the type to `text` |
| PostgreSql.JsonRewrite | postgresql.go:27-48 | the rewrite of a JSON name from its colon-separated pieces; `IsJsonColumnKey`, `IsJsonDefaultsToText`, `IsJsonTableColumnKey`, `IsJsonTableDefaultsToText`, `IsJsonColumnOnly` and `IsJsonDate` state its result on every shape of name |
| PostgreSql.Extraction | postgresql.go:43-47 | the JSONB extraction of `[table, column, key]` or `[column, key]`; its two texts are stated by `IsJsonTableColumnKey` and `IsJsonColumnKey` |
| PostgreSql.IsJsonColumnKey | postgresql.go:22-49 | `json:col.key:tp` becomes `(col->'key')::tp` |
| PostgreSql.IsJsonDefaultsToText | postgresql.go:22-49 | `json:col.key` becomes `(col->'key')::text` |
| PostgreSql.IsJsonTableColumnKey | postgresql.go:22-49 | `json:t.col.key:tp`, for a declared type other than `date`, becomes `("t".col->'key')::tp` |
| PostgreSql.IsJsonTableDefaultsToText | postgresql.go:22-49 | `json:t.col.key` with no declared type becomes `("t".col->'key')::text` |
| PostgreSql.IsJsonColumnOnly | postgresql.go:22-49 | a dot-free path leaves the name unchanged but still flags it as JSON |
| PostgreSql.IsJsonDate | postgresql.go:22-49 | the `date` type reads the key as text and wraps it in `CAST(… AS DATE)` |
| Sql.ParseRule | sql.go:102-211 | a rule name is recognised exactly when it names a built-in, and then that built-in |
| Sql.GetPlaceholder | sql.go:259-268 | the placeholder is `?` on MySQL and the marker ` $ ` on PostgreSQL; any other database fails with the unknown-database error |
| Sql.FindDynamicField | sql.go:270-277 | finds the first dynamic field whose key matches; none exactly when no key matches |
| Sql.GetDynamicField | sql.go:270-277 | the search loop returns the first field with the key, or none |
| Sql.GetJsonbType | sql.go:279-286 | `number` becomes `numeric`; every other type is kept |
| Sql.DynamicFieldExpr | sql.go:77-91 | the JSONB text for a dynamic field; `SqlDynamic.DynamicKey`, `DynamicTableKey`, `DeepFieldKept` and `SqlPlaceholders.DynamicFieldClean` state it |
| Sql.ResolveField | sql.go:70-94 | the field a leaf's rule is written on and its dynamic flag; `SqlDynamic.EmptyConfigName`, `MissingConfig`, `DynamicContains` and `SqlPlaceholders.ResolvedClean` state it |
| Sql.InSql | sql.go:49-57 | the `IN(…)` text holds one placeholder per value, comma-separated, and binds the values as given |
| Sql.ContainsSql | sql.go:108-127 | the substring tests of both databases; `SqlPlaceholders.MySqlContainsCount`, `PostgreSqlContainsCount` and `SqlMarkers.ContainsShaped` state their placeholders |
| Sql.BeginsSearchSql | sql.go:160-185 | the prefix pattern of both databases; `SqlPlaceholders.BeginsSearchCount` and `SqlMarkers.BeginsSearchShaped` state it holds one placeholder |
| Sql.EndsSearchSql | sql.go:186-211 | the suffix pattern of both databases, including the narrower negated JSON form; `SqlPlaceholders.EndsSearchCount` and `SqlMarkers.EndsSearchShaped` state it holds one placeholder |
| Sql.RangeSql | sql.go:134-157 | the range rules; `SqlRules.BetweenBounds`, `NotBetweenBounds`, `RangeNeedsObject` and `SqlPlaceholders.RangeCount` state every case |
| Sql.BuiltinSql | sql.go:102-211 | every built-in rule; `SqlPlaceholders.BuiltinCount`, `SqlRules.BuiltinFailsOnCount` and `SqlMarkers.BuiltinShaped` state its placeholders and its one failure |
| Sql.CustomSql | sql.go:214-221 | the lookup among custom operations; `SqlRules.CustomOperationRuns` and `UnknownRuleFails` state both outcomes |
| Sql.CompileLeaf | sql.go:59-221 | a leaf; `SqlRules.WhitelistGate`, `IncludesOverrideRule`, `SqlPlaceholders.LeafBalanced` and `Sql.GetLeafSql` state it |
| Sql.Compile | sql.go:59-257 | the whole translation; `Sql.GetSql`, `SqlTree.CompositeOutcome`, `SqlRules.WhitelistGate`, `SqlPlaceholders.PlaceholdersMatchValues` and `SqlNumbering.RawAgrees` state it |
| Sql.Renumber | sql.go:248-254 | leaves no ` $ ` marker and keeps the number of `$` characters |
| Sql.RenumberMarkers | sql.go:248-254 | the replacement loop computes `Renumber` from 1 |
| Sql.KidsFailFast | sql.go:224-234 | once a child fails, the composite's result stays that failure |
| Sql.GetSql | sql.go:59-257 | the recursive method computes `Compile` for any tree, configuration and database |
| Sql.GetLeafSql | sql.go:59-221 | the leaf path computes `Compile` for a leaf |
| SqlRules.ParseRuleName | sql.go:102-211 | every built-in's name parses back to that built-in |
| SqlRules.BuiltinFailsOnCount | sql.go:102-211 | a built-in rule fails only with the wrong-parameter-count error |
| SqlRules.WhitelistGate | sql.go:60-63 | a leaf fails with not-in-whitelist exactly when its field is not allowed |
| SqlRules.IncludesOverrideRule | sql.go:96-98 | a leaf with `includes` ignores its condition and binds exactly the includes |
| SqlRules.InSqlPlaceholders | sql.go:49-57 | the `IN` text holds as many placeholders as there are values |
| SqlRules.EmptyRule | sql.go:102-103 | an empty rule yields empty text and no values |
| SqlRules.EmptyFilter | sql_test.go:17 | the empty filter yields empty text and no values |
| SqlRules.BetweenBounds | sql.go:146-157 | `between` tests `>` start AND `<` end; a null start leaves `field < ph` on the end, a null end leaves `field > ph` on the start, binding only the bound kept |
| SqlRules.NotBetweenBounds | sql.go:134-145 | `notBetween` tests `<` start OR `>` end; a null start leaves `field > ph` on the end, a null end leaves `field < ph` on the start |
| SqlRules.RangeNeedsObject | sql.go:134-157 | either range rule on a non-object value fails with the wrong-parameter-count error |
| SqlRules.BuiltinShadowsOperations | sql.go:102-219 | a built-in rule name is never looked up among the custom operations |
| SqlRules.CustomOperationRuns | sql.go:214-219 | an unknown rule found among the operations yields that operation's text and values |
| SqlRules.UnknownRuleFails | sql.go:221 | a rule that is neither built-in nor configured fails with unknown-operation |
| SqlTree.KidsCollect | sql.go:224-234 | the children loop equals collecting every child's result, stopping at the first failure |
| SqlTree.CollectOutcome | sql.go:224-234 | reading child results from the front succeeds exactly when all succeed, keeps every text in order, and otherwise reports the first failure |
| SqlTree.CollectValues | sql.go:224-234 | reading successful child results binds their values first child first |
| SqlTree.KidTexts | sql.go:224-234 | when every child compiles, the children loop keeps each child's text in order |
| SqlTree.CompositeOutcome | sql.go:224-234 | a composite fails exactly when some child fails, with the error of the first failing child; otherwise it binds every child's values, first child first (`KidValues`) |
| SqlTree.MySqlComposite | sql.go:236-246 | on MySQL, a composite is its children's texts joined by the glue and enclosed in parentheses when there are several |
| SqlTree.SingleKidIsTransparent | sql.go:243-246 | on MySQL, a composite of one child compiles to that child |
| SqlTree.EmptyComposite | sql.go:224-254 | a composite without children yields empty text and no values |
| SqlTree.CompiledLeavesAreAllowed | sql.go:60-63 | whenever a tree compiles, every leaf's field passes the whitelist |
| SqlTree.WhitelistAdmittingAllLeaves | sql.go:60-63 | a whitelist that admits every leaf gives the same result as no whitelist |
| SqlDynamic.DynamicKey | sql.go:77-90 | a dynamic `key` reads `(cfg->'key')::type`; a `date` is read as text and cast to DATE |
| SqlDynamic.DynamicTableKey | sql.go:77-90 | a dynamic `table.key` reads `("table".cfg->'key')::type`, with the same date cast |
| SqlDynamic.DeepFieldKept | sql.go:77-90 | a dynamic name with more than one dot is not rewritten |
| SqlDynamic.NumberIsNumeric | sql.go:279-286 | a dynamic `number` field is cast to `numeric` |
| SqlDynamic.EmptyConfigName | sql.go:70-76 | on PostgreSQL, a dynamic field fails without a configuration column name; other databases never rewrite |
| SqlDynamic.MissingConfig | sql.go:70-72 | on PostgreSQL, a leaf without configuration fails |
| SqlDynamic.DynamicContains | sql.go:70-116 | a `contains` leaf on a dynamic field compiles to the JSONB text of the field followed by the JSON-quoted `LIKE` pattern, binding its one value |
| SqlDynamic.DynamicLeaf | sql.go:70-116 | a `contains` leaf on a dynamic `key` compiles to `(cfg->'key')::type LIKE '"%' \|\|  $  \|\| '%"'` and binds its one value |
| SqlPlaceholders.MySqlContainsCount | sql.go:108-127 | the MySQL substring tests hold exactly one `?` beyond the field's |
| SqlPlaceholders.PostgreSqlContainsCount | sql.go:108-127 | the PostgreSQL substring tests hold exactly one marker `$` beyond the field's |
| SqlPlaceholders.BeginsSearchCount | sql.go:160-185 | the prefix search texts hold exactly one placeholder |
| SqlPlaceholders.EndsSearchCount | sql.go:186-211 | the suffix search texts hold exactly one placeholder |
| SqlPlaceholders.ComparisonCount | sql.go:104-133 | each comparison holds one placeholder beyond the field's |
| SqlPlaceholders.PatternCount | sql.go:108-211 | each pattern rule holds one placeholder beyond the field's |
| SqlPlaceholders.RangeCount | sql.go:134-157 | a range rule holds one placeholder per bound present |
| SqlPlaceholders.BuiltinCount | sql.go:102-211 | every built-in rule's text holds as many placeholders, beyond the field's, as it binds values |
| SqlPlaceholders.DynamicFieldClean | sql.go:77-90 | the JSONB rewrite introduces no placeholder character |
| SqlPlaceholders.ResolvedClean | sql.go:70-94 | a resolved field holds no placeholder character when its name and configuration hold none |
| SqlPlaceholders.LeafBalanced | sql.go:59-221 | a compiled leaf holds exactly one placeholder per bound value |
| SqlPlaceholders.KidsBalanced | sql.go:224-234 | the children compiled so far hold, all together, one placeholder per collected value |
| SqlPlaceholders.FinishCount | sql.go:236-254 | gluing, parentheses and renumbering keep the placeholder count |
| SqlPlaceholders.PlaceholdersMatchValues | sql.go:59-257 | for the translation as written, a tree whose leaves fit, whose custom operations are balanced and whose dynamic names hold no `$` compiles to text with exactly one placeholder character per bound value |
| SqlNumbering.SettledHasNoMarker | sql.go:248-254 | an already-numbered text holds no marker and renumbering leaves it alone |
| SqlNumbering.FirstMarker | sql.go:248-250 | in settled text followed by a marker, the marker is the first occurrence |
| SqlNumbering.RenumberStep | sql.go:248-254 | one loop step replaces the first marker with the current number |
| SqlNumbering.RenumberAfter | sql.go:248-254 | renumbering skips a settled prefix |
| SqlNumbering.RenumberJoin | sql.go:248-254 | marker-separated `$`-free pieces are numbered `$1`, `$2`, … left to right |
| SqlNumbering.NumberOne | sql.go:236-254 | a single marker at the end becomes `$1` |
| SqlNumbering.CompositeOfOne | sql.go:224-254 | a composite of one leaf is numbered as a whole |
| SqlNumbering.CompositeOfTwo | sql.go:224-254 | a composite of two leaves is parenthesised, glued and numbered `$1`, `$2` |
| SqlNumbering.NestedReuseNumbers | sql.go:224-254 | as written, two nested composites of one placeholder each are both numbered `$1` |
| SqlNumbering.SiblingsReuseNumbers | sql.go:224-254 | as written, `x = ?` AND `y = ?` under separate inner nodes compile to `( x = $1 AND y = $1 )` |
| SqlNumbering.RawAgrees | sql.go:59-254 | the translation without numbering agrees with `Compile` except in PostgreSQL composites |
| SqlNumbering.FixedIsCompileOffPostgreSql | sql.go:59-257 | the corrected translation equals the original on MySQL and for unknown databases |
| SqlNumbering.FixedKeepsValues | sql.go:59-257 | the corrected translation succeeds exactly when the original does, binds the same values and leaves no marker |
| SqlNumbering.FixedPlaceholdersMatchValues | sql.go:59-257 | on PostgreSQL, the corrected text holds one `$` per bound value and no marker (the numbering order is `SqlMarkers.FixedNumbersInOrder`) |
| SqlNumbering.NestedNumberedOnce | sql.go:224-254 | corrected, the nested composites are numbered `$1` and `$2` |
| SqlNumbering.SiblingsNumberedOnce | sql.go:224-254 | corrected, the sibling example compiles to `( x = $1 AND y = $2 )` |
| SqlNumbering.TopLevelLeaf | sql.go:59-221 | as written, a top-level PostgreSQL leaf keeps its unnumbered marker; corrected, it gets `$1` |
| SqlNumbering.CompileFixed | sql.go:59-257 | the corrected translation; `SqlNumbering.FixedKeepsValues`, `FixedPlaceholdersMatchValues` and `SqlMarkers.FixedNumbersInOrder` state it |
| SqlMarkers.CutJoin | sql.go:248-254 | the marker-free pieces of a marked text, joined by markers, give it back, one piece more than it has `$` |
| SqlMarkers.RenumberShaped | sql.go:248-254 | numbering a marked text writes its pieces with `$1`, `$2`, ... between them |
| SqlMarkers.LeafShaped | sql.go:59-221 | every PostgreSQL leaf that compiles, whose field and dynamic names hold no `$`, writes each `$` only inside a marker |
| SqlMarkers.BuiltinShaped | sql.go:102-211 | every built-in rule's PostgreSQL text writes each `$` only inside a marker |
| SqlMarkers.RawShaped | sql.go:224-246 | the unnumbered PostgreSQL text of a whole tree whose leaves fit and whose dynamic names and custom operations write `$` only in markers writes each `$` only inside a marker |
| SqlMarkers.FixedNumbersInOrder | sql.go:59-257 | corrected, every PostgreSQL tree that compiles, under the premises of `PlaceholdersMatchValues` and `RawShaped`, is its unnumbered pieces with `$1` ... `$n` between them, left to right, one number per bound value, and binds the values of the translation as written |

## Left out

- JSON decoding of the filter (`FromJSON`) and of values: a filter arrives
  here as a datatype, and a value is null, an integer, a string or a
  start/end object.
- Numbers: Go decodes JSON numbers as `float64`. Here they are integers,
  and their formatting is not modelled because only their identity as
  bind values matters.
- Error messages: each error is a constructor of `Error`, not formatted
  text.
- The global `DB` variable: the database type is a parameter of `Compile`.
- Custom operations: an operation is a total function from field, rule
  and values to either a fragment or an error message. A failing operation
  at a leaf returns its text, its values and its error together
  (sql.go:217); the model keeps only the error, as `OperationFailed`. A
  caller of the source sees the same error, and a composite drops the text
  and values anyway (sql.go:229-230).
- A nil configuration: for a PostgreSQL leaf, the source dereferences it
  and panics. Here that is the error `NilConfig`.
- The placeholder counter: the PostgreSQL counter is an unbounded integer,
  so Go `int` overflow is not modelled.
- The dialect types: `sql.go` does not call the `MySQL` and `PostgreSQL`
  types. It writes its own texts with the ` $ ` marker, so the dialect
  modules are modelled on their own. Their PostgreSQL spacing differs from
  the inline texts, so no equality between the two is stated.
- `WrongParameterCount` names `notBetween` for both range rules, as the
  source does.
- The glue is `OR` only for the exact string `or`; anything else, `OR`
  included, glues with `AND`.
- A range whose two bounds are both null is not treated specially, as in
  the code: `between` gives `field < ph` binding the null end, and
  `notBetween` gives `field > ph` (sql.go:139-140 and 151-152).
- SqlPlaceholders.PlaceholdersMatchValues: holds only under these
  conditions:
  - every custom operation returns one placeholder per value;
  - every leaf's field holds no placeholder character, and a
    single-value rule is not given an object;
  - on PostgreSQL, dynamic names hold no `$`.

  The source promises nothing for other operations.
- Sql.Compile: kept exactly as written, including the numbering fault
  below. `SqlNumbering.CompileFixed` is the corrected translation, and the
  findings' proved properties are stated about it.
- Tests that exercise other APIs or inputs outside this model are not
  restated: JSON round trips, and dialect tests written against an older
  interface.

## Findings

| source | as written | input that shows it | evidently intended | confidence | as-written member | corrected member |
|---|---|---|---|---|---|---|
| sql.go:248-254 | every composite renumbers its own markers from `$1` before its parent sees them, and a top-level leaf is never numbered | the nested filter of sql_test.go:139-143, or two inner nodes `x = ?` and `y = ?` under one `AND` | one numbering of the whole text, `$1`…`$n` in order of the bound values | not executed | SqlNumbering.SiblingsReuseNumbers | SqlMarkers.FixedNumbersInOrder |
| postgresql.go:12-14 | `Reset` sets the counter to 1, so the next mark is `$2` | a fresh dialect after `Reset` and one `Mark` | the next mark after a reset is `$1` | not executed | PostgreSql.ResetNumbersFromTwo | PostgreSql.RestartNumbersFromOne |
