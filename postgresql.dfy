/**
 * The PostgreSQL dialect driver (postgresql.go): numbered placeholders
 * `$1`, `$2`, ... drawn from a counter the driver owns, the
 * `json:[table.]column.key[:type]` field syntax, and the LIKE patterns
 * built with the `||` concatenation operator.
 */
module PostgreSql {
  import opened Text

  /** The marker that introduces a JSON field name. */
  const JsonPrefix := "json:"

  /** The placeholder for counter value `n`: `$` followed by `n` in decimal. */
  function MarkText(n: nat): string
  {
    "$" + NatToString(n)
  }

  /** The search expression of the substring tests (postgresql.go:51-64);
      a JSON text value keeps its double quotes, so the pattern is wrapped
      in literal `"` characters. */
  function ContainsSearch(isJson: bool, mark: string): string
  {
    if isJson then "'\"%' || " + mark + " || '%\"'" else "'%' || " + mark + " || '%'"
  }

  /** Substring test (postgresql.go:51-57). */
  function ContainsPattern(v: string, isJson: bool, mark: string): string
  {
    v + " LIKE " + ContainsSearch(isJson, mark)
  }

  /** Negated substring test (postgresql.go:59-64). */
  function NotContainsPattern(v: string, isJson: bool, mark: string): string
  {
    v + " NOT LIKE " + ContainsSearch(isJson, mark)
  }

  /** The search expression of the prefix tests (postgresql.go:68-73, 78-83). */
  function BeginsSearch(isJson: bool, mark: string): string
  {
    if isJson then "'\"' ||  " + mark + "  || '%'" else mark + "  || '%'"
  }

  function BeginsWithPattern(v: string, isJson: bool, mark: string): string
  {
    v + " LIKE " + BeginsSearch(isJson, mark)
  }

  function NotBeginsWithPattern(v: string, isJson: bool, mark: string): string
  {
    v + " NOT LIKE " + BeginsSearch(isJson, mark)
  }

  /** Suffix test (postgresql.go:86-94). */
  function EndsWithPattern(v: string, isJson: bool, mark: string): string
  {
    v + " LIKE " + (if isJson then "'%' ||  " + mark + "  || '\"'" else "'%' ||  " + mark + " ")
  }

  /** Negated suffix test (postgresql.go:96-104); its JSON form has one
      space fewer after the placeholder than the plain suffix test's. */
  function NotEndsWithPattern(v: string, isJson: bool, mark: string): string
  {
    v + " NOT LIKE " + (if isJson then "'%' ||  " + mark + " || '\"'" else "'%' ||  " + mark + " ")
  }

  /** The JSONB extraction for `[table, column, key]` or `[column, key]`,
      cast to `tp` (postgresql.go:43-47). */
  function Extraction(parts: seq<string>, tp: string): string
    requires 2 <= |parts| <= 3
  {
    if |parts| == 3 then "(\"" + parts[0] + "\"." + parts[1] + "->'" + parts[2] + "')::" + tp
    else "(" + parts[0] + "->'" + parts[1] + "')::" + tp
  }

  /** The rewrite of a JSON name whose colon-separated pieces are `meta`
      (postgresql.go:28-47): the second piece is split at its first two dots
      into `[table.]column.key`, the third, if any, is the declared type. A
      path with no dot leaves the name unchanged. */
  function JsonRewrite(name: string, meta: seq<string>): string
    requires |meta| >= 2
  {
    var parts := SplitN(meta[1], '.', 3);
    var declared := if |meta| > 2 then meta[2] else "text";
    if |parts| < 2 then name
    else if declared == "date" then "CAST(" + Extraction(parts, "text") + " AS DATE)"
    else Extraction(parts, declared)
  }

  /** The PostgreSQL driver. Its only state is the placeholder counter; the
      Go zero value (counter 0) is what `new PostgreSQL()` gives here. */
  class PostgreSQL {
    var counter: nat

    constructor ()
      ensures counter == 0
    {
      counter := 0;
    }

    /** Sets the counter to 1, so that the next placeholder is `$2`. */
    method Reset()
      modifies this
      ensures counter == 1
    {
      counter := 1;
    }

    /** The corrected reset: back to the zero value, so that the next
        placeholder is `$1`, as for a fresh driver. */
    method Restart()
      modifies this
      ensures counter == 0
    {
      counter := 0;
    }

    /** Advances the counter by one and returns the placeholder for its
        new value. */
    method Mark() returns (t: string)
      modifies this
      ensures counter == old(counter) + 1
      ensures t == MarkText(counter)
    {
      counter := counter + 1;
      t := MarkText(counter);
    }

    /** Rewrites a `json:[table.]column.key[:type]` name into a JSONB
        extraction cast to the type (`text` when none is given, and a
        `date` type read as text and then cast to DATE); any other name is
        returned unchanged. The flag says whether the prefix was there. */
    function IsJson(name: string): (r: (string, bool))
      ensures r.1 <==> HasPrefix(name, JsonPrefix)
      ensures !r.1 ==> r.0 == name
    {
      if !HasPrefix(name, JsonPrefix) then (name, false)
      else
        assert name == "json" + [':'] + name[5..];
        SplitAfter("json", ':', name[5..]);
        (JsonRewrite(name, Split(name, ':')), true)
    }

    method Contains(v: string, isJson: bool) returns (r: string)
      modifies this
      ensures counter == old(counter) + 1
      ensures r == ContainsPattern(v, isJson, MarkText(counter))
    {
      var mark := Mark();
      r := ContainsPattern(v, isJson, mark);
    }

    method NotContains(v: string, isJson: bool) returns (r: string)
      modifies this
      ensures counter == old(counter) + 1
      ensures r == NotContainsPattern(v, isJson, MarkText(counter))
    {
      var mark := Mark();
      r := NotContainsPattern(v, isJson, mark);
    }

    method BeginsWith(v: string, isJson: bool) returns (r: string)
      modifies this
      ensures counter == old(counter) + 1
      ensures r == BeginsWithPattern(v, isJson, MarkText(counter))
    {
      var mark := Mark();
      r := BeginsWithPattern(v, isJson, mark);
    }

    method NotBeginsWith(v: string, isJson: bool) returns (r: string)
      modifies this
      ensures counter == old(counter) + 1
      ensures r == NotBeginsWithPattern(v, isJson, MarkText(counter))
    {
      var mark := Mark();
      r := NotBeginsWithPattern(v, isJson, mark);
    }

    method EndsWith(v: string, isJson: bool) returns (r: string)
      modifies this
      ensures counter == old(counter) + 1
      ensures r == EndsWithPattern(v, isJson, MarkText(counter))
    {
      var mark := Mark();
      r := EndsWithPattern(v, isJson, mark);
    }

    method NotEndsWith(v: string, isJson: bool) returns (r: string)
      modifies this
      ensures counter == old(counter) + 1
      ensures r == NotEndsWithPattern(v, isJson, MarkText(counter))
    {
      var mark := Mark();
      r := NotEndsWithPattern(v, isJson, mark);
    }
  }

  /** Successive placeholders of one driver are numbered consecutively:
      each is the previous number plus one. */
  method TwoMarks(p: PostgreSQL) returns (first: string, second: string)
    modifies p
    ensures first == MarkText(old(p.counter) + 1)
    ensures second == MarkText(old(p.counter) + 2)
    ensures p.counter == old(p.counter) + 2
  {
    first := p.Mark();
    second := p.Mark();
  }

  /** As written, a reset driver's first placeholder is `$2`, while a fresh
      driver's is `$1`. */
  method ResetNumbersFromTwo(p: PostgreSQL) returns (fromFresh: string, fromReset: string)
    modifies p
    ensures fromFresh == "$1" && fromReset == "$2"
  {
    var q := new PostgreSQL();
    fromFresh := q.Mark();
    p.Reset();
    fromReset := p.Mark();
  }

  /** With the corrected reset, a reused driver numbers from `$1` again,
      exactly like a fresh one. */
  method RestartNumbersFromOne(p: PostgreSQL) returns (fromFresh: string, fromRestart: string)
    modifies p
    ensures fromFresh == "$1" && fromRestart == fromFresh
  {
    var q := new PostgreSQL();
    fromFresh := q.Mark();
    p.Restart();
    fromRestart := p.Mark();
  }

  /** A placeholder holds exactly one `$`. */
  lemma MarkHasOneDollar(n: nat)
    ensures Count('$', MarkText(n)) == 1
  {
    var digits := NatToString(n);
    assert '$' !in digits by {
      forall i | 0 <= i < |digits| ensures digits[i] != '$' {
        assert IsDigit(digits[i]);
      }
    }
    CountConcat('$', "$", digits);
    assert "$"[..0] == [];
  }

  /** The substring tests add exactly one placeholder to the field. */
  lemma ContainsOneMark(v: string, isJson: bool, n: nat)
    ensures Count('$', ContainsPattern(v, isJson, MarkText(n))) == Count('$', v) + 1
    ensures Count('$', NotContainsPattern(v, isJson, MarkText(n))) == Count('$', v) + 1
  {
    var search := ContainsSearch(isJson, MarkText(n));
    ContainsSearchOneMark(isJson, n);
    CountMarked('$', v, " LIKE ", search, "");
    CountMarked('$', v, " NOT LIKE ", search, "");
    assert ContainsPattern(v, isJson, MarkText(n)) == v + " LIKE " + search + "";
    assert NotContainsPattern(v, isJson, MarkText(n)) == v + " NOT LIKE " + search + "";
  }

  /** The search text holds the mark's one `$`. */
  lemma ContainsSearchOneMark(isJson: bool, n: nat)
    ensures Count('$', ContainsSearch(isJson, MarkText(n))) == 1
  {
    MarkHasOneDollar(n);
    var m := MarkText(n);
    if isJson {
      CountMarked('$', "", "'\"%' || ", m, " || '%\"'");
      assert ContainsSearch(isJson, m) == "" + "'\"%' || " + m + " || '%\"'";
    } else {
      CountMarked('$', "", "'%' || ", m, " || '%'");
      assert ContainsSearch(isJson, m) == "" + "'%' || " + m + " || '%'";
    }
  }

  /** The prefix tests add exactly one placeholder to the field. */
  lemma BeginsWithOneMark(v: string, isJson: bool, n: nat)
    ensures Count('$', BeginsWithPattern(v, isJson, MarkText(n))) == Count('$', v) + 1
    ensures Count('$', NotBeginsWithPattern(v, isJson, MarkText(n))) == Count('$', v) + 1
  {
    var search := BeginsSearch(isJson, MarkText(n));
    BeginsSearchOneMark(isJson, n);
    CountMarked('$', v, " LIKE ", search, "");
    CountMarked('$', v, " NOT LIKE ", search, "");
    assert BeginsWithPattern(v, isJson, MarkText(n)) == v + " LIKE " + search + "";
    assert NotBeginsWithPattern(v, isJson, MarkText(n)) == v + " NOT LIKE " + search + "";
  }

  /** The search text holds the mark's one `$`. */
  lemma BeginsSearchOneMark(isJson: bool, n: nat)
    ensures Count('$', BeginsSearch(isJson, MarkText(n))) == 1
  {
    MarkHasOneDollar(n);
    var m := MarkText(n);
    if isJson {
      CountMarked('$', "", "'\"' ||  ", m, "  || '%'");
      assert BeginsSearch(isJson, m) == "" + "'\"' ||  " + m + "  || '%'";
    } else {
      CountMarked('$', "", "", m, "  || '%'");
      assert BeginsSearch(isJson, m) == "" + "" + m + "  || '%'";
    }
  }

  /** The suffix test adds exactly one placeholder to the field. */
  lemma EndsWithOneMark(v: string, isJson: bool, n: nat)
    ensures Count('$', EndsWithPattern(v, isJson, MarkText(n))) == Count('$', v) + 1
  {
    MarkHasOneDollar(n);
    var m := MarkText(n);
    if isJson {
      assert EndsWithPattern(v, isJson, m) == v + " LIKE '%' ||  " + m + "  || '\"'";
      CountMarked('$', v, " LIKE '%' ||  ", m, "  || '\"'");
    } else {
      assert EndsWithPattern(v, isJson, m) == v + " LIKE '%' ||  " + m + " ";
      CountMarked('$', v, " LIKE '%' ||  ", m, " ");
    }
  }

  /** The negated suffix test adds exactly one placeholder to the field. */
  lemma NotEndsWithOneMark(v: string, isJson: bool, n: nat)
    ensures Count('$', NotEndsWithPattern(v, isJson, MarkText(n))) == Count('$', v) + 1
  {
    MarkHasOneDollar(n);
    var m := MarkText(n);
    if isJson {
      assert NotEndsWithPattern(v, isJson, m) == v + " NOT LIKE '%' ||  " + m + " || '\"'";
      CountMarked('$', v, " NOT LIKE '%' ||  ", m, " || '\"'");
    } else {
      assert NotEndsWithPattern(v, isJson, m) == v + " NOT LIKE '%' ||  " + m + " ";
      CountMarked('$', v, " NOT LIKE '%' ||  ", m, " ");
    }
  }

  /** The negated substring test is the positive one with ` NOT` put
      right after the field. */
  lemma NotContainsInsertsNot(v: string, isJson: bool, mark: string)
    ensures ContainsPattern(v, isJson, mark)[..|v|] == v
    ensures NotContainsPattern(v, isJson, mark) == v + " NOT" + ContainsPattern(v, isJson, mark)[|v|..]
  {
    var search := ContainsSearch(isJson, mark);
    assert " NOT LIKE " == " NOT" + " LIKE ";
    assert ContainsPattern(v, isJson, mark) == v + (" LIKE " + search);
  }

  /** The negated prefix test is the plain one with ` NOT` inserted right
      after the field. */
  lemma NotBeginsWithInsertsNot(v: string, isJson: bool, mark: string)
    ensures BeginsWithPattern(v, isJson, mark)[..|v|] == v
    ensures NotBeginsWithPattern(v, isJson, mark) == v + " NOT" + BeginsWithPattern(v, isJson, mark)[|v|..]
  {
    var search := BeginsSearch(isJson, mark);
    assert " NOT LIKE " == " NOT" + " LIKE ";
    assert BeginsWithPattern(v, isJson, mark) == v + (" LIKE " + search);
  }

  /** Without JSON, the negated suffix test is the plain one with ` NOT`
      inserted right after the field. */
  lemma NotEndsWithInsertsNot(v: string, mark: string)
    ensures EndsWithPattern(v, false, mark)[..|v|] == v
    ensures NotEndsWithPattern(v, false, mark) == v + " NOT" + EndsWithPattern(v, false, mark)[|v|..]
  {
    var search := "'%' ||  " + mark + " ";
    assert " NOT LIKE " == " NOT" + " LIKE ";
    assert EndsWithPattern(v, false, mark) == v + (" LIKE " + search);
  }

  /** With JSON, the negated suffix test is the plain one with ` NOT`
      inserted right after the field and the space before `|| '"'`
      removed. */
  lemma NotEndsWithJsonDropsSpace(v: string, mark: string)
    ensures var p := EndsWithPattern(v, true, mark);
      && |p| >= |v| + 8 && p[..|v|] == v && p[|p| - 8] == ' '
      && NotEndsWithPattern(v, true, mark) == v + " NOT" + p[|v|..|p| - 8] + p[|p| - 7..]
  {
    var p := EndsWithPattern(v, true, mark);
    var head := " LIKE '%' ||  " + mark;
    assert p == v + head + " " + " || '\"'";
    assert p[|v|..|p| - 8] == head;
    assert p[|p| - 7..] == " || '\"'";
    assert NotEndsWithPattern(v, true, mark) == v + " NOT" + head + " || '\"'";
  }

  /** The JSON name syntax splits at its colons into the marker, the path
      and the declared type. */
  lemma MetaWithType(path: string, tp: string)
    requires ':' !in path && ':' !in tp
    ensures Split(JsonPrefix + path + ":" + tp, ':') == ["json", path, tp]
  {
    assert JsonPrefix + path + ":" + tp == "json" + [':'] + (path + [':'] + tp);
    SplitAfter("json", ':', path + [':'] + tp);
    SplitAfter(path, ':', tp);
  }

  lemma MetaWithoutType(path: string)
    requires ':' !in path
    ensures Split(JsonPrefix + path, ':') == ["json", path]
  {
    assert JsonPrefix + path == "json" + [':'] + path;
    SplitAfter("json", ':', path);
  }

  /** A name with the prefix is flagged and rewritten from its
      colon-separated pieces. */
  lemma JsonName(p: PostgreSQL, rest: string)
    ensures p.IsJson(JsonPrefix + rest) == (JsonRewrite(JsonPrefix + rest, Split(JsonPrefix + rest, ':')), true)
  {
    assert (JsonPrefix + rest)[..|JsonPrefix|] == JsonPrefix;
  }

  /** A name with a declared type splits into the marker, the path and the type. */
  lemma TypedName(p: PostgreSQL, name: string, path: string, tp: string)
    requires ':' !in path && ':' !in tp
    requires name == JsonPrefix + path + ":" + tp
    ensures p.IsJson(name) == (JsonRewrite(name, ["json", path, tp]), true)
  {
    JsonName(p, path + ":" + tp);
    MetaWithType(path, tp);
  }

  /** A name without a declared type splits into the marker and the path. */
  lemma UntypedName(p: PostgreSQL, name: string, path: string)
    requires ':' !in path
    requires name == JsonPrefix + path
    ensures p.IsJson(name) == (JsonRewrite(name, ["json", path]), true)
  {
    JsonName(p, path);
    MetaWithoutType(path);
  }

  /** Splitting `column.key` at its dots when neither piece has one. */
  lemma TwoParts(column: string, key: string)
    requires '.' !in column && '.' !in key
    ensures SplitN(column + "." + key, '.', 3) == [column, key]
  {
    assert column + "." + key == column + ['.'] + key;
    SplitNAfter(column, '.', key, 3);
  }

  /** Splitting `table.column.key` at its first two dots. */
  lemma ThreeParts(table: string, column: string, key: string)
    requires '.' !in table && '.' !in column
    ensures SplitN(table + "." + column + "." + key, '.', 3) == [table, column, key]
  {
    var rest := column + "." + key;
    assert table + "." + column + "." + key == table + ['.'] + rest;
    assert rest == column + ['.'] + key;
    SplitNAfter(table, '.', rest, 3);
    SplitNAfter(column, '.', key, 2);
  }

  /** Without a declared type, a path of two or three parts is extracted as text. */
  lemma UntypedRewrite(name: string, path: string, parts: seq<string>)
    requires SplitN(path, '.', 3) == parts && 2 <= |parts|
    ensures JsonRewrite(name, ["json", path]) == Extraction(parts, "text")
  {
    assert "text"[0] != "date"[0];
  }

  lemma TextCast(e: string)
    ensures e + "')::" + "text" == e + "')::text"
  {
    assert "')::text" == "')::" + "text";
  }

  /** `json:column.key:type` reads `key` from the JSONB `column` and casts
      it to `type`. */
  lemma IsJsonColumnKey(p: PostgreSQL, name: string, column: string, key: string, tp: string)
    requires '.' !in column && '.' !in key
    requires ':' !in column && ':' !in key && ':' !in tp && tp != "date"
    requires name == JsonPrefix + column + "." + key + ":" + tp
    ensures p.IsJson(name) == ("(" + column + "->'" + key + "')::" + tp, true)
  {
    TypedName(p, name, column + "." + key, tp);
    TwoParts(column, key);
  }

  /** Without a declared type the value is read as `text`. */
  lemma IsJsonDefaultsToText(p: PostgreSQL, name: string, column: string, key: string)
    requires '.' !in column && '.' !in key && ':' !in column && ':' !in key
    requires name == JsonPrefix + column + "." + key
    ensures p.IsJson(name) == ("(" + column + "->'" + key + "')::text", true)
  {
    UntypedName(p, name, column + "." + key);
    TwoParts(column, key);
    UntypedRewrite(name, column + "." + key, [column, key]);
    TextCast("(" + column + "->'" + key);
  }

  /** `json:table.column.key:type` qualifies the column with the quoted
      table name; every dot after the second stays inside the key. */
  lemma IsJsonTableColumnKey(p: PostgreSQL, name: string, table: string, column: string, key: string, tp: string)
    requires '.' !in table && '.' !in column
    requires ':' !in table && ':' !in column && ':' !in key && ':' !in tp && tp != "date"
    requires name == JsonPrefix + table + "." + column + "." + key + ":" + tp
    ensures p.IsJson(name) == ("(\"" + table + "\"." + column + "->'" + key + "')::" + tp, true)
  {
    TypedName(p, name, table + "." + column + "." + key, tp);
    ThreeParts(table, column, key);
  }

  /** Without a declared type, the table-qualified value is read as `text`. */
  lemma IsJsonTableDefaultsToText(p: PostgreSQL, name: string, table: string, column: string, key: string)
    requires '.' !in table && '.' !in column
    requires ':' !in table && ':' !in column && ':' !in key
    requires name == JsonPrefix + table + "." + column + "." + key
    ensures p.IsJson(name) == ("(\"" + table + "\"." + column + "->'" + key + "')::text", true)
  {
    UntypedName(p, name, table + "." + column + "." + key);
    ThreeParts(table, column, key);
    UntypedRewrite(name, table + "." + column + "." + key, [table, column, key]);
    TextCast("(\"" + table + "\"." + column + "->'" + key);
  }

  /** A name without a dot after the prefix is flagged as JSON but left
      unchanged. */
  lemma IsJsonColumnOnly(p: PostgreSQL, column: string)
    requires '.' !in column && ':' !in column
    ensures p.IsJson(JsonPrefix + column) == (JsonPrefix + column, true)
  {
    UntypedName(p, JsonPrefix + column, column);
  }

  /** Declaring the type `date` wraps the text extraction in
      `CAST(... AS DATE)`. */
  lemma IsJsonDate(p: PostgreSQL, dated: string, plain: string, path: string)
    requires ':' !in path && '.' in path
    requires dated == JsonPrefix + path + ":date" && plain == JsonPrefix + path
    ensures p.IsJson(dated).0 == "CAST(" + p.IsJson(plain).0 + " AS DATE)"
  {
    TypedName(p, dated, path, "date");
    UntypedName(p, plain, path);
    var parts := SplitN(path, '.', 3);
    assert |parts| >= 2;
    assert "text"[0] != "date"[0];
  }
}
