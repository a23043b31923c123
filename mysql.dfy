/**
 * The MySQL dialect driver (mysql.go): a stateless value whose
 * placeholder is always `?` and which has no JSON field addressing.
 */
module MySql {
  import opened Text

  /** The placeholder token of the dialect. */
  const Placeholder := "?"

  /** The dialect value. It has no fields, so every call with the same
      arguments gives the same text. */
  datatype MySQL = MySQL {

    /** The next placeholder: always `?`. */
    function Mark(): (r: string)
      ensures r == Placeholder
    {
      Placeholder
    }

    /** MySQL has no JSON field syntax: the name is kept and flagged false. */
    function IsJson(name: string): (r: (string, bool))
      ensures r.0 == name && !r.1
    {
      (name, false)
    }

    /** Substring test with `INSTR`. */
    function Contains(v: string, isJson: bool): (r: string)
    {
      "INSTR(" + v + ", " + Mark() + ") > 0"
    }

    /** Negated substring test. */
    function NotContains(v: string, isJson: bool): (r: string)
    {
      "INSTR(" + v + ", " + Mark() + ") = 0"
    }

    /** The pattern of the prefix tests: `CONCAT(?, '%')`. */
    function BeginsSearch(): string
    {
      "CONCAT(" + Mark() + ", '%')"
    }

    /** The pattern of the suffix tests: `CONCAT('%', ?)`. */
    function EndsSearch(): string
    {
      "CONCAT('%', " + Mark() + ")"
    }

    /** Prefix test. */
    function BeginsWith(v: string, isJson: bool): (r: string)
    {
      v + " LIKE " + BeginsSearch()
    }

    function NotBeginsWith(v: string, isJson: bool): (r: string)
    {
      v + " NOT LIKE " + BeginsSearch()
    }

    /** Suffix test. */
    function EndsWith(v: string, isJson: bool): (r: string)
    {
      v + " LIKE " + EndsSearch()
    }

    function NotEndsWith(v: string, isJson: bool): (r: string)
    {
      v + " NOT LIKE " + EndsSearch()
    }
  }

  /** Every pattern builder adds exactly one placeholder to those already in
      the field expression. */
  lemma OnePlaceholderEach(m: MySQL, v: string, isJson: bool)
    ensures Count('?', m.Contains(v, isJson)) == Count('?', v) + 1
    ensures Count('?', m.NotContains(v, isJson)) == Count('?', v) + 1
    ensures Count('?', m.BeginsWith(v, isJson)) == Count('?', v) + 1
    ensures Count('?', m.NotBeginsWith(v, isJson)) == Count('?', v) + 1
    ensures Count('?', m.EndsWith(v, isJson)) == Count('?', v) + 1
    ensures Count('?', m.NotEndsWith(v, isJson)) == Count('?', v) + 1
  {
    CountAround('?', "INSTR(", v, ", ", ") > 0");
    CountAround('?', "INSTR(", v, ", ", ") = 0");
    SearchesHoldOne(m);
    CountMarked('?', v, " LIKE ", m.BeginsSearch(), "");
    CountMarked('?', v, " NOT LIKE ", m.BeginsSearch(), "");
    CountMarked('?', v, " LIKE ", m.EndsSearch(), "");
    CountMarked('?', v, " NOT LIKE ", m.EndsSearch(), "");
    assert m.BeginsWith(v, isJson) == v + " LIKE " + m.BeginsSearch() + "";
    assert m.NotBeginsWith(v, isJson) == v + " NOT LIKE " + m.BeginsSearch() + "";
    assert m.EndsWith(v, isJson) == v + " LIKE " + m.EndsSearch() + "";
    assert m.NotEndsWith(v, isJson) == v + " NOT LIKE " + m.EndsSearch() + "";
  }

  /** Each search pattern holds the one placeholder. */
  lemma SearchesHoldOne(m: MySQL)
    ensures Count('?', m.BeginsSearch()) == 1
    ensures Count('?', m.EndsSearch()) == 1
  {
    CountAfter('?', "", "CONCAT(", ", '%')");
    assert m.BeginsSearch() == "" + "CONCAT(" + ['?'] + ", '%')";
    CountAfter('?', "", "CONCAT('%', ", ")");
    assert m.EndsSearch() == "" + "CONCAT('%', " + ['?'] + ")";
  }

  /** The negated prefix test is the plain one with ` NOT` inserted right
      after the field. */
  lemma NotBeginsWithInsertsNot(m: MySQL, v: string, isJson: bool)
    ensures m.BeginsWith(v, isJson)[..|v|] == v
    ensures m.NotBeginsWith(v, isJson) == v + " NOT" + m.BeginsWith(v, isJson)[|v|..]
  {
    assert " NOT LIKE " == " NOT" + " LIKE ";
    assert m.BeginsWith(v, isJson) == v + (" LIKE " + m.BeginsSearch());
  }

  /** The negated suffix test is the plain one with ` NOT` inserted right
      after the field. */
  lemma NotEndsWithInsertsNot(m: MySQL, v: string, isJson: bool)
    ensures m.EndsWith(v, isJson)[..|v|] == v
    ensures m.NotEndsWith(v, isJson) == v + " NOT" + m.EndsWith(v, isJson)[|v|..]
  {
    assert " NOT LIKE " == " NOT" + " LIKE ";
    assert m.EndsWith(v, isJson) == v + (" LIKE " + m.EndsSearch());
  }

  /** The JSON flag never changes the text. */
  lemma JsonFlagIgnored(m: MySQL, v: string)
    ensures m.Contains(v, true) == m.Contains(v, false)
    ensures m.NotContains(v, true) == m.NotContains(v, false)
    ensures m.BeginsWith(v, true) == m.BeginsWith(v, false)
    ensures m.NotBeginsWith(v, true) == m.NotBeginsWith(v, false)
    ensures m.EndsWith(v, true) == m.EndsWith(v, false)
    ensures m.NotEndsWith(v, true) == m.NotEndsWith(v, false)
  {
  }
}
