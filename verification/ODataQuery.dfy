/** Building OData query options (`query.py`): identifiers, string literals, equality filters. */
module ODataQuery {
  import opened Wrappers
  import opened Text

  datatype QueryError = BadIdentifier | BadString | NoExpression | BadTop | BadSkip

  predicate IsNameStart(c: char) {
    'A' <= c <= 'Z' || 'a' <= c <= 'z' || c == '_'
  }

  predicate IsNamePart(c: char) {
    IsNameStart(c) || '0' <= c <= '9' || c == '.' || c == '/'
  }

  predicate IsIdentifier(s: string) {
    s != "" && IsNameStart(s[0]) && forall c :: c in s ==> IsNamePart(c)
  }

  /** Letters and the underscore, by code. */
  predicate IsLetterCode(n: int) {
    65 <= n <= 90 || 97 <= n <= 122 || n == 95
  }

  /** An identifier starts with a letter or underscore; digits, the dot and the slash may follow. */
  lemma IdentifierExactly(s: string)
    ensures IsIdentifier(s) <==>
      s != "" && IsLetterCode(s[0] as int)
      && forall c :: c in s ==> IsLetterCode(c as int) || 48 <= c as int <= 57 || c as int == 46 || c as int == 47
  {
  }

  function ValidateIdentifier(s: string): Result<string, QueryError> {
    if IsIdentifier(s) then Ok(s) else Err(BadIdentifier)
  }

  predicate IsPrintable(value: string) {
    '\0' !in value && '\r' !in value && '\n' !in value
  }

  function DoubleQuotes(s: string): string {
    if s == "" then ""
    else if s[0] == '\'' then "''" + DoubleQuotes(s[1..])
    else [s[0]] + DoubleQuotes(s[1..])
  }

  function QuoteString(value: string): Result<string, QueryError> {
    if IsPrintable(value) then Ok("'" + DoubleQuotes(value) + "'") else Err(BadString)
  }

  datatype Equality = Equality(field: string, value: string)

  function Equals(e: Equality): Result<string, QueryError> {
    if ValidateIdentifier(e.field).Err? then Err(BadIdentifier)
    else if QuoteString(e.value).Err? then Err(BadString)
    else Ok(e.field + " eq " + QuoteString(e.value).value)
  }

  function Parenthesised(expressions: seq<string>): string
    requires expressions != []
  {
    if |expressions| == 1 then "(" + expressions[0] + ")"
    else "(" + expressions[0] + ") and " + Parenthesised(expressions[1..])
  }

  function AndAll(expressions: seq<string>): Result<string, QueryError> {
    if expressions == [] || "" in expressions then Err(NoExpression)
    else Ok(Parenthesised(expressions))
  }

  /** The equality expressions of a filter, or the first error met while building them. */
  function EqualsAll(es: seq<Equality>): Result<seq<string>, QueryError> {
    if es == [] then Ok([])
    else
      var first := Equals(es[0]);
      if first.Err? then Err(first.error)
      else
        var rest := EqualsAll(es[1..]);
        if rest.Err? then rest else Ok([first.value] + rest.value)
  }

  /** `and_all(equals(f1, v1), equals(f2, v2), ...)` */
  function Filter(es: seq<Equality>): Result<string, QueryError> {
    var texts := EqualsAll(es);
    if texts.Err? then Err(texts.error) else AndAll(texts.value)
  }
}
