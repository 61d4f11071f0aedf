/** JSON values as Python sees them. */
module PyJson {
  import opened Wrappers
  import opened Text

  /** Floats and nested values carry the text `str()` gives for them. */
  datatype Json = Null | Bool(b: bool) | Int(n: int) | Float(text: string) | Str(s: string) | Nested(text: string)

  type Row = map<string, Json>

  function PyStr(v: Json): string {
    match v
    case Null => "None"
    case Bool(b) => if b then "True" else "False"
    case Int(n) => IntText(n)
    case Float(text) => text
    case Str(s) => s
    case Nested(text) => text
  }

  /** `row.get(key)` */
  function Get(row: Row, key: string): Json {
    if key in row then row[key] else Null
  }

  /** `str(row.get(key, ""))` */
  function GetText(row: Row, key: string): string {
    if key in row then PyStr(row[key]) else ""
  }

  /** An element of the "value" list of a D365 payload. */
  datatype Entry = Record(row: Row) | NotARecord

  datatype Reply = Failed | NotAList | Entries(entries: seq<Entry>)
}
