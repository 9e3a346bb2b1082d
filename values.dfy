/**
 * The dynamic values the Python code passes around: JSON-like values,
 * metadata dictionaries and LangChain's Document (page_content + metadata).
 */
module Values {
  import Text

  datatype Option<+T> = None | Some(value: T)

  /** A Python value as it appears in metadata, response dictionaries and LLM output. */
  datatype Value =
    | Str(s: string)
    | Int(i: int)
    | Bool(b: bool)
    | NoneValue
    | List(items: seq<Value>)
    | Dict(entries: map<string, Value>)

  /** A metadata dictionary (insertion order is not modelled). */
  type Metadata = map<string, Value>

  /** LangChain's Document: the retrievable unit (a chunk). */
  datatype Document = Document(content: string, metadata: Metadata)

  /** Python's dict.get(key, default). */
  function Get(md: Metadata, key: string, default: Value): (v: Value)
    ensures key in md ==> v == md[key]
    ensures key !in md ==> v == default
  {
    if key in md then md[key] else default
  }

  /** f"{n}" for any integer. */
  function IntToString(n: int): (s: string)
    ensures n >= 0 ==> s == Text.NatToString(n)
    ensures n < 0 ==> s == "-" + Text.NatToString(-n)
  {
    if n >= 0 then Text.NatToString(n) else "-" + Text.NatToString(-n)
  }

  /**
   * str(v) as an f-string renders it. Exact for strings, integers, booleans
   * and None; lists and dictionaries are abbreviated.
   */
  function Display(v: Value): string
  {
    match v
    case Str(s) => s
    case Int(i) => IntToString(i)
    case Bool(b) => if b then "True" else "False"
    case NoneValue => "None"
    case List(_) => "[...]"
    case Dict(_) => "{...}"
  }
}
