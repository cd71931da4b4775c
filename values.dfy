/**
 * The values the dumper handles: what SQLite hands back for a cell, what
 * Python's `json.loads` builds, and the field a row ends up holding.
 */
module Values {
  import opened Dicts

  /** A decoded JSON document. Objects are dicts, so a repeated key keeps its last value. */
  datatype JsonValue =
    | JNull
    | JBool(b: bool)
    | JInt(i: int)
    | JFloat(f: real)
    | JString(s: string)
    | JArray(items: seq<JsonValue>)
    | JObject(members: map<string, JsonValue>)

  /** A cell as Python's sqlite3 module returns it: None, int, float, str or bytes. */
  datatype Cell =
    | SqlNull
    | SqlInteger(i: int)
    | SqlReal(r: real)
    | SqlText(s: string)
    | SqlBlob(bytes: seq<bv8>)

  /** Python truthiness of a cell: None, 0, 0.0, "" and b"" are false. */
  predicate Truthy(c: Cell)
    ensures !Truthy(c) <==>
      c == SqlNull || c == SqlInteger(0) || c == SqlReal(0.0) || c == SqlText("") || c == SqlBlob([])
  {
    match c
    case SqlNull => false
    case SqlInteger(i) => i != 0
    case SqlReal(r) => r != 0.0
    case SqlText(s) => s != ""
    case SqlBlob(b) => b != []
  }

  /**
   * What a call of `json.loads` comes to: a value, a `JSONDecodeError`, or
   * some other exception (a `TypeError` for a number, a `UnicodeDecodeError`
   * for undecodable bytes).
   */
  datatype Loaded = Parsed(value: JsonValue) | DecodeFailed | Raised

  /** The JSON parser itself, on text and on bytes. */
  datatype Decoder = Decoder(text: string -> Loaded, bytes: seq<bv8> -> Loaded)

  /** `json.loads(value)`: only `str` and `bytes` are parsed; anything else is a `TypeError`. */
  function Loads(dec: Decoder, c: Cell): (loaded: Loaded)
    ensures c.SqlNull? || c.SqlInteger? || c.SqlReal? ==> loaded == Raised
    ensures c.SqlText? ==> loaded == dec.text(c.s)
    ensures c.SqlBlob? ==> loaded == dec.bytes(c.bytes)
  {
    match c
    case SqlText(s) => dec.text(s)
    case SqlBlob(b) => dec.bytes(b)
    case _ => Raised
  }

  /** A row's value: a cell passed through, or the structure decoded from it. */
  datatype Field = Stored(cell: Cell) | Decoded(json: JsonValue)

  /** One fetched record: column name to field, in column order. */
  type Row = Dict<Field>
}
