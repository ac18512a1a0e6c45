/** The loosely-typed values that flow through the builder: bound
    arguments, parameter maps, scanned columns and record fields. */
module Values {
  import opened GoStrings

  /** A Go `interface{}` value of one of the kinds the builder inspects. */
  datatype Value =
    | Null                 // nil
    | Bool(b: bool)
    | Int(i: int)          // Go int (64 bits on the platforms the code targets)
    | Int64(i: int)        // Go int64
    | Text(s: string)      // Go string
    | Bytes(data: string)  // Go []byte, one character (below 256) per byte
    | Float(text: string)  // float32 or float64, kept as the text fmt prints for it
    | Other(text: string)  // any other driver type, kept as the text fmt prints for it

  /** strconv.FormatBool. */
  function FormatBool(b: bool): string
  {
    if b then "true" else "false"
  }

  /** The decimal values of the bytes, separated by single spaces. */
  function ByteList(data: string): string
    decreases |data|
  {
    if |data| == 0 then ""
    else if |data| == 1 then Itoa(data[0] as int)
    else ByteList(data[..|data| - 1]) + " " + Itoa(data[|data| - 1] as int)
  }

  /** fmt.Sprintf("%v", v). */
  function FormatV(v: Value): string
  {
    match v
    case Null => "<nil>"
    case Bool(b) => FormatBool(b)
    case Int(i) => Itoa(i)
    case Int64(i) => Itoa(i)
    case Text(s) => s
    case Bytes(data) => "[" + ByteList(data) + "]"
    case Float(text) => text
    case Other(text) => text
  }
}
