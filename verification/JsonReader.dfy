/** A reader of compact JSON text (RFC 8259 without insignificant white space), written apart from the serializer. */
module JsonReader {
  import opened CanonicalJson

  datatype Read<T> = Got(value: T, rest: Str) | Bad

  // ----- strings

  predicate IsHex(u: Unit) {
    48 <= u <= 57 || 65 <= u <= 70 || 97 <= u <= 102
  }

  function HexValue(u: Unit): (d: int)
    requires IsHex(u)
    ensures 0 <= d < 16
  {
    if u <= 57 then u - 48 else if u <= 70 then u - 55 else u - 87
  }

  /** The four hexadecimal digits at the front. */
  function ReadCode(t: Str): Read<Unit> {
    if |t| >= 4 && IsHex(t[0]) && IsHex(t[1]) && IsHex(t[2]) && IsHex(t[3]) then
      Got(((HexValue(t[0]) * 16 + HexValue(t[1])) * 16 + HexValue(t[2])) * 16 + HexValue(t[3]), t[4..])
    else Bad
  }

  /** One escape, behind its backslash: section 7 of RFC 8259. */
  function ReadEscape(t: Str): (r: Read<Unit>)
    ensures r.Got? ==> |r.rest| < |t|
  {
    if t == [] then Bad
    else match t[0]
      case 34 => Got(34, t[1..])
      case 92 => Got(92, t[1..])
      case 47 => Got(47, t[1..])
      case 98 => Got(8, t[1..])
      case 102 => Got(12, t[1..])
      case 110 => Got(10, t[1..])
      case 114 => Got(13, t[1..])
      case 116 => Got(9, t[1..])
      case 117 => ReadCode(t[1..])
      case _ => Bad
  }

  function ReadUnit(t: Str): (r: Read<Unit>)
    ensures r.Got? ==> |r.rest| < |t|
  {
    if t == [] || t[0] < 32 then Bad
    else if t[0] == 92 then ReadEscape(t[1..])
    else Got(t[0], t[1..])
  }

  /** The rest of a string literal, up to and with its closing quote. */
  function ReadString(t: Str): (r: Read<Str>)
    ensures r.Got? ==> |r.rest| < |t|
    decreases |t|
  {
    if t != [] && t[0] == 34 then Got([], t[1..])
    else match ReadUnit(t)
      case Bad => Bad
      case Got(u, rest) =>
        match ReadString(rest)
        case Bad => Bad
        case Got(s, rest') => Got([u] + s, rest')
  }

  // ----- values

  /** The longest run of number characters. */
  function NumLength(t: Str): (n: nat)
    ensures n <= |t|
  {
    if t != [] && NumUnit(t[0]) then 1 + NumLength(t[1..]) else 0
  }

  function ReadWord(t: Str): Read<Json> {
    if [110, 117, 108, 108] <= t then Got(Null, t[4..])
    else if [116, 114, 117, 101] <= t then Got(Bool(true), t[4..])
    else if [102, 97, 108, 115, 101] <= t then Got(Bool(false), t[5..])
    else Bad
  }

  function ReadValue(t: Str): (r: Read<Json>)
    ensures r.Got? ==> |r.rest| < |t|
    decreases |t|, 1
  {
    if t == [] then Bad
    else if t[0] == 34 then
      match ReadString(t[1..]) case Got(s, rest) => Got(Text(s), rest) case Bad => Bad
    else if t[0] == 91 then
      match ReadItems(t[1..], true) case Got(items, rest) => Got(Arr(items), rest) case Bad => Bad
    else if t[0] == 123 then
      match ReadMembers(t[1..], true) case Got(ms, rest) => Got(Obj(ms), rest) case Bad => Bad
    else if NumUnit(t[0]) then Got(Num(t[..NumLength(t)]), t[NumLength(t)..])
    else ReadWord(t)
  }

  /** A comma between two elements, none before the first. */
  function ReadComma(t: Str, first: bool): Read<()> {
    if first then Got((), t) else if t != [] && t[0] == 44 then Got((), t[1..]) else Bad
  }

  function ReadItems(t: Str, first: bool): (r: Read<seq<Json>>)
    ensures r.Got? ==> |r.rest| < |t|
    decreases |t|, 2
  {
    if t != [] && t[0] == 93 then Got([], t[1..])
    else match ReadComma(t, first)
      case Bad => Bad
      case Got(_, t1) =>
        match ReadValue(t1)
        case Bad => Bad
        case Got(v, t2) =>
          match ReadItems(t2, false)
          case Bad => Bad
          case Got(vs, rest) => Got([v] + vs, rest)
  }

  /** A key with its quotes and colon. */
  function ReadKey(t: Str): (r: Read<Str>)
    ensures r.Got? ==> |r.rest| < |t|
  {
    if t == [] || t[0] != 34 then Bad
    else match ReadString(t[1..])
      case Bad => Bad
      case Got(key, rest) => if rest != [] && rest[0] == 58 then Got(key, rest[1..]) else Bad
  }

  function ReadMembers(t: Str, first: bool): (r: Read<seq<Member>>)
    ensures r.Got? ==> |r.rest| < |t|
    decreases |t|, 2
  {
    if t != [] && t[0] == 125 then Got([], t[1..])
    else match ReadComma(t, first)
      case Bad => Bad
      case Got(_, t1) =>
        match ReadKey(t1)
        case Bad => Bad
        case Got(key, t2) =>
          match ReadValue(t2)
          case Bad => Bad
          case Got(v, t3) =>
            match ReadMembers(t3, false)
            case Bad => Bad
            case Got(ms, rest) => Got([Member(key, v)] + ms, rest)
  }

  /** The value the whole text stands for. */
  function ReadJson(t: Str): Read<Json> {
    match ReadValue(t) case Got(v, rest) => if rest == [] then Got(v, []) else Bad case Bad => Bad
  }
}
