/**
  The canonical text that is signed: object members sorted at every depth, then JSON text. Strings are sequences
  of UTF-16 code units, as they are in the source language.
 */
module CanonicalJson {
  type Unit = u: int | 0 <= u < 65536
  type Str = seq<Unit>

  datatype Member = Member(key: Str, value: Json)

  /** A number is kept as the text the number-to-string conversion gives it. */
  datatype Json =
    | Null
    | Bool(b: bool)
    | Num(text: Str)
    | Text(s: Str)
    | Arr(items: seq<Json>)
    | Obj(members: seq<Member>)

  /** Digits, sign, point and exponent marks. */
  predicate NumUnit(u: Unit) {
    48 <= u <= 57 || u in {43, 45, 46, 69, 101}
  }

  predicate IsNumText(t: Str) {
    t != [] && forall u | u in t :: NumUnit(u)
  }

  ghost predicate DistinctKeys(ms: seq<Member>) {
    forall i, j | 0 <= i < j < |ms| :: ms[i].key != ms[j].key
  }

  /** Numbers are finite, and an object has each key once. */
  ghost predicate Valid(v: Json) {
    match v
    case Num(t) => IsNumText(t)
    case Arr(items) => forall x | x in items :: Valid(x)
    case Obj(ms) => DistinctKeys(ms) && forall m | m in ms :: Valid(m.value)
    case _ => true
  }

  // ----- key order

  predicate LexLess(a: Str, b: Str) {
    b != [] && (a == [] || a[0] < b[0] || (a[0] == b[0] && LexLess(a[1..], b[1..])))
  }

  const MAX_INDEX: Str := [52, 50, 57, 52, 57, 54, 55, 50, 57, 52]

  /** An array index in canonical decimal form, at most 2^32 - 2: section 6.1.7 of ECMA-262. */
  predicate IsIndex(k: Str) {
    && 1 <= |k| <= 10 && (forall u | u in k :: 48 <= u <= 57)
    && (|k| == 1 || k[0] != 48)
    && (|k| == 10 ==> !LexLess(MAX_INDEX, k))
  }

  /** The order in which the members of the rebuilt object are enumerated: indices by value, then the other keys
      in the order they were inserted, which is by code unit. Section 10.1.11.1 of ECMA-262. */
  predicate KeyLess(a: Str, b: Str) {
    if IsIndex(a) != IsIndex(b) then IsIndex(a)
    else if IsIndex(a) && |a| != |b| then |a| < |b|
    else LexLess(a, b)
  }

  // ----- sorting

  /** Assigning this key sets the prototype of the rebuilt object instead of a member. */
  const PROTO: Str := [95, 95, 112, 114, 111, 116, 111, 95, 95]

  function Insert(m: Member, ms: seq<Member>): seq<Member> {
    if ms == [] || KeyLess(m.key, ms[0].key) then [m] + ms else [ms[0]] + Insert(m, ms[1..])
  }

  function SortValue(v: Json): Json
    decreases v, 1
  {
    match v
    case Arr(items) => Arr(SortItems(items))
    case Obj(ms) => Obj(SortMembers(ms))
    case _ => v
  }

  function SortItems(items: seq<Json>): (r: seq<Json>)
    ensures |r| == |items| && forall i | 0 <= i < |items| :: r[i] == SortValue(items[i])
    decreases items, 0
  {
    if items == [] then [] else [SortValue(items[0])] + SortItems(items[1..])
  }

  function SortMembers(ms: seq<Member>): seq<Member>
    decreases ms, 0
  {
    if ms == [] then []
    else if ms[0].key == PROTO then SortMembers(ms[1..])
    else Insert(Member(ms[0].key, SortValue(ms[0].value)), SortMembers(ms[1..]))
  }

  // ----- JSON text

  function Hex(d: int): Unit
    requires 0 <= d < 16
  {
    if d < 10 then 48 + d else 87 + d
  }

  function UnicodeEscape(u: Unit): Str {
    var a := u / 16;
    var b := a / 16;
    [92, 117, Hex(b / 16), Hex(b % 16), Hex(a % 16), Hex(u % 16)]
  }

  predicate High(u: Unit) {
    0xD800 <= u <= 0xDBFF
  }

  predicate Low(u: Unit) {
    0xDC00 <= u <= 0xDFFF
  }

  /** One code unit that is not half of a surrogate pair: section 25.5.2.3 of ECMA-262. */
  function Escape(u: Unit): Str {
    if u == 8 then [92, 98]
    else if u == 9 then [92, 116]
    else if u == 10 then [92, 110]
    else if u == 12 then [92, 102]
    else if u == 13 then [92, 114]
    else if u == 34 then [92, 34]
    else if u == 92 then [92, 92]
    else if u < 32 || High(u) || Low(u) then UnicodeEscape(u)
    else [u]
  }

  predicate Paired(s: Str) {
    |s| >= 2 && High(s[0]) && Low(s[1])
  }

  function Body(s: Str): Str {
    if s == [] then [] else if Paired(s) then s[..2] + Body(s[2..]) else Escape(s[0]) + Body(s[1..])
  }

  function Quote(s: Str): Str {
    [34] + Body(s) + [34]
  }

  function Ser(v: Json): Str
    decreases v, 1
  {
    match v
    case Null => [110, 117, 108, 108]
    case Bool(b) => if b then [116, 114, 117, 101] else [102, 97, 108, 115, 101]
    case Num(t) => t
    case Text(s) => Quote(s)
    case Arr(items) => [91] + SerItems(items, true)
    case Obj(ms) => [123] + SerMembers(ms, true)
  }

  /** The items from here on, with their separators and the closing bracket. */
  function SerItems(items: seq<Json>, first: bool): Str
    decreases items, 0
  {
    if items == [] then [93] else (if first then [] else [44]) + Ser(items[0]) + SerItems(items[1..], false)
  }

  function SerMembers(ms: seq<Member>, first: bool): Str
    decreases ms, 0
  {
    if ms == [] then [125]
    else (if first then [] else [44]) + Quote(ms[0].key) + [58] + Ser(ms[0].value) + SerMembers(ms[1..], false)
  }

  function StableStringify(v: Json): Str {
    Ser(SortValue(v))
  }

  // ----- the signed inputs

  const ELICITATION_RESPONSE: Str :=
    [101, 108, 105, 99, 105, 116, 97, 116, 105, 111, 110, 95, 114, 101, 115, 112, 111, 110, 115, 101]
  const ABORT_REQUEST: Str := [97, 98, 111, 114, 116, 95, 114, 101, 113, 117, 101, 115, 116]

  function ResponseCanonical(sessionId: Str, reqId: Str, result: Json): Str {
    ELICITATION_RESPONSE + [0] + sessionId + [0] + reqId + [0] + StableStringify(result)
  }

  function AbortCanonical(sessionId: Str, nonce: Str): Str {
    ABORT_REQUEST + [0] + sessionId + [0] + nonce
  }
}
