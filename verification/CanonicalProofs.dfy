/** The JSON text is read back as the value it was made from, so it determines the value. */
module CanonicalProofs {
  import opened CanonicalJson
  import opened JsonReader

  // ----- string literals

  lemma HexRead(d: int)
    requires 0 <= d < 16
    ensures IsHex(Hex(d)) && HexValue(Hex(d)) == d
  {
  }

  lemma CodeRead(u: Unit, rest: Str)
    ensures ReadUnit(UnicodeEscape(u) + rest) == Got(u, rest)
  {
    var a := u / 16;
    var b := a / 16;
    HexRead(b / 16);
    HexRead(b % 16);
    HexRead(a % 16);
    HexRead(u % 16);
    var t := UnicodeEscape(u) + rest;
    assert t[1..] == [117] + [Hex(b / 16), Hex(b % 16), Hex(a % 16), Hex(u % 16)] + rest;
    assert t[1..][1..] == [Hex(b / 16), Hex(b % 16), Hex(a % 16), Hex(u % 16)] + rest;
    assert t[1..][1..][4..] == rest;
  }

  /** An escaped unit is read back, whatever follows; and no escape looks like a closing quote. */
  lemma EscapeRead(u: Unit, rest: Str)
    ensures |Escape(u)| >= 1 && Escape(u)[0] != 34 && ReadUnit(Escape(u) + rest) == Got(u, rest)
  {
    var t := Escape(u) + rest;
    if |Escape(u)| == 6 {
      CodeRead(u, rest);
    } else if |Escape(u)| == 2 {
      assert t[1..] == [Escape(u)[1]] + rest && t[1..][1..] == rest;
    } else {
      assert t[1..] == rest;
    }
  }

  lemma {:induction false} UnitRead(u: Unit, t: Str, rest: Str)
    requires t != [] && t[0] != 34 && ReadUnit(t) == Got(u, rest)
    ensures ReadString(t) == match ReadString(rest) case Got(s, x) => Got([u] + s, x) case Bad => Bad
  {
  }

  lemma RegroupThree(p: Str, a: Str, b: Str, s: Str)
    ensures p + a + b + s == p + (a + (b + s))
    ensures p + a + b + s == p + (a + b + s)
  {
    assert p + a + b + s == p + a + (b + s);
  }

  lemma FirstTwo(s: Str, x: Str)
    requires |s| >= 2
    ensures s[..2] + x == [s[0]] + ([s[1]] + x)
  {
  }

  /** The first character of a string stands before the text of the rest. */
  lemma {:induction false} BodyUnfold(s: Str, rest: Str)
    requires s != []
    ensures Paired(s) ==> Body(s) + [34] + rest == [s[0]] + ([s[1]] + (Body(s[2..]) + [34] + rest))
    ensures !Paired(s) ==> Body(s) + [34] + rest == Escape(s[0]) + (Body(s[1..]) + [34] + rest)
  {
    if Paired(s) {
      RegroupThree(s[..2], Body(s[2..]), [34], rest);
      FirstTwo(s, Body(s[2..]) + [34] + rest);
    } else {
      RegroupThree(Escape(s[0]), Body(s[1..]), [34], rest);
    }
  }

  lemma {:induction false} LiteralRead(u: Unit, x: Str)
    requires u >= 32 && u != 34 && u != 92
    ensures ReadString([u] + x) == match ReadString(x) case Got(s, r) => Got([u] + s, r) case Bad => Bad
  {
    assert ([u] + x)[1..] == x;
    UnitRead(u, [u] + x, x);
  }

  /** A string literal is read back up to its closing quote. */
  lemma {:induction false} BodyRead(s: Str, rest: Str)
    ensures ReadString(Body(s) + [34] + rest) == Got(s, rest)
    decreases |s|
  {
    if s == [] {
      assert Body(s) + [34] + rest == [34] + rest && ([34] + rest)[1..] == rest;
    } else {
      BodyUnfold(s, rest);
      if Paired(s) {
        var x := Body(s[2..]) + [34] + rest;
        BodyRead(s[2..], rest);
        LiteralRead(s[1], x);
        LiteralRead(s[0], [s[1]] + x);
        assert s == [s[0]] + ([s[1]] + s[2..]);
      } else {
        var x := Body(s[1..]) + [34] + rest;
        BodyRead(s[1..], rest);
        EscapeRead(s[0], x);
        UnitRead(s[0], Escape(s[0]) + x, x);
        assert s == [s[0]] + s[1..];
      }
    }
  }

  /** So a quoted string is read back behind its opening quote. */
  lemma {:induction false} QuoteRead(s: Str, rest: Str)
    ensures (Quote(s) + rest)[0] == 34 && ReadString((Quote(s) + rest)[1..]) == Got(s, rest)
  {
    var x := Body(s) + [34] + rest;
    BodyRead(s, rest);
    RegroupThree([34], Body(s), [34], rest);
    assert ([34] + x)[1..] == x;
  }

  // ----- numbers and words

  /** What may follow a value: nothing, a comma or a closing bracket. */
  predicate Ends(s: Str) {
    s == [] || s[0] in {44, 93, 125}
  }

  lemma {:induction false} NumRead(t: Str, rest: Str)
    requires (forall u | u in t :: NumUnit(u)) && Ends(rest)
    ensures NumLength(t + rest) == |t|
  {
    if t == [] {
      assert t + rest == rest;
    } else {
      assert (t + rest)[1..] == t[1..] + rest;
      NumRead(t[1..], rest);
    }
  }

  lemma {:induction false} SimpleRead(v: Json, rest: Str)
    requires Valid(v) && Ends(rest) && !v.Arr? && !v.Obj?
    ensures ReadValue(Ser(v) + rest) == Got(v, rest)
  {
    var t := Ser(v) + rest;
    assert t[|Ser(v)|..] == rest;
    match v
    case Num(x) =>
      NumRead(x, rest);
      assert x[0] in x && t[..|x|] == x;
    case Text(s) => QuoteRead(s, rest);
    case _ =>
  }

  // ----- values

  /** A value does not begin like the end of a list. */
  lemma {:induction false} ValueStarts(v: Json, rest: Str)
    requires Valid(v)
    ensures |Ser(v)| >= 1 && (Ser(v) + rest)[0] != 93
  {
    if v.Num? {
      assert v.text[0] in v.text;
    }
  }

  lemma {:induction false} ItemsStep(t: Str, first: bool, t1: Str, v: Json, t2: Str, vs: seq<Json>, rest: Str)
    requires t != [] && t[0] != 93 && ReadComma(t, first) == Got((), t1)
    requires ReadValue(t1) == Got(v, t2) && ReadItems(t2, false) == Got(vs, rest)
    ensures ReadItems(t, first) == Got([v] + vs, rest)
  {
  }

  lemma {:induction false} MembersStep(t: Str, first: bool, t1: Str, m: Member, t2: Str, t3: Str,
          ms: seq<Member>, rest: Str)
    requires t != [] && t[0] != 125 && ReadComma(t, first) == Got((), t1) && ReadKey(t1) == Got(m.key, t2)
    requires ReadValue(t2) == Got(m.value, t3) && ReadMembers(t3, false) == Got(ms, rest)
    ensures ReadMembers(t, first) == Got([m] + ms, rest)
  {
  }

  /** The separator in front of an element is read, and what is behind it begins the element. */
  lemma CommaRead(first: bool, x: Str)
    requires x != []
    ensures var t := (if first then [] else [44]) + x;
      t != [] && ReadComma(t, first) == Got((), x) && t[0] == if first then x[0] else 44
  {
    assert [] + x == x && ([44] + x)[1..] == x;
  }

  /** JSON text followed by a separator is read back as the value it was made from. */
  lemma {:induction false} SerRead(v: Json, rest: Str)
    requires Valid(v) && Ends(rest)
    ensures ReadValue(Ser(v) + rest) == Got(v, rest)
    decreases v, 1
  {
    match v
    case Arr(items) =>
      var x := SerItems(items, true);
      assert ReadItems(x + rest, true) == Got(items, rest) by { ItemsRead(items, true, rest); }
      assert ([91] + x + rest)[1..] == x + rest;
    case Obj(ms) =>
      var x := SerMembers(ms, true);
      assert ReadMembers(x + rest, true) == Got(ms, rest) by { MembersRead(ms, true, rest); }
      assert ([123] + x + rest)[1..] == x + rest;
    case _ => SimpleRead(v, rest);
  }

  lemma {:induction false} ItemsUnfold(items: seq<Json>, first: bool, rest: Str)
    requires items != []
    ensures SerItems(items, first) + rest ==
              (if first then [] else [44]) + (Ser(items[0]) + (SerItems(items[1..], false) + rest))
  {
    RegroupThree(if first then [] else [44], Ser(items[0]), SerItems(items[1..], false), rest);
  }

  lemma HeadAndTail<T>(s: seq<T>)
    requires s != []
    ensures s == [s[0]] + s[1..]
  {
  }

  lemma {:induction false} ItemsRead(items: seq<Json>, first: bool, rest: Str)
    requires forall x | x in items :: Valid(x)
    ensures ReadItems(SerItems(items, first) + rest, first) == Got(items, rest)
    decreases items, 0
  {
    if items == [] {
      assert [93] + rest == SerItems(items, first) + rest && ([93] + rest)[1..] == rest;
    } else {
      var b := SerItems(items[1..], false) + rest;
      var x := Ser(items[0]) + b;
      ItemsRead(items[1..], false, rest);
      assert ReadValue(x) == Got(items[0], b) && x != [] && x[0] != 93 by {
        ItemsEnd(items[1..], rest);
        SerRead(items[0], b);
        ValueStarts(items[0], b);
      }
      CommaRead(first, x);
      ItemsStep((if first then [] else [44]) + x, first, x, items[0], b, items[1..], rest);
      ItemsUnfold(items, first, rest);
      HeadAndTail(items);
    }
  }

  lemma {:induction false} ItemsEnd(items: seq<Json>, rest: Str)
    ensures Ends(SerItems(items, false) + rest)
  {
  }

  lemma {:induction false} MembersEnd(ms: seq<Member>, rest: Str)
    ensures Ends(SerMembers(ms, false) + rest)
  {
  }

  lemma {:induction false} KeyRead(key: Str, rest: Str)
    ensures ReadKey(Quote(key) + ([58] + rest)) == Got(key, rest)
  {
    QuoteRead(key, [58] + rest);
    assert ([58] + rest)[1..] == rest;
  }

  lemma Regroup(p: Str, q: Str, c: Str, v: Str, r: Str, s: Str)
    ensures p + q + c + v + r + s == p + (q + (c + (v + (r + s))))
  {
    RegroupThree(p + q + c, v, r, s);
    RegroupThree(p, q, c, v + (r + s));
  }

  lemma {:induction false} MembersUnfold(ms: seq<Member>, first: bool, rest: Str)
    requires ms != []
    ensures SerMembers(ms, first) + rest ==
              (if first then [] else [44])
              + (Quote(ms[0].key) + ([58] + (Ser(ms[0].value) + (SerMembers(ms[1..], false) + rest))))
  {
    var sep := if first then [] else [44];
    Regroup(sep, Quote(ms[0].key), [58], Ser(ms[0].value), SerMembers(ms[1..], false), rest);
  }

  lemma {:induction false} MembersRead(ms: seq<Member>, first: bool, rest: Str)
    requires forall m | m in ms :: Valid(m.value)
    ensures ReadMembers(SerMembers(ms, first) + rest, first) == Got(ms, rest)
    decreases ms, 0
  {
    if ms == [] {
      assert [125] + rest == SerMembers(ms, first) + rest && ([125] + rest)[1..] == rest;
    } else {
      var b := SerMembers(ms[1..], false) + rest;
      var a := Ser(ms[0].value) + b;
      var x := Quote(ms[0].key) + ([58] + a);
      assert ms[0] in ms;
      MembersRead(ms[1..], false, rest);
      assert ReadValue(a) == Got(ms[0].value, b) by {
        MembersEnd(ms[1..], rest);
        SerRead(ms[0].value, b);
      }
      assert ReadKey(x) == Got(ms[0].key, a) && x != [] && x[0] == 34 by { KeyRead(ms[0].key, a); }
      CommaRead(first, x);
      MembersStep((if first then [] else [44]) + x, first, x, ms[0], a, b, ms[1..], rest);
      MembersUnfold(ms, first, rest);
      HeadAndTail(ms);
    }
  }

  // ----- what follows

  /** The whole text is read back as the value. */
  lemma {:induction false} SerReadBack(v: Json)
    requires Valid(v)
    ensures ReadJson(Ser(v)) == Got(v, [])
  {
    assert Ser(v) + [] == Ser(v);
    SerRead(v, []);
  }

  /** JSON text is uniquely readable: equal texts followed by separators come from equal values. */
  lemma {:induction false} SerPrefix(a: Json, b: Json, s: Str, t: Str)
    requires Valid(a) && Valid(b) && Ends(s) && Ends(t) && Ser(a) + s == Ser(b) + t
    ensures a == b && s == t
  {
    SerRead(a, s);
    SerRead(b, t);
  }

  /** JSON text is injective on values with ordered members. */
  lemma {:induction false} SerInjective(a: Json, b: Json)
    requires Valid(a) && Valid(b) && Ser(a) == Ser(b)
    ensures a == b
  {
    SerReadBack(a);
    SerReadBack(b);
  }

  // ----- no NUL in the text

  lemma {:induction false} BodyClean(s: Str)
    ensures 0 !in Body(s)
    decreases |s|
  {
    if s != [] {
      if Paired(s) {
        BodyClean(s[2..]);
      } else {
        BodyClean(s[1..]);
      }
    }
  }

  /** NUL is a control character, so it is escaped in strings; it occurs nowhere else. */
  lemma {:induction false} SerClean(v: Json)
    requires Valid(v)
    ensures 0 !in Ser(v)
    decreases v, 1
  {
    match v
    case Text(s) => BodyClean(s);
    case Arr(items) => ItemsClean(items, true);
    case Obj(ms) => MembersClean(ms, true);
    case _ =>
  }

  lemma {:induction false} ItemsClean(items: seq<Json>, first: bool)
    requires forall x | x in items :: Valid(x)
    ensures 0 !in SerItems(items, first)
    decreases items, 0
  {
    if items != [] {
      SerClean(items[0]);
      ItemsClean(items[1..], false);
    }
  }

  lemma {:induction false} MembersClean(ms: seq<Member>, first: bool)
    requires forall m | m in ms :: Valid(m.value)
    ensures 0 !in SerMembers(ms, first)
    decreases ms, 0
  {
    if ms != [] {
      BodyClean(ms[0].key);
      SerClean(ms[0].value);
      MembersClean(ms[1..], false);
    }
  }
}
