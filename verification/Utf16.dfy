/** UTF-16 code units of Unicode text, after sections 2.1 and 2.2 of RFC 2781. */
module Utf16 {
  import opened Options

  type Scalar = c: nat | c < 0x11_0000 && !(0xD800 <= c < 0xE000)
  type Unit = u: nat | u < 0x1_0000

  function Units(c: Scalar): (r: seq<Unit>)
    ensures 1 <= |r| <= 2
  {
    if c < 0x1_0000 then [c] else [0xD800 + (c - 0x1_0000) / 0x400, 0xDC00 + (c - 0x1_0000) % 0x400]
  }

  function Encode(text: seq<Scalar>): seq<Unit> {
    if text == [] then [] else Units(text[0]) + Encode(text[1..])
  }

  predicate High(u: Unit) { 0xD800 <= u < 0xDC00 }

  predicate Low(u: Unit) { 0xDC00 <= u < 0xE000 }

  function Joined(high: Unit, low: Unit): (c: Scalar)
    requires High(high) && Low(low)
    ensures c >= 0x1_0000 && Units(c) == [high, low]
  {
    0x1_0000 + (high as int - 0xD800) * 0x400 + (low as int - 0xDC00)
  }

  lemma JoinedUnits(c: Scalar)
    requires c >= 0x1_0000
    ensures High(Units(c)[0]) && Low(Units(c)[1]) && Joined(Units(c)[0], Units(c)[1]) == c
  {
  }

  function Decode(units: seq<Unit>): Option<seq<Scalar>> {
    if units == [] then Some([])
    else if High(units[0]) && |units| >= 2 && Low(units[1]) then
      Cons(Joined(units[0], units[1]), Decode(units[2..]))
    else if High(units[0]) || Low(units[0]) then None
    else Cons(units[0], Decode(units[1..]))
  }

  function Cons(c: Scalar, rest: Option<seq<Scalar>>): Option<seq<Scalar>> {
    if rest.None? then None else Some([c] + rest.value)
  }

  lemma {:induction false} DecodeEncode(text: seq<Scalar>)
    ensures Decode(Encode(text)) == Some(text)
  {
    if text != [] {
      var us, rest := Units(text[0]), Encode(text[1..]);
      DecodeEncode(text[1..]);
      assert (us + rest)[|us|..] == rest;
      assert [text[0]] + text[1..] == text;
      if text[0] >= 0x1_0000 {
        JoinedUnits(text[0]);
        assert |us| == 2 && (us + rest)[0] == us[0] && (us + rest)[1] == us[1];
      } else {
        assert (us + rest)[0] == text[0] && !High(text[0]) && !Low(text[0]);
      }
    }
  }
}
