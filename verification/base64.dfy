/**
 Base64 as defined in section 4 of RFC 4648: every 3 input bytes become 4
 characters of a 64-character alphabet, and a final group of 1 or 2 bytes is
 completed with one or two `=` pad characters.
 */
module Base64 {
  import opened Wrappers

  newtype byte = x: int | 0 <= x < 256

  const Pad: char := '='

  /** The character Table 1 of RFC 4648 assigns to the 6-bit value `v`. */
  function CharOf(v: int): char
    requires 0 <= v < 64
  {
    if v < 26 then ('A' as int + v) as char
    else if v < 52 then ('a' as int + (v - 26)) as char
    else if v < 62 then ('0' as int + (v - 52)) as char
    else if v == 62 then '+'
    else '/'
  }

  /** The 6-bit value of an alphabet character; None for every other character. */
  function ValueOf(c: char): (v: Option<int>)
    ensures v.Some? ==> 0 <= v.value < 64 && CharOf(v.value) == c
  {
    if 'A' <= c <= 'Z' then Some(c as int - 'A' as int)
    else if 'a' <= c <= 'z' then Some(c as int - 'a' as int + 26)
    else if '0' <= c <= '9' then Some(c as int - '0' as int + 52)
    else if c == '+' then Some(62)
    else if c == '/' then Some(63)
    else None
  }

  predicate IsAlphabetChar(c: char) {
    ValueOf(c).Some?
  }

  /** Looking a table character up again gives back its value; no table character is the pad. */
  lemma ValueOfCharOf(v: int)
    requires 0 <= v < 64
    ensures ValueOf(CharOf(v)) == Some(v)
    ensures CharOf(v) != Pad
  {
  }

  /** One full 24-bit group: four 6-bit values, most significant first. */
  function EncodeGroup(a: byte, b: byte, c: byte): string {
    var x, y, z := a as int, b as int, c as int;
    [CharOf(x / 4), CharOf(x % 4 * 16 + y / 16), CharOf(y % 16 * 4 + z / 64), CharOf(z % 64)]
  }

  /**
   The encoding of `data`: 4 characters for every started group of 3 bytes,
   drawn from the alphabet except for at most two pad characters at the end.
   */
  function Encode(data: seq<byte>): (s: string)
    ensures |s| == 4 * ((|data| + 2) / 3)
    ensures forall i :: 0 <= i < |s| ==> IsAlphabetChar(s[i]) || s[i] == Pad
    ensures forall i :: 0 <= i < |s| && s[i] == Pad ==> |s| - 2 <= i
    decreases |data|
  {
    if |data| == 0 then []
    else if |data| == 1 then
      var a := data[0] as int;
      ValueOfCharOf(a / 4);
      ValueOfCharOf(a % 4 * 16);
      [CharOf(a / 4), CharOf(a % 4 * 16), Pad, Pad]
    else if |data| == 2 then
      var a, b := data[0] as int, data[1] as int;
      ValueOfCharOf(a / 4);
      ValueOfCharOf(a % 4 * 16 + b / 16);
      ValueOfCharOf(b % 16 * 4);
      [CharOf(a / 4), CharOf(a % 4 * 16 + b / 16), CharOf(b % 16 * 4), Pad]
    else
      var a, b, c := data[0] as int, data[1] as int, data[2] as int;
      ValueOfCharOf(a / 4);
      ValueOfCharOf(a % 4 * 16 + b / 16);
      ValueOfCharOf(b % 16 * 4 + c / 64);
      ValueOfCharOf(c % 64);
      EncodeGroup(data[0], data[1], data[2]) + Encode(data[3..])
  }

  /** Four alphabet characters without padding back to three bytes. */
  function DecodeGroup(s: string): Option<seq<byte>>
    requires |s| == 4
  {
    match (ValueOf(s[0]), ValueOf(s[1]), ValueOf(s[2]), ValueOf(s[3]))
    case (Some(v0), Some(v1), Some(v2), Some(v3)) =>
      Some([(v0 * 4 + v1 / 16) as byte, (v1 % 16 * 16 + v2 / 4) as byte, (v2 % 4 * 64 + v3) as byte])
    case _ => None
  }

  /**
   The last group, which may end in `==` (one byte) or `=` (two bytes). The
   bits the pad leaves unused must be zero, as section 3.5 of RFC 4648 asks
   of canonical encodings.
   */
  function DecodeFinalGroup(s: string): Option<seq<byte>>
    requires |s| == 4
  {
    if s[2] == Pad && s[3] == Pad then
      match (ValueOf(s[0]), ValueOf(s[1]))
      case (Some(v0), Some(v1)) =>
        if v1 % 16 == 0 then Some([(v0 * 4 + v1 / 16) as byte]) else None
      case _ => None
    else if s[3] == Pad then
      match (ValueOf(s[0]), ValueOf(s[1]), ValueOf(s[2]))
      case (Some(v0), Some(v1), Some(v2)) =>
        if v2 % 4 == 0 then Some([(v0 * 4 + v1 / 16) as byte, (v1 % 16 * 16 + v2 / 4) as byte]) else None
      case _ => None
    else
      DecodeGroup(s)
  }

  /** The inverse of Encode: None for a string that is not a padded base64 encoding. */
  function Decode(s: string): Option<seq<byte>>
    decreases |s|
  {
    if |s| == 0 then Some([])
    else if |s| < 4 then None
    else if |s| == 4 then DecodeFinalGroup(s)
    else
      match DecodeGroup(s[..4])
      case None => None
      case Some(head) =>
        match Decode(s[4..])
        case None => None
        case Some(tail) => Some(head + tail)
  }

  /** x split as q * 16 + r with 0 <= r < 16 has quotient q and remainder r. */
  lemma DivMod16(x: int, q: int, r: int)
    requires 0 <= r < 16 && x == q * 16 + r
    ensures x / 16 == q && x % 16 == r
  {
  }

  /** x split as q * 4 + r with 0 <= r < 4 has quotient q and remainder r. */
  lemma DivMod4(x: int, q: int, r: int)
    requires 0 <= r < 4 && x == q * 4 + r
    ensures x / 4 == q && x % 4 == r
  {
  }

  /** The three bytes of a group are recovered from its four 6-bit values. */
  lemma Recombine(a: int, b: int, c: int)
    requires 0 <= a < 256 && 0 <= b < 256 && 0 <= c < 256
    ensures a / 4 * 4 + (a % 4 * 16 + b / 16) / 16 == a
    ensures (a % 4 * 16 + b / 16) % 16 * 16 + (b % 16 * 4 + c / 64) / 4 == b
    ensures (b % 16 * 4 + c / 64) % 4 * 64 + c % 64 == c
    ensures (a % 4 * 16) % 16 == 0 && (b % 16 * 4) % 4 == 0
  {
    DivMod16(a % 4 * 16 + b / 16, a % 4, b / 16);
    DivMod4(b % 16 * 4 + c / 64, b % 16, c / 64);
    DivMod16(a % 4 * 16, a % 4, 0);
    DivMod4(b % 16 * 4, b % 16, 0);
  }

  lemma DecodeEncodeGroup(a: byte, b: byte, c: byte)
    ensures DecodeGroup(EncodeGroup(a, b, c)) == Some([a, b, c])
  {
    var x, y, z := a as int, b as int, c as int;
    ValueOfCharOf(x / 4);
    ValueOfCharOf(x % 4 * 16 + y / 16);
    ValueOfCharOf(y % 16 * 4 + z / 64);
    ValueOfCharOf(z % 64);
    Recombine(x, y, z);
  }

  lemma DecodeEncodeOne(data: seq<byte>)
    requires |data| == 1
    ensures Decode(Encode(data)) == Some(data)
  {
    var a := data[0] as int;
    ValueOfCharOf(a / 4);
    ValueOfCharOf(a % 4 * 16);
    var s := Encode(data);
    assert s == [CharOf(a / 4), CharOf(a % 4 * 16), Pad, Pad];
    Recombine(a, 0, 0);
    assert DecodeFinalGroup(s) == Some([a as byte]);
    assert [a as byte] == data;
  }

  lemma DecodeFinalTwo(v0: int, v1: int, v2: int)
    requires 0 <= v0 < 64 && 0 <= v1 < 64 && 0 <= v2 < 64 && v2 % 4 == 0
    ensures DecodeFinalGroup([CharOf(v0), CharOf(v1), CharOf(v2), Pad])
         == Some([(v0 * 4 + v1 / 16) as byte, (v1 % 16 * 16 + v2 / 4) as byte])
  {
    ValueOfCharOf(v0);
    ValueOfCharOf(v1);
    ValueOfCharOf(v2);
  }

  lemma DecodeEncodeTwo(data: seq<byte>)
    requires |data| == 2
    ensures Decode(Encode(data)) == Some(data)
  {
    var a, b := data[0] as int, data[1] as int;
    var v0, v1, v2 := a / 4, a % 4 * 16 + b / 16, b % 16 * 4;
    var s := Encode(data);
    assert s == [CharOf(v0), CharOf(v1), CharOf(v2), Pad];
    DivMod16(v1, a % 4, b / 16);
    DivMod4(v2, b % 16, 0);
    DecodeFinalTwo(v0, v1, v2);
    assert [(v0 * 4 + v1 / 16) as byte, (v1 % 16 * 16 + v2 / 4) as byte] == data;
  }

  lemma DecodeEncodeThree(data: seq<byte>)
    requires |data| == 3
    ensures Decode(Encode(data)) == Some(data)
  {
    var head := EncodeGroup(data[0], data[1], data[2]);
    assert Encode(data) == head + Encode(data[3..]);
    assert Encode(data[3..]) == [];
    assert Encode(data) == head;
    ValueOfCharOf(data[1] as int % 16 * 4 + data[2] as int / 64);
    ValueOfCharOf(data[2] as int % 64);
    DecodeEncodeGroup(data[0], data[1], data[2]);
    assert [data[0], data[1], data[2]] == data;
  }

  /** Decoding undoes encoding, for every byte sequence. */
  lemma {:induction false} DecodeEncode(data: seq<byte>)
    ensures Decode(Encode(data)) == Some(data)
    decreases |data|
  {
    if |data| == 0 {
    } else if |data| == 1 {
      DecodeEncodeOne(data);
    } else if |data| == 2 {
      DecodeEncodeTwo(data);
    } else if |data| == 3 {
      DecodeEncodeThree(data);
    } else {
      var head := EncodeGroup(data[0], data[1], data[2]);
      var tail := Encode(data[3..]);
      assert Encode(data) == head + tail;
      DecodeEncodeGroup(data[0], data[1], data[2]);
      DecodeEncode(data[3..]);
      assert |tail| >= 4;
      assert (head + tail)[..4] == head;
      assert (head + tail)[4..] == tail;
      assert [data[0], data[1], data[2]] + data[3..] == data;
    }
  }

  /** Test vectors of section 10 of RFC 4648: they fix the bit order and the padding. */
  lemma Rfc4648VectorsShort()
    ensures Encode([]) == ""
    ensures Encode([102]) == "Zg=="
    ensures Encode([102, 111]) == "Zm8="
    ensures Encode([102, 111, 111]) == "Zm9v"
  {
  }

  lemma Rfc4648VectorFoo()
    ensures EncodeGroup(102, 111, 111) == "Zm9v"
  {
  }

  lemma Rfc4648VectorsLong()
    ensures Encode([102, 111, 111, 98]) == "Zm9vYg=="
    ensures Encode([102, 111, 111, 98, 97]) == "Zm9vYmE="
    ensures Encode([102, 111, 111, 98, 97, 114]) == "Zm9vYmFy"
  {
    Rfc4648VectorFoo();
    var b: string := Encode([98]);
    assert b == "Yg==";
    var ba: string := Encode([98, 97]);
    assert ba == "YmE=";
    var bar: string := Encode([98, 97, 114]);
    assert bar == EncodeGroup(98, 97, 114) + Encode([]);
    assert EncodeGroup(98, 97, 114) == "YmFy";
    assert [102, 111, 111, 98][3..] == [98];
    assert [102, 111, 111, 98, 97][3..] == [98, 97];
    assert [102, 111, 111, 98, 97, 114][3..] == [98, 97, 114];
  }
}
