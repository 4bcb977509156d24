/** The windows-1251 single-byte decoding used for the bank's text exports
    (WHATWG Encoding Standard, section 9, "Legacy single-byte encodings"):
    ASCII bytes are themselves, 0xC0-0xFF are the Cyrillic block А..я, and
    0x80-0xBF go through a fixed table in which 0x98 has no entry and so
    passes through as U+0098. */
module Windows1251 {
  import opened Wrappers
  import opened Text

  type Byte = x: int | 0 <= x < 256

  /** The table for 0x80-0xBF, as a partial map from byte to code point. */
  function SpecialChar(b: Byte): (r: Option<int>)
    ensures r.Some? ==> 0x80 <= r.value < 0xD800
  {
    if b < 0x90 then
      match b
      case 0x80 => Some(0x0402)
      case 0x81 => Some(0x0403)
      case 0x82 => Some(0x201A)
      case 0x83 => Some(0x0453)
      case 0x84 => Some(0x201E)
      case 0x85 => Some(0x2026)
      case 0x86 => Some(0x2020)
      case 0x87 => Some(0x2021)
      case 0x88 => Some(0x20AC)
      case 0x89 => Some(0x2030)
      case 0x8A => Some(0x0409)
      case 0x8B => Some(0x2039)
      case 0x8C => Some(0x040A)
      case 0x8D => Some(0x040C)
      case 0x8E => Some(0x040B)
      case 0x8F => Some(0x040F)
      case _ => None
    else if b < 0xA0 then
      match b
      case 0x90 => Some(0x0452)
      case 0x91 => Some(0x2018)
      case 0x92 => Some(0x2019)
      case 0x93 => Some(0x201C)
      case 0x94 => Some(0x201D)
      case 0x95 => Some(0x2022)
      case 0x96 => Some(0x2013)
      case 0x97 => Some(0x2014)
      case 0x99 => Some(0x2122)
      case 0x9A => Some(0x0459)
      case 0x9B => Some(0x203A)
      case 0x9C => Some(0x045A)
      case 0x9D => Some(0x045C)
      case 0x9E => Some(0x045B)
      case 0x9F => Some(0x045F)
      case _ => None
    else if b < 0xB0 then
      match b
      case 0xA0 => Some(0x00A0)
      case 0xA1 => Some(0x040E)
      case 0xA2 => Some(0x045E)
      case 0xA3 => Some(0x0408)
      case 0xA4 => Some(0x00A4)
      case 0xA5 => Some(0x0490)
      case 0xA6 => Some(0x00A6)
      case 0xA7 => Some(0x00A7)
      case 0xA8 => Some(0x0401)
      case 0xA9 => Some(0x00A9)
      case 0xAA => Some(0x0404)
      case 0xAB => Some(0x00AB)
      case 0xAC => Some(0x00AC)
      case 0xAD => Some(0x00AD)
      case 0xAE => Some(0x00AE)
      case 0xAF => Some(0x0407)
      case _ => None
    else
      match b
      case 0xB0 => Some(0x00B0)
      case 0xB1 => Some(0x00B1)
      case 0xB2 => Some(0x0406)
      case 0xB3 => Some(0x0456)
      case 0xB4 => Some(0x0491)
      case 0xB5 => Some(0x00B5)
      case 0xB6 => Some(0x00B6)
      case 0xB7 => Some(0x00B7)
      case 0xB8 => Some(0x0451)
      case 0xB9 => Some(0x2116)
      case 0xBA => Some(0x0454)
      case 0xBB => Some(0x00BB)
      case 0xBC => Some(0x0458)
      case 0xBD => Some(0x0405)
      case 0xBE => Some(0x0455)
      case 0xBF => Some(0x0457)
      case _ => None
  }

  /** The code point of one byte. */
  function DecodeByte(b: Byte): char {
    if b < 0x80 then b as char
    else if b >= 0xC0 then (0x0410 + (b as int - 0xC0)) as char
    else
      match SpecialChar(b)
      case Some(u) => u as char
      case None => b as char
  }

  /** One character per byte, in order. */
  function DecodeAll(bytes: seq<Byte>): (s: String)
    ensures |s| == |bytes|
  {
    seq(|bytes|, i requires 0 <= i < |bytes| => DecodeByte(bytes[i]))
  }

  /** The byte loop of the reader: `decoded += String.fromCharCode(...)`
      for every byte of the buffer. */
  method Decode(bytes: array<Byte>) returns (decoded: String)
    ensures |decoded| == bytes.Length
    ensures forall i :: 0 <= i < bytes.Length ==> decoded[i] == DecodeByte(bytes[i])
  {
    decoded := "";
    for i := 0 to bytes.Length
      invariant |decoded| == i
      invariant forall k :: 0 <= k < i ==> decoded[k] == DecodeByte(bytes[k])
    {
      var b := bytes[i];
      var c: char;
      if b < 128 {
        c := b as char;
      } else if b >= 0xC0 && b <= 0xFF {
        c := (0x0410 + (b as int - 0xC0)) as char;
      } else {
        var unicode := SpecialChar(b);
        if unicode.Some? {
          c := unicode.value as char;
        } else {
          c := b as char;
        }
      }
      decoded := decoded + [c];
    }
  }

  /** The inverse of the table: the byte whose table entry is `u`. */
  function SpecialByte(u: int): Option<Byte> {
    if u < 0x0100 then
      match u
      case 0x00A0 => Some(0xA0)
      case 0x00A4 => Some(0xA4)
      case 0x00A6 => Some(0xA6)
      case 0x00A7 => Some(0xA7)
      case 0x00A9 => Some(0xA9)
      case 0x00AB => Some(0xAB)
      case 0x00AC => Some(0xAC)
      case 0x00AD => Some(0xAD)
      case 0x00AE => Some(0xAE)
      case 0x00B0 => Some(0xB0)
      case 0x00B1 => Some(0xB1)
      case 0x00B5 => Some(0xB5)
      case 0x00B6 => Some(0xB6)
      case 0x00B7 => Some(0xB7)
      case 0x00BB => Some(0xBB)
      case _ => None
    else if u < 0x2000 then
      match u
      case 0x0401 => Some(0xA8)
      case 0x0402 => Some(0x80)
      case 0x0403 => Some(0x81)
      case 0x0404 => Some(0xAA)
      case 0x0405 => Some(0xBD)
      case 0x0406 => Some(0xB2)
      case 0x0407 => Some(0xAF)
      case 0x0408 => Some(0xA3)
      case 0x0409 => Some(0x8A)
      case 0x040A => Some(0x8C)
      case 0x040B => Some(0x8E)
      case 0x040C => Some(0x8D)
      case 0x040E => Some(0xA1)
      case 0x040F => Some(0x8F)
      case 0x0451 => Some(0xB8)
      case 0x0452 => Some(0x90)
      case 0x0453 => Some(0x83)
      case 0x0454 => Some(0xBA)
      case 0x0455 => Some(0xBE)
      case 0x0456 => Some(0xB3)
      case 0x0457 => Some(0xBF)
      case 0x0458 => Some(0xBC)
      case 0x0459 => Some(0x9A)
      case 0x045A => Some(0x9C)
      case 0x045B => Some(0x9E)
      case 0x045C => Some(0x9D)
      case 0x045E => Some(0xA2)
      case 0x045F => Some(0x9F)
      case 0x0490 => Some(0xA5)
      case 0x0491 => Some(0xB4)
      case _ => None
    else
      match u
      case 0x2013 => Some(0x96)
      case 0x2014 => Some(0x97)
      case 0x2018 => Some(0x91)
      case 0x2019 => Some(0x92)
      case 0x201A => Some(0x82)
      case 0x201C => Some(0x93)
      case 0x201D => Some(0x94)
      case 0x201E => Some(0x84)
      case 0x2020 => Some(0x86)
      case 0x2021 => Some(0x87)
      case 0x2022 => Some(0x95)
      case 0x2026 => Some(0x85)
      case 0x2030 => Some(0x89)
      case 0x2039 => Some(0x8B)
      case 0x203A => Some(0x9B)
      case 0x20AC => Some(0x88)
      case 0x2116 => Some(0xB9)
      case 0x2122 => Some(0x99)
      case _ => None
  }

  /** The byte that decodes to `c`, if any. */
  function EncodeChar(c: char): Option<Byte> {
    var u := c as int;
    if u < 0x80 then Some(u)
    else if 0x0410 <= u <= 0x044F then Some(u - 0x0410 + 0xC0)
    else if u == 0x98 then Some(0x98)
    else SpecialByte(u)
  }

  function EncodeAll(s: String): Option<seq<Byte>> {
    if |s| == 0 then Some([])
    else
      match (EncodeChar(s[0]), EncodeAll(s[1..]))
      case (Some(b), Some(rest)) => Some([b] + rest)
      case _ => None
  }

  /** ASCII bytes are themselves, 0xC0-0xFF are U+0410-U+044F in order, and
      in 0x80-0xBF every byte but 0x98 has a table entry. */
  lemma DecodeRanges(b: Byte)
    ensures b < 0x80 ==> DecodeByte(b) as int == b
    ensures 0xC0 <= b ==> DecodeByte(b) as int == 0x0410 + (b - 0xC0)
    ensures 0x80 <= b < 0xC0 ==> (SpecialChar(b).None? <==> b == 0x98)
  {
  }

  /** Every byte is recovered from its character: the decoding loses
      nothing, so no two bytes decode to the same character. */
  lemma EncodeDecodeByte(b: Byte)
    ensures EncodeChar(DecodeByte(b)) == Some(b)
  {
    if b < 0x80 {
      assert DecodeByte(b) as int == b;
    } else if b >= 0xC0 {
      assert DecodeByte(b) as int == 0x0410 + (b - 0xC0);
    } else {
      TableRoundTrip(b);
    }
  }

  /** The table part of the round trip, checked eight bytes at a time. */
  lemma TableRoundTrip(b: Byte)
    requires 0x80 <= b < 0xC0
    ensures EncodeChar(DecodeByte(b)) == Some(b)
  {
    if b < 0x88 {
      TableRoundTrip80(b);
    } else if b < 0x90 {
      TableRoundTrip88(b);
    } else if b < 0x98 {
      TableRoundTrip90(b);
    } else if b < 0xA0 {
      TableRoundTrip98(b);
    } else if b < 0xA8 {
      TableRoundTripA0(b);
    } else if b < 0xB0 {
      TableRoundTripA8(b);
    } else if b < 0xB8 {
      TableRoundTripB0(b);
    } else {
      TableRoundTripB8(b);
    }
  }

  lemma TableRoundTrip80(b: Byte)
    requires 0x80 <= b < 0x88
    ensures EncodeChar(DecodeByte(b)) == Some(b)
  {
    if b == 0x80 {
      assert EncodeChar(DecodeByte(0x80)) == Some(0x80);
    } else if b == 0x81 {
      assert EncodeChar(DecodeByte(0x81)) == Some(0x81);
    } else if b == 0x82 {
      assert EncodeChar(DecodeByte(0x82)) == Some(0x82);
    } else if b == 0x83 {
      assert EncodeChar(DecodeByte(0x83)) == Some(0x83);
    } else if b == 0x84 {
      assert EncodeChar(DecodeByte(0x84)) == Some(0x84);
    } else if b == 0x85 {
      assert EncodeChar(DecodeByte(0x85)) == Some(0x85);
    } else if b == 0x86 {
      assert EncodeChar(DecodeByte(0x86)) == Some(0x86);
    } else if b == 0x87 {
      assert EncodeChar(DecodeByte(0x87)) == Some(0x87);
    }
  }

  lemma TableRoundTrip88(b: Byte)
    requires 0x88 <= b < 0x90
    ensures EncodeChar(DecodeByte(b)) == Some(b)
  {
    if b == 0x88 {
      assert EncodeChar(DecodeByte(0x88)) == Some(0x88);
    } else if b == 0x89 {
      assert EncodeChar(DecodeByte(0x89)) == Some(0x89);
    } else if b == 0x8A {
      assert EncodeChar(DecodeByte(0x8A)) == Some(0x8A);
    } else if b == 0x8B {
      assert EncodeChar(DecodeByte(0x8B)) == Some(0x8B);
    } else if b == 0x8C {
      assert EncodeChar(DecodeByte(0x8C)) == Some(0x8C);
    } else if b == 0x8D {
      assert EncodeChar(DecodeByte(0x8D)) == Some(0x8D);
    } else if b == 0x8E {
      assert EncodeChar(DecodeByte(0x8E)) == Some(0x8E);
    } else if b == 0x8F {
      assert EncodeChar(DecodeByte(0x8F)) == Some(0x8F);
    }
  }

  lemma TableRoundTrip90(b: Byte)
    requires 0x90 <= b < 0x98
    ensures EncodeChar(DecodeByte(b)) == Some(b)
  {
    if b == 0x90 {
      assert EncodeChar(DecodeByte(0x90)) == Some(0x90);
    } else if b == 0x91 {
      assert EncodeChar(DecodeByte(0x91)) == Some(0x91);
    } else if b == 0x92 {
      assert EncodeChar(DecodeByte(0x92)) == Some(0x92);
    } else if b == 0x93 {
      assert EncodeChar(DecodeByte(0x93)) == Some(0x93);
    } else if b == 0x94 {
      assert EncodeChar(DecodeByte(0x94)) == Some(0x94);
    } else if b == 0x95 {
      assert EncodeChar(DecodeByte(0x95)) == Some(0x95);
    } else if b == 0x96 {
      assert EncodeChar(DecodeByte(0x96)) == Some(0x96);
    } else if b == 0x97 {
      assert EncodeChar(DecodeByte(0x97)) == Some(0x97);
    }
  }

  lemma TableRoundTrip98(b: Byte)
    requires 0x98 <= b < 0xA0
    ensures EncodeChar(DecodeByte(b)) == Some(b)
  {
    if b == 0x98 {
      assert EncodeChar(DecodeByte(0x98)) == Some(0x98);
    } else if b == 0x99 {
      assert EncodeChar(DecodeByte(0x99)) == Some(0x99);
    } else if b == 0x9A {
      assert EncodeChar(DecodeByte(0x9A)) == Some(0x9A);
    } else if b == 0x9B {
      assert EncodeChar(DecodeByte(0x9B)) == Some(0x9B);
    } else if b == 0x9C {
      assert EncodeChar(DecodeByte(0x9C)) == Some(0x9C);
    } else if b == 0x9D {
      assert EncodeChar(DecodeByte(0x9D)) == Some(0x9D);
    } else if b == 0x9E {
      assert EncodeChar(DecodeByte(0x9E)) == Some(0x9E);
    } else if b == 0x9F {
      assert EncodeChar(DecodeByte(0x9F)) == Some(0x9F);
    }
  }

  lemma TableRoundTripA0(b: Byte)
    requires 0xA0 <= b < 0xA8
    ensures EncodeChar(DecodeByte(b)) == Some(b)
  {
    if b == 0xA0 {
      assert EncodeChar(DecodeByte(0xA0)) == Some(0xA0);
    } else if b == 0xA1 {
      assert EncodeChar(DecodeByte(0xA1)) == Some(0xA1);
    } else if b == 0xA2 {
      assert EncodeChar(DecodeByte(0xA2)) == Some(0xA2);
    } else if b == 0xA3 {
      assert EncodeChar(DecodeByte(0xA3)) == Some(0xA3);
    } else if b == 0xA4 {
      assert EncodeChar(DecodeByte(0xA4)) == Some(0xA4);
    } else if b == 0xA5 {
      assert EncodeChar(DecodeByte(0xA5)) == Some(0xA5);
    } else if b == 0xA6 {
      assert EncodeChar(DecodeByte(0xA6)) == Some(0xA6);
    } else if b == 0xA7 {
      assert EncodeChar(DecodeByte(0xA7)) == Some(0xA7);
    }
  }

  lemma TableRoundTripA8(b: Byte)
    requires 0xA8 <= b < 0xB0
    ensures EncodeChar(DecodeByte(b)) == Some(b)
  {
    if b == 0xA8 {
      assert EncodeChar(DecodeByte(0xA8)) == Some(0xA8);
    } else if b == 0xA9 {
      assert EncodeChar(DecodeByte(0xA9)) == Some(0xA9);
    } else if b == 0xAA {
      assert EncodeChar(DecodeByte(0xAA)) == Some(0xAA);
    } else if b == 0xAB {
      assert EncodeChar(DecodeByte(0xAB)) == Some(0xAB);
    } else if b == 0xAC {
      assert EncodeChar(DecodeByte(0xAC)) == Some(0xAC);
    } else if b == 0xAD {
      assert EncodeChar(DecodeByte(0xAD)) == Some(0xAD);
    } else if b == 0xAE {
      assert EncodeChar(DecodeByte(0xAE)) == Some(0xAE);
    } else if b == 0xAF {
      assert EncodeChar(DecodeByte(0xAF)) == Some(0xAF);
    }
  }

  lemma TableRoundTripB0(b: Byte)
    requires 0xB0 <= b < 0xB8
    ensures EncodeChar(DecodeByte(b)) == Some(b)
  {
    if b == 0xB0 {
      assert EncodeChar(DecodeByte(0xB0)) == Some(0xB0);
    } else if b == 0xB1 {
      assert EncodeChar(DecodeByte(0xB1)) == Some(0xB1);
    } else if b == 0xB2 {
      assert EncodeChar(DecodeByte(0xB2)) == Some(0xB2);
    } else if b == 0xB3 {
      assert EncodeChar(DecodeByte(0xB3)) == Some(0xB3);
    } else if b == 0xB4 {
      assert EncodeChar(DecodeByte(0xB4)) == Some(0xB4);
    } else if b == 0xB5 {
      assert EncodeChar(DecodeByte(0xB5)) == Some(0xB5);
    } else if b == 0xB6 {
      assert EncodeChar(DecodeByte(0xB6)) == Some(0xB6);
    } else if b == 0xB7 {
      assert EncodeChar(DecodeByte(0xB7)) == Some(0xB7);
    }
  }

  lemma TableRoundTripB8(b: Byte)
    requires 0xB8 <= b < 0xC0
    ensures EncodeChar(DecodeByte(b)) == Some(b)
  {
    if b == 0xB8 {
      assert EncodeChar(DecodeByte(0xB8)) == Some(0xB8);
    } else if b == 0xB9 {
      assert EncodeChar(DecodeByte(0xB9)) == Some(0xB9);
    } else if b == 0xBA {
      assert EncodeChar(DecodeByte(0xBA)) == Some(0xBA);
    } else if b == 0xBB {
      assert EncodeChar(DecodeByte(0xBB)) == Some(0xBB);
    } else if b == 0xBC {
      assert EncodeChar(DecodeByte(0xBC)) == Some(0xBC);
    } else if b == 0xBD {
      assert EncodeChar(DecodeByte(0xBD)) == Some(0xBD);
    } else if b == 0xBE {
      assert EncodeChar(DecodeByte(0xBE)) == Some(0xBE);
    } else if b == 0xBF {
      assert EncodeChar(DecodeByte(0xBF)) == Some(0xBF);
    }
  }

  lemma {:induction false} EncodeDecode(bytes: seq<Byte>)
    ensures EncodeAll(DecodeAll(bytes)) == Some(bytes)
  {
    if |bytes| > 0 {
      assert DecodeAll(bytes)[1..] == DecodeAll(bytes[1..]);
      EncodeDecode(bytes[1..]);
      EncodeDecodeByte(bytes[0]);
      assert [bytes[0]] + bytes[1..] == bytes;
    }
  }

  lemma DecodeInjective(b1: Byte, b2: Byte)
    requires DecodeByte(b1) == DecodeByte(b2)
    ensures b1 == b2
  {
    EncodeDecodeByte(b1);
    EncodeDecodeByte(b2);
  }

  /** The sample mappings: 0x41 is 'A', 0xC0 is А, 0xFF is я, 0xA8 is Ё,
      0xB8 is ё, 0x88 is the euro sign, and 0x98 stays U+0098. */
  lemma Samples()
    ensures DecodeByte(0x41) == 'A'
    ensures DecodeByte(0xC0) == 'А' && DecodeByte(0xFF) == 'я'
    ensures DecodeByte(0xA8) == 'Ё' && DecodeByte(0xB8) == 'ё'
    ensures DecodeByte(0x88) == '\U{20AC}' && DecodeByte(0x98) == '\U{0098}'
  {
  }
}
