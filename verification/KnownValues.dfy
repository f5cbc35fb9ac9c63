// The codecs against the examples of the standards they implement.
module KnownValues {
  import opened Prelude
  import Base64
  import Cbor
  import Utf8

  // ---- Section 3 of RFC 8949 ----

  // The head of an item: the major type, and the argument in the shortest of the five forms, most
  // significant byte first.
  lemma {:induction false} HeadIs(major: nat, n: nat)
    requires major < 8 && n < TWO_64
    ensures Cbor.Head(major, n) ==
            if n < 24 then [32 * major + n]
            else if n < 0x100 then [32 * major + 24, n]
            else if n < 0x1_0000 then [32 * major + 25, n / 0x100, n % 0x100]
            else if n < 0x1_0000_0000 then [32 * major + 26] + Four(n)
            else [32 * major + 27] + Four(n / 0x1_0000_0000) + Four(n % 0x1_0000_0000)
  {
    if n < 24 {
      assert Cbor.BigEndian(n, 0) == [];
    } else if n < 0x100 {
      assert Cbor.BigEndian(n / 256, 0) == [] && Cbor.BigEndian(n, 1) == [n % 256];
    } else if n < 0x1_0000 {
      TwoBytes(n);
    } else if n < 0x1_0000_0000 {
      FourBytes(n);
    } else {
      EightBytes(n);
    }
    hide Cbor.BigEndian;
  }

  function Four(n: nat): Bytes {
    [n / 0x100_0000 % 0x100, n / 0x1_0000 % 0x100, n / 0x100 % 0x100, n % 0x100]
  }

  lemma {:induction false} TwoBytes(n: nat)
    requires n < 0x1_0000
    ensures Cbor.BigEndian(n, 2) == [n / 0x100, n % 0x100]
  {
    assert Cbor.BigEndian(n / 256 / 256, 0) == [];
    assert Cbor.BigEndian(n / 256, 1) == [n / 256 % 256];
  }

  lemma {:induction false} NextByte(n: nat, width: nat)
    ensures Cbor.BigEndian(n, width + 1) == Cbor.BigEndian(n / 256, width) + [n % 256]
  {
  }

  lemma {:induction false} LowFour(n: nat, width: nat)
    ensures Cbor.BigEndian(n, width + 4) == Cbor.BigEndian(n / 0x1_0000_0000, width) + Four(n % 0x1_0000_0000)
  {
    NextByte(n, width + 3);
    NextByte(n / 256, width + 2);
    NextByte(n / 256 / 256, width + 1);
    NextByte(n / 256 / 256 / 256, width);
    hide Cbor.BigEndian;
    Bytewise(n);
  }

  lemma {:induction false} FourIs(a: Byte, b: Byte, c: Byte, d: Byte)
    ensures Four(((a * 256 + b) * 256 + c) * 256 + d) == [a, b, c, d]
    ensures ((a * 256 + b) * 256 + c) * 256 + d < 0x1_0000_0000
  {
    var n := ((a * 256 + b) * 256 + c) * 256 + d;
    assert n / 256 == (a * 256 + b) * 256 + c;
    assert n / 0x1_0000 == a * 256 + b;
    assert n / 0x100_0000 == a;
  }

  lemma {:induction false} LowWord(high: nat, low: nat)
    requires low < 0x1_0000_0000
    ensures (high * 0x1_0000_0000 + low) / 0x1_0000_0000 == high && (high * 0x1_0000_0000 + low) % 0x1_0000_0000 == low
  {
  }

  lemma {:induction false} Bytewise(n: nat)
    ensures n / 256 / 256 / 256 / 256 == n / 0x1_0000_0000
    ensures Four(n % 0x1_0000_0000) == [n / 256 / 256 / 256 % 256, n / 256 / 256 % 256, n / 256 % 256, n % 256]
  {
    var x, y, z := n / 256, n / 256 / 256, n / 256 / 256 / 256;
    var high := z / 256;
    var low := ((z % 256 * 256 + y % 256) * 256 + x % 256) * 256 + n % 256;
    FourIs(z % 256, y % 256, x % 256, n % 256);
    assert n == high * 0x1_0000_0000 + low;
    LowWord(high, low);
    hide Four;
  }

  lemma {:induction false} FourBytes(n: nat)
    requires n < 0x1_0000_0000
    ensures Cbor.BigEndian(n, 4) == Four(n)
  {
    LowFour(n, 0);
    assert Cbor.BigEndian(0, 0) == [];
  }

  lemma {:induction false} EightBytes(n: nat)
    ensures n < TWO_64 ==> Cbor.BigEndian(n, 8) == Four(n / 0x1_0000_0000) + Four(n % 0x1_0000_0000)
  {
    if n < TWO_64 {
      LowFour(n, 4);
      FourBytes(n / 0x1_0000_0000);
    }
  }

  // ---- Examples of appendix A of RFC 8949 ----

  lemma {:induction false} NumberIsHead(n: nat)
    ensures Cbor.Encode(Cbor.Unsigned(n)) == Cbor.Head(0, n) && Cbor.Encode(Cbor.Negative(n)) == Cbor.Head(1, n)
  {
  }

  lemma {:induction false} KnownNumbers()
    ensures Cbor.Encode(Cbor.Unsigned(0)) == [0x00] && Cbor.Encode(Cbor.Unsigned(23)) == [0x17]
    ensures Cbor.Encode(Cbor.Unsigned(24)) == [0x18, 0x18] && Cbor.Encode(Cbor.Unsigned(1000)) == [0x19, 0x03, 0xE8]
    ensures Cbor.Encode(Cbor.Negative(0)) == [0x20] && Cbor.Encode(Cbor.Negative(99)) == [0x38, 0x63]
    ensures Cbor.Encode(Cbor.Negative(999)) == [0x39, 0x03, 0xE7]
  {
    NumberIsHead(0); NumberIsHead(23); NumberIsHead(24); NumberIsHead(1000); NumberIsHead(99); NumberIsHead(999);
    HeadIs(0, 0); HeadIs(0, 23); HeadIs(0, 24); HeadIs(0, 1000);
    HeadIs(1, 0); HeadIs(1, 99); HeadIs(1, 999);
    hide Cbor.Head, Cbor.Encode;
  }

  lemma {:induction false} KnownMillion()
    ensures Cbor.Encode(Cbor.Unsigned(1000000)) == [0x1A, 0x00, 0x0F, 0x42, 0x40]
  {
    hide Cbor.Head, Cbor.Encode, Four;
    NumberIsHead(1000000);
    HeadIs(0, 1000000);
    FourIs(0x00, 0x0F, 0x42, 0x40);
    assert ((0x00 * 256 + 0x0F) * 256 + 0x42) * 256 + 0x40 == 1000000;
    assert Cbor.Head(0, 1000000) == [26] + [0x00, 0x0F, 0x42, 0x40];
  }

  lemma {:induction false} KnownTrillion()
    ensures Cbor.Encode(Cbor.Unsigned(1000000000000)) == [0x1B, 0x00, 0x00, 0x00, 0xE8, 0xD4, 0xA5, 0x10, 0x00]
  {
    hide Cbor.Head, Cbor.Encode, Four;
    NumberIsHead(1000000000000);
    HeadIs(0, 1000000000000);
    FourIs(0x00, 0x00, 0x00, 0xE8);
    FourIs(0xD4, 0xA5, 0x10, 0x00);
    assert ((0x00 * 256 + 0x00) * 256 + 0x00) * 256 + 0xE8 == 1000000000000 / 0x1_0000_0000;
    assert ((0xD4 * 256 + 0xA5) * 256 + 0x10) * 256 + 0x00 == 1000000000000 % 0x1_0000_0000;
    assert Cbor.Head(0, 1000000000000) == [27] + [0x00, 0x00, 0x00, 0xE8] + [0xD4, 0xA5, 0x10, 0x00];
  }

  lemma {:induction false} KnownBytesAndSimple()
    ensures Cbor.Encode(Cbor.ByteString([1, 2, 3, 4])) == [0x44, 0x01, 0x02, 0x03, 0x04]
    ensures Cbor.Encode(Cbor.Bool(false)) == [0xF4] && Cbor.Encode(Cbor.Bool(true)) == [0xF5] && Cbor.Encode(Cbor.Null) == [0xF6]
    ensures Cbor.Encode(Cbor.Float([0x3C, 0x00])) == [0xF9, 0x3C, 0x00]
    ensures Cbor.Encode(Cbor.Float([0x47, 0xC3, 0x50, 0x00])) == [0xFA, 0x47, 0xC3, 0x50, 0x00]
    ensures Cbor.Encode(Cbor.Float([0x3F, 0xF1, 0x99, 0x99, 0x99, 0x99, 0x99, 0x9A])) ==
            [0xFB, 0x3F, 0xF1, 0x99, 0x99, 0x99, 0x99, 0x99, 0x9A]
  {
    HeadIs(2, 4);
    hide Cbor.Head;
  }

  lemma {:induction false} KnownText()
    ensures Cbor.Encode(Cbor.Text("IETF")) == [0x64, 0x49, 0x45, 0x54, 0x46]
  {
    HeadIs(3, 4);
    hide Cbor.Head;
    assert "IETF"[1..] == "ETF" && "ETF"[1..] == "TF" && "TF"[1..] == "F" && "F"[1..] == "";
    assert Utf8.Encode("F") == [0x46] + [];
    assert Utf8.Encode("TF") == [0x54] + [0x46];
    assert Utf8.Encode("ETF") == [0x45] + [0x54, 0x46];
    assert Utf8.Encode("IETF") == [0x49] + [0x45, 0x54, 0x46];
    hide Utf8.Encode, Utf8.EncodeChar;
    assert Cbor.Encode(Cbor.Text("IETF")) == Cbor.Head(3, 4) + [0x49, 0x45, 0x54, 0x46];
  }

  lemma {:induction false} ContainersAre(items: seq<Cbor.Value>, tag: nat, v: Cbor.Value)
    ensures Cbor.Encode(Cbor.Array(items)) == Cbor.Head(4, |items|) + Cbor.EncodeAll(items)
    ensures Cbor.Encode(Cbor.Map(items)) == Cbor.Head(5, |items| / 2) + Cbor.EncodeAll(items)
    ensures Cbor.Encode(Cbor.Tagged(tag, v)) == Cbor.Head(6, tag) + Cbor.Encode(v)
  {
  }

  lemma {:induction false} KnownPairs()
    ensures Cbor.Encode(Cbor.Array([Cbor.Unsigned(1), Cbor.Unsigned(2)])) == [0x82, 0x01, 0x02]
    ensures Cbor.Encode(Cbor.Map([Cbor.Unsigned(1), Cbor.Unsigned(2)])) == [0xA1, 0x01, 0x02]
  {
    NumberIsHead(1); NumberIsHead(2);
    HeadIs(0, 1); HeadIs(0, 2); HeadIs(4, 2); HeadIs(5, 1);
    var pair := [Cbor.Unsigned(1), Cbor.Unsigned(2)];
    AllOfTwo(pair[0], pair[1]);
    ContainersAre(pair, 1, Cbor.Null);
    hide Cbor.Head, Cbor.Encode, Cbor.EncodeAll, Four;
  }

  lemma {:induction false} KnownEmptyAndTagged()
    ensures Cbor.Encode(Cbor.Array([])) == [0x80] && Cbor.Encode(Cbor.Map([])) == [0xA0]
    ensures Cbor.Encode(Cbor.Tagged(1, Cbor.Unsigned(1363896240))) == [0xC1, 0x1A, 0x51, 0x4B, 0x67, 0xB0]
  {
    NumberIsHead(1363896240);
    HeadIs(0, 1363896240); HeadIs(4, 0); HeadIs(5, 0); HeadIs(6, 1);
    FourIs(0x51, 0x4B, 0x67, 0xB0);
    ContainersAre([], 1, Cbor.Unsigned(1363896240));
    assert Cbor.EncodeAll([]) == [];
    hide Cbor.Head, Cbor.Encode, Cbor.EncodeAll, Four;
  }

  lemma {:induction false} AllOfTwo(a: Cbor.Value, b: Cbor.Value)
    ensures Cbor.EncodeAll([a, b]) == Cbor.Encode(a) + Cbor.Encode(b)
  {
    assert [a, b][1..] == [b] && [b][1..] == [];
    assert Cbor.EncodeAll([b]) == Cbor.Encode(b) + [];
  }

  // Reserved and indefinite forms, a stray break and a text that is not UTF-8 are malformed; an argument
  // in a longer form than it needs is not.
  lemma {:induction false} KnownRefusals()
    ensures Cbor.Decode([0x1C]) == Cbor.Malformed && Cbor.Decode([0x5F]) == Cbor.Malformed && Cbor.Decode([0xFF]) == Cbor.Malformed
    ensures Cbor.Decode([0x61, 0xFF]) == Cbor.Malformed && Cbor.Decode([0xF8, 0x20]) == Cbor.Malformed
  {
    var text: Bytes := [0x61, 0xFF];
    assert text[1..2] == [0xFF] && Utf8.Decode([0xFF]).None?;
    var simple: Bytes := [0xF8, 0x20];
    assert simple[1..2] == [0x20];
    assert Cbor.FromBigEndian([0x20]) == 0x20 by { assert [0x20][..0] == []; }
  }

  lemma {:induction false} LongHeadIsAccepted()
    ensures Cbor.Decode([0x18, 0x05]) == Cbor.Item(Cbor.Unsigned(5), 2)
  {
    var five: Bytes := [0x18, 0x05];
    assert five[1..2] == [0x05] && Cbor.FromBigEndian([]) == 0;
    assert Cbor.FromBigEndian([0x05]) == 5 by { assert [0x05][..0] == []; }
  }

  // ---- Examples of section 7 of RFC 3629 ----

  lemma {:induction false} KnownTexts()
    ensures Utf8.Encode("A\U{2262}\U{0391}.") == [0x41, 0xE2, 0x89, 0xA2, 0xCE, 0x91, 0x2E]
    ensures Utf8.Encode("\U{233B4}") == [0xF0, 0xA3, 0x8E, 0xB4]
  {
    assert Utf8.EncodeChar('A') == [0x41] && Utf8.EncodeChar('\U{2262}') == [0xE2, 0x89, 0xA2];
    assert Utf8.EncodeChar('\U{0391}') == [0xCE, 0x91] && Utf8.EncodeChar('.') == [0x2E];
    assert Utf8.EncodeChar('\U{233B4}') == [0xF0, 0xA3, 0x8E, 0xB4];
    hide Utf8.EncodeChar;
    var s := "A\U{2262}\U{0391}.";
    assert s[1..] == "\U{2262}\U{0391}." && "\U{2262}\U{0391}."[1..] == "\U{0391}." && "\U{0391}."[1..] == "." && "."[1..] == "";
    assert Utf8.Encode(".") == [0x2E] + [];
    assert Utf8.Encode("\U{0391}.") == [0xCE, 0x91] + [0x2E];
    assert Utf8.Encode("\U{2262}\U{0391}.") == [0xE2, 0x89, 0xA2] + [0xCE, 0x91, 0x2E];
    assert Utf8.Encode(s) == [0x41] + [0xE2, 0x89, 0xA2, 0xCE, 0x91, 0x2E];
    assert "\U{233B4}"[1..] == "";
    assert Utf8.Encode("\U{233B4}") == [0xF0, 0xA3, 0x8E, 0xB4] + [];
  }

  // ---- Sections 4 and 10 of RFC 4648 ----

  const UPPER := "ABCDEFGHIJKLMNOPQRSTUVWXYZ"
  const LOWER := "abcdefghijklmnopqrstuvwxyz"
  const DIGITS := "0123456789"

  lemma {:induction false} SymbolsAreAlphabet(v: nat)
    ensures v < 26 ==> Base64.Symbol(v) == UPPER[v] as int && Base64.Symbol(26 + v) == LOWER[v] as int
    ensures v < 10 ==> Base64.Symbol(52 + v) == DIGITS[v] as int
    ensures Base64.Symbol(62) == '+' as int && Base64.Symbol(63) == '/' as int && Base64.PAD == '=' as int
  {
  }

  // "f", "fo", "foo", "foobar".
  lemma {:induction false} KnownBase64()
    ensures Base64.Encode([0x66]) == [90, 103, 61, 61]                       // Zg==
    ensures Base64.Encode([0x66, 0x6F]) == [90, 109, 56, 61]                 // Zm8=
    ensures Base64.Encode([0x66, 0x6F, 0x6F]) == [90, 109, 57, 118]          // Zm9v
    ensures Base64.Encode([0x66, 0x6F, 0x6F, 0x62, 0x61, 0x72]) == [90, 109, 57, 118, 89, 109, 70, 121]
  {
    assert [0x66, 0x6F, 0x6F][3..] == [] && Base64.Encode([]) == [];
    var b: Bytes := [0x66, 0x6F, 0x6F, 0x62, 0x61, 0x72];
    assert b[3..] == [0x62, 0x61, 0x72];
    var bar: Bytes := [0x62, 0x61, 0x72];
    assert bar[3..] == [];
    assert Base64.Encode(bar) == [89, 109, 70, 121] + [];
    assert Base64.Encode(b) == [90, 109, 57, 118] + [89, 109, 70, 121];
  }
}
