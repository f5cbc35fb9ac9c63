// What number a version piece stands for: decimal numerals, built by repeated division.
module Numerals {
  import opened Prelude
  import opened Versions

  const DIGITS := "0123456789"

  function Numeral(n: nat): string {
    if n < 10 then [DIGITS[n]] else Numeral(n / 10) + [DIGITS[n % 10]]
  }

  function Zeros(k: nat): string {
    seq(k, i requires 0 <= i < k => '0')
  }

  lemma {:induction false} DigitOf(d: nat)
    requires d < 10
    ensures IsDigit(DIGITS[d]) && Digit(DIGITS[d]) == d
  {
  }

  lemma {:induction false} DigitIs(c: char)
    requires IsDigit(c)
    ensures Digit(c) < 10 && DIGITS[Digit(c)] == c
  {
    var d := Digit(c);
    assert c == '0' + d as char;
    assert DIGITS[d] == c;
  }

  lemma {:induction false} ZerosAre(k: nat)
    ensures DigitsValue(Zeros(k)) == 0
  {
    if k > 0 {
      assert Zeros(k)[..k - 1] == Zeros(k - 1);
      ZerosAre(k - 1);
    }
  }

  lemma {:induction false} OneMoreDigit(s: string, c: char)
    ensures DigitsValue(s + [c]) == DigitsValue(s) * 10 + Digit(c)
    ensures AllDigits(s + [c]) <==> AllDigits(s) && IsDigit(c)
  {
    assert (s + [c])[..|s|] == s;
    assert forall i :: 0 <= i < |s| ==> (s + [c])[i] == s[i];
    assert (s + [c])[|s|] == c;
  }

  // A numeral stands for its number, whatever zeros stand before it.
  lemma {:induction false} ValueOfNumeral(k: nat, n: nat)
    ensures DigitsValue(Zeros(k) + Numeral(n)) == n && AllDigits(Zeros(k) + Numeral(n)) && |Numeral(n)| >= 1
    decreases n
  {
    DigitOf(n % 10);
    if n < 10 {
      ZerosAre(k);
      OneMoreDigit(Zeros(k), DIGITS[n]);
    } else {
      ValueOfNumeral(k, n / 10);
      assert Zeros(k) + Numeral(n) == (Zeros(k) + Numeral(n / 10)) + [DIGITS[n % 10]];
      OneMoreDigit(Zeros(k) + Numeral(n / 10), DIGITS[n % 10]);
    }
  }

  lemma {:induction false} NumeralStep(front: nat, d: nat)
    requires d < 10
    ensures Numeral(front * 10 + d) == (if front == 0 then "" else Numeral(front)) + [DIGITS[d]]
  {
    assert (front * 10 + d) / 10 == front && (front * 10 + d) % 10 == d;
  }

  // Digits are nothing but the numeral of their number with zeros before it.
  lemma {:induction false} DigitsAreNumeral(s: string) returns (k: nat)
    requires s != "" && AllDigits(s)
    ensures s == Zeros(k) + Numeral(DigitsValue(s))
  {
    var n := |s| - 1;
    var front, c := s[..n], s[n];
    assert s == front + [c];
    OneMoreDigit(front, c);
    DigitIs(c);
    NumeralStep(DigitsValue(front), Digit(c));
    NoLeadingZero();
    assert DigitsValue("") == 0;
    hide Numeral, DIGITS, Digit, IsDigit, AllDigits, DigitsValue;
    if n == 0 {
      k := 0;
      assert front == "" && Zeros(0) == "";
    } else {
      var before := DigitsAreNumeral(front);
      k := if DigitsValue(front) == 0 then before + 1 else before;
      ZeroMore(before);
      hide Zeros;
      Rebracket(Zeros(before), Numeral(DigitsValue(front)), [c]);
    }
  }

  lemma {:induction false} Rebracket(a: string, b: string, c: string)
    ensures (a + b) + c == a + (b + c)
  {
  }

  lemma {:induction false} ZeroMore(k: nat)
    ensures Zeros(k) + "0" == Zeros(k + 1)
  {
  }

  lemma {:induction false} NoLeadingZero()
    ensures Numeral(0) == "0"
  {
  }

  // How a number may be written: its numeral, zeros before it, and one plus sign before those.
  predicate Writes(s: string, plus: bool, k: nat, n: nat) {
    s == (if plus then "+" else "") + Zeros(k) + Numeral(n)
  }

  // A piece is read as a number exactly when it is written so, and the number is below 2^32.
  lemma {:induction false} ParsesIff(s: string, n: nat)
    ensures ParseU32(s) == Some(n) <==> n < TWO_32 && exists plus, k :: Writes(s, plus, k, n)
  {
    if ParseU32(s) == Some(n) {
      var k := DigitsAreNumeral(Unsigned(s));
      hide Numeral, DIGITS, AllDigits, DigitsValue;
      assert Writes(s, s != "" && s[0] == '+', k, n) by {
        assert s != "" && s[0] == '+' ==> s == "+" + s[1..];
        assert "" + Zeros(k) == Zeros(k);
      }
    }
    if n < TWO_32 && exists plus, k :: Writes(s, plus, k, n) {
      var plus, k :| Writes(s, plus, k, n);
      WrittenParses(s, plus, k, n);
    }
  }

  lemma {:induction false} WrittenParses(s: string, plus: bool, k: nat, n: nat)
    requires Writes(s, plus, k, n) && n < TWO_32
    ensures ParseU32(s) == Some(n)
  {
    var digits := Zeros(k) + Numeral(n);
    ValueOfNumeral(k, n);
    hide Numeral, DIGITS, DigitsValue;
    if plus {
      assert s == ['+'] + digits;
      assert s[1..] == digits;
    } else {
      assert s == digits;
      assert IsDigit(digits[0]);
    }
    assert Unsigned(s) == digits;
    hide Zeros, AllDigits, Unsigned;
  }

  // ---- Pieces ----

  function Join(pieces: seq<string>): string {
    if pieces == [] then "" else if |pieces| == 1 then pieces[0] else pieces[0] + "." + Join(pieces[1..])
  }

  predicate NoDot(s: string) {
    forall i :: 0 <= i < |s| ==> s[i] != '.'
  }

  lemma {:induction false} SplitPiece(piece: string, rest: string)
    requires NoDot(piece)
    ensures SplitDots(piece + "." + rest) == [piece] + SplitDots(rest)
    ensures SplitDots(piece) == [piece]
  {
    if piece == "" {
      assert piece + "." + rest == "." + rest;
      assert ("." + rest)[1..] == rest;
    } else {
      assert (piece + "." + rest)[1..] == piece[1..] + "." + rest;
      SplitPiece(piece[1..], rest);
      assert [piece[0]] + piece[1..] == piece;
      assert ([piece[1..]] + SplitDots(rest))[1..] == SplitDots(rest);
      assert [piece[1..]][1..] == [];
      assert [piece] + [] == [piece];
    }
  }

  // Pieces joined by dots are split into the same pieces.
  lemma {:induction false} SplitJoined(pieces: seq<string>)
    requires pieces != [] && forall i :: 0 <= i < |pieces| ==> NoDot(pieces[i])
    ensures SplitDots(Join(pieces)) == pieces
  {
    if |pieces| == 1 {
      SplitPiece(pieces[0], "");
    } else {
      SplitPiece(pieces[0], Join(pieces[1..]));
      SplitJoined(pieces[1..]);
      assert [pieces[0]] + pieces[1..] == pieces;
    }
  }

  function Written(ns: seq<nat>): seq<string> {
    seq(|ns|, i requires 0 <= i < |ns| => Numeral(ns[i]))
  }

  lemma {:induction false} NumeralHasNoDot(n: nat)
    ensures NoDot(Numeral(n))
  {
    ValueOfNumeral(0, n);
    var s := Zeros(0) + Numeral(n);
    assert s == Numeral(n);
    forall i | 0 <= i < |s| ensures s[i] != '.' {
      assert IsDigit(s[i]);
    }
  }

  lemma {:induction false} NumbersOfNumerals(ns: seq<nat>)
    requires forall i :: 0 <= i < |ns| ==> ns[i] < TWO_32
    ensures Numbers(Written(ns)) == ns
  {
    if ns != [] {
      assert Written(ns)[1..] == Written(ns[1..]);
      NumbersOfNumerals(ns[1..]);
      assert Zeros(0) == "" && "" + Zeros(0) + Numeral(ns[0]) == Numeral(ns[0]);
      WrittenParses(Numeral(ns[0]), false, 0, ns[0]);
      assert [ns[0]] + ns[1..] == ns;
    }
  }

  // A version written as numerals joined by dots is read as those numbers.
  lemma {:induction false} PartsOfNumerals(ns: seq<nat>)
    requires ns != [] && forall i :: 0 <= i < |ns| ==> ns[i] < TWO_32
    ensures Parts(Join(Written(ns))) == ns
  {
    forall i | 0 <= i < |Written(ns)| ensures NoDot(Written(ns)[i]) {
      NumeralHasNoDot(ns[i]);
    }
    SplitJoined(Written(ns));
    NumbersOfNumerals(ns);
  }

  // A piece that is no number below 2^32 counts for nothing; any other counts for its number.
  lemma {:induction false} PieceCounts(before: seq<string>, piece: string, after: seq<string>)
    requires forall i :: 0 <= i < |before + [piece] + after| ==> NoDot((before + [piece] + after)[i])
    ensures var n := ParseU32(piece);
      Parts(Join(before + [piece] + after)) == Numbers(before) + (if n.Some? then [n.value] else []) + Numbers(after)
  {
    hide NoDot, Join, SplitDots, ParseU32;
    SplitJoined(before + [piece] + after);
    NumbersAppend(before + [piece], after);
    NumbersAppend(before, [piece]);
    NumberOfOne(piece);
    hide Numbers;
  }

  lemma {:induction false} NumberOfOne(piece: string)
    ensures var n := ParseU32(piece); Numbers([piece]) == if n.Some? then [n.value] else []
  {
    assert [piece][1..] == [];
    hide ParseU32;
  }

  lemma {:induction false} NumbersAppend(a: seq<string>, b: seq<string>)
    ensures Numbers(a + b) == Numbers(a) + Numbers(b)
  {
    hide ParseU32;
    if a == [] {
      assert a + b == b;
    } else {
      assert (a + b)[1..] == a[1..] + b;
      NumbersAppend(a[1..], b);
      var n := ParseU32(a[0]);
      var head := if n.Some? then [n.value] else [];
      assert Numbers(a + b) == head + (Numbers(a[1..]) + Numbers(b));
      assert Numbers(a) == head + Numbers(a[1..]);
    }
  }

  // 1.10 is newer than 1.9.
  lemma {:induction false} TenIsNewerThanNine()
    ensures Older(Parts("1.9"), Parts("1.10"))
  {
    assert Numeral(1) == "1" && Numeral(9) == "9" && Numeral(10) == "1" + "0" == "10";
    assert Written([1, 9]) == ["1", "9"] && Written([1, 10]) == ["1", "10"];
    assert ["1", "9"][1..] == ["9"] && Join(["1", "9"]) == "1" + "." + "9" == "1.9";
    assert ["1", "10"][1..] == ["10"] && Join(["1", "10"]) == "1" + "." + "10" == "1.10";
    PartsOfNumerals([1, 9]);
    PartsOfNumerals([1, 10]);
    assert SmallerAt([1, 9], [1, 10], 1);
  }
}
