// Cutting text into pieces of at most `max` UTF-8 bytes, never inside a character.
module TextSplit {
  import opened Prelude
  import Utf8

  function Width(c: char): nat {
    |Utf8.EncodeChar(c)|
  }

  // How many characters fit into `max` bytes.
  function Fit(s: string, max: nat): (k: nat)
    ensures k <= |s|
  {
    if s == "" || Width(s[0]) > max then 0 else 1 + Fit(s[1..], max - Width(s[0]))
  }

  // The pieces in order, and the text left over: empty, or starting with a character that fits nowhere.
  datatype Pieces = Pieces(done: seq<string>, rest: string)

  function Split(s: string, max: nat): Pieces
    decreases |s|
  {
    var k := Fit(s, max);
    if k == 0 then Pieces([], s)
    else var t := Split(s[k..], max); Pieces([s[..k]] + t.done, t.rest)
  }

  predicate AllFit(s: string, max: nat) {
    forall i :: 0 <= i < |s| ==> Width(s[i]) <= max
  }

  function Join(pieces: seq<string>): string {
    if pieces == [] then "" else pieces[0] + Join(pieces[1..])
  }

  lemma {:induction false} FitIsMaximal(s: string, max: nat)
    ensures var k := Fit(s, max);
      && |Utf8.Encode(s[..k])| <= max
      && (k < |s| ==> |Utf8.Encode(s[..k])| + Width(s[k]) > max)
  {
    if s != "" && Width(s[0]) <= max {
      FitIsMaximal(s[1..], max - Width(s[0]));
      var k := Fit(s, max);
      assert s[..k][1..] == s[1..][..k - 1];
      assert Utf8.Encode(s[..k]) == Utf8.EncodeChar(s[0]) + Utf8.Encode(s[1..][..k - 1]);
    }
  }

  predicate GoodPieces(pieces: seq<string>, max: nat) {
    forall i :: 0 <= i < |pieces| ==> pieces[i] != "" && |Utf8.Encode(pieces[i])| <= max
  }

  // The pieces are non-empty text of at most `max` bytes and join to a prefix of the input; what is
  // left starts with the first character wider than `max`. So all of the text is sent if and only
  // if every character of it fits.
  lemma {:induction false} SplitIsExact(s: string, max: nat)
    ensures var t := Split(s, max);
      && GoodPieces(t.done, max)
      && Join(t.done) + t.rest == s
      && AllFit(Join(t.done), max)
      && (t.rest != "" ==> Width(t.rest[0]) > max)
      && (t.rest == "" <==> AllFit(s, max))
    decreases |s|
  {
    var k := Fit(s, max);
    if k > 0 {
      FitIsMaximal(s, max);
      FitAll(s, max);
      SplitIsExact(s[k..], max);
      SplitStep(s, max, k, Split(s[k..], max));
    }
  }

  lemma {:induction false} SplitStep(s: string, max: nat, k: nat, t: Pieces)
    requires 0 < k <= |s| && GoodPieces(t.done, max) && Join(t.done) + t.rest == s[k..] && AllFit(Join(t.done), max)
    requires AllFit(s[..k], max) && |Utf8.Encode(s[..k])| <= max
    ensures var done := [s[..k]] + t.done;
      GoodPieces(done, max) && Join(done) + t.rest == s && AllFit(Join(done), max)
    ensures AllFit(s, max) <==> AllFit(s[k..], max)
  {
    var done := [s[..k]] + t.done;
    assert done[1..] == t.done;
    assert Join(done) == s[..k] + Join(t.done);
    assert s == s[..k] + s[k..];
    forall i | k <= i < |s| ensures s[i] == s[k..][i - k] {}
  }

  lemma {:induction false} FitAll(s: string, max: nat)
    ensures forall i :: 0 <= i < Fit(s, max) ==> Width(s[i]) <= max
  {
    if s != "" && Width(s[0]) <= max {
      FitAll(s[1..], max - Width(s[0]));
      forall i | 1 <= i < Fit(s, max) ensures Width(s[i]) <= max {
        assert s[i] == s[1..][i - 1];
      }
    }
  }

  // ---- Character boundaries in the encoded bytes ----

  // `str::is_char_boundary`.
  predicate IsBoundary(b: Bytes, p: nat) {
    p == 0 || p == |b| || (p < |b| && !Utf8.IsContinuation(b[p]))
  }

  lemma {:induction false} BoundaryAfter(s: string, k: nat)
    requires k <= |s|
    ensures |Utf8.Encode(s[..k])| <= |Utf8.Encode(s)|
    ensures IsBoundary(Utf8.Encode(s), |Utf8.Encode(s[..k])|)
  {
    assert s == s[..k] + s[k..];
    Utf8.EncodeAppend(s[..k], s[k..]);
    if k < |s| {
      Utf8.EncodeCharShape(s[k]);
      assert s[k..][0] == s[k];
      assert Utf8.Encode(s)[|Utf8.Encode(s[..k])|] == Utf8.Encode(s[k..])[0];
    } else {
      assert s[..k] == s;
    }
  }

  // Between the start of a character and its end there is no boundary.
  lemma {:induction false} NoBoundaryInside(s: string, k: nat, p: nat)
    requires k < |s|
    requires |Utf8.Encode(s[..k])| < p < |Utf8.Encode(s[..k])| + Width(s[k])
    ensures p < |Utf8.Encode(s)| && !IsBoundary(Utf8.Encode(s), p)
  {
    var a := Utf8.Encode(s[..k]);
    assert s == s[..k] + s[k..];
    Utf8.EncodeAppend(s[..k], s[k..]);
    Utf8.EncodeCharShape(s[k]);
    assert s[k..][0] == s[k];
    assert Utf8.Encode(s)[p] == Utf8.EncodeChar(s[k])[p - |a|];
  }

  // The next piece of `s` found on its bytes: from the longest candidate back to a boundary.
  method NextPiece(s: string, max: nat) returns (size: nat)
    ensures size == |Utf8.Encode(s[..Fit(s, max)])|
  {
    var bytes := Utf8.Encode(s);
    ghost var k := Fit(s, max);
    ghost var target := |Utf8.Encode(s[..k])|;
    FitIsMaximal(s, max);
    BoundaryAfter(s, k);
    if k == |s| {
      assert s[..k] == s;
    }
    size := Min(|bytes|, max);
    while size > 0 && !IsBoundary(bytes, size)
      invariant target <= size <= Min(|bytes|, max)
    {
      size := size - 1;
    }
    if target < size {
      NoBoundaryInside(s, k, size);
    }
  }
}
