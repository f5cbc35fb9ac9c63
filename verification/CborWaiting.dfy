// No bytes keep the decoder waiting for ever.
module CborWaiting {
  import opened Prelude
  import opened Cbor

  function Zeros(n: nat): Bytes {
    seq(n, i requires 0 <= i < n => 0)
  }

  // What is left of `p` after `used` bytes of `p` and the zeros behind it.
  function Behind(p: Bytes, used: nat): Bytes {
    if used <= |p| then p[used..] else []
  }

  // How many of the zeros those bytes take.
  function Taken(p: Bytes, used: nat): nat {
    if used <= |p| then 0 else used - |p|
  }

  lemma {:induction false} Split(p: Bytes, n: nat, used: nat)
    requires Taken(p, used) <= n
    ensures used <= |p + Zeros(n)| && (p + Zeros(n))[used..] == Behind(p, used) + Zeros(n - Taken(p, used))
  {
    assert used > |p| ==> Zeros(n)[used - |p|..] == Zeros(n - (used - |p|));
  }

  lemma {:induction false} Longer(p: Bytes, n: nat, m: nat)
    requires n <= m
    ensures p + Zeros(m) == p + Zeros(n) + Zeros(m - n)
  {
    assert Zeros(m) == Zeros(n) + Zeros(m - n);
  }

  // A complete head stays what it is when more zeros follow.
  lemma {:induction false} HeadStays(p: Bytes, n: nat, m: nat)
    requires p != [] && n <= m && |p| + n >= 1 + ArgWidth(p[0] % 32)
    ensures DecodeHead(p + Zeros(m)) == DecodeHead(p + Zeros(n)) && !DecodeHead(p + Zeros(n)).HeadMore?
    ensures DecodeHead(p + Zeros(n)).HeadOk? ==> DecodeHead(p + Zeros(n)).used == 1 + ArgWidth(p[0] % 32)
  {
    Longer(p, n, m);
    var b, c := p + Zeros(n), p + Zeros(m);
    var width := ArgWidth(p[0] % 32);
    assert b[0] == p[0] && c[0] == p[0] && c[1..1 + width] == b[1..1 + width];
  }

  // Whatever has come, enough zeros complete it or spoil it.
  lemma {:induction false} WaitEnds(p: Bytes, m: nat) returns (n: nat)
    ensures n >= m && Decode(p + Zeros(n)) != NeedMore
    decreases |p|, 0
  {
    hide DecodeHead, DecodeString, DecodeSimple;
    if p == [] {
      n := m + 1;
      ZeroDecodes(n);
    } else {
      var used := 1 + ArgWidth(p[0] % 32);
      var k := m + used;
      HeadStays(p, k, k);
      match DecodeHead(p + Zeros(k))
      case HeadBad =>
        n := k;
      case HeadOk(major, info, arg, _) =>
        if major == 2 || major == 3 {
          n := k + arg;
          HeadStays(p, k, n);
        } else if major == 4 || major == 5 {
          var rest := AllWaitEnds(if major == 4 then arg else 2 * arg, Behind(p, used), k);
          n := rest + Taken(p, used);
          HeadStays(p, k, n);
          Split(p, n, used);
        } else if major == 6 {
          var rest := WaitEnds(Behind(p, used), k);
          n := rest + Taken(p, used);
          HeadStays(p, k, n);
          Split(p, n, used);
        } else {
          n := k;
        }
    }
  }

  lemma {:induction false} ZeroDecodes(n: nat)
    requires n >= 1
    ensures Decode([] + Zeros(n)) == Item(Unsigned(0), 1)
  {
    var b := [] + Zeros(n);
    assert b[0] == 0;
  }

  lemma {:induction false} AllWaitEnds(count: nat, p: Bytes, m: nat) returns (n: nat)
    ensures n >= m && DecodeAll(count, p + Zeros(n)) != NeedMoreItems
    decreases |p|, 1 + count
  {
    hide Decode;
    if count == 0 {
      n := m;
    } else {
      var first := WaitEnds(p, m);
      n := first;
      if Decode(p + Zeros(first)).Item? {
        var used := Decode(p + Zeros(first)).used;
        var rest := AllWaitEnds(count - 1, Behind(p, used), first - Taken(p, used));
        n := rest + Taken(p, used);
        Longer(p, first, n);
        Stable(p + Zeros(first), Zeros(n - first));
        Split(p, n, used);
      }
    }
  }
}
