// Whole runs of the writer: nothing is lost or invented, terminals stand, numbers are contiguous.
module WriterTheorems {
  import opened Prelude
  import opened Wire
  import opened Writer

  // ---- Conservation ----

  lemma {:induction false} NothingLost(fs: seq<WireFrame>, cap: nat, kind: Kind)
    ensures |Admitted(fs, cap)| + |Suppressed(fs, cap)| == |fs|
    ensures CountKind(Admitted(fs, cap), kind) + CountKind(Suppressed(fs, cap), kind) == CountKind(fs, kind)
  {
    if fs != [] {
      var front, f := fs[..|fs| - 1], fs[|fs| - 1];
      NothingLost(front, cap, kind);
      var w, s := Admitted(front, cap), Suppressed(front, cap);
      assert (w + [f])[..|w|] == w && (s + [f])[..|s|] == s;
    }
  }

  // The kinds of frame that take no part in any flow.
  const OUTSIDE: set<Kind> := {Hello, Heartbeat, RelayNotify, RelayState, Cancel, Credit}

  // The frames of the given kinds, in order.
  function OfKinds(fs: seq<WireFrame>, kinds: set<Kind>): seq<WireFrame> {
    if fs == [] then []
    else
      var rest := OfKinds(fs[..|fs| - 1], kinds);
      if fs[|fs| - 1].kind in kinds then rest + [fs[|fs| - 1]] else rest
  }

  lemma {:induction false} FlowIsByKind(f: WireFrame)
    ensures IsFlow(f) <==> f.kind !in OUTSIDE
  {
  }

  // Handshake, health, relay, cancel and credit frames reach the wire as they are, number and all, every
  // one of them and in order.
  lemma {:induction false} NonFlowFramesPass(fs: seq<WireFrame>, cap: nat)
    ensures OfKinds(Numbering(Admitted(fs, cap)), OUTSIDE) == OfKinds(fs, OUTSIDE)
    ensures forall kind :: kind in OUTSIDE ==> CountKind(Suppressed(fs, cap), kind) == 0
  {
    if fs != [] {
      var front, f := fs[..|fs| - 1], fs[|fs| - 1];
      NonFlowFramesPass(front, cap);
      var w, s := Admitted(front, cap), Suppressed(front, cap);
      assert (w + [f])[..|w|] == w && (s + [f])[..|s|] == s;
      var n := Numbering(w);
      assert (n + [Numbered(w, f)])[..|n|] == n;
      FlowIsByKind(f);
      hide IsFlow;
    }
  }

  // ---- Terminals ----

  lemma {:induction false} TerminalsAppend(a: seq<WireFrame>, b: seq<WireFrame>)
    ensures Terminals(a + b) == Terminals(a) + Terminals(b)
    decreases |b|
  {
    if b == [] {
      assert a + b == a;
    } else {
      assert (a + b)[..|a + b| - 1] == a + b[..|b| - 1];
      TerminalsAppend(a, b[..|b| - 1]);
    }
  }

  lemma {:induction false} AdmittedPrefix(fs: seq<WireFrame>, cap: nat, j: nat) returns (i: nat)
    requires j < |Admitted(fs, cap)|
    ensures i < |fs| && Admitted(fs[..i], cap) == Admitted(fs, cap)[..j]
    ensures fs[i] == Admitted(fs, cap)[j] && !Moot(Admitted(fs[..i], cap), fs[i], cap)
  {
    var n := |fs| - 1;
    var before := Admitted(fs[..n], cap);
    if j < |before| {
      i := AdmittedPrefix(fs[..n], cap, j);
      assert fs[..n][..i] == fs[..i];
    } else {
      i := n;
    }
  }

  // After a terminal, its flow stays silent until at least `cap` flows have been terminated.
  lemma {:induction false} TerminalStands(fs: seq<WireFrame>, cap: nat, i: nat, j: nat)
    requires i < j < |Admitted(fs, cap)|
    requires var w := Admitted(fs, cap); IsTerminal(w[i]) && InFlow(w[j], KeyOf(w[i]))
    ensures |Terminals(Admitted(fs, cap)[i + 1..j])| >= cap
  {
    hide Admitted;
    var w := Admitted(fs, cap);
    var at := AdmittedPrefix(fs, cap, j);
    var before, between := w[..i + 1], w[i + 1..j];
    assert w[..j] == before + between;
    TerminalsAppend(before, between);
    assert before[..i] == w[..i];
    assert Terminals(before) == Terminals(w[..i]) + [KeyOf(w[i])];
    InLast(Terminals(w[..i]), KeyOf(w[i]), Terminals(between), cap);
  }

  lemma {:induction false} InLast(older: seq<FlowKey>, k: FlowKey, newer: seq<FlowKey>, cap: nat)
    ensures |newer| < cap ==> k in LastOf(older + [k] + newer, cap)
  {
    var keys := older + [k] + newer;
    if |newer| < cap {
      assert LastOf(keys, cap)[|LastOf(keys, cap)| - |newer| - 1] == k;
    }
  }

  // A flow is terminated by an END or ERR with its ids.
  lemma {:induction false} TerminatedByFrame(w: seq<WireFrame>, id: MessageId, xid: Option<MessageId>)
    ensures FlowKey(id, xid) in Terminals(w) <==>
            exists f :: f in w && (f.kind.End? || f.kind.Err?) && f.id == id && f.xid == xid
  {
    if w != [] {
      var front, last := w[..|w| - 1], w[|w| - 1];
      TerminatedByFrame(front, id, xid);
      assert w == front + [last];
    }
  }

  // A frame is suppressed exactly when it takes part in a flow and fewer than `cap` flows have been
  // terminated since its own.
  lemma {:induction false} StragglerIsMootIff(w: seq<WireFrame>, older: seq<FlowKey>, newer: seq<FlowKey>, f: WireFrame, cap: nat)
    requires var k := FlowKey(f.id, f.xid); k !in newer && Terminals(w) == older + [k] + newer
    ensures Moot(w, f, cap) <==> f.kind !in OUTSIDE && |newer| < cap
  {
    var keys := Terminals(w);
    InLast(older, KeyOf(f), newer, cap);
    if |newer| >= cap {
      assert LastOf(keys, cap) == newer[|newer| - cap..];
    }
  }

  // ---- One flow ----

  function FirstAt(keys: seq<FlowKey>, k: FlowKey): nat {
    if keys == [] || keys[0] == k then 0 else 1 + FirstAt(keys[1..], k)
  }

  // Fewer than `cap` flows were terminated after flow `k` first was.
  predicate Remembers(w: seq<WireFrame>, k: FlowKey, cap: nat) {
    |Terminals(w)| <= FirstAt(Terminals(w), k) + cap
  }

  lemma {:induction false} FirstAtAppend(keys: seq<FlowKey>, k: FlowKey, last: FlowKey)
    ensures FirstAt(keys, k) <= |keys| && (k !in keys[..FirstAt(keys, k)]) && (FirstAt(keys, k) < |keys| ==> keys[FirstAt(keys, k)] == k)
    ensures FirstAt(keys + [last], k) <= FirstAt(keys, k) + 1
    ensures k in keys ==> FirstAt(keys + [last], k) == FirstAt(keys, k) < |keys|
  {
    if keys != [] && keys[0] != k {
      assert (keys + [last])[1..] == keys[1..] + [last];
      FirstAtAppend(keys[1..], k, last);
    }
  }

  // The frames of a flow through its first terminal.
  function ThroughTerminal(fs: seq<WireFrame>): seq<WireFrame> {
    if fs == [] then []
    else
      var front := ThroughTerminal(fs[..|fs| - 1]);
      if front != [] && IsTerminal(front[|front| - 1]) then front else front + [fs[|fs| - 1]]
  }

  lemma {:induction false} TerminatedIff(w: seq<WireFrame>, k: FlowKey)
    ensures k in Terminals(w) <==> exists f :: f in OfFlow(w, k) && IsTerminal(f)
  {
    if w != [] {
      TerminatedIff(w[..|w| - 1], k);
      var last := w[|w| - 1];
      if IsTerminal(last) && KeyOf(last) == k {
        assert last in OfFlow(w, k);
      }
    }
  }

  predicate EndsOnce(fs: seq<WireFrame>) {
    forall i :: 0 <= i < |fs| - 1 ==> !IsTerminal(fs[i])
  }

  lemma {:induction false} OnlyLastIsTerminal(fs: seq<WireFrame>)
    ensures EndsOnce(ThroughTerminal(fs))
  {
    if fs != [] {
      OnlyLastIsTerminal(fs[..|fs| - 1]);
    }
  }

  // A flow the gate still remembers reaches the wire through its first terminal, and no further.
  lemma {:induction false} FlowOnTheWire(fs: seq<WireFrame>, k: FlowKey, cap: nat)
    requires cap > 0 && Remembers(Admitted(fs, cap), k, cap)
    ensures OfFlow(Admitted(fs, cap), k) == ThroughTerminal(OfFlow(fs, k))
  {
    if fs != [] {
      var front, f := fs[..|fs| - 1], fs[|fs| - 1];
      var w := Admitted(front, cap);
      assert (w + [f])[..|w|] == w;
      FirstAtAppend(Terminals(w), k, KeyOf(f));
      FlowOnTheWire(front, k, cap);
      if InFlow(f, k) {
        FlowStep(front, f, k, cap);
      }
    }
  }

  lemma {:induction false} FlowStep(front: seq<WireFrame>, f: WireFrame, k: FlowKey, cap: nat)
    requires cap > 0 && InFlow(f, k)
    requires var w := Admitted(front, cap); Remembers(w, k, cap) && OfFlow(w, k) == ThroughTerminal(OfFlow(front, k))
    ensures OfFlow(Admitted(front + [f], cap), k) == ThroughTerminal(OfFlow(front + [f], k))
  {
    assert (front + [f])[..|front|] == front;
    var w := Admitted(front, cap);
    assert (w + [f])[..|w|] == w;
    MootIffTerminated(w, f, k, cap);
    hide Admitted, Remembers, Moot;
    var mine := OfFlow(front, k);
    assert OfFlow(front + [f], k) == mine + [f];
    assert (mine + [f])[..|mine|] == mine;
    ClosedIff(w, mine, k);
  }

  lemma {:induction false} MootIffTerminated(w: seq<WireFrame>, f: WireFrame, k: FlowKey, cap: nat)
    requires InFlow(f, k) && Remembers(w, k, cap)
    ensures Moot(w, f, cap) <==> k in Terminals(w)
  {
    var keys := Terminals(w);
    FirstAtAppend(keys, k, k);
    if k in keys {
      var p := FirstAt(keys, k);
      assert keys == keys[..p] + [k] + keys[p + 1..];
      InLast(keys[..p], k, keys[p + 1..], cap);
    }
  }

  // A flow cut at its first terminal is over exactly when it was terminated.
  lemma {:induction false} ClosedIff(w: seq<WireFrame>, mine: seq<WireFrame>, k: FlowKey)
    requires OfFlow(w, k) == ThroughTerminal(mine)
    ensures var cut := ThroughTerminal(mine); k in Terminals(w) <==> cut != [] && IsTerminal(cut[|cut| - 1])
  {
    TerminatedIff(w, k);
    OnlyLastIsTerminal(mine);
  }

  lemma {:induction false} NumbersAre(w: seq<WireFrame>, k: FlowKey)
    requires EndsOnce(OfFlow(w, k))
    ensures NumbersOf(Numbering(w), k) == UpTo(|OfFlow(w, k)|)
    ensures var mine := OfFlow(w, k); (mine == [] || !IsTerminal(mine[|mine| - 1])) ==> Due(w, k) == |mine|
  {
    if w != [] {
      var front, f := w[..|w| - 1], w[|w| - 1];
      FrontEndsOnce(w, k);
      NumbersAre(front, k);
      NumbersAppend(Numbering(front), Numbered(front, f), k);
    }
  }

  lemma {:induction false} FrontEndsOnce(w: seq<WireFrame>, k: FlowKey)
    requires w != [] && EndsOnce(OfFlow(w, k))
    ensures var mine := OfFlow(w[..|w| - 1], k); EndsOnce(mine)
    ensures var mine := OfFlow(w[..|w| - 1], k); InFlow(w[|w| - 1], k) ==> mine == [] || !IsTerminal(mine[|mine| - 1])
  {
    var mine := OfFlow(w[..|w| - 1], k);
    if InFlow(w[|w| - 1], k) {
      assert forall i :: 0 <= i < |mine| ==> mine[i] == OfFlow(w, k)[i];
    }
  }

  lemma {:induction false} NumbersAppend(n: seq<WireFrame>, f: WireFrame, k: FlowKey)
    ensures NumbersOf(n + [f], k) == if InFlow(f, k) then NumbersOf(n, k) + [f.seqNo] else NumbersOf(n, k)
  {
    assert (n + [f])[..|n|] == n;
  }

  // Its frames carry 0, 1, 2, ... without a gap, and nothing follows its terminal.
  lemma {:induction false} FlowIsContiguous(fs: seq<WireFrame>, k: FlowKey, cap: nat)
    requires cap > 0 && Remembers(Admitted(fs, cap), k, cap)
    ensures NumbersOf(Numbering(Admitted(fs, cap)), k) == UpTo(|ThroughTerminal(OfFlow(fs, k))|)
  {
    FlowOnTheWire(fs, k, cap);
    OnlyLastIsTerminal(OfFlow(fs, k));
    NumbersAre(Admitted(fs, cap), k);
  }

  // In any run, remembered or not, a frame that follows its flow's terminal starts again from 0.
  lemma {:induction false} NumberingRestarts(w: seq<WireFrame>, i: nat, k: FlowKey)
    requires i < |w| && InFlow(w[i], k)
    ensures Numbering(w)[i].seqNo == Due(w[..i], k)
    ensures i + 1 < |w| && InFlow(w[i + 1], k) ==> Numbering(w)[i + 1].seqNo == if IsTerminal(w[i]) then 0 else Numbering(w)[i].seqNo + 1
  {
    NumberingAt(w, i);
    if i + 1 < |w| {
      NumberingAt(w, i + 1);
      assert w[..i + 1][..i] == w[..i];
    }
  }

  lemma {:induction false} NumberingAt(w: seq<WireFrame>, i: nat)
    requires i < |w|
    ensures Numbering(w)[i] == Numbered(w[..i], w[i])
  {
    if i < |w| - 1 {
      NumberingAt(w[..|w| - 1], i);
      assert w[..|w| - 1][..i] == w[..i];
    }
  }

  // ---- The loop ----

  // The frames that come to the queue, in order.
  function Coming(turns: seq<Turn>): seq<WireFrame> {
    if turns == [] then []
    else
      var last := turns[|turns| - 1];
      Coming(turns[..|turns| - 1]) + [last.frame] + if last.poll.Next? then [last.poll.frame] else []
  }

  // The frame of turn `i` is written or suppressed.
  predicate FirstGoes(turns: seq<Turn>, i: nat, cap: nat)
    requires i < |turns|
  {
    turns[i].ok || Moot(Admitted(Coming(turns[..i]), cap), turns[i].frame, cap)
  }

  // So is what the look at the queue finds; if it finds nothing, the flush succeeds.
  predicate TurnGoes(turns: seq<Turn>, i: nat, cap: nat)
    requires i < |turns|
  {
    FirstGoes(turns, i, cap) && !turns[i].poll.Disconnected?
    && (turns[i].poll.ok
        || (turns[i].poll.Next? && Moot(Admitted(Coming(turns[..i]) + [turns[i].frame], cap), turns[i].poll.frame, cap)))
  }

  // The loop takes every frame in the order they come, up to the first turn that goes wrong. There it ends,
  // with the frame of that turn if it went out, and without it if not.
  lemma {:induction false} LoopTakes(turns: seq<Turn>, i: nat, cap: nat)
    requires i <= |turns| && forall j :: 0 <= j < i ==> TurnGoes(turns, j, cap)
    ensures i == |turns| ==> Follow(turns, cap) == Progress(Coming(turns), true)
    ensures i < |turns| && !TurnGoes(turns, i, cap) ==>
      Follow(turns, cap) == Progress(Coming(turns[..i]) + if FirstGoes(turns, i, cap) then [turns[i].frame] else [], false)
  {
    FollowSkips(turns, i, cap);
    hide Coming, Admitted, Moot;
    assert turns[..|turns|] == turns;
  }

  lemma {:induction false} FollowSkips(turns: seq<Turn>, i: nat, cap: nat)
    requires i <= |turns| && forall j :: 0 <= j < i ==> TurnGoes(turns, j, cap)
    ensures Follow(turns, cap) == FollowFrom(Coming(turns[..i]), turns[i..], cap)
  {
    hide Admitted, Moot;
    if i == 0 {
      assert turns[0..] == turns;
    } else {
      FollowSkips(turns, i - 1, cap);
      assert turns[..i][..i - 1] == turns[..i - 1] && turns[i - 1..][1..] == turns[i..];
      var turn := turns[i - 1];
      var one := Coming(turns[..i - 1]) + [turn.frame];
      assert Coming(turns[..i]) == if turn.poll.Next? then one + [turn.poll.frame] else one by {
        assert turns[..i][i - 1] == turn;
      }
      assert TurnGoes(turns, i - 1, cap);
      assert turns[i - 1..][0] == turn;
    }
  }
}
