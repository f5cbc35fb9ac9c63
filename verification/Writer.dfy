// The writer thread: the terminal gate, per-flow numbering, and the loop that feeds them.
module Writer {
  import opened Wire

  // A bounded first-in first-out memory of terminated flows.
  class TerminatedFlows {
    var order: seq<FlowKey>
    var members: set<FlowKey>
    const cap: nat

    ghost predicate Valid()
      reads this
    {
      && cap > 0 && |order| <= cap
      && (forall k :: k in members <==> k in order)
      && (forall i, j :: 0 <= i < j < |order| ==> order[i] != order[j])
    }

    constructor (cap: nat)
      requires cap > 0
      ensures Valid() && order == [] && this.cap == cap
    {
      this.cap := cap;
      order, members := [], {};
    }

    method Insert(key: FlowKey)
      requires Valid()
      modifies this
      ensures Valid()
      ensures order == if key in old(order) then old(order) else LastOf(old(order) + [key], cap)
    {
      if key in members {
        return;
      }
      if |order| == cap {
        members := members - {order[0]};
        order := order[1..];
      }
      order := order + [key];
      members := members + {key};
    }
  }

  class SeqAssigner {
    var counters: map<FlowKey, nat>

    ghost function DueFor(k: FlowKey): nat
      reads this
    {
      if k in counters then counters[k] else 0
    }

    constructor ()
      ensures forall k :: DueFor(k) == 0
    {
      counters := map[];
    }

    method Assign(f: WireFrame) returns (numbered: WireFrame)
      modifies this
      ensures numbered == if IsFlow(f) then f.(seqNo := old(DueFor(KeyOf(f)))) else f
      ensures forall k :: DueFor(k) == old(DueFor(k)) + if InFlow(f, k) then 1 else 0
    {
      if !IsFlow(f) {
        return f;
      }
      var key := KeyOf(f);
      var counter := if key in counters then counters[key] else 0;
      numbered := f.(seqNo := counter);
      counters := counters[key := counter + 1];
    }

    method Remove(key: FlowKey)
      modifies this
      ensures forall k :: DueFor(k) == if k == key then 0 else old(DueFor(k))
    {
      counters := counters - {key};
    }
  }

  datatype GatedWrite = Written | SuppressedStraggler | WriterDead

  // What a non-blocking look at the queue finds; `ok` tells whether the write or the flush succeeds.
  datatype Poll = Empty(ok: bool) | Disconnected | Next(frame: WireFrame, ok: bool)

  // One turn of the loop: the frame it blocked for, and the look that follows.
  datatype Turn = Turn(frame: WireFrame, ok: bool, poll: Poll)

  // The frames the loop handed to the gate, and whether it is still running.
  datatype Progress = Progress(taken: seq<WireFrame>, alive: bool)

  class FrameWriter {
    const terminated: TerminatedFlows
    const assigner: SeqAssigner
    var stragglers: map<Kind, nat>
    var buffered: seq<WireFrame>
    var wire: seq<WireFrame>

    ghost predicate Valid()
      reads this, terminated, assigner
    {
      terminated.Valid()
    }

    ghost function Stragglers(kind: Kind): nat
      reads this
    {
      if kind in stragglers then stragglers[kind] else 0
    }

    // The writer has dealt with exactly the frames `taken`.
    ghost predicate HasDealtWith(taken: seq<WireFrame>)
      reads this, terminated, assigner
    {
      && terminated.Valid()
      && wire == Numbering(Admitted(taken, terminated.cap))
      && buffered == []
      && terminated.order == LastOf(Terminals(Admitted(taken, terminated.cap)), terminated.cap)
      && (forall k :: assigner.DueFor(k) == Due(Admitted(taken, terminated.cap), k))
      && (forall kind :: Stragglers(kind) == CountKind(Suppressed(taken, terminated.cap), kind))
    }

    constructor (cap: nat)
      requires cap > 0
      ensures HasDealtWith([]) && terminated.cap == cap && fresh(terminated) && fresh(assigner)
    {
      terminated := new TerminatedFlows(cap);
      assigner := new SeqAssigner();
      stragglers, buffered, wire := map[], [], [];
    }

    // `write_frame_sync`: the frame goes through the buffer, which is flushed at once.
    method WriteFrame(f: WireFrame, ok: bool)
      modifies `buffered, `wire
      ensures ok ==> wire == old(wire) + old(buffered) + [f] && buffered == []
      ensures !ok ==> wire == old(wire) && buffered == old(buffered)
    {
      if !ok {
        return;
      }
      buffered := buffered + [f];
      wire := wire + buffered;
      buffered := [];
    }

    method WriteGated(f: WireFrame, ok: bool, ghost taken: seq<WireFrame>) returns (r: GatedWrite)
      requires HasDealtWith(taken)
      modifies this, terminated, assigner
      ensures r.SuppressedStraggler? <==> Moot(Admitted(taken, terminated.cap), f, terminated.cap)
      ensures r.WriterDead? <==> !r.SuppressedStraggler? && !ok
      ensures !r.WriterDead? ==> HasDealtWith(taken + [f])
      ensures r.WriterDead? ==> wire == old(wire) && buffered == [] && stragglers == old(stragglers)
    {
      hide Due, Terminals, Admitted, Suppressed, CountKind, Numbering;
      ghost var before := Admitted(taken, terminated.cap);
      Taking(taken, f, terminated.cap);
      var key := KeyOf(f);
      if IsFlow(f) && key in terminated.members {
        stragglers := stragglers[f.kind := (if f.kind in stragglers then stragglers[f.kind] else 0) + 1];
        return SuppressedStraggler;
      }
      var numbered := assigner.Assign(f);
      WriteFrame(numbered, ok);
      if !ok {
        return WriterDead;
      }
      if f.kind.End? || f.kind.Err? {
        assigner.Remove(key);
        terminated.Insert(key);
        LastOfAppend(Terminals(before), key, terminated.cap);
      }
      return Written;
    }

    // The loop. It ends when the queue disconnects or a write or flush fails; frames it had not taken
    // by then are lost. Every frame it dealt with is already flushed, whichever branch took it.
    method Loop(turns: seq<Turn>) returns (ghost done: Progress)
      requires HasDealtWith([])
      modifies this, terminated, assigner
      ensures done == Follow(turns, terminated.cap)
      ensures HasDealtWith(done.taken) || !done.alive
      ensures wire == Numbering(Admitted(done.taken, terminated.cap)) && buffered == []
      ensures forall kind :: Stragglers(kind) == CountKind(Suppressed(done.taken, terminated.cap), kind)
    {
      hide Due, Terminals, Admitted, Suppressed, CountKind, Numbering;
      var i := 0;
      done := Progress([], true);
      while i < |turns|
        invariant 0 <= i <= |turns| && done.alive
        invariant HasDealtWith(done.taken)
        invariant Follow(turns, terminated.cap) == FollowFrom(done.taken, turns[i..], terminated.cap)
      {
        var turn := turns[i];
        assert turns[i..][1..] == turns[i + 1..];
        var first := WriteGated(turn.frame, turn.ok, done.taken);
        if first.WriterDead? {
          done := Progress(done.taken, false);
          return;
        }
        done := Progress(done.taken + [turn.frame], true);
        match turn.poll {
          case Empty(ok) =>
            if !ok {
              done := Progress(done.taken, false);
              return;
            }
            wire := wire + buffered;
            buffered := [];
          case Disconnected =>
            done := Progress(done.taken, false);
            return;
          case Next(next, ok) =>
            var second := WriteGated(next, ok, done.taken);
            if second.WriterDead? {
              done := Progress(done.taken, false);
              return;
            }
            done := Progress(done.taken + [next], true);
        }
        i := i + 1;
      }
    }
  }

  // Whether the gate survives frame `f` after having taken `taken`.
  predicate Survives(taken: seq<WireFrame>, f: WireFrame, ok: bool, cap: nat) {
    ok || Moot(Admitted(taken, cap), f, cap)
  }

  function Follow(turns: seq<Turn>, cap: nat): Progress {
    FollowFrom([], turns, cap)
  }

  function FollowFrom(taken: seq<WireFrame>, turns: seq<Turn>, cap: nat): Progress
    decreases |turns|
  {
    if turns == [] then Progress(taken, true)
    else
      var turn := turns[0];
      if !Survives(taken, turn.frame, turn.ok, cap) then Progress(taken, false)
      else
        var one := taken + [turn.frame];
        match turn.poll
        case Empty(ok) => if ok then FollowFrom(one, turns[1..], cap) else Progress(one, false)
        case Disconnected => Progress(one, false)
        case Next(next, ok) =>
          if Survives(one, next, ok, cap) then FollowFrom(one + [next], turns[1..], cap) else Progress(one, false)
  }

  // ---- One frame more ----

  lemma {:induction false} Taking(taken: seq<WireFrame>, f: WireFrame, cap: nat)
    ensures var w := Admitted(taken, cap); var moot := Moot(w, f, cap);
      && Admitted(taken + [f], cap) == (if moot then w else w + [f])
      && Suppressed(taken + [f], cap) == (if moot then Suppressed(taken, cap) + [f] else Suppressed(taken, cap))
      && Numbering(w + [f]) == Numbering(w) + [Numbered(w, f)]
      && Terminals(w + [f]) == (if IsTerminal(f) then Terminals(w) + [KeyOf(f)] else Terminals(w))
      && (forall k :: Due(w + [f], k) == if !InFlow(f, k) then Due(w, k) else if IsTerminal(f) then 0 else Due(w, k) + 1)
      && (forall kind :: CountKind(Suppressed(taken, cap) + [f], kind) ==
                         CountKind(Suppressed(taken, cap), kind) + if f.kind == kind then 1 else 0)
  {
    assert (taken + [f])[..|taken|] == taken;
    var w := Admitted(taken, cap);
    assert (w + [f])[..|w|] == w;
    var s := Suppressed(taken, cap);
    assert (s + [f])[..|s|] == s;
  }

  lemma {:induction false} LastOfAppend(keys: seq<FlowKey>, k: FlowKey, cap: nat)
    requires cap > 0
    ensures LastOf(LastOf(keys, cap) + [k], cap) == LastOf(keys + [k], cap)
  {
  }
}
