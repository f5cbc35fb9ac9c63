// A stream id used again, and a START in the middle of things.
module Restarts {
  import opened Prelude
  import opened Reassembly
  import opened Demux
  import Agreement
  import Frames
  import PeerDemux

  // ---- The demultiplexer of requests ----

  // Two states alike but for what the reader was handed before, and the fragment credits given.
  predicate Shifted(s: StreamState, u: StreamState, before: seq<Event>) {
    s.log == before + u.log && s.open == u.open && s.window == u.window && s.assembly == u.assembly
  }

  lemma {:induction false} HandShifted(s: StreamState, u: StreamState, before: seq<Event>, out: seq<Delivery>)
    requires Shifted(s, u, before)
    ensures Shifted(Hand(s, out), Hand(u, out), before) && Shifted(Close(s), Close(u), before)
  {
  }

  lemma {:induction false} AcceptShifted(s: StreamState, u: StreamState, before: seq<Event>, f: Frames.Frame, credit: Option<nat>)
    requires Shifted(s, u, before) && f.Chunk?
    ensures Shifted(Accept(s, f, credit), Accept(u, f, credit), before)
  {
    hide Frames.Refusal, Frames.DecodeScalar, Push, Hand;
    if s.open && f.payload.Some? {
      var refusal := Frames.Refusal(f.payload.value, f.checksum);
      if refusal.Some? {
        HandShifted(s, u, before, [Failed(refusal.value)]);
      } else if s.assembly.None? {
        HandShifted(s, u, before, [Frames.DecodeScalar(f.payload.value, f.meta)]);
      } else {
        var pushed := Push(s.assembly.value.partial, Fragment(f.payload.value, f.meta));
        var assembly := Some(s.assembly.value.(partial := pushed.state));
        HandShifted(s.(assembly := assembly), u.(assembly := assembly), before, pushed.out);
      }
    }
  }

  lemma {:induction false} ChunkShifted(s: StreamState, u: StreamState, before: seq<Event>, f: Frames.Frame, credit: Option<nat>)
    requires Shifted(s, u, before) && f.Chunk?
    ensures Shifted(ReceiveChunk(s, f, credit), ReceiveChunk(u, f, credit), before)
  {
    hide Hand, Accept;
    if s.window.None? {
      AcceptShifted(s, u, before, f, credit);
    } else {
      var window := Some(s.window.value - 1);
      AcceptShifted(s.(window := window), u.(window := window), before, f, credit);
      HandShifted(s.(window := window), u.(window := window), before, [Failed(CreditViolation)]);
    }
  }

  lemma {:induction false} LastShifted(s: StreamState, u: StreamState, before: seq<Event>, f: Frames.Frame)
    requires Shifted(s, u, before)
    ensures Shifted(Finish(s), Finish(u), before)
    ensures f.Err? && s.open ==> Shifted(Close(Hand(s, [Failed(Frames.RemoteFailure(f))])), Close(Hand(u, [Failed(Frames.RemoteFailure(f))])), before)
  {
    hide Frames.RemoteFailure;
  }

  lemma {:induction false} StepShifted(s: StreamState, u: StreamState, before: seq<Event>, i: Input, id: string, credit: Option<nat>)
    requires Shifted(s, u, before)
    ensures Shifted(StepInput(s, i, id, credit), StepInput(u, i, id, credit), before)
  {
    if i.Arrived? {
      var f := i.frame;
      HandShifted(s, u, before, []);
      LastShifted(s, u, before, f);
      if f.Chunk? {
        ChunkShifted(s, u, before, f, credit);
      }
      hide ReceiveChunk, Finish, Hand, Frames.RemoteFailure;
    }
  }

  lemma {:induction false} RunShifted(s: StreamState, u: StreamState, before: seq<Event>, inputs: seq<Input>, id: string, credit: Option<nat>)
    requires Shifted(s, u, before)
    ensures RunStream(s, inputs, id, credit).log == before + RunStream(u, inputs, id, credit).log
    decreases |inputs|
  {
    hide StepInput;
    if inputs != [] {
      StepShifted(s, u, before, inputs[0], id, credit);
      if !Ends(inputs[0]) {
        RunShifted(StepInput(s, inputs[0], id, credit), StepInput(u, inputs[0], id, credit), before, inputs[1..], id, credit);
      }
    }
  }

  // STREAM_END leaves nothing behind: under an id that comes again the reader is handed what it would be
  // under a new one.
  lemma {:induction false} EndedIsForgotten(s: StreamState, start: Frames.Frame, rest: seq<Input>, id: string, credit: Option<nat>)
    requires start.StreamStart? && start.id == Some(id) && (credit.Some? || s.window.None?)
    ensures var ended := StepInput(s, Arrived(Frames.StreamEnd(Some(id))), id, credit);
      RunStream(ended, [Arrived(start)] + rest, id, credit).log == ended.log + RunStream(UNKNOWN, [Arrived(start)] + rest, id, credit).log
  {
    var ended := StepInput(s, Arrived(Frames.StreamEnd(Some(id))), id, credit);
    var first := StepInput(ended, Arrived(start), id, credit);
    assert Shifted(first, StepInput(UNKNOWN, Arrived(start), id, credit), ended.log);
    assert ([Arrived(start)] + rest)[1..] == rest;
    hide StepInput, Shifted;
    RunShifted(first, StepInput(UNKNOWN, Arrived(start), id, credit), ended.log, rest, id, credit);
  }

  // Chunks and STREAM_ENDs without an id belong to the stream named by the empty string, and to no other.
  lemma {:induction false} NoIdIsTheEmptyId(s: StreamState, payload: Option<Bytes>, checksum: Option<nat>, meta: Option<Meta>,
                                            id: string, credit: Option<nat>)
    ensures StepInput(s, Arrived(Frames.StreamEnd(None)), id, credit) ==
            if id == "" then StepInput(s, Arrived(Frames.StreamEnd(Some(id))), id, credit) else s
    ensures StepInput(s, Arrived(Frames.Chunk(None, payload, checksum, meta)), id, credit) ==
            if id == "" then StepInput(s, Arrived(Frames.Chunk(Some(id), payload, checksum, meta)), id, credit) else s
  {
    hide Frames.Refusal, Frames.DecodeScalar, Push, AtStreamEnd;
  }

  // Two open streams in the middle of the same item, or of none.
  predicate Fellows(s: StreamState, t: StreamState) {
    && s.open && t.open
    && (s.assembly.Some? <==> t.assembly.Some?)
    && (s.assembly.Some? ==> s.assembly.value.partial == t.assembly.value.partial)
  }

  predicate Charges(s: StreamState, i: Input) {
    i.Arrived? && i.frame.Chunk? && s.window.Some? ==> s.window.value > 0
  }

  lemma {:induction false} FellowStep(s: StreamState, t: StreamState, i: Input, id: string, credit: Option<nat>) returns (out: seq<Delivery>)
    requires Fellows(s, t) && Agreement.IsBody(i, id) && Charges(s, i) && Charges(t, i)
    ensures var s', t' := StepInput(s, i, id, credit), StepInput(t, i, id, credit);
      Fellows(s', t') && s'.log == s.log + Wrap(out) && t'.log == t.log + Wrap(out)
  {
    hide Frames.Refusal, Frames.DecodeScalar, Push;
    out := [];
    if i.Arrived? && i.frame.Chunk? && i.frame.payload.Some? {
      var f := i.frame;
      var refusal := Frames.Refusal(f.payload.value, f.checksum);
      out := if refusal.Some? then [Failed(refusal.value)]
             else if s.assembly.None? then [Frames.DecodeScalar(f.payload.value, f.meta)]
             else Push(s.assembly.value.partial, Fragment(f.payload.value, f.meta)).out;
    }
  }

  lemma {:induction false} FellowsFeed(s: StreamState, t: StreamState, body: seq<Input>, id: string, credit: Option<nat>)
      returns (out: seq<Delivery>)
    requires Fellows(s, t) && Agreement.AllBody(body, id)
    requires Agreement.Conforming(s, body, id, credit) && Agreement.Conforming(t, body, id, credit)
    ensures var s', t' := Agreement.Feed(s, body, id, credit), Agreement.Feed(t, body, id, credit);
      Fellows(s', t') && s'.log == s.log + Wrap(out) && t'.log == t.log + Wrap(out)
    decreases |body|
  {
    hide StepInput, Fellows;
    out := [];
    if body != [] {
      var first := FellowStep(s, t, body[0], id, credit);
      var rest := FellowsFeed(StepInput(s, body[0], id, credit), StepInput(t, body[0], id, credit), body[1..], id, credit);
      out := first + rest;
      Agreement.WrapAppend(first, rest);
    }
  }

  // A scalar START over a sequence that was not ended does not end its reassembly: within the windows, the
  // new reader is handed what the old one would have been, half-received item included.
  lemma {:induction false} UnendedGoesOn(s: StreamState, start: Frames.Frame, body: seq<Input>, id: string, credit: Option<nat>)
      returns (out: seq<Delivery>)
    requires s.open && s.assembly.Some?
    requires start.StreamStart? && start.id == Some(id) && start.isSequence != Some(true) && Agreement.AllBody(body, id)
    requires var t := StepInput(s, Arrived(start), id, credit);
      Agreement.Conforming(s, body, id, credit) && Agreement.Conforming(t, body, id, credit)
    ensures var t := StepInput(s, Arrived(start), id, credit);
      && Agreement.Feed(s, body, id, credit).log == s.log + Wrap(out)
      && Agreement.Feed(t, body, id, credit).log == t.log + Wrap(out)
  {
    out := FellowsFeed(s, StepInput(s, Arrived(start), id, credit), body, id, credit);
  }

  // ---- The demultiplexer of peer responses ----

  predicate OpensSequence(f: Frames.Frame) {
    f.StreamStart? && f.isSequence == Some(true)
  }

  // A scalar START changes nothing, wherever it stands.
  lemma {:induction false} ScalarStartIsNothing(p: PeerDemux.PeerState, a: seq<Frames.Frame>, start: Frames.Frame, b: seq<Frames.Frame>)
    requires start.StreamStart? && start.isSequence != Some(true)
    ensures Agreement.PeerFeed(p, a + [start] + b) == Agreement.PeerFeed(p, a + b)
  {
    var q := Agreement.PeerFeed(p, a);
    assert Agreement.PeerFeed(q, [start]) == q by {
      assert PeerDemux.PeerStep(q, start) == q;
    }
    Agreement.PeerFeedAppend(p, a + [start], b);
    Agreement.PeerFeedAppend(p, a, [start]);
    Agreement.PeerFeedAppend(p, a, b);
  }

  // Two states alike but for what was handed over and credited before.
  predicate PeerShifted(p: PeerDemux.PeerState, q: PeerDemux.PeerState, before: PeerDemux.PeerState) {
    && p.items == before.items + q.items && p.fragmentCredits == before.fragmentCredits + q.fragmentCredits
    && p.assembly == q.assembly && p.spare == q.spare && p.granting == q.granting && p.running == q.running
  }

  lemma {:induction false} FeedShifted(p: PeerDemux.PeerState, q: PeerDemux.PeerState, before: PeerDemux.PeerState, frames: seq<Frames.Frame>)
    requires PeerShifted(p, q, before)
    ensures PeerShifted(Agreement.PeerFeed(p, frames), Agreement.PeerFeed(q, frames), before)
    decreases |frames|
  {
    if frames != [] {
      PeerStepShifted(p, q, before, frames[0]);
      hide PeerDemux.PeerStep, PeerShifted;
      FeedShifted(PeerDemux.PeerStep(p, frames[0]), PeerDemux.PeerStep(q, frames[0]), before, frames[1..]);
    }
  }

  lemma {:induction false} PeerStepShifted(p: PeerDemux.PeerState, q: PeerDemux.PeerState, before: PeerDemux.PeerState, f: Frames.Frame)
    requires PeerShifted(p, q, before)
    ensures PeerShifted(PeerDemux.PeerStep(p, f), PeerDemux.PeerStep(q, f), before)
  {
    hide PeerDemux.PeerChunk, PeerDemux.Give, Frames.RemoteFailure;
    if f.Chunk? && f.payload.Some? {
      PeerChunkShifted(p, q, before, f.payload.value, f);
    } else if f.Err? {
      GiveShifted(p, q, before, [Failed(Frames.RemoteFailure(f))]);
    } else if f.StreamEnd? || f.End? {
      GiveShifted(p.(assembly := None, running := false), q.(assembly := None, running := false), before,
                  if p.assembly.Some? then AtStreamEnd(p.assembly.value) else []);
    }
  }

  lemma {:induction false} GiveShifted(p: PeerDemux.PeerState, q: PeerDemux.PeerState, before: PeerDemux.PeerState, out: seq<Delivery>)
    requires PeerShifted(p, q, before)
    ensures PeerShifted(PeerDemux.Give(p, out), PeerDemux.Give(q, out), before)
  {
  }

  lemma {:induction false} PeerChunkShifted(p: PeerDemux.PeerState, q: PeerDemux.PeerState, before: PeerDemux.PeerState,
                                            payload: Bytes, f: Frames.Frame)
    requires PeerShifted(p, q, before) && f.Chunk?
    ensures PeerShifted(PeerDemux.PeerChunk(p, payload, f), PeerDemux.PeerChunk(q, payload, f), before)
  {
    hide Frames.Refusal, Frames.DecodeScalar, Push;
  }

  // A sequence START drops whatever was half received: what follows is handed over as in a response that
  // begins with it.
  lemma {:induction false} SequenceStartsAfresh(p: PeerDemux.PeerState, start: Frames.Frame, rest: seq<Frames.Frame>)
    requires p.running && OpensSequence(start)
    ensures Agreement.PeerFeed(p, [start] + rest).items ==
            p.items + Agreement.PeerFeed(PeerDemux.Initial(p.spare), [start] + rest).items
    ensures Agreement.PeerFeed(p, [start] + rest).fragmentCredits ==
            p.fragmentCredits + Agreement.PeerFeed(PeerDemux.Initial(p.spare), [start] + rest).fragmentCredits
  {
    assert ([start] + rest)[1..] == rest;
    FeedShifted(PeerDemux.PeerStep(p, start), PeerDemux.PeerStep(PeerDemux.Initial(p.spare), start), p, rest);
  }

  lemma {:induction false} NoneToSpare(p: PeerDemux.PeerState, frames: seq<Frames.Frame>)
    requires !p.spare
    ensures var q := Agreement.PeerFeed(p, frames);
      !q.spare && (!p.granting ==> !q.granting && q.fragmentCredits == p.fragmentCredits)
    decreases |frames|
  {
    if frames != [] {
      var next := PeerDemux.PeerStep(p, frames[0]);
      assert !next.spare && (!p.granting ==> !next.granting && next.fragmentCredits == p.fragmentCredits) by {
        hide Frames.Refusal, Frames.DecodeScalar, Frames.RemoteFailure, Push;
      }
      hide PeerDemux.PeerStep;
      NoneToSpare(next, frames[1..]);
    }
  }

  // There is one emitter, and the first sequence of a response takes it: from a second sequence START on no
  // fragment is credited.
  lemma {:induction false} OnlyTheFirstSequenceCredits(p: PeerDemux.PeerState, one: Frames.Frame, a: seq<Frames.Frame>,
                                                       two: Frames.Frame, b: seq<Frames.Frame>)
    requires OpensSequence(one) && OpensSequence(two)
    ensures Agreement.PeerFeed(p, [one] + a + [two] + b).fragmentCredits == Agreement.PeerFeed(p, [one] + a).fragmentCredits
  {
    assert ([one] + a)[1..] == a && ([two] + b)[1..] == b;
    assert [one] + a + [two] + b == ([one] + a) + ([two] + b);
    Agreement.PeerFeedAppend(p, [one] + a, [two] + b);
    NoneToSpare(PeerDemux.PeerStep(p, one), a);
    var q := Agreement.PeerFeed(p, [one] + a);
    NoneToSpare(PeerDemux.PeerStep(q, two), b);
  }
}
