// `demux_multi_stream`: one frame channel split into per-stream deliveries.
module Demux {
  import opened Prelude
  import opened Reassembly
  import opened Frames

  // What the reading end of one stream sees, in order.
  datatype Event = Opened(media: string, meta: Option<Meta>, unbounded: bool) | Handed(delivery: Delivery) | Closed

  datatype Announcement = NewStream(id: string) | Refused(error: StreamError)

  // Everything the demultiplexer knows about one stream id. `live` tells whether the reassembly's
  // fragment grants extend the window in force, and not that of an earlier stream of the same id.
  datatype SeqState = SeqState(partial: Partial, live: bool)

  datatype StreamState = StreamState(
    open: bool,
    window: Option<int>,
    assembly: Option<SeqState>,
    fragmentCredits: nat,
    log: seq<Event>)

  const UNKNOWN := StreamState(false, None, None, 0, [])

  // ---- The behaviour of one stream, seen alone ----

  function Hand(s: StreamState, out: seq<Delivery>): StreamState {
    s.(log := s.log + Wrap(out))
  }

  function Wrap(out: seq<Delivery>): seq<Event> {
    seq(|out|, i requires 0 <= i < |out| => Handed(out[i]))
  }

  function Close(s: StreamState): StreamState {
    if s.open then s.(open := false, log := s.log + [Closed]) else s
  }

  // A START for an id that is still open replaces its sender: the earlier reader sees its end.
  function Reopen(s: StreamState, opening: Event): StreamState {
    Close(s).(open := true, log := Close(s).log + [opening])
  }

  // A fresh window; fresh reassembly for a sequence. A scalar START leaves an earlier, unended
  // reassembly of the same id in place, granting into the window of the stream it belonged to.
  function Arm(s: StreamState, isSequence: bool, credit: Option<nat>): StreamState {
    s.(window := if credit.Some? then Some(credit.value) else s.window,
       assembly := if isSequence then Some(SeqState(EMPTY, true))
                   else if s.assembly.Some? then Some(s.assembly.value.(live := false))
                   else None)
  }

  function Start(s: StreamState, f: Frame, credit: Option<nat>): StreamState
    requires f.StreamStart?
  {
    Arm(Reopen(s, Opened(OrElse(f.media, ""), f.startMeta, OrElse(f.unbounded, false))),
        OrElse(f.isSequence, false), credit)
  }

  // The chunk is charged to the window first; beyond the window it is a violation and goes no further.
  function ReceiveChunk(s: StreamState, f: Frame, credit: Option<nat>): StreamState
    requires f.Chunk?
  {
    if s.window.None? then Accept(s, f, credit)
    else
      var charged := s.(window := Some(s.window.value - 1));
      if s.window.value > 0 then Accept(charged, f, credit)
      else if s.open then Hand(charged, [Failed(CreditViolation)])
      else charged
  }

  function Accept(s: StreamState, f: Frame, credit: Option<nat>): StreamState
    requires f.Chunk?
  {
    if !s.open || f.payload.None? then s
    else
      var refusal := Refusal(f.payload.value, f.checksum);
      if refusal.Some? then Hand(s, [Failed(refusal.value)])
      else if s.assembly.None? then Hand(s, [DecodeScalar(f.payload.value, f.meta)])
      else
        var pushed := Push(s.assembly.value.partial, Fragment(f.payload.value, f.meta));
        var next := Hand(s.(assembly := Some(s.assembly.value.(partial := pushed.state))), pushed.out);
        if credit.Some? && IsContinuation(s.assembly.value.partial) then GrantFragment(next) else next
  }

  // The demultiplexer's own one-chunk grant for a continuation fragment.
  function GrantFragment(s: StreamState): StreamState {
    s.(fragmentCredits := s.fragmentCredits + 1,
       window := if s.assembly.Some? && s.assembly.value.live && s.window.Some? then Some(s.window.value + 1) else s.window)
  }

  function Finish(s: StreamState): StreamState {
    var reported := if s.assembly.Some? && s.open then Hand(s, AtStreamEnd(s.assembly.value.partial)) else s;
    Close(reported.(assembly := None))
  }

  // The frames that end the demultiplexer, and what they tell every open stream.
  predicate Terminal(f: Frame) {
    f.End? || f.Err? || (f.StreamStart? && f.id.None?)
  }

  function KeyOf(f: Frame): Option<string> {
    match f
    case StreamStart(id, _, _, _, _) => id
    case Chunk(stream, _, _, _) => Some(OrElse(stream, ""))
    case StreamEnd(ended) => Some(OrElse(ended, ""))
    case _ => None
  }

  function Step(s: StreamState, f: Frame, id: string, credit: Option<nat>): StreamState {
    if Terminal(f) then
      Close(if f.Err? && s.open then Hand(s, [Failed(RemoteFailure(f))]) else s)
    else if KeyOf(f) != Some(id) then s
    else match f
      case StreamStart(_, _, _, _, _) => Start(s, f, credit)
      case Chunk(_, _, _, _) => ReceiveChunk(s, f, credit)
      case StreamEnd(_) => Finish(s)
      case _ => s
  }

  // Frames from the wire, and grants by which the handler's consumption extends a window.
  datatype Input = Arrived(frame: Frame) | Granted(id: string, n: nat)

  function StepInput(s: StreamState, i: Input, id: string, credit: Option<nat>): StreamState {
    match i
    case Arrived(f) => Step(s, f, id, credit)
    case Granted(to, n) => if to == id && s.window.Some? then s.(window := Some(s.window.value + n)) else s
  }

  predicate Ends(i: Input) {
    i.Arrived? && Terminal(i.frame)
  }

  // One stream's whole life: up to the first terminal frame, or until the channel disconnects.
  function RunStream(s: StreamState, inputs: seq<Input>, id: string, credit: Option<nat>): StreamState
    decreases |inputs|
  {
    if inputs == [] then Close(s)
    else
      var next := StepInput(s, inputs[0], id, credit);
      if Ends(inputs[0]) then next else RunStream(next, inputs[1..], id, credit)
  }

  // What the handler is told when a frame comes: a new stream, or why there will be no more.
  function Announces(f: Frame): seq<Announcement> {
    match f
    case StreamStart(id, _, _, _, _) =>
      if id.Some? then [NewStream(id.value)] else [Refused(Protocol("STREAM_START missing stream_id"))]
    case Err(_, _, _) => [Refused(RemoteFailure(f))]
    case _ => []
  }

  function AnnouncedBy(inputs: seq<Input>): seq<Announcement>
    decreases |inputs|
  {
    if inputs == [] then []
    else
      var first := if inputs[0].Arrived? then Announces(inputs[0].frame) else [];
      if Ends(inputs[0]) then first else first + AnnouncedBy(inputs[1..])
  }

  // ---- The demultiplexer ----

  function Logged(logs: map<string, seq<Event>>, id: string, events: seq<Event>): map<string, seq<Event>> {
    logs[id := (if id in logs then logs[id] else []) + events]
  }

  class MultiDemux {
    const initialCredit: Option<nat>
    var channels: set<string>
    var windows: map<string, int>
    var reassembly: map<string, Partial>
    var live: set<string>
    var fragmentCredits: map<string, nat>
    var logs: map<string, seq<Event>>
    var announced: seq<Announcement>
    var running: bool

    ghost predicate Valid()
      reads this
    {
      channels <= logs.Keys
    }

    ghost function Stream(id: string): StreamState
      reads this
    {
      StreamState(
        id in channels,
        if id in windows then Some(windows[id]) else None,
        if id in reassembly then Some(SeqState(reassembly[id], id in live)) else None,
        if id in fragmentCredits then fragmentCredits[id] else 0,
        if id in logs then logs[id] else [])
    }

    constructor (initialCredit: Option<nat>)
      ensures Valid() && running && announced == [] && this.initialCredit == initialCredit
      ensures forall id :: Stream(id) == UNKNOWN
    {
      this.initialCredit := initialCredit;
      channels, windows, reassembly, live, fragmentCredits, logs := {}, map[], map[], {}, map[], map[];
      announced, running := [], true;
    }

    // The demultiplexer drops every sender it still holds.
    method CloseAll()
      requires Valid()
      modifies `logs, `channels, `running
      ensures Valid() && !running
      ensures forall id :: Stream(id) == Close(old(Stream(id)))
    {
      logs := map id | id in logs :: if id in channels then logs[id] + [Closed] else logs[id];
      channels := {};
      running := false;
    }

    // Every open stream is told of the failure, then closed.
    method FailAll(error: StreamError)
      requires Valid()
      modifies `logs, `channels, `running, `announced
      ensures Valid() && !running && announced == old(announced) + [Refused(error)]
      ensures forall id :: Stream(id) == Close(if old(Stream(id)).open then Hand(old(Stream(id)), [Failed(error)]) else old(Stream(id)))
    {
      logs := map id | id in logs :: if id in channels then logs[id] + Wrap([Failed(error)]) else logs[id];
      announced := announced + [Refused(error)];
      CloseAll();
    }

    method OnStart(f: Frame)
      requires Valid() && f.StreamStart? && f.id.Some?
      modifies `logs, `channels, `windows, `live, `announced, `reassembly
      ensures Valid()
      ensures announced == old(announced) + [NewStream(f.id.value)]
      ensures Stream(f.id.value) == Start(old(Stream(f.id.value)), f, initialCredit)
      ensures forall other :: other != f.id.value ==> Stream(other) == old(Stream(other))
    {
      var id := f.id.value;
      OpenChannel(id, Opened(OrElse(f.media, ""), f.startMeta, OrElse(f.unbounded, false)));
      ArmStream(id, OrElse(f.isSequence, false));
      announced := announced + [NewStream(id)];
    }

    method OpenChannel(id: string, opening: Event)
      requires Valid()
      modifies `logs, `channels
      ensures Valid()
      ensures Stream(id) == Reopen(old(Stream(id)), opening)
      ensures forall other :: other != id ==> Stream(other) == old(Stream(other))
    {
      if id in channels {
        logs := Logged(logs, id, [Closed]);
      }
      logs := Logged(logs, id, [opening]);
      channels := channels + {id};
    }

    method ArmStream(id: string, isSequence: bool)
      requires Valid()
      modifies `windows, `live, `reassembly
      ensures Stream(id) == Arm(old(Stream(id)), isSequence, initialCredit)
      ensures forall other :: other != id ==> Stream(other) == old(Stream(other))
    {
      if initialCredit.Some? {
        windows := windows[id := initialCredit.value];
      }
      if isSequence {
        reassembly := reassembly[id := EMPTY];
        live := live + {id};
      } else {
        live := live - {id};
      }
    }

    method OnChunk(f: Frame)
      requires Valid() && f.Chunk?
      modifies `logs, `windows, `reassembly, `fragmentCredits
      ensures Valid()
      ensures var id := OrElse(f.stream, ""); Stream(id) == ReceiveChunk(old(Stream(id)), f, initialCredit)
      ensures forall other :: other != OrElse(f.stream, "") ==> Stream(other) == old(Stream(other))
    {
      var id := OrElse(f.stream, "");
      if id in windows {
        var before := windows[id];
        windows := windows[id := before - 1];
        if before <= 0 {
          if id in channels {
            logs := Logged(logs, id, Wrap([Failed(CreditViolation)]));
          }
          return;
        }
      }
      Deliver(id, f);
    }

    method Deliver(id: string, f: Frame)
      requires Valid() && f.Chunk? && OrElse(f.stream, "") == id
      modifies `logs, `windows, `reassembly, `fragmentCredits
      ensures Valid()
      ensures Stream(id) == Accept(old(Stream(id)), f, initialCredit)
      ensures forall other :: other != id ==> Stream(other) == old(Stream(other))
    {
      if id !in channels || f.payload.None? {
        return;
      }
      var refusal := Refusal(f.payload.value, f.checksum);
      if refusal.Some? {
        logs := Logged(logs, id, Wrap([Failed(refusal.value)]));
      } else if id !in reassembly {
        logs := Logged(logs, id, Wrap([DecodeScalar(f.payload.value, f.meta)]));
      } else {
        var r, credit := Reassembly.Receive(reassembly[id], Fragment(f.payload.value, f.meta));
        reassembly := reassembly[id := r.state];
        logs := Logged(logs, id, Wrap(r.out));
        if credit && initialCredit.Some? {
          CreditFragment(id);
        }
      }
    }

    method CreditFragment(id: string)
      requires Valid() && id in reassembly
      modifies `windows, `fragmentCredits
      ensures Stream(id) == GrantFragment(old(Stream(id)))
      ensures forall other :: other != id ==> Stream(other) == old(Stream(other))
    {
      fragmentCredits := fragmentCredits[id := 1 + if id in fragmentCredits then fragmentCredits[id] else 0];
      if id in live && id in windows {
        windows := windows[id := windows[id] + 1];
      }
    }

    method OnStreamEnd(f: Frame)
      requires Valid() && f.StreamEnd?
      modifies `logs, `reassembly, `channels
      ensures Valid()
      ensures Stream(OrElse(f.ended, "")) == Finish(old(Stream(OrElse(f.ended, ""))))
      ensures forall other :: other != OrElse(f.ended, "") ==> Stream(other) == old(Stream(other))
    {
      var id := OrElse(f.ended, "");
      ghost var start := Stream(id);
      if id in reassembly {
        if reassembly[id].buf != [] && id in channels {
          logs := Logged(logs, id, Wrap([Failed(Truncated(|reassembly[id].buf|))]));
        }
        reassembly := reassembly - {id};
      }
      if id in channels {
        logs := Logged(logs, id, [Closed]);
        channels := channels - {id};
      }
      assert Stream(id) == Finish(start);
    }

    // One turn of the demultiplexer's loop.
    method Handle(f: Frame)
      requires Valid() && running
      modifies this
      ensures Valid() && running == !Terminal(f)
      ensures announced == old(announced) + Announces(f)
      ensures forall id :: Stream(id) == Step(old(Stream(id)), f, id, initialCredit)
    {
      match f
      case StreamStart(id, _, _, _, _) =>
        if id.None? {
          announced := announced + [Refused(Protocol("STREAM_START missing stream_id"))];
          CloseAll();
        } else {
          OnStart(f);
        }
      case Chunk(_, _, _, _) => OnChunk(f);
      case StreamEnd(_) => OnStreamEnd(f);
      case End => CloseAll();
      case Err(_, _, _) => FailAll(RemoteFailure(f));
      case Log(_) =>
      case Other =>
    }

    // The handler consumed `n` chunks of stream `id`: its window grows.
    method Extend(id: string, n: nat)
      requires Valid()
      modifies `windows
      ensures Valid()
      ensures forall k :: Stream(k) == StepInput(old(Stream(k)), Granted(id, n), k, initialCredit)
    {
      if id in windows {
        windows := windows[id := windows[id] + n];
      }
    }

    // The whole loop, fed until a terminal frame or until the channel disconnects.
    method Run(inputs: seq<Input>)
      requires Valid() && running
      modifies this
      ensures Valid() && !running
      ensures announced == old(announced) + AnnouncedBy(inputs)
      ensures forall id :: Stream(id) == RunStream(old(Stream(id)), inputs, id, initialCredit)
    {
      var i := 0;
      while i < |inputs| && running
        decreases |inputs| - i
        invariant 0 <= i <= |inputs| && Valid()
        invariant running ==> old(announced) + AnnouncedBy(inputs) == announced + AnnouncedBy(inputs[i..])
        invariant !running ==> old(announced) + AnnouncedBy(inputs) == announced
        invariant running ==>
          forall id :: RunStream(old(Stream(id)), inputs, id, initialCredit) == RunStream(Stream(id), inputs[i..], id, initialCredit)
        invariant !running ==>
          forall id :: RunStream(old(Stream(id)), inputs, id, initialCredit) == Stream(id)
      {
        assert inputs[i..][1..] == inputs[i + 1..];
        match inputs[i]
        case Arrived(f) => Handle(f); i := i + 1;
        case Granted(id, n) => Extend(id, n); i := i + 1;
      }
      if running {
        CloseAll();
      }
    }
  }
}
