// `demux_single_stream`: the response stream of a peer call.
module PeerDemux {
  import opened Prelude
  import opened Reassembly
  import opened Frames

  datatype PeerItem = PeerData(delivery: Delivery) | PeerLog(text: string)

  // `spare` is the fragment emitter not yet handed to a sequence, `granting` whether the current
  // reassembly holds it.
  datatype PeerState = PeerState(
    assembly: Option<Partial>,
    spare: bool,
    granting: bool,
    fragmentCredits: nat,
    items: seq<PeerItem>,
    running: bool)

  function Initial(granted: bool): PeerState {
    PeerState(None, granted, false, 0, [], true)
  }

  function PeerWrap(out: seq<Delivery>): seq<PeerItem> {
    seq(|out|, i requires 0 <= i < |out| => PeerData(out[i]))
  }

  function Give(p: PeerState, out: seq<Delivery>): PeerState {
    p.(items := p.items + PeerWrap(out))
  }

  function PeerChunk(p: PeerState, payload: Bytes, f: Frame): PeerState
    requires f.Chunk?
  {
    var refusal := Refusal(payload, f.checksum);
    if refusal.Some? then Give(p, [Failed(refusal.value)])
    else if p.assembly.None? then Give(p, [DecodeScalar(payload, f.meta)])
    else
      var pushed := Push(p.assembly.value, Fragment(payload, f.meta));
      var credit := if IsContinuation(p.assembly.value) && p.granting then 1 else 0;
      Give(p.(assembly := Some(pushed.state), fragmentCredits := p.fragmentCredits + credit), pushed.out)
  }

  function PeerStep(p: PeerState, f: Frame): PeerState {
    match f
    case StreamStart(_, _, _, isSequence, _) =>
      if OrElse(isSequence, false) then p.(assembly := Some(EMPTY), granting := p.spare, spare := false) else p
    case Chunk(_, payload, _, _) => if payload.Some? then PeerChunk(p, payload.value, f) else p
    case Log(text) => p.(items := p.items + [PeerLog(text)])
    case StreamEnd(_) => PeerEnd(p)
    case End => PeerEnd(p)
    case Err(_, _, _) => Give(p, [Failed(RemoteFailure(f))]).(running := false)
    case Other => p
  }

  function PeerEnd(p: PeerState): PeerState {
    Give(p.(assembly := None, running := false), if p.assembly.Some? then AtStreamEnd(p.assembly.value) else [])
  }

  function PeerRun(p: PeerState, frames: seq<Frame>): PeerState
    decreases |frames|
  {
    if frames == [] || !p.running then p else PeerRun(PeerStep(p, frames[0]), frames[1..])
  }

  /** The demultiplexing task of one peer response. */
  class SingleDemux {
    var assembly: Option<Partial>
    var spare: bool
    var granting: bool
    var fragmentCredits: nat
    var items: seq<PeerItem>
    var running: bool

    ghost function State(): PeerState
      reads this
    {
      PeerState(assembly, spare, granting, fragmentCredits, items, running)
    }

    constructor (granted: bool)
      ensures State() == Initial(granted)
    {
      assembly, spare, granting, fragmentCredits, items, running := None, granted, false, 0, [], true;
    }

    method OnChunk(payload: Bytes, f: Frame)
      requires f.Chunk?
      modifies this
      ensures State() == PeerChunk(old(State()), payload, f)
    {
      var refusal := Refusal(payload, f.checksum);
      if refusal.Some? {
        items := items + PeerWrap([Failed(refusal.value)]);
      } else if assembly.None? {
        items := items + PeerWrap([DecodeScalar(payload, f.meta)]);
      } else {
        var r, credit := Receive(assembly.value, Fragment(payload, f.meta));
        assembly := Some(r.state);
        items := items + PeerWrap(r.out);
        if credit && granting {
          fragmentCredits := fragmentCredits + 1;
        }
      }
    }

    method Run(frames: seq<Frame>)
      requires running
      modifies this
      ensures State() == PeerRun(old(State()), frames)
    {
      var i := 0;
      while i < |frames| && running
        invariant 0 <= i <= |frames|
        invariant PeerRun(old(State()), frames) == PeerRun(State(), frames[i..])
        decreases |frames| - i
      {
        match frames[i]
        case StreamStart(_, _, _, isSequence, _) =>
          if OrElse(isSequence, false) {
            assembly := Some(EMPTY);
            granting := spare;
            spare := false;
          }
          i := i + 1;
        case Chunk(_, payload, _, _) =>
          if payload.Some? {
            OnChunk(payload.value, frames[i]);
          }
          i := i + 1;
        case Log(text) =>
          items := items + [PeerLog(text)];
          i := i + 1;
        case StreamEnd(_) =>
          Conclude();
          i := i + 1;
        case End =>
          Conclude();
          i := i + 1;
        case Err(_, _, _) =>
          items := items + PeerWrap([Failed(RemoteFailure(frames[i]))]);
          running := false;
          i := i + 1;
        case Other =>
          i := i + 1;
      }
    }

    method Conclude()
      modifies this
      ensures State() == PeerEnd(old(State()))
    {
      if assembly.Some? && assembly.value.buf != [] {
        items := items + PeerWrap([Failed(Truncated(|assembly.value.buf|))]);
      }
      assembly := None;
      running := false;
      assert State().items == PeerEnd(old(State())).items;
    }
  }
}
