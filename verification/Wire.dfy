// Frames as the writer sees them, and the terminal gate's notion of what may follow what.
module Wire {
  import opened Prelude

  datatype MessageId = Uuid(bytes: Bytes) | Number(n: nat)

  datatype Kind = Hello | Req | Chunk | End | Log | Err | Heartbeat | StreamStart | StreamEnd
                | RelayNotify | RelayState | Cancel | Credit

  datatype FlowKey = FlowKey(rid: MessageId, xid: Option<MessageId>)

  // `note` is a LOG's level or an ERR's code.
  datatype WireFrame = WireFrame(kind: Kind, id: MessageId, xid: Option<MessageId>, seqNo: nat,
                         urn: Option<string>, payload: Option<Bytes>, force: Option<bool>, note: string)

  function Plain(kind: Kind, id: MessageId, xid: Option<MessageId>, note: string): WireFrame {
    WireFrame(kind, id, xid, 0, None, None, None, note)
  }

  function KeyOf(f: WireFrame): FlowKey {
    FlowKey(f.id, f.xid)
  }

  // Handshake, health, relay, cancel and credit frames are outside the flow order.
  predicate IsFlow(f: WireFrame) {
    !(f.kind.Hello? || f.kind.Heartbeat? || f.kind.RelayNotify? || f.kind.RelayState? || f.kind.Cancel? || f.kind.Credit?)
  }

  predicate IsTerminal(f: WireFrame) {
    f.kind.End? || f.kind.Err?
  }

  predicate InFlow(f: WireFrame, k: FlowKey) {
    IsFlow(f) && KeyOf(f) == k
  }

  // The flows terminated by `w`, oldest first.
  function Terminals(w: seq<WireFrame>): (r: seq<FlowKey>)
    ensures |r| <= |w|
  {
    if w == [] then []
    else
      var rest := Terminals(w[..|w| - 1]);
      if IsTerminal(w[|w| - 1]) then rest + [KeyOf(w[|w| - 1])] else rest
  }

  function LastOf(keys: seq<FlowKey>, cap: nat): seq<FlowKey> {
    if |keys| <= cap then keys else keys[|keys| - cap..]
  }

  // A flow frame whose flow is among the last `cap` to have been terminated on the wire.
  predicate Moot(w: seq<WireFrame>, f: WireFrame, cap: nat) {
    IsFlow(f) && KeyOf(f) in LastOf(Terminals(w), cap)
  }

  // What is left of the frames handed to the writer once the moot ones are gone.
  function Admitted(fs: seq<WireFrame>, cap: nat): (r: seq<WireFrame>)
    ensures |r| <= |fs|
  {
    if fs == [] then []
    else
      var before := Admitted(fs[..|fs| - 1], cap);
      if Moot(before, fs[|fs| - 1], cap) then before else before + [fs[|fs| - 1]]
  }

  function Suppressed(fs: seq<WireFrame>, cap: nat): (r: seq<WireFrame>)
    ensures |r| <= |fs|
  {
    if fs == [] then []
    else
      var before := Suppressed(fs[..|fs| - 1], cap);
      if Moot(Admitted(fs[..|fs| - 1], cap), fs[|fs| - 1], cap) then before + [fs[|fs| - 1]] else before
  }

  // The number due to the next frame of flow `k`: its frames since its last terminal.
  function Due(w: seq<WireFrame>, k: FlowKey): nat {
    if w == [] then 0
    else
      var last := w[|w| - 1];
      if !InFlow(last, k) then Due(w[..|w| - 1], k)
      else if IsTerminal(last) then 0
      else Due(w[..|w| - 1], k) + 1
  }

  function Numbered(w: seq<WireFrame>, f: WireFrame): WireFrame {
    if IsFlow(f) then f.(seqNo := Due(w, KeyOf(f))) else f
  }

  // Frames as they stand on the wire.
  function Numbering(w: seq<WireFrame>): (r: seq<WireFrame>)
    ensures |r| == |w|
  {
    if w == [] then [] else Numbering(w[..|w| - 1]) + [Numbered(w[..|w| - 1], w[|w| - 1])]
  }

  function CountKind(fs: seq<WireFrame>, kind: Kind): nat {
    if fs == [] then 0 else CountKind(fs[..|fs| - 1], kind) + if fs[|fs| - 1].kind == kind then 1 else 0
  }

  // The numbers carried by the frames of one flow.
  function NumbersOf(w: seq<WireFrame>, k: FlowKey): seq<nat> {
    if w == [] then []
    else
      var rest := NumbersOf(w[..|w| - 1], k);
      if InFlow(w[|w| - 1], k) then rest + [w[|w| - 1].seqNo] else rest
  }

  function UpTo(n: nat): seq<nat> {
    seq(n, i requires 0 <= i < n => i)
  }

  // The frames of one flow.
  function OfFlow(w: seq<WireFrame>, k: FlowKey): seq<WireFrame> {
    if w == [] then []
    else
      var rest := OfFlow(w[..|w| - 1], k);
      if InFlow(w[|w| - 1], k) then rest + [w[|w| - 1]] else rest
  }
}
