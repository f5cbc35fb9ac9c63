// Streams multiplexed on one channel do not influence each other.
module Isolation {
  import opened Prelude
  import opened Demux

  // The inputs that can reach stream `id`: its own frames and grants, and what ends every stream.
  predicate Concerns(i: Input, id: string) {
    match i
    case Arrived(f) => Terminal(f) || KeyOf(f) == Some(id)
    case Granted(to, _) => to == id
  }

  function Project(inputs: seq<Input>, id: string): seq<Input> {
    if inputs == [] then []
    else (if Concerns(inputs[0], id) then [inputs[0]] else []) + Project(inputs[1..], id)
  }

  // Everything the reader of a stream is handed, violations included, is decided by the inputs
  // that concern this stream.
  lemma {:induction false} OnlyOwnInputsMatter(s: StreamState, inputs: seq<Input>, id: string, credit: Option<nat>)
    ensures RunStream(s, inputs, id, credit) == RunStream(s, Project(inputs, id), id, credit)
    decreases |inputs|
  {
    if inputs != [] {
      var next := StepInput(s, inputs[0], id, credit);
      OnlyOwnInputsMatter(next, inputs[1..], id, credit);
      var rest := Project(inputs[1..], id);
      if Concerns(inputs[0], id) {
        assert ([inputs[0]] + rest)[1..] == rest;
      } else {
        assert Project(inputs, id) == rest;
      }
    }
  }

  predicate Interleaves(a: seq<Input>, b: seq<Input>, merged: seq<Input>)
    decreases |merged|
  {
    if merged == [] then a == [] && b == []
    else
      || (a != [] && merged[0] == a[0] && Interleaves(a[1..], b, merged[1..]))
      || (b != [] && merged[0] == b[0] && Interleaves(a, b[1..], merged[1..]))
  }

  lemma {:induction false} ProjectOfInterleaving(a: seq<Input>, b: seq<Input>, merged: seq<Input>, id: string)
    requires Interleaves(a, b, merged)
    requires forall i :: 0 <= i < |a| ==> Concerns(a[i], id)
    requires forall i :: 0 <= i < |b| ==> !Concerns(b[i], id)
    ensures Project(merged, id) == a
    decreases |merged|
  {
    if merged != [] {
      if a != [] && merged[0] == a[0] && Interleaves(a[1..], b, merged[1..]) {
        ProjectOfInterleaving(a[1..], b, merged[1..], id);
      } else {
        ProjectOfInterleaving(a, b[1..], merged[1..], id);
      }
    }
  }

  // However the frames of other streams are woven into those of one stream, its reader sees the
  // same items, errors and closures as if it had the channel to itself.
  lemma {:induction false} InterleavingIsInvisible(s: StreamState, own: seq<Input>, others: seq<Input>, merged: seq<Input>,
                                id: string, credit: Option<nat>)
    requires Interleaves(own, others, merged)
    requires forall i :: 0 <= i < |own| ==> Concerns(own[i], id)
    requires forall i :: 0 <= i < |others| ==> !Concerns(others[i], id)
    ensures RunStream(s, merged, id, credit) == RunStream(s, own, id, credit)
  {
    OnlyOwnInputsMatter(s, merged, id, credit);
    ProjectOfInterleaving(own, others, merged, id);
  }
}
