// The credit window of a stream, accounted for over its life.
module Windows {
  import opened Prelude
  import opened Demux
  import Agreement
  import Frames

  // Neither the end of the loop nor another START of the stream.
  predicate Within(i: Input, id: string) {
    i.Granted? || !(i.frame.End? || i.frame.Err? || (i.frame.StreamStart? && (i.frame.id.None? || i.frame.id == Some(id))))
  }

  // A chunk uses one credit whatever becomes of it; a grant gives its number.
  function Effect(i: Input, id: string): int {
    match i
    case Arrived(f) => if f.Chunk? && Frames.OrElse(f.stream, "") == id then -1 else 0
    case Granted(to, n) => if to == id then n else 0
  }

  function Effects(body: seq<Input>, id: string): int {
    if body == [] then 0 else Effects(body[..|body| - 1], id) + Effect(body[|body| - 1], id)
  }

  lemma {:induction false} FeedSnoc(s: StreamState, body: seq<Input>, i: Input, id: string, credit: Option<nat>)
    ensures Agreement.Feed(s, body + [i], id, credit) == StepInput(Agreement.Feed(s, body, id, credit), i, id, credit)
    decreases |body|
  {
    hide StepInput;
    if body == [] {
      assert [] + [i] == [i];
    } else {
      assert (body + [i])[1..] == body[1..] + [i];
      FeedSnoc(StepInput(s, body[0], id, credit), body[1..], i, id, credit);
    }
  }

  lemma {:induction false} StepAccounts(s: StreamState, i: Input, id: string, c: nat, own: bool)
    requires Within(i, id) && s.window.Some? && (s.assembly.Some? ==> s.assembly.value.live == own)
    ensures var t := StepInput(s, i, id, Some(c));
      && t.window == Some(s.window.value + Effect(i, id) + if own then t.fragmentCredits - s.fragmentCredits else 0)
      && (t.assembly.Some? ==> t.assembly.value.live == own)
  {
    hide Frames.Refusal, Frames.DecodeScalar, Frames.RemoteFailure;
  }

  // After a START the window is the initial credit, less the chunks since, plus the grants since, plus what
  // went back for fragments of this stream; what goes back for a reassembly left over from an earlier stream
  // of the same id is no part of it.
  lemma {:induction false} WindowIsAccounted(before: StreamState, start: Frames.Frame, body: seq<Input>, id: string, c: nat)
    requires start.StreamStart? && start.id == Some(id) && forall i :: 0 <= i < |body| ==> Within(body[i], id)
    ensures var t := Agreement.Feed(Start(before, start, Some(c)), body, id, Some(c));
      var own := start.isSequence == Some(true);
      && t.window == Some(c + Effects(body, id) + if own then t.fragmentCredits - before.fragmentCredits else 0)
      && (t.assembly.Some? ==> t.assembly.value.live == own)
  {
    if body != [] {
      var n := |body| - 1;
      assert body == body[..n] + [body[n]];
      WindowIsAccounted(before, start, body[..n], id, c);
      var s := Start(before, start, Some(c));
      hide Start, Effect, Agreement.Feed, StepInput;
      FeedSnoc(s, body[..n], body[n], id, Some(c));
      StepAccounts(Agreement.Feed(s, body[..n], id, Some(c)), body[n], id, c, start.isSequence == Some(true));
    }
  }
}
