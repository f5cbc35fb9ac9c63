// `find_handler`: the registered handler that serves a request, whatever the order of registration.
module Handlers {
  import opened Prelude

  // What the cap URN library answers: parsing, dispatchability and specificity are its own affair.
  datatype Matching<!Urn> = Matching(parse: string -> Option<Urn>, dispatchable: (Urn, Urn) -> bool, specificity: Urn -> nat)

  // A registered URN that may serve the request.
  predicate Candidate<Urn>(m: Matching<Urn>, request: Urn, key: string) {
    m.parse(key).Some? && m.dispatchable(m.parse(key).value, request)
  }

  function Distance<Urn>(m: Matching<Urn>, request: Urn, key: string): int
    requires m.parse(key).Some?
  {
    m.specificity(m.parse(key).value) - m.specificity(request)
  }

  function Abs(n: int): nat {
    if n >= 0 then n else -n
  }

  // The code's test: the best so far stays.
  predicate Dominates(best: int, candidate: int) {
    if best >= 0 && candidate < 0 then true
    else if best < 0 && candidate >= 0 then false
    else Abs(best) <= Abs(candidate)
  }

  // The intended ranking, as one number: refinements by how much they refine, then fallbacks by how
  // much they generalize, each fallback behind every refinement there is.
  predicate NoWorse(a: int, b: int) {
    if a >= 0 then b < 0 || a <= b else b < 0 && a >= b
  }

  lemma {:induction false} DominatesIsNoWorse(a: int, b: int)
    ensures Dominates(a, b) <==> NoWorse(a, b)
    ensures NoWorse(a, b) || NoWorse(b, a)
    ensures NoWorse(a, b) && NoWorse(b, a) <==> a == b
  {
  }

  // No candidate outranks this one.
  ghost predicate Best<Urn>(m: Matching<Urn>, request: Urn, keys: set<string>, key: string) {
    && key in keys && Candidate(m, request, key)
    && forall k :: k in keys && Candidate(m, request, k) ==> NoWorse(Distance(m, request, key), Distance(m, request, k))
  }

  function SpecificityOf<Urn>(m: Matching<Urn>, key: string): nat
    requires m.parse(key).Some?
  {
    m.specificity(m.parse(key).value)
  }

  // In terms of specificity alone: where some candidate is at least as specific as the request, the best
  // is one of those and the least specific of them; otherwise it is the most specific candidate there is.
  lemma {:induction false} BestBySpecificity<Urn>(m: Matching<Urn>, request: Urn, keys: set<string>, key: string)
    ensures Best(m, request, keys, key) <==>
      && key in keys && m.parse(key).Some? && m.dispatchable(m.parse(key).value, request)
      && (forall k :: k in keys && m.parse(k).Some? && m.dispatchable(m.parse(k).value, request) ==>
            if SpecificityOf(m, key) >= m.specificity(request) then
              SpecificityOf(m, k) < m.specificity(request) || SpecificityOf(m, key) <= SpecificityOf(m, k)
            else SpecificityOf(m, k) <= SpecificityOf(m, key))
  {
  }

  // The order in which a hash map happens to be walked.
  ghost predicate Walks(order: seq<string>, keys: set<string>) {
    && (forall k :: k in order <==> k in keys)
    && (forall i, j :: 0 <= i < j < |order| ==> order[i] != order[j])
  }

  // The first of the best in the order of the walk.
  ghost predicate Chosen<Urn>(m: Matching<Urn>, request: Urn, order: seq<string>, i: nat) {
    && i < |order| && Candidate(m, request, order[i])
    && (forall j :: 0 <= j < |order| && Candidate(m, request, order[j]) ==>
          NoWorse(Distance(m, request, order[i]), Distance(m, request, order[j])))
    && (forall j :: 0 <= j < i && Candidate(m, request, order[j]) ==>
          !NoWorse(Distance(m, request, order[j]), Distance(m, request, order[i])))
  }

  method FindHandler<Urn, F>(m: Matching<Urn>, cap: string, handlers: map<string, F>, order: seq<string>) returns (r: Option<F>)
    requires Walks(order, handlers.Keys)
    ensures m.parse(cap).None? ==> r.None?
    ensures m.parse(cap).Some? ==>
      var request := m.parse(cap).value;
      && (r.None? <==> forall k :: k in handlers && m.parse(k).Some? ==> !m.dispatchable(m.parse(k).value, request))
      && (r.Some? ==> exists k :: Best(m, request, handlers.Keys, k) && r.value == handlers[k])
      && (r.Some? ==> exists i: nat :: Chosen(m, request, order, i) && r.value == handlers[order[i]])
  {
    if m.parse(cap).None? {
      return None;
    }
    var request := m.parse(cap).value;
    var best: Option<(F, int)> := None;
    ghost var at := 0;
    for n := 0 to |order|
      invariant best.None? ==> forall j :: 0 <= j < n ==> !Candidate(m, request, order[j])
      invariant best.Some? ==>
        && at < n && Chosen(m, request, order[..n], at)
        && best.value == (handlers[order[at]], Distance(m, request, order[at]))
    {
      var key := order[n];
      if Candidate(m, request, key) {
        var distance := Distance(m, request, key);
        if best.Some? {
          DominatesIsNoWorse(best.value.1, distance);
        }
        if best.None? || !Dominates(best.value.1, distance) {
          best := Some((handlers[key], distance));
          at := n;
        }
      }
    }
    assert order[..|order|] == order;
    if best.Some? {
      assert Best(m, request, handlers.Keys, order[at]);
    }
    r := if best.Some? then Some(best.value.0) else None;
  }

  lemma {:induction false} ChosenIsBest<Urn>(m: Matching<Urn>, request: Urn, order: seq<string>, keys: set<string>, i: nat)
    requires Walks(order, keys) && Chosen(m, request, order, i)
    ensures Best(m, request, keys, order[i])
  {
  }

  // The rank of the handler chosen does not depend on the walk.
  lemma {:induction false} SameRankOnEveryWalk<Urn>(m: Matching<Urn>, request: Urn, keys: set<string>,
                                                    one: seq<string>, i: nat, other: seq<string>, j: nat)
    requires Walks(one, keys) && Chosen(m, request, one, i) && Walks(other, keys) && Chosen(m, request, other, j)
    ensures Distance(m, request, one[i]) == Distance(m, request, other[j])
  {
    ChosenIsBest(m, request, one, keys, i);
    ChosenIsBest(m, request, other, keys, j);
    DominatesIsNoWorse(Distance(m, request, one[i]), Distance(m, request, other[j]));
  }

  ghost predicate Agreed<Urn, F(!new)>(m: Matching<Urn>, request: Urn, handlers: map<string, F>) {
    forall k, l :: Best(m, request, handlers.Keys, k) && Best(m, request, handlers.Keys, l) ==> handlers[k] == handlers[l]
  }

  // A best key walked first is the one chosen.
  lemma {:induction false} WalkedFirst<Urn>(m: Matching<Urn>, request: Urn, keys: set<string>, order: seq<string>, key: string)
      returns (first: seq<string>)
    requires Walks(order, keys) && Best(m, request, keys, key)
    ensures Walks(first, keys) && Chosen(m, request, first, 0) && first[0] == key
  {
    var p :| 0 <= p < |order| && order[p] == key;
    first := [key] + order[..p] + order[p + 1..];
    forall i | 0 <= i < |first| ensures first[i] == order[if i == 0 then p else if i <= p then i - 1 else i] {}
    forall k | k in keys ensures k in first {
      var i :| 0 <= i < |order| && order[i] == k;
      assert first[if i == p then 0 else if i < p then i + 1 else i] == k;
    }
  }

  ghost predicate OneOutcome<Urn, F(!new)>(m: Matching<Urn>, request: Urn, handlers: map<string, F>) {
    forall one, i, other, j ::
      Walks(one, handlers.Keys) && Chosen(m, request, one, i) && Walks(other, handlers.Keys) && Chosen(m, request, other, j)
      ==> handlers[one[i]] == handlers[other[j]]
  }

  // The handler itself does not depend on the walk exactly when all the best keys name one handler.
  lemma {:induction false} OrderIndependentIff<Urn, F(!new)>(m: Matching<Urn>, request: Urn, handlers: map<string, F>, order: seq<string>)
    requires Walks(order, handlers.Keys)
    ensures OneOutcome(m, request, handlers) <==> Agreed(m, request, handlers)
  {
    if OneOutcome(m, request, handlers) {
      forall k, l | Best(m, request, handlers.Keys, k) && Best(m, request, handlers.Keys, l) ensures handlers[k] == handlers[l] {
        var one := WalkedFirst(m, request, handlers.Keys, order, k);
        var other := WalkedFirst(m, request, handlers.Keys, order, l);
      }
    }
    if Agreed(m, request, handlers) {
      forall one, i, other, j | Walks(one, handlers.Keys) && Chosen(m, request, one, i)
                                && Walks(other, handlers.Keys) && Chosen(m, request, other, j)
        ensures handlers[one[i]] == handlers[other[j]]
      {
        ChosenIsBest(m, request, one, handlers.Keys, i);
        ChosenIsBest(m, request, other, handlers.Keys, j);
      }
    }
  }

  // Two keys at the same distance with different handlers: walked one way the first is chosen, walked
  // the other way the second.
  lemma {:induction false} TiedKeysDependOnTheWalk<Urn, F(!new)>(m: Matching<Urn>, request: Urn, a: string, b: string, f: F, g: F)
    requires a != b && f != g && Candidate(m, request, a) && Candidate(m, request, b)
    requires Distance(m, request, a) == Distance(m, request, b)
    ensures var handlers := map[a := f, b := g];
      && Walks([a, b], handlers.Keys) && Chosen(m, request, [a, b], 0)
      && Walks([b, a], handlers.Keys) && Chosen(m, request, [b, a], 0)
      && !OneOutcome(m, request, handlers)
  {
    var handlers := map[a := f, b := g];
    assert [a, b][0] == a && [a, b][1] == b && [b, a][0] == b && [b, a][1] == a;
    assert handlers[[a, b][0]] != handlers[[b, a][0]];
  }
}
