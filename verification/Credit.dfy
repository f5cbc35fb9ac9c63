// The two ends of a credit window: the sender's gate and the receiver's grant emitter.
module Credit {
  import opened Prelude

  const U64_MAX: nat := 0xFFFF_FFFF_FFFF_FFFF

  function SaturatingAdd(a: nat, b: nat): nat {
    if a + b > U64_MAX then U64_MAX else a + b
  }

  datatype Acquire = Acquired | Exhausted | GateClosed(reason: string)

  /** The per-stream window of one sender. */
  class CreditGate {
    var available: nat
    var closed: Option<string>

    constructor (initialCredit: nat)
      ensures available == initialCredit && closed == None
    {
      available, closed := initialCredit, None;
    }

    method TryAcquire(n: nat) returns (r: Acquire)
      modifies `available
      ensures closed.Some? ==> r == GateClosed(closed.value) && available == old(available)
      ensures closed.None? && old(available) >= n ==> r == Acquired && available == old(available) - n
      ensures closed.None? && old(available) < n ==> r == Exhausted && available == old(available)
    {
      if closed.Some? {
        return GateClosed(closed.value);
      }
      if available >= n {
        available := available - n;
        return Acquired;
      }
      return Exhausted;
    }

    // A grant after close changes nothing.
    method Grant(n: nat)
      modifies `available
      ensures closed.Some? ==> available == old(available)
      ensures closed.None? ==> available == if old(available) + n <= U64_MAX then old(available) + n else U64_MAX
    {
      if closed.None? {
        available := SaturatingAdd(available, n);
      }
    }

    // The first reason stays.
    method Close(reason: string)
      modifies `closed
      ensures closed == if old(closed).Some? then old(closed) else Some(reason)
    {
      if closed.None? {
        closed := Some(reason);
      }
    }
  }

  // ---- The receiving side ----

  // Consumed chunks not granted yet, the window arriving chunks are checked against, and the
  // CREDIT frames on their way to the sender.
  datatype Emission = Emission(pending: nat, window: int, grants: seq<nat>)

  function AfterFlush(e: Emission): Emission {
    if e.pending == 0 then e else Emission(0, e.window + e.pending, e.grants + [e.pending])
  }

  function AfterConsumed(e: Emission, batch: nat): Emission {
    var next := e.(pending := e.pending + 1);
    if next.pending >= batch then AfterFlush(next) else next
  }

  // A number of chunks consumed one after the other.
  function Consume(e: Emission, batch: nat, n: nat): Emission {
    if n == 0 then e else AfterConsumed(Consume(e, batch, n - 1), batch)
  }

  // One grant of `batch` for every `batch` chunks consumed, and fewer than `batch` pending.
  lemma {:induction false} GrantsComeInBatches(e: Emission, batch: nat, n: nat) returns (q: nat)
    requires batch >= 1 && e.pending < batch
    ensures var f := Consume(e, batch, n);
      && e.pending + n == q * batch + f.pending && f.pending < batch
      && f.grants == e.grants + seq(q, i requires 0 <= i < q => batch)
      && f.window == e.window + q * batch
  {
    if n == 0 {
      q := 0;
      assert e.grants + [] == e.grants;
    } else {
      var before := GrantsComeInBatches(e, batch, n - 1);
      var f := Consume(e, batch, n - 1);
      q := if f.pending + 1 == batch then before + 1 else before;
      assert (before + 1) * batch == before * batch + batch;
      assert seq(before, i requires 0 <= i < before => batch) + [batch] == seq(before + 1, i requires 0 <= i < before + 1 => batch);
      assert f.grants + [batch] == e.grants + (seq(before, i requires 0 <= i < before => batch) + [batch]);
    }
  }

  /** A counter shared by the demultiplexer and the emitters of one stream. */
  class Window {
    var value: int

    constructor (initial: int)
      ensures value == initial
    {
      value := initial;
    }
  }

  /** The channel CREDIT frames leave by. */
  class GrantChannel {
    var frames: seq<nat>

    constructor ()
      ensures frames == []
    {
      frames := [];
    }
  }

  class InputGrantEmitter {
    const batch: nat
    const window: Window
    const sender: GrantChannel
    var consumedSinceGrant: nat

    ghost function State(): Emission
      reads this, window, sender
    {
      Emission(consumedSinceGrant, window.value, sender.frames)
    }

    constructor (batch: nat, window: Window, sender: GrantChannel)
      ensures this.batch == batch && this.window == window && this.sender == sender
      ensures consumedSinceGrant == 0
    {
      this.batch, this.window, this.sender, consumedSinceGrant := batch, window, sender, 0;
    }

    method Consumed()
      modifies this, window, sender
      ensures State() == AfterConsumed(old(State()), batch)
    {
      consumedSinceGrant := consumedSinceGrant + 1;
      if consumedSinceGrant >= batch {
        Flush();
      }
    }

    method Flush()
      modifies this, window, sender
      ensures State() == AfterFlush(old(State()))
    {
      if consumedSinceGrant == 0 {
        return;
      }
      var n := consumedSinceGrant;
      consumedSinceGrant := 0;
      window.value := window.value + n;
      sender.frames := sender.frames + [n];
    }

    // The demultiplexer's emitter for continuation fragments: same window, same channel, no batching.
    method FragmentSibling() returns (sibling: InputGrantEmitter)
      ensures fresh(sibling) && sibling.batch == 1 && sibling.consumedSinceGrant == 0
      ensures sibling.window == window && sibling.sender == sender
    {
      sibling := new InputGrantEmitter(1, window, sender);
    }
  }
}
