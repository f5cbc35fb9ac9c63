// `InputStream::recv`: taking an item and giving its credit back.
module InputStream {
  import opened Credit

  // An item in the delivery channel: a value, named by its position in the stream, or an error.
  datatype Slot = Good(item: nat) | Bad

  datatype Reader = Reader(queue: seq<Slot>, parked: bool, emission: Emission)

  // Taking the next item. Only values are credited; `recv_data` never credits.
  function Take(r: Reader, batch: nat, granting: bool): Reader
    requires r.queue != []
  {
    Reader(r.queue[1..], false,
           if granting && r.queue[0].Good? then AfterConsumed(r.emission, batch) else r.emission)
  }

  // Finding the channel empty: pending grants leave before the reader blocks.
  function Park(r: Reader, granting: bool): Reader {
    Reader(r.queue, true, if granting then AfterFlush(r.emission) else r.emission)
  }

  datatype Poll = Ready(slot: Slot) | EndOfStream | Blocked

  class Stream {
    var queue: seq<Slot>
    var connected: bool
    var parked: bool
    const grants: InputGrantEmitter

    ghost function State(): Reader
      reads this, grants, grants.window, grants.sender
    {
      Reader(queue, parked, grants.State())
    }

    constructor (grants: InputGrantEmitter)
      ensures State() == Reader([], false, grants.State()) && connected && this.grants == grants
    {
      this.grants := grants;
      queue, connected, parked := [], true, false;
    }

    // One call of `recv`, or its continuation after it blocked, up to its result or the next block.
    method Recv() returns (r: Poll)
      modifies this, grants, grants.window, grants.sender
      ensures connected == old(connected)
      ensures old(queue) != [] ==> r == Ready(old(queue)[0]) && State() == Take(old(State()), grants.batch, true)
      ensures old(queue) == [] && !connected ==> r == EndOfStream && State() == old(State()).(parked := false)
      ensures old(queue) == [] && connected && !old(parked) ==> r == Blocked && State() == Park(old(State()), true)
      ensures old(queue) == [] && connected && old(parked) ==> r == Blocked && State() == old(State())
    {
      if queue == [] && connected {
        if !parked {
          grants.Flush();
        }
        parked := true;
        return Blocked;
      }
      parked := false;
      if queue == [] {
        return EndOfStream;
      }
      r := Ready(queue[0]);
      queue := queue[1..];
      if r.slot.Good? {
        grants.Consumed();
      }
    }

    // `recv_data`: the same items, no grant and no flush.
    method RecvData() returns (r: Poll)
      modifies this
      ensures connected == old(connected)
      ensures old(queue) != [] ==> r == Ready(old(queue)[0]) && State() == Take(old(State()), grants.batch, false)
      ensures old(queue) == [] && !connected ==> r == EndOfStream && State() == old(State()).(parked := false)
      ensures old(queue) == [] && connected ==> r == Blocked && State() == Park(old(State()), false)
    {
      if queue == [] && connected {
        parked := true;
        return Blocked;
      }
      parked := false;
      if queue == [] {
        return EndOfStream;
      }
      r := Ready(queue[0]);
      queue := queue[1..];
    }
  }
}
