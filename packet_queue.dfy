/** The bounded hand-off between the receive loop and the processing loop:
    `data_queue = queue.Queue(maxsize=10000)` (Professional/caiji.py:112),
    filled with drop-oldest semantics by `receive_data`
    (Professional/caiji.py:686-693) and drained by `process_data_thread`
    (Professional/caiji.py:697-701). One thread at a time is modelled. */
module PacketQueue {
  import opened Common

  /** `maxsize` of the queue. */
  const Capacity: nat := 10000

  /** One queued item, `(recv_time, packet_data)`: seconds since program
      start, and the raw packet bytes. */
  datatype Entry = Entry(recvTime: real, packet: seq<byte>)

  class BoundedQueue {
    /** Oldest first. */
    var items: seq<Entry>

    ghost predicate Valid()
      reads this
    {
      |items| <= Capacity
    }

    constructor ()
      ensures Valid() && items == []
    {
      items := [];
    }

    /** `put_nowait(e)`; on `queue.Full`, `get_nowait()` then `put_nowait(e)`
        again. It never blocks: a full queue loses its oldest entry, and the
        queue is always the latest `Capacity` entries offered, in order. */
    method PutDropOldest(e: Entry)
      requires Valid()
      modifies this
      ensures Valid()
      ensures items == Latest(old(items) + [e], Capacity)
    {
      if |items| < Capacity {
        items := items + [e];
      } else {
        items := items[1..];
        items := items + [e];
      }
    }

    /** `get(timeout=0.1)`: the oldest entry, or `None` where the source
        catches `queue.Empty` (no producer runs while this one waits). */
    method Get() returns (r: Option<Entry>)
      requires Valid()
      modifies this
      ensures Valid()
      ensures old(items) == [] ==> r == None && items == []
      ensures old(items) != [] ==> r == Some(old(items)[0]) && items == old(items)[1..]
    {
      if items == [] {
        r := None;
      } else {
        r := Some(items[0]);
        items := items[1..];
      }
    }
  }

  /** What one drop-oldest put does, said without `Latest`: below capacity
      the entry is appended; at capacity exactly the oldest entry goes. */
  lemma {:induction false} PutAtCapacity(q: seq<Entry>, e: Entry)
    requires |q| <= Capacity
    ensures |q| < Capacity ==> Latest(q + [e], Capacity) == q + [e]
    ensures |q| == Capacity ==> Latest(q + [e], Capacity) == q[1..] + [e]
  {
    if |q| == Capacity {
      assert (q + [e])[1..] == q[1..] + [e];
    }
  }
}
