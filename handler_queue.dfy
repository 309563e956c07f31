/**
  The first-in first-out handler queue both factories keep. Its three
  operations are the ones the factories use: enqueue at the tail, and a
  dequeue and a peek at the head that report failure on an empty queue
  instead of raising.
 */
module HandlerQueues {
  import opened Rotation

  class HandlerQueue {
    /** The queued handlers, head (oldest) first. */
    var items: seq<HandlerId>

    constructor ()
      ensures items == []
    {
      items := [];
    }

    method Enqueue(h: HandlerId)
      modifies this
      ensures items == old(items) + [h]
    {
      items := items + [h];
    }

    /** Removes and returns the head; on an empty queue returns None and changes nothing. */
    method TryDequeue() returns (r: Option<HandlerId>)
      modifies this
      ensures old(items) == [] ==> r == None && items == []
      ensures old(items) != [] ==> r == Some(old(items)[0]) && items == old(items)[1..]
    {
      if items == [] {
        r := None;
      } else {
        r := Some(items[0]);
        items := items[1..];
      }
    }

    /** Returns the head without removing it; None on an empty queue. */
    method TryPeek() returns (r: Option<HandlerId>)
      ensures r.None? <==> items == []
      ensures r.Some? ==> |items| > 0 && r.value == items[0]
    {
      if items == [] {
        r := None;
      } else {
        r := Some(items[0]);
      }
    }
  }
}
