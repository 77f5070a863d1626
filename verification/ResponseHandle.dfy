/** The response handle of one request with its fixed buffer, updated in place. Its methods are
    the locked sections of the source; `Rendezvous` interleaves them. */
module ResponseHandles {
  import opened Frames
  import opened Rendezvous

  class ResponseHandle {
    const data: array<byte>
    var length: int
    var state: Status

    ghost predicate Valid()
      reads this, data
    {
      data.Length == CAPACITY && 0 <= length <= CAPACITY
    }

    ghost function Buffer(): Bytes
      reads this, data
      requires Valid()
    {
      data[..length]
    }

    /** The object stands for the state and buffer of `h`. */
    ghost predicate Represents(h: Handle)
      reads this, data
    {
      Valid() && state == h.status && Buffer() == h.buffer
    }

    constructor ()
      ensures Valid() && fresh(data) && Represents(NEW_HANDLE)
    {
      data := new byte[CAPACITY](_ => 0);
      length := 0;
      state := Waiting;
    }

    /** A response after a timeout is ignored; one longer than the buffer sets the state but is
        not copied; a second response would take the place of the first. `notify` says whether the tag is notified. */
    method Write(bytes: Bytes, ghost h: Handle) returns (n: nat, notify: bool)
      requires Represents(h)
      modifies this, data
      ensures Represents(Written(h, bytes))
      ensures notify <==> !old(state).TimedOut?
      ensures n == if old(state).TimedOut? then 0 else |bytes|
    {
      if state.TimedOut? {
        return 0, false;
      }
      if CAPACITY >= |bytes| {
        forall i | 0 <= i < |bytes| {
          data[i] := bytes[i];
        }
        length := |bytes|;
      }
      state := Done;
      return |bytes|, true;
    }

    /** The timer callback: only a waiting request times out, but the tag is always notified. */
    method TimeOut(ghost h: Handle, ghost f: Firing)
      requires Represents(h)
      modifies `state
      ensures Represents(Expire(h, f))
    {
      if state.Waiting? {
        state := TimedOut;
      }
    }

    /** The end of `read`, after the wait: what it returns and what it leaves in the caller's
        buffer. A response that would fill it to the last byte, or not fit at all, is reported,
        but the caller's bytes stay. */
    method Read(buf: array<byte>, ghost h: Handle) returns (n: nat)
      requires Represents(h) && buf != data
      modifies buf
      ensures Represents(h) && ReadResult(h, buf.Length).length == n
      ensures match ReadResult(h, buf.Length).copied
              case None => buf[..] == old(buf[..])
              case Some(bytes) => buf[..] == bytes + old(buf[..])[|bytes|..]
    {
      if state.TimedOut? {
        return 0;
      }
      if buf.Length > length {
        forall i | 0 <= i < length {
          buf[i] := data[i];
        }
      }
      return length;
    }
  }
}
