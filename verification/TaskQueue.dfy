/** The fixed-capacity FIFO of src/task_queue.rs: a ring buffer, and a ring buffer
    with one inline deferred slot. */
module TaskQueues {
  import opened Options

  datatype RingPush<T> = Stored | Full(value: T)

  datatype QueuePush<T> = Primary | Deferred | Rejected(value: T)

  /** Position `i` of a ring that starts at `head`. */
  function At(head: nat, i: nat, cap: nat): (k: nat)
    requires head < cap && i < cap
    ensures k < cap
  {
    if head + i < cap then head + i else head + i - cap
  }

  /** The `len` values of a ring that starts at `head`. */
  function Window<T>(b: seq<T>, head: nat, len: nat): (s: seq<T>)
    requires head < |b| && len <= |b|
    ensures |s| == len
  {
    seq(len, i requires 0 <= i < len => b[At(head, i, |b|)])
  }

  lemma NextIndex(x: nat, cap: nat)
    requires x < cap
    ensures (x + 1) % cap == if x + 1 == cap then 0 else x + 1
  {
    if x + 1 == cap {
      assert cap % cap == 0;
    }
  }

  class TaskRing<T(0)> {
    const buf: array<T>
    var head: nat
    var tail: nat
    var len: nat
    ghost const Repr: set<object>

    ghost predicate Valid()
      reads this
      ensures Valid() ==> this in Repr && buf in Repr
    {
      && Repr == {this, buf}
      && 0 < buf.Length && head < buf.Length && len <= buf.Length
      && tail == if head + len < buf.Length then head + len else head + len - buf.Length
    }

    /** The queued values, oldest first. */
    ghost function Contents(): (s: seq<T>)
      requires Valid()
      reads this, buf
      ensures |s| == len
    {
      Window(buf[..], head, len)
    }

    constructor (capacity: nat)
      requires capacity > 0
      ensures Valid() && fresh(Repr) && Contents() == [] && buf.Length == capacity
    {
      var b := new T[capacity];
      buf, Repr := b, {this, b};
      head, tail, len := 0, 0, 0;
    }

    method PushBack(value: T) returns (r: RingPush<T>)
      requires Valid()
      modifies Repr
      ensures Valid()
      ensures r == if |old(Contents())| == buf.Length then Full(value) else Stored
      ensures Contents() == if r.Full? then old(Contents()) else old(Contents()) + [value]
    {
      if len == buf.Length {
        return Full(value);
      }
      buf[tail] := value;
      NextIndex(tail, buf.Length);
      tail := (tail + 1) % buf.Length;
      len := len + 1;
      r := Stored;
    }

    method PopFront() returns (r: Option<T>)
      requires Valid()
      modifies `head, `len
      ensures Valid()
      ensures r == if old(Contents()) == [] then None else Some(old(Contents())[0])
      ensures Contents() == if r.None? then old(Contents()) else old(Contents())[1..]
    {
      if len == 0 {
        return None;
      }
      var idx := head;
      NextIndex(head, buf.Length);
      head := (head + 1) % buf.Length;
      len := len - 1;
      r := Some(buf[idx]);
    }

    method Front() returns (r: Option<T>)
      requires Valid()
      ensures r == if Contents() == [] then None else Some(Contents()[0])
    {
      r := if len == 0 then None else Some(buf[head]);
    }
  }

  class TaskQueue<T(0)> {
    const primary: TaskRing<T>
    var deferred: Option<T>
    ghost const Repr: set<object>

    /** The deferred slot is occupied only behind a full ring. */
    ghost predicate Valid()
      reads this, Repr
      ensures Valid() ==> this in Repr
    {
      && primary in Repr && this !in primary.Repr && Repr == {this} + primary.Repr && primary.Valid()
      && (deferred.Some? ==> primary.len == primary.buf.Length)
    }

    ghost function Capacity(): nat
      reads this
    {
      primary.buf.Length + 1
    }

    ghost function Contents(): (s: seq<T>)
      requires Valid()
      reads this, Repr
      ensures |s| <= Capacity()
      ensures deferred.Some? <==> |s| == Capacity()
    {
      primary.Contents() + if deferred.Some? then [deferred.value] else []
    }

    constructor (capacity: nat)
      requires capacity > 0
      ensures Valid() && fresh(Repr) && Contents() == [] && Capacity() == capacity + 1
    {
      var p := new TaskRing<T>(capacity);
      primary, deferred, Repr := p, None, {this} + p.Repr;
    }

    /** A push fails only at full capacity, hands the value back, and otherwise
        appends it; the deferred slot takes exactly the last free place. */
    method PushBack(value: T) returns (r: QueuePush<T>)
      requires Valid()
      modifies Repr
      ensures Valid()
      ensures r == if |old(Contents())| == Capacity() then Rejected(value)
                   else if |old(Contents())| == Capacity() - 1 then Deferred else Primary
      ensures Contents() == if r.Rejected? then old(Contents()) else old(Contents()) + [value]
    {
      if primary.len != primary.buf.Length {
        var stored := primary.PushBack(value);
        return Primary;
      }
      if deferred.None? {
        deferred := Some(value);
        return Deferred;
      }
      r := Rejected(value);
    }

    method RefillFromDeferred()
      requires primary in Repr && this !in primary.Repr && Repr == {this} + primary.Repr && primary.Valid()
      modifies Repr
      ensures Valid()
      ensures Contents() == old(primary.Contents() + if deferred.Some? then [deferred.value] else [])
    {
      if deferred.None? || primary.len == primary.buf.Length {
        return;
      }
      var task := deferred.value;
      deferred := None;
      var r := primary.PushBack(task);
      deferred := match r case Full(back) => Some(back) case Stored => None;
    }

    method PopFront() returns (r: Option<T>)
      requires Valid()
      modifies Repr
      ensures Valid()
      ensures r == if old(Contents()) == [] then None else Some(old(Contents())[0])
      ensures Contents() == if r.None? then old(Contents()) else old(Contents())[1..]
    {
      r := primary.PopFront();
      if r.Some? {
        RefillFromDeferred();
        return;
      }
      r := deferred;
      deferred := None;
    }

    method Front() returns (r: Option<T>)
      requires Valid()
      ensures r == if Contents() == [] then None else Some(Contents()[0])
    {
      r := primary.Front();
      if r.None? {
        r := deferred;
      }
    }

    method IsEmpty() returns (r: bool)
      requires Valid()
      ensures r <==> Contents() == []
    {
      r := primary.len == 0 && deferred.None?;
    }

    method Length() returns (n: nat)
      requires Valid()
      ensures n == |Contents()|
    {
      n := primary.len + if deferred.Some? then 1 else 0;
    }

    method HasDeferred() returns (r: bool)
      requires Valid()
      ensures r <==> |Contents()| == Capacity()
    {
      r := deferred.Some?;
    }
  }
}
