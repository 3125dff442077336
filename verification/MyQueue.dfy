/** The ring buffer of TAIR/tair_test/my_queue.h: an array one slot larger than its capacity. */
module MyQueue {

  function Next(i: nat, n: nat): (r: nat)
    requires n > 0
    ensures i < n ==> r == if i + 1 == n then 0 else i + 1
  {
    (i + 1) % n
  }

  /** The unread slots: from `start` up to but not including `end`, going round. */
  function Cyclic<T>(buf: seq<T>, start: nat, end: nat): seq<T>
    requires start < |buf| && end < |buf|
  {
    if start <= end then buf[start..end] else buf[start..] + buf[..end]
  }

  /** Publishing the slot at `end` appends it, unless that makes the two indices meet. */
  lemma CyclicPush<T>(buf: seq<T>, start: nat, end: nat)
    requires start < |buf| && end < |buf|
    ensures Cyclic(buf, start, Next(end, |buf|)) ==
            if Next(end, |buf|) == start then [] else Cyclic(buf, start, end) + [buf[end]]
  {
  }

  lemma CyclicPop<T>(buf: seq<T>, start: nat, end: nat)
    requires start < |buf| && end < |buf| && start != end
    ensures Cyclic(buf, start, end) == [buf[start]] + Cyclic(buf, Next(start, |buf|), end)
  {
    if start < end {
      HeadOfSlice(buf, start, end);
    } else {
      HeadOfSlice(buf, start, |buf|);
      if start + 1 < |buf| {
        Reassociate([buf[start]], buf[start + 1..], buf[..end]);
      }
    }
  }

  lemma HeadOfSlice<T>(buf: seq<T>, i: nat, j: nat)
    requires i < j <= |buf|
    ensures buf[i..j] == [buf[i]] + buf[i + 1..j]
  {
  }

  lemma Reassociate<T>(a: seq<T>, b: seq<T>, c: seq<T>)
    ensures (a + b) + c == a + (b + c)
  {
  }

  /** Writing the slot at `end` touches no unread slot. */
  lemma CyclicStore<T>(buf: seq<T>, start: nat, end: nat, x: T)
    requires start < |buf| && end < |buf|
    ensures Cyclic(buf[end := x], start, end) == Cyclic(buf, start, end)
  {
  }

  /** The ring is empty exactly when the indices meet, and full exactly when one more slot
    would make them meet. */
  lemma CyclicLength<T>(buf: seq<T>, start: nat, end: nat)
    requires start < |buf| && end < |buf|
    ensures |Cyclic(buf, start, end)| == if start <= end then end - start else |buf| - start + end
    ensures |Cyclic(buf, start, end)| < |buf|
    ensures Cyclic(buf, start, end) == [] <==> end == start
    ensures |Cyclic(buf, start, end)| == |buf| - 1 <==> Next(end, |buf|) == start
  {
  }

  lemma SmallMod(e: nat, n: nat)
    requires e < n
    ensures e % n == e
  {
  }

  class Queue<T(0)> {
    var start: nat
    var end: nat
    const size: nat
    const buff: array<T>

    ghost predicate Valid()
      reads this
    {
      size == buff.Length && start < size && end < size
    }

    ghost function Contents(): seq<T>
      requires Valid()
      reads this, buff
    {
      Cyclic(buff[..], start, end)
    }

    constructor (capacity: nat)
      ensures Valid() && fresh(buff)
      ensures Contents() == [] && size == capacity + 1
    {
      start := 0;
      end := 0;
      size := capacity + 1;
      buff := new T[capacity + 1];
    }

    method IsFull() returns (full: bool)
      requires Valid()
      ensures full <==> |Contents()| == size - 1
    {
      CyclicLength(buff[..], start, end);
      full := (end + 1) % size == start;
    }

    method IsEmpty() returns (empty: bool)
      requires Valid()
      ensures empty <==> Contents() == []
    {
      CyclicLength(buff[..], start, end);
      SmallMod(end, size);
      empty := end % size == start;
    }

    /** Nothing stops a caller from popping an empty ring: the answer is then a stale slot and
      the ring appears full. */
    method Pop() returns (data: T)
      requires Valid()
      modifies this`start
      ensures Valid() && buff[..] == old(buff[..])
      ensures old(Contents()) != [] ==> [data] + Contents() == old(Contents())
      ensures old(Contents()) == [] ==> data == buff[old(start)] && |Contents()| == size - 1
    {
      CyclicLength(buff[..], start, end);
      if start != end {
        CyclicPop(buff[..], start, end);
      }
      data := buff[start];
      start := (start + 1) % size;
      CyclicLength(buff[..], start, end);
    }

    /** Nothing stops a caller from pushing onto a full ring: everything in it is then lost. */
    method Push(job: T)
      requires Valid()
      modifies this`end, buff
      ensures Valid()
      ensures Contents() == if |old(Contents())| == size - 1 then [] else old(Contents()) + [job]
    {
      ghost var was := buff[..];
      CyclicLength(was, start, end);
      CyclicStore(was, start, end, job);
      buff[end] := job;
      assert buff[..] == was[end := job];
      CyclicPush(buff[..], start, end);
      end := (end + 1) % size;
    }

    /** TestWork::offerJob: a full ring refuses the job and is left as it is. */
    method Offer(job: T) returns (ok: bool)
      requires Valid()
      modifies this`end, buff
      ensures Valid() && (ok <==> |old(Contents())| < size - 1)
      ensures Contents() == if ok then old(Contents()) + [job] else old(Contents())
    {
      CyclicLength(buff[..], start, end);
      var full := IsFull();
      if full {
        return false;
      }
      Push(job);
      ok := true;
    }
  }
}
