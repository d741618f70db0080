/** The in-order modes: the scheduler still picks a class and drops a request from it, but the
    request that is served comes from a ring of arrivals. */
module InOrder {
  import opened Dispatch
  import opened PriorityServer

  class ArrivalRing {
    const capacity: nat
    const inOrderArrivals: array<RecvReq>
    var head: nat      // the slot written last; these three are uint16_t in the source
    var tail: nat      // the slot read last
    var size: nat

    ghost var contents: seq<RecvReq>   // the requests in the ring, oldest first

    ghost predicate Valid()
      reads this, inOrderArrivals
    {
      && 0 < capacity <= 0xFFFF && inOrderArrivals.Length == capacity
      && head < capacity && tail < capacity && size == |contents| <= capacity
      && head == Wrapped(tail + size)
      && forall i | 0 <= i < size :: contents[i] == inOrderArrivals[Wrapped(tail + 1 + i)]
    }

    ghost function Wrapped(i: nat): (slot: nat)
      requires capacity > 0
      ensures i < 2 * capacity ==> slot < capacity
    {
      if i < capacity then i else i - capacity
    }

    constructor (capacity: nat)
      requires 0 < capacity <= 0xFFFF
      ensures Valid() && this.capacity == capacity && contents == [] && fresh(inOrderArrivals)
    {
      this.capacity := capacity;
      inOrderArrivals := new RecvReq[capacity](_ => RecvReq(0, 0));
      head, tail, size := 0, 0, 0;
      contents := [];
    }

    method Push(x: RecvReq) returns (ok: bool)
      requires Valid()
      modifies this, inOrderArrivals
      ensures Valid()
      ensures ok <==> |old(contents)| < capacity
      ensures contents == if ok then old(contents) + [x] else old(contents)
    {
      if head == tail && size == capacity {
        return false;
      } else if head == capacity - 1 {
        head := 0;
      } else {
        head := head + 1;
      }
      inOrderArrivals[head] := x;
      size := size + 1;
      contents := contents + [x];
      ok := true;
    }

    method Pop() returns (ok: bool, x: RecvReq)
      requires Valid()
      modifies this
      ensures Valid()
      ensures ok <==> old(contents) != []
      ensures ok ==> x == old(contents)[0] && contents == old(contents)[1..]
      ensures !ok ==> contents == old(contents)
    {
      if head == tail && size == 0 {
        return false, RecvReq(0, 0);
      } else if tail == capacity - 1 {
        tail := 0;
      } else {
        tail := tail + 1;
      }
      x := inOrderArrivals[tail];
      size := size - 1;
      contents := contents[1..];
      ok := true;
    }
  }

  class InOrderServer {
    const sched: PriorityServer
    const ring: ArrivalRing
    const recvBufsNum: nat
    /** Buffers that are not filed: posted, or completed and not yet polled. */
    ghost var outside: set<nat>

    ghost predicate Valid()
      reads this, sched, ring, ring.inOrderArrivals
    {
      && sched.Valid() && ring.Valid() && ring.capacity == recvBufsNum
      && |ring.contents| == Total(sched.metaCQ, 0)
      && Distinct(ring.contents)
      && (forall b | b in outside :: recvBufsNum <= b < 2 * recvBufsNum)
      && (forall x | x in ring.contents ::
            recvBufsNum <= x.bufID < 2 * recvBufsNum && x.bufID !in outside)
    }

    constructor (mode: Mode, numberOfPriorities: nat, recvBufsNum: nat)
      requires numberOfPriorities <= 0x8000 && 0 < recvBufsNum <= 0xFFFF
      requires mode.Weighted? ==> |mode.weights| == numberOfPriorities
      ensures Valid() && fresh(sched) && fresh(ring) && fresh(ring.inOrderArrivals)
      ensures sched.mode == mode && |sched.metaCQ| == numberOfPriorities
      ensures this.recvBufsNum == recvBufsNum && ring.contents == []
      ensures outside == Range(recvBufsNum, 2 * recvBufsNum)
    {
      sched := new PriorityServer(mode, numberOfPriorities);
      ring := new ArrivalRing(recvBufsNum);
      this.recvBufsNum := recvBufsNum;
      outside := Range(recvBufsNum, 2 * recvBufsNum);
      new;
      NothingWaiting(sched.metaCQ, 0);
    }

    /** Files a polled receive. The ring is never full: its entries are other buffers. */
    method File(priorityID: nat, x: RecvReq)
      requires Valid() && priorityID < |sched.metaCQ| && x.bufID in outside
      modifies this, sched, ring, ring.inOrderArrivals
      ensures Valid() && outside == old(outside) - {x.bufID}
      ensures ring.contents == old(ring.contents) + [x]
      ensures sched.View() == Dispatch.File(old(sched.View()), priorityID, x)
    {
      hide Total;
      var cs := ring.contents;
      RoomForOne(cs, recvBufsNum, x.bufID);
      TotalUpdate(sched.metaCQ, 0, priorityID, sched.metaCQ[priorityID] + [x]);
      sched.File(priorityID, x);
      var ok := ring.Push(x);
      assert ok;
      outside := outside - {x.bufID};
    }

    /** Lets the scheduler drop a request of the class it chooses. */
    method Drop() returns (dropped: bool)
      requires sched.Valid()
      modifies sched
      ensures sched.Valid() && sched.View() == Serve(sched.mode, old(sched.View()))
      ensures dropped <==> old(Total(sched.metaCQ, 0)) > 0
      ensures Total(sched.metaCQ, 0) == old(Total(sched.metaCQ, 0)) - if dropped then 1 else 0
    {
      ghost var before := sched.View();
      var out;
      match sched.mode {
        case Strict => out := sched.ServeStrict();
        case RoundRobin => out := sched.ServeRoundRobin();
        case Weighted(_) => out := sched.ServeWeighted();
      }
      NothingWaiting(before.queues, 0);
      if Backlogged(before.queues) != {} {
        ghost var c := Choice(sched.mode, before);
        TotalUpdate(before.queues, 0, c, before.queues[c][1..]);
      }
      dropped := out != [];
    }

    /** One iteration: the scheduler drops a request of the class it chooses, and the oldest
        arrival of any class is the one served and reposted. The ring is never empty here. */
    method Iterate() returns (served: seq<RecvReq>)
      requires Valid()
      modifies this, sched, ring
      ensures Valid()
      ensures |served| == if old(ring.contents) == [] then 0 else 1
      ensures served == old(ring.contents)[..|served|] && ring.contents == old(ring.contents)[|served|..]
      ensures outside == old(outside) + if served == [] then {} else {served[0].bufID}
      ensures sched.View() == Serve(sched.mode, old(sched.View()))
    {
      hide Total, Serve;
      var dropped := Drop();
      if !dropped {
        return [];
      }
      var ok, tmp := ring.Pop();
      assert ok;
      outside := outside + {tmp.bufID};
      served := [tmp];
    }
  }

  /** The in-order mode without a scheduler: only the ring. */
  class RingServer {
    const ring: ArrivalRing
    const recvBufsNum: nat
    ghost var outside: set<nat>

    ghost predicate Valid()
      reads this, ring, ring.inOrderArrivals
    {
      && ring.Valid() && ring.capacity == recvBufsNum && Distinct(ring.contents)
      && (forall b | b in outside :: recvBufsNum <= b < 2 * recvBufsNum)
      && (forall x | x in ring.contents ::
            recvBufsNum <= x.bufID < 2 * recvBufsNum && x.bufID !in outside)
    }

    constructor (recvBufsNum: nat)
      requires 0 < recvBufsNum <= 0xFFFF
      ensures Valid() && fresh(ring) && fresh(ring.inOrderArrivals)
      ensures this.recvBufsNum == recvBufsNum && ring.contents == []
      ensures outside == Range(recvBufsNum, 2 * recvBufsNum)
    {
      ring := new ArrivalRing(recvBufsNum);
      this.recvBufsNum := recvBufsNum;
      outside := Range(recvBufsNum, 2 * recvBufsNum);
    }

    /** The ring is never full. */
    method File(x: RecvReq)
      requires Valid() && x.bufID in outside
      modifies this, ring, ring.inOrderArrivals
      ensures Valid() && outside == old(outside) - {x.bufID}
      ensures ring.contents == old(ring.contents) + [x]
    {
      RoomForOne(ring.contents, recvBufsNum, x.bufID);
      var ok := ring.Push(x);
      assert ok;
      outside := outside - {x.bufID};
    }

    /** The oldest arrival is served. Behind the test of its size the ring is never empty. */
    method Iterate() returns (served: seq<RecvReq>)
      requires Valid()
      modifies this, ring
      ensures Valid()
      ensures |served| == if old(ring.contents) == [] then 0 else 1
      ensures served == old(ring.contents)[..|served|] && ring.contents == old(ring.contents)[|served|..]
      ensures outside == old(outside) + if served == [] then {} else {served[0].bufID}
    {
      if ring.size == 0 {
        return [];
      }
      var ok, tmp := ring.Pop();
      assert ok;
      outside := outside + {tmp.bufID};
      served := [tmp];
    }
  }

  ghost predicate Distinct(xs: seq<RecvReq>) {
    forall i, j | 0 <= i < j < |xs| :: xs[i].bufID != xs[j].bufID
  }

  /** Distinct buffers out of `n`, one of them spare, fill fewer than `n` slots. */
  lemma RoomForOne(xs: seq<RecvReq>, n: nat, spare: nat)
    requires Distinct(xs) && n <= spare < 2 * n
    requires forall x | x in xs :: n <= x.bufID < 2 * n && x.bufID != spare
    ensures |xs| < n
  {
    var ids := IdsOf(xs);
    assert spare !in ids;
    assert ids + {spare} <= Range(n, 2 * n);
    SubsetSize(ids + {spare}, Range(n, 2 * n));
  }

  ghost function IdsOf(xs: seq<RecvReq>): (ids: set<nat>)
    requires Distinct(xs)
    ensures |ids| == |xs| && forall b :: b in ids <==> exists i :: 0 <= i < |xs| && xs[i].bufID == b
  {
    if xs == [] then {}
    else
      DistinctTail(xs);
      IdsOf(xs[1..]) + {xs[0].bufID}
  }

  lemma DistinctTail(xs: seq<RecvReq>)
    requires xs != [] && Distinct(xs)
    ensures Distinct(xs[1..])
    ensures forall i | 0 <= i < |xs[1..]| :: xs[1..][i].bufID != xs[0].bufID
    ensures forall i | 0 < i < |xs| :: xs[i] == xs[1..][i - 1]
  {
  }

  ghost function Range(lo: nat, hi: nat): (s: set<nat>)
    requires lo <= hi
    ensures |s| == hi - lo && forall b :: b in s <==> lo <= b < hi
    decreases hi - lo
  {
    if lo == hi then {} else Range(lo + 1, hi) + {lo}
  }

  lemma SubsetSize(a: set<nat>, b: set<nat>)
    requires a <= b
    ensures |a| <= |b|
  {
    assert b == a + (b - a);
  }
}
