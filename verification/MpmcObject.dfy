/** The ticketed ring as an object updated in place, used by one thread at a time. */
module MpmcObject {
  import opened Wrappers
  import opened Bits
  import opened MpmcQueue

  class Queue<T> {
    const N: nat
    const nodes: array<Node<T>>
    var tail: nat
    var head: nat
    ghost var contents: seq<T>

    /** A ticket between the counters: its slot holds its element. */
    ghost predicate Filled(k: nat)
      requires 0 < N == nodes.Length && head <= k < head + |contents|
      reads this, nodes
    {
      nodes[k % N] == Node(Some(contents[k - head]), k, k)
    }

    /** A ticket of the lap ahead: its slot is empty and waits for it. */
    ghost predicate Waiting(k: nat)
      requires 0 < N == nodes.Length
      reads this, nodes
    {
      nodes[k % N].tail == k && nodes[k % N].head < k && nodes[k % N].data == None
    }

    ghost predicate Valid()
      reads this, nodes
    {
      && 0 < N == nodes.Length && IsPowerOfTwo(N) && tail == head + |contents| <= head + N
      && (forall k: nat :: head <= k < tail ==> Filled(k))
      && (forall k: nat :: tail <= k < head + N ==> Waiting(k))
    }

    constructor (n: nat)
      requires n != 0 && And(n, n - 1) == 0
      ensures Valid() && fresh(nodes) && N == n && contents == []
    {
      N := n;
      nodes := new Node<T>[n](i => Node(None, i, -1));
      tail, head, contents := 0, 0, [];
      new;
      GuardIffPowerOfTwo(n);
      forall k: nat | k < N ensures Waiting(k) { ModOf(k, N, 0, k); }
    }

    method Size() returns (size: nat)
      requires Valid()
      ensures size == |contents|
    {
      size := tail - head;
    }

    /** Appends unless N elements are waiting; the weak exchange may fail a number of times first. */
    method Push(data: T, spurious: nat) returns (ok: bool)
      requires Valid()
      modifies this`tail, this`contents, nodes
      ensures Valid()
      ensures ok <==> |old(contents)| < N
      ensures contents == if ok then old(contents) + [data] else old(contents)
    {
      hide And;
      var ticket, failures := tail, spurious;
      AndMask(ticket, N);
      var slot := And(ticket, N - 1);
      FreeIff();
      while true
        invariant ticket == tail == old(tail) && slot == ticket % N
        invariant unchanged(nodes) && unchanged(this)
        decreases failures
      {
        if nodes[slot].tail != ticket {
          return false;
        }
        if failures == 0 {
          break;
        }
        failures := failures - 1;
        ticket := tail;
      }
      forall k: nat | head <= k < head + N && k != ticket ensures k % N != slot {
        if k < ticket { SlotsDistinct(k, ticket, N); } else { SlotsDistinct(ticket, k, N); }
      }
      tail := ticket + 1;
      contents := contents + [data];
      nodes[slot] := nodes[slot].(data := Some(data));
      nodes[slot] := nodes[slot].(head := ticket);
      forall k: nat | head <= k < tail ensures Filled(k) { assert k < ticket ==> old(Filled(k)); }
      forall k: nat | tail <= k < head + N ensures Waiting(k) { assert old(Waiting(k)); }
      ok := true;
    }

    /** Takes the oldest element unless there is none. */
    method Pop(spurious: nat) returns (r: Option<T>)
      requires Valid()
      modifies this`head, this`contents, nodes
      ensures Valid()
      ensures r.Some? <==> old(contents) != []
      ensures r.Some? ==> old(contents) == [r.value] + contents
      ensures r.None? ==> contents == old(contents)
    {
      hide And;
      var ticket, failures := head, spurious;
      AndMask(ticket, N);
      var slot := And(ticket, N - 1);
      FilledIff();
      while true
        invariant ticket == head == old(head) && slot == ticket % N
        invariant unchanged(nodes) && unchanged(this)
        decreases failures
      {
        if nodes[slot].head != ticket {
          return None;
        }
        if failures == 0 {
          break;
        }
        failures := failures - 1;
        ticket := head;
      }
      assert Filled(ticket);
      forall k: nat | head <= k < head + N && k != ticket ensures k % N != slot { SlotsDistinct(ticket, k, N); }
      SameSlotOneLapLater(ticket, N);
      head := ticket + 1;
      contents := contents[1..];
      r := nodes[slot].data;
      nodes[slot] := nodes[slot].(data := None);
      nodes[slot] := nodes[slot].(tail := ticket + N);
      forall k: nat | head <= k < tail ensures Filled(k) { assert old(Filled(k)); }
      forall k: nat | tail <= k < head + N ensures Waiting(k) { assert k < ticket + N ==> old(Waiting(k)); }
    }

    /** The slot at the tail waits for its ticket exactly when the ring is not full. */
    lemma FreeIff()
      requires Valid()
      ensures nodes[tail % N].tail == tail <==> |contents| < N
    {
      if |contents| < N {
        assert Waiting(tail);
      } else {
        SameSlotOneLapLater(head, N);
        assert Filled(head);
      }
    }

    /** The slot at the head is filled exactly when something is waiting. */
    lemma FilledIff()
      requires Valid()
      ensures nodes[head % N].head == head <==> contents != []
    {
      if contents != [] { assert Filled(head); } else { assert Waiting(head); }
    }
  }
}
