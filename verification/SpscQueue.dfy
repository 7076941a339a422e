/** The single-producer single-consumer ring, used by one thread at a time. */
module SpscQueue {
  import opened Bits

  /** The elements a ring holds: `count` slots read from `head` on, wrapping at the end. */
  function Window<T>(data: seq<T>, head: nat, count: nat): (s: seq<T>)
    requires |data| > 0
    ensures |s| == count
    ensures forall i :: 0 <= i < count ==> s[i] == data[(head + i) % |data|]
  {
    seq(count, i requires 0 <= i < count => data[(head + i) % |data|])
  }

  function Distance(head: nat, tail: nat, n: nat): nat
    requires head < n && tail < n
  {
    if tail >= head then tail - head else tail + n - head
  }

  /** Number of occupied slots between two masked indices. */
  function Occupied(head: nat, tail: nat, n: nat): (c: nat)
    requires head < n && tail < n
    ensures c < n && (head + c) % n == tail
    ensures c == 0 <==> head == tail
    ensures c == n - 1 <==> (tail + 1) % n == head
  {
    ModOf(tail, n, 0, tail);
    SameSlotOneLapLater(tail, n);
    ModOf(tail + 1, n, if tail + 1 < n then 0 else 1, if tail + 1 < n then tail + 1 else 0);
    Distance(head, tail, n)
  }

  class Ring<T(0)> {
    const N: nat
    const zero: T
    var data: array<T>
    var head: nat
    var tail: nat

    ghost predicate Valid()
      reads this
    {
      IsPowerOfTwo(N) && data.Length == N > 0 && head < N && tail < N
    }

    /** The queue as its callers see it. */
    ghost function Contents(): (s: seq<T>)
      requires Valid()
      reads this, data
      ensures |s| < N
    {
      Window(data[..], head, Occupied(head, tail, N))
    }

    /** `zero` is the value an all-zero memory image stands for. */
    constructor (n: nat, zero: T)
      requires n != 0 && And(n, n - 1) == 0
      ensures Valid() && N == n && this.zero == zero && Contents() == [] && fresh(data)
    {
      N := n;
      this.zero := zero;
      data := new T[n](_ => zero);
      head, tail := 0, 0;
      new;
      GuardIffPowerOfTwo(n);
    }

    /** Empties the ring and clears every slot. */
    method Reset()
      requires Valid()
      modifies this`head, this`tail, data
      ensures Valid() && Contents() == []
      ensures forall i :: 0 <= i < N ==> data[i] == zero
    {
      head, tail := 0, 0;
      for i := 0 to N
        invariant head == 0 && tail == 0
        invariant forall j :: 0 <= j < i ==> data[j] == zero
      {
        data[i] := zero;
      }
    }

    /** Appends unless N - 1 elements are already waiting. */
    method Push(value: T) returns (ok: bool)
      requires Valid()
      modifies this`tail, data
      ensures Valid()
      ensures ok <==> |old(Contents())| < N - 1
      ensures Contents() == if ok then old(Contents()) + [value] else old(Contents())
    {
      var writeIndex := tail;
      AndMask(writeIndex + 1, N);
      var nextWriteIndex := And(writeIndex + 1, N - 1);
      if nextWriteIndex == head {
        return false;
      }
      ghost var was, c := data[..], Occupied(head, tail, N);
      data[writeIndex] := value;
      tail := nextWriteIndex;
      AppendedWindow(was, data[..], head, c, value);
      return true;
    }

    /** Removes the oldest element; `value` keeps its old content when there is none. */
    method Pop(previous: T) returns (ok: bool, value: T)
      requires Valid()
      modifies this`head
      ensures Valid()
      ensures ok <==> old(Contents()) != []
      ensures ok ==> old(Contents()) == [value] + Contents()
      ensures !ok ==> value == previous && Contents() == old(Contents())
    {
      hide And;
      var readIndex := head;
      if readIndex == tail {
        return false, previous;
      }
      value := data[readIndex];
      ghost var c := Occupied(head, tail, N);
      AndMask(readIndex + 1, N);
      head := And(readIndex + 1, N - 1);
      RemovedWindow(data[..], readIndex, c);
      return true, value;
    }
  }

  /** Storing at the tail slot extends the window by the stored value. */
  lemma AppendedWindow<T>(was: seq<T>, now: seq<T>, head: nat, c: nat, value: T)
    requires head < |was| && c < |was| - 1
    requires now == was[(head + c) % |was| := value]
    ensures var n := |was|; var tail := ((head + c) % n + 1) % n;
      Occupied(head, tail, n) == c + 1 && Window(now, head, c + 1) == Window(was, head, c) + [value]
  {
    var n := |was|;
    NextSlot(head + c, n);
    OccupiedUnique(head, ((head + c) % n + 1) % n, n, c + 1);
    forall i | 0 <= i < c
      ensures Window(now, head, c + 1)[i] == Window(was, head, c)[i]
    {
      SlotsDistinct(head + i, head + c, n);
    }
  }

  lemma RemovedCount(n: nat, head: nat, c: nat)
    requires head < n && 0 < c < n
    ensures Occupied((head + 1) % n, (head + c) % n, n) == c - 1
  {
    AddMod(head + 1, c - 1, n);
    assert head + 1 + (c - 1) == head + c;
    OccupiedUnique((head + 1) % n, (head + c) % n, n, c - 1);
  }

  lemma SlotsShift(n: nat, head: nat, i: nat)
    requires n > 0
    ensures ((head + 1) % n + i) % n == (head + (i + 1)) % n
  {
    AddMod(head + 1, i, n);
    assert head + 1 + i == head + (i + 1);
  }

  /** Advancing the head drops the first element of the window. */
  lemma RemovedWindow<T>(data: seq<T>, head: nat, c: nat)
    requires head < |data| && 0 < c < |data|
    ensures var n := |data|; var next := (head + 1) % n;
      Occupied(next, (head + c) % n, n) == c - 1
      && Window(data, head, c) == [data[head]] + Window(data, next, c - 1)
  {
    hide Occupied;
    var n := |data|;
    var next := (head + 1) % n;
    RemovedCount(n, head, c);
    var rest := Window(data, next, c - 1);
    forall i | 0 <= i < c - 1
      ensures rest[i] == Window(data, head, c)[i + 1]
    {
      SlotsShift(n, head, i);
    }
    assert Window(data, head, c)[0] == data[head] by { ModOf(head, n, 0, head); }
  }

  lemma AddMod(a: nat, b: nat, n: nat)
    requires n > 0
    ensures (a % n + b) % n == (a + b) % n
  {
    var q := a / n;
    var s := a % n + b;
    assert a + b == (q + s / n) * n + s % n by {
      assert (q + s / n) * n == q * n + (s / n) * n;
    }
    ModOf(a + b, n, q + s / n, s % n);
  }

  lemma OccupiedUnique(head: nat, tail: nat, n: nat, c: nat)
    requires head < n && tail < n && c < n && (head + c) % n == tail
    ensures Occupied(head, tail, n) == c
  {
    var d := Occupied(head, tail, n);
    if d <= c {
      SlotsDistinct(head + d, head + c, n);
    } else {
      SlotsDistinct(head + c, head + d, n);
    }
  }
}
