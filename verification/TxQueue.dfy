/**
 A node's pending CAN frames: eight wrapping rings of slot numbers, one per message
 class, emptied lowest class first.
 */
module TxQueue {

  const CLASSES := 8
  const DEPTH := 16

  /** The plain meaning: one sequence per class, oldest first. */
  type Queues = q: seq<seq<nat>> | |q| == CLASSES witness [[], [], [], [], [], [], [], []]

  const EMPTY: Queues := [[], [], [], [], [], [], [], []]

  /** The most urgent class with something queued, or `CLASSES`. */
  function Lowest(q: Queues, from: nat := 0): (c: nat)
    requires from <= CLASSES
    ensures from <= c <= CLASSES
    ensures c < CLASSES ==> q[c] != []
    ensures forall i :: from <= i < c ==> q[i] == []
    decreases CLASSES - from
  {
    if from == CLASSES || q[from] != [] then from else Lowest(q, from + 1)
  }

  function Pushed(q: Queues, cls: nat, item: nat): Queues
    requires cls < CLASSES
  {
    q[cls := q[cls] + [item]]
  }

  function Popped(q: Queues): Queues
    requires Lowest(q) < CLASSES
  {
    q[Lowest(q) := q[Lowest(q)][1..]]
  }

  function Total(q: Queues, n: nat): nat
    requires n <= CLASSES
  {
    if n == 0 then 0 else Total(q, n - 1) + |q[n - 1]|
  }

  lemma {:induction false} TotalIs(q: Queues)
    ensures Total(q, 8) == |q[0]| + |q[1]| + |q[2]| + |q[3]| + |q[4]| + |q[5]| + |q[6]| + |q[7]|
  {
    assert Total(q, 1) == |q[0]|;
    assert Total(q, 2) == |q[0]| + |q[1]|;
    assert Total(q, 4) == Total(q, 2) + |q[2]| + |q[3]|;
    assert Total(q, 6) == Total(q, 4) + |q[4]| + |q[5]|;
  }

  lemma {:induction false} TotalUpdate(q: Queues, c: nat, items: seq<nat>, n: nat)
    requires c < n <= CLASSES
    ensures Total(q[c := items], n) + |q[c]| == Total(q, n) + |items|
  {
    if c == n - 1 {
      TotalSame(q, q[c := items], n - 1);
    } else {
      TotalUpdate(q, c, items, n - 1);
    }
  }

  lemma {:induction false} TotalSame(q: Queues, q': Queues, n: nat)
    requires n <= CLASSES && forall i :: 0 <= i < n ==> q[i] == q'[i]
    ensures Total(q, n) == Total(q', n)
  {
    if n == 0 {
    } else {
      TotalSame(q, q', n - 1);
    }
  }

  lemma {:induction false} TotalAtLeast(q: Queues, c: nat, n: nat)
    requires c < n <= CLASSES
    ensures |q[c]| <= Total(q, n)
  {
    if c < n - 1 {
      TotalAtLeast(q, c, n - 1);
    }
  }

  /** A pop takes one, and there is one to take exactly when anything waits. */
  lemma {:induction false} PopTakesOne(q: Queues)
    ensures Lowest(q) < CLASSES <==> Total(q, CLASSES) > 0
    ensures Lowest(q) < CLASSES ==> Total(Popped(q), CLASSES) == Total(q, CLASSES) - 1
    ensures Lowest(q) == CLASSES <==> q == EMPTY
  {
    hide Total;
    var c := Lowest(q);
    if c < CLASSES {
      TotalUpdate(q, c, q[c][1..], CLASSES);
      TotalAtLeast(q, c, CLASSES);
    } else {
      assert q == EMPTY;
      TotalIs(q);
    }
  }

  /** Counting from the next position is counting one further from this one. */
  lemma {:induction false} NextPosition(head: nat, i: nat)
    requires head < DEPTH
    ensures ((head + 1) % DEPTH + i) % DEPTH == (head + (i + 1)) % DEPTH
  {
    if head + 1 == DEPTH {
      assert (DEPTH + i) % DEPTH == i % DEPTH;
    }
  }

  class Rings {
    const ring: array2<nat>
    const head: array<nat>
    const count: array<nat>

    ghost predicate Valid()
      reads head, count
    {
      && ring.Length0 == CLASSES && ring.Length1 == DEPTH
      && head.Length == CLASSES && count.Length == CLASSES && head != count
      && (forall c :: 0 <= c < CLASSES ==> head[c] < DEPTH)
      && (forall c :: 0 <= c < CLASSES ==> count[c] <= DEPTH)
    }

    /** One ring unrolled from its head. */
    ghost function Class(c: nat): (s: seq<nat>)
      requires Valid() && c < CLASSES
      reads ring, head, count
      ensures |s| == count[c]
    {
      seq(count[c], i requires 0 <= i < count[c] reads ring, head, count => ring[c, (head[c] + i) % DEPTH])
    }

    ghost function Contents(): (q: Queues)
      requires Valid()
      reads ring, head, count
    {
      seq(CLASSES, c requires 0 <= c < CLASSES && Valid() reads ring, head, count => Class(c))
    }

    constructor ()
      ensures Valid() && fresh(ring) && fresh(head) && fresh(count)
      ensures Contents() == EMPTY
    {
      ring := new nat[CLASSES, DEPTH]((_, _) => 0);
      head := new nat[CLASSES](_ => 0);
      count := new nat[CLASSES](_ => 0);
    }

    /** Refused, and nothing changed, exactly when the class does not exist or is full. */
    method Push(cls: nat, item: nat) returns (ok: bool)
      requires Valid()
      modifies ring, count
      ensures Valid()
      ensures ok <==> cls < 8 && |old(Contents())[cls]| < 16
      ensures Contents() == if ok then Pushed(old(Contents()), cls, item) else old(Contents())
    {
      hide Lowest, Total;
      if cls >= CLASSES || count[cls] >= DEPTH {
        return false;
      }
      AppendTail(cls, item);
      return true;
    }

    method AppendTail(cls: nat, item: nat)
      requires Valid() && cls < CLASSES && count[cls] < DEPTH
      modifies ring, count
      ensures Valid()
      ensures Contents() == Pushed(old(Contents()), cls, item)
    {
      hide Lowest, Total;
      var tail := (head[cls] + count[cls]) % DEPTH;
      ring[cls, tail] := item;
      count[cls] := count[cls] + 1;
      forall c | 0 <= c < CLASSES && c != cls ensures Class(c) == old(Class(c)) {
      }
      assert Class(cls) == old(Class(cls)) + [item];
    }

    /** Takes what has waited longest among the most urgent items; -1 says that nothing waits. */
    method Pop() returns (item: int)
      requires Valid()
      modifies head, count
      ensures Valid()
      ensures var was := old(Contents());
              if Lowest(was) < CLASSES
              then item == was[Lowest(was)][0] && Contents() == Popped(was)
              else item == -1 && Contents() == was
    {
      for cls := 0 to CLASSES
        invariant Valid() && Contents() == old(Contents())
        invariant Lowest(Contents()) == Lowest(Contents(), cls)
      {
        if count[cls] > 0 {
          item := ring[cls, head[cls]];
          RemoveHead(cls);
          return item;
        }
      }
      return -1;
    }

    method RemoveHead(cls: nat)
      requires Valid() && cls < CLASSES && count[cls] > 0
      modifies head, count
      ensures Valid()
      ensures Contents() == old(Contents())[cls := old(Contents())[cls][1..]]
    {
      ghost var h, n := head[cls], count[cls];
      head[cls] := (head[cls] + 1) % DEPTH;
      count[cls] := count[cls] - 1;
      forall c | 0 <= c < CLASSES && c != cls ensures Class(c) == old(Class(c)) {
      }
      forall i | 0 <= i < n - 1 ensures Class(cls)[i] == old(Class(cls))[1..][i] {
        NextPosition(h, i);
      }
      assert Class(cls) == old(Class(cls))[1..];
    }

    method Len() returns (n: nat)
      requires Valid()
      ensures var q := Contents();
              n == |q[0]| + |q[1]| + |q[2]| + |q[3]| + |q[4]| + |q[5]| + |q[6]| + |q[7]|
    {
      TotalIs(Contents());
      n := 0;
      for cls := 0 to CLASSES
        invariant n == Total(Contents(), cls)
      {
        n := n + count[cls];
      }
    }
  }
}
