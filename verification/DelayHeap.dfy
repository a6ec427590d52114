/** The heap of delayed tasks, least run time first, with the sifting of Go's container/heap. */
module DelayHeap {

  /** Tasks are known by number; at gives the time a task is to run. */
  type RunAt = nat -> int

  function Parent(i: nat): nat
    requires i > 0
  {
    (i - 1) / 2
  }

  ghost predicate IsHeap(at: RunAt, q: seq<nat>) {
    forall i :: 0 < i < |q| ==> at(q[Parent(i)]) <= at(q[i])
  }

  function Swap(q: seq<nat>, i: nat, j: nat): seq<nat>
    requires i < |q| && j < |q|
  {
    q[i := q[j]][j := q[i]]
  }

  lemma SwapKeepsElements(q: seq<nat>, i: nat, j: nat)
    requires i < |q| && j < |q|
    ensures multiset(Swap(q, i, j)) == multiset(q)
  {
  }

  function SiftUp(at: RunAt, q: seq<nat>, j: nat): seq<nat>
    requires j < |q|
    decreases j
  {
    if j == 0 || at(q[Parent(j)]) <= at(q[j]) then q
    else SiftUp(at, Swap(q, Parent(j), j), Parent(j))
  }

  /** The child of i, among the first n, that runs first. */
  function FirstChild(at: RunAt, q: seq<nat>, i: nat, n: nat): (c: nat)
    requires n <= |q| && 2 * i + 1 < n
    ensures c < n && (c == 2 * i + 1 || c == 2 * i + 2)
  {
    if 2 * i + 2 < n && at(q[2 * i + 2]) < at(q[2 * i + 1]) then 2 * i + 2 else 2 * i + 1
  }

  function SiftDown(at: RunAt, q: seq<nat>, i: nat, n: nat): seq<nat>
    requires n <= |q|
    decreases n - i
  {
    if 2 * i + 1 >= n then q
    else
      var c := FirstChild(at, q, i, n);
      if at(q[i]) <= at(q[c]) then q else SiftDown(at, Swap(q, i, c), c, n)
  }

  function HeapPush(at: RunAt, q: seq<nat>, x: nat): seq<nat> {
    SiftUp(at, q + [x], |q|)
  }

  /** What remains when the head is taken. */
  function HeapPop(at: RunAt, q: seq<nat>): seq<nat>
    requires q != []
  {
    var n := |q| - 1;
    var s := SiftDown(at, Swap(q, 0, n), 0, n);
    if |s| > n then s[..n] else s
  }

  // ---------------------------------------------------------------------------------------------

  lemma {:induction false} SiftUpKeepsElements(at: RunAt, q: seq<nat>, j: nat)
    requires j < |q|
    ensures |SiftUp(at, q, j)| == |q| && multiset(SiftUp(at, q, j)) == multiset(q)
    decreases j
  {
    if j > 0 && at(q[Parent(j)]) > at(q[j]) {
      SwapKeepsElements(q, Parent(j), j);
      SiftUpKeepsElements(at, Swap(q, Parent(j), j), Parent(j));
    }
  }

  lemma {:induction false} SiftDownKeepsElements(at: RunAt, q: seq<nat>, i: nat, n: nat)
    requires n <= |q|
    ensures |SiftDown(at, q, i, n)| == |q| && multiset(SiftDown(at, q, i, n)) == multiset(q)
    ensures SiftDown(at, q, i, n)[n..] == q[n..]
    decreases n - i
  {
    if 2 * i + 1 < n {
      var c := FirstChild(at, q, i, n);
      if at(q[i]) > at(q[c]) {
        SwapKeepsElements(q, i, c);
        SiftDownKeepsElements(at, Swap(q, i, c), c, n);
      }
    }
  }

  /** A heap but for the task at j, which may run before its parent; its children run after that parent. */
  ghost predicate HeapButUp(at: RunAt, q: seq<nat>, j: nat)
    requires j < |q|
  {
    && (forall i :: 0 < i < |q| && i != j ==> at(q[Parent(i)]) <= at(q[i]))
    && (forall i :: 0 < i < |q| && Parent(i) == j && j > 0 ==> at(q[Parent(j)]) <= at(q[i]))
  }

  lemma {:induction false} SiftUpMakesHeap(at: RunAt, q: seq<nat>, j: nat)
    requires j < |q| && HeapButUp(at, q, j)
    ensures IsHeap(at, SiftUp(at, q, j))
    decreases j
  {
    if j > 0 && at(q[Parent(j)]) > at(q[j]) {
      SwapUp(at, q, j);
      SiftUpMakesHeap(at, Swap(q, Parent(j), j), Parent(j));
    }
  }

  lemma SwapUp(at: RunAt, q: seq<nat>, j: nat)
    requires 0 < j < |q| && HeapButUp(at, q, j) && at(q[Parent(j)]) > at(q[j])
    ensures HeapButUp(at, Swap(q, Parent(j), j), Parent(j))
  {
    var p := Parent(j);
    var s := Swap(q, p, j);
    forall i | 0 < i < |s| && i != p ensures at(s[Parent(i)]) <= at(s[i]) {
      if i != j && Parent(i) != p && Parent(i) != j {
        assert s[i] == q[i];
      }
    }
    forall i | 0 < i < |s| && Parent(i) == p && p > 0 ensures at(s[Parent(p)]) <= at(s[i]) {
      assert at(q[Parent(p)]) <= at(q[p]);
      if i != j {
        assert at(q[p]) <= at(q[i]);
      }
    }
  }

  /** A heap among the first n but for the task at i, which may run after its children. */
  ghost predicate HeapButDown(at: RunAt, q: seq<nat>, i: nat, n: nat)
    requires n <= |q|
  {
    && (forall k :: 0 < k < n && Parent(k) != i ==> at(q[Parent(k)]) <= at(q[k]))
    && (forall k :: 0 < k < n && Parent(k) == i && 0 < i < n ==> at(q[Parent(i)]) <= at(q[k]))
  }

  lemma {:induction false} SiftDownMakesHeap(at: RunAt, q: seq<nat>, i: nat, n: nat)
    requires n <= |q| && HeapButDown(at, q, i, n)
    ensures |SiftDown(at, q, i, n)| == |q| && IsHeap(at, SiftDown(at, q, i, n)[..n])
    decreases n - i
  {
    SiftDownKeepsElements(at, q, i, n);
    if 2 * i + 1 < n && at(q[i]) > at(q[FirstChild(at, q, i, n)]) {
      var c := FirstChild(at, q, i, n);
      SwapDown(at, q, i, n, c);
      SiftDownMakesHeap(at, Swap(q, i, c), c, n);
    } else {
      SettledIsHeap(at, q, i, n);
    }
  }

  lemma SettledIsHeap(at: RunAt, q: seq<nat>, i: nat, n: nat)
    requires n <= |q| && HeapButDown(at, q, i, n)
    requires 2 * i + 1 >= n || at(q[i]) <= at(q[FirstChild(at, q, i, n)])
    ensures IsHeap(at, q[..n])
  {
    forall k | 0 < k < n ensures at(q[Parent(k)]) <= at(q[k]) {
      if Parent(k) == i {
        assert k == 2 * i + 1 || k == 2 * i + 2;
      }
    }
  }

  lemma SwapDown(at: RunAt, q: seq<nat>, i: nat, n: nat, c: nat)
    requires n <= |q| && 2 * i + 1 < n && c == FirstChild(at, q, i, n)
    requires HeapButDown(at, q, i, n) && at(q[i]) > at(q[c])
    ensures HeapButDown(at, Swap(q, i, c), c, n)
  {
    var s := Swap(q, i, c);
    forall k | 0 < k < n && Parent(k) != c ensures at(s[Parent(k)]) <= at(s[k]) {
      if Parent(k) == i {
        assert k == 2 * i + 1 || k == 2 * i + 2;
      } else if k == i {
        assert at(q[Parent(i)]) <= at(q[c]);
      }
    }
    forall k | 0 < k < n && Parent(k) == c ensures at(s[Parent(c)]) <= at(s[k]) {
      assert at(q[Parent(k)]) <= at(q[k]);
    }
  }

  lemma PushIsHeap(at: RunAt, q: seq<nat>, x: nat)
    ensures multiset(HeapPush(at, q, x)) == multiset(q) + multiset{x}
    ensures IsHeap(at, q) ==> IsHeap(at, HeapPush(at, q, x))
  {
    SiftUpKeepsElements(at, q + [x], |q|);
    if IsHeap(at, q) {
      assert HeapButUp(at, q + [x], |q|);
      SiftUpMakesHeap(at, q + [x], |q|);
    }
  }

  lemma PopIsHeap(at: RunAt, q: seq<nat>)
    requires q != []
    ensures multiset(HeapPop(at, q)) + multiset{q[0]} == multiset(q)
    ensures IsHeap(at, q) ==> IsHeap(at, HeapPop(at, q))
  {
    var n := |q| - 1;
    var s := Swap(q, 0, n);
    var r := SiftDown(at, s, 0, n);
    SwapKeepsElements(q, 0, n);
    SiftDownKeepsElements(at, s, 0, n);
    assert r == r[..n] + r[n..] && r[n..] == s[n..] && s[n..] == [q[0]];
    if IsHeap(at, q) {
      assert HeapButDown(at, s, 0, n);
      SiftDownMakesHeap(at, s, 0, n);
    }
  }

  function Count(q: seq<nat>, t: nat): nat {
    if q == [] then 0 else Count(q[..|q| - 1], t) + One(q[|q| - 1], t)
  }

  function One(x: nat, t: nat): nat {
    if x == t then 1 else 0
  }

  lemma {:induction false} CountIsMultiplicity(q: seq<nat>, t: nat)
    ensures Count(q, t) == multiset(q)[t]
  {
    if q != [] {
      CountIsMultiplicity(q[..|q| - 1], t);
      assert q == q[..|q| - 1] + [q[|q| - 1]];
    }
  }

  lemma CountSnoc(q: seq<nat>, x: nat, t: nat)
    ensures Count(q + [x], t) == Count(q, t) + One(x, t)
  {
    assert (q + [x])[..|q|] == q;
  }

  lemma CountRest(q: seq<nat>, t: nat)
    requires q != []
    ensures Count(q, t) == One(q[0], t) + Count(q[1..], t)
  {
    CountIsMultiplicity(q, t);
    CountIsMultiplicity(q[1..], t);
    assert q == [q[0]] + q[1..];
  }

  lemma PushCounts(at: RunAt, q: seq<nat>, x: nat, t: nat)
    ensures Count(HeapPush(at, q, x), t) == Count(q, t) + One(x, t)
  {
    PushIsHeap(at, q, x);
    CountIsMultiplicity(q, t);
    CountIsMultiplicity(HeapPush(at, q, x), t);
  }

  lemma PushTwiceCounts(at: RunAt, q: seq<nat>, x: nat, y: nat, t: nat)
    ensures Count(HeapPush(at, HeapPush(at, q, x), y), t) == Count(q, t) + One(x, t) + One(y, t)
  {
    PushCounts(at, q, x, t);
    PushCounts(at, HeapPush(at, q, x), y, t);
  }

  lemma PopCounts(at: RunAt, q: seq<nat>, t: nat)
    requires q != []
    ensures Count(q, t) == Count(HeapPop(at, q), t) + One(q[0], t)
  {
    PopIsHeap(at, q);
    CountIsMultiplicity(q, t);
    CountIsMultiplicity(HeapPop(at, q), t);
  }

  /** The head of a heap runs no later than any other task in it. */
  lemma {:induction false} HeadIsFirst(at: RunAt, q: seq<nat>, i: nat)
    requires IsHeap(at, q) && i < |q|
    ensures at(q[0]) <= at(q[i])
  {
    if i > 0 {
      HeadIsFirst(at, q, Parent(i));
    }
  }

  predicate AppendsInOrder(at: RunAt, q: seq<nat>, x: nat) {
    q == [] || at(q[Parent(|q|)]) <= at(x)
  }

  /** Appending without sifting keeps a heap exactly when the heap is empty or the parent runs no later. */
  lemma PlainAppendKeepsHeapIff(at: RunAt, q: seq<nat>, x: nat)
    requires IsHeap(at, q)
    ensures IsHeap(at, q + [x]) <==> AppendsInOrder(at, q, x)
  {
    var s := q + [x];
    if q != [] {
      assert s[Parent(|q|)] == q[Parent(|q|)];
      forall i | 0 < i < |q| ensures at(s[Parent(i)]) <= at(s[i]) {
        assert at(q[Parent(i)]) <= at(q[i]);
      }
    }
  }

  ghost predicate IsSoonest(at: RunAt, x: nat, q: seq<nat>) {
    forall i :: 0 <= i < |q| ==> at(x) <= at(q[i])
  }

  /** Such an append leaves the soonest task at the head exactly when the head runs no later than the new one. */
  lemma PlainAppendKeepsHeadIff(at: RunAt, q: seq<nat>, x: nat)
    requires IsHeap(at, q)
    ensures IsSoonest(at, (q + [x])[0], q + [x]) <==> q == [] || at(q[0]) <= at(x)
  {
    var s := q + [x];
    if q != [] {
      assert s[|q|] == x;
      forall i | 0 <= i < |q| ensures at(q[0]) <= at(s[i]) {
        HeadIsFirst(at, q, i);
      }
    }
  }

  /** The next pop puts the appended task at the root and sifts it down: what remains is a heap again. */
  lemma PopMendsAppend(at: RunAt, q: seq<nat>, x: nat)
    requires IsHeap(at, q)
    ensures IsHeap(at, HeapPop(at, q + [x]))
  {
    var s := Swap(q + [x], 0, |q|);
    forall k | 0 < k < |q| && Parent(k) != 0 ensures at(s[Parent(k)]) <= at(s[k]) {
      assert s[k] == q[k] && s[Parent(k)] == q[Parent(k)];
    }
    SiftDownKeepsElements(at, s, 0, |q|);
    SiftDownMakesHeap(at, s, 0, |q|);
  }

  lemma PopShrinks(at: RunAt, q: seq<nat>)
    requires q != []
    ensures |HeapPop(at, q)| == |q| - 1
  {
    SiftDownKeepsElements(at, Swap(q, 0, |q| - 1), 0, |q| - 1);
  }

  /** The tasks in the order in which popping takes them. */
  function Drained(at: RunAt, q: seq<nat>): seq<nat>
    decreases |q|
  {
    if q == [] then []
    else
      PopShrinks(at, q);
      [q[0]] + Drained(at, HeapPop(at, q))
  }

  ghost predicate InOrder(at: RunAt, s: seq<nat>) {
    forall i, j :: 0 <= i < j < |s| ==> at(s[i]) <= at(s[j])
  }

  lemma {:induction false} DrainsAll(at: RunAt, q: seq<nat>)
    ensures multiset(Drained(at, q)) == multiset(q)
    decreases |q|
  {
    if q != [] {
      PopShrinks(at, q);
      PopIsHeap(at, q);
      DrainsAll(at, HeapPop(at, q));
    }
  }

  lemma SoonestThenInOrder(at: RunAt, x: nat, s: seq<nat>, q: seq<nat>)
    requires InOrder(at, s) && multiset(s) + multiset{x} == multiset(q)
    ensures InOrder(at, [x] + s) <==> IsSoonest(at, x, q)
  {
    forall i | 0 <= i < |q| ensures q[i] == x || q[i] in s {
      assert q[i] in multiset(q);
    }
    forall i | 0 <= i < |s| ensures s[i] in q {
      assert s[i] in multiset(s);
      assert s[i] in multiset(q);
    }
    var all := [x] + s;
    if IsSoonest(at, x, q) {
      forall i, j | 0 <= i < j < |all| ensures at(all[i]) <= at(all[j]) {
        assert all[j] == s[j - 1];
        if i > 0 {
          assert all[i] == s[i - 1];
        }
      }
    } else {
      var i :| 0 <= i < |q| && at(x) > at(q[i]);
      var j :| 0 <= j < |s| && s[j] == q[i];
      assert all[0] == x && all[j + 1] == s[j];
    }
  }

  lemma DrainStep(at: RunAt, q: seq<nat>)
    requires q != [] && InOrder(at, Drained(at, HeapPop(at, q)))
    ensures InOrder(at, Drained(at, q)) <==> IsSoonest(at, q[0], q)
  {
    PopShrinks(at, q);
    PopIsHeap(at, q);
    DrainsAll(at, HeapPop(at, q));
    SoonestThenInOrder(at, q[0], Drained(at, HeapPop(at, q)), q);
  }

  /** A heap is drained soonest first. */
  lemma {:induction false} HeapDrainsInOrder(at: RunAt, q: seq<nat>)
    requires IsHeap(at, q)
    ensures InOrder(at, Drained(at, q))
    decreases |q|
  {
    if q != [] {
      PopShrinks(at, q);
      PopIsHeap(at, q);
      HeapDrainsInOrder(at, HeapPop(at, q));
      forall i | 0 <= i < |q| ensures at(q[0]) <= at(q[i]) {
        HeadIsFirst(at, q, i);
      }
      DrainStep(at, q);
    }
  }

  /** After an append without sifting, the queue is drained soonest first exactly when the head stays the soonest. */
  lemma AppendedDrainsInOrderIff(at: RunAt, q: seq<nat>, x: nat)
    requires IsHeap(at, q)
    ensures InOrder(at, Drained(at, q + [x])) <==> q == [] || at(q[0]) <= at(x)
  {
    PopMendsAppend(at, q, x);
    HeapDrainsInOrder(at, HeapPop(at, q + [x]));
    DrainStep(at, q + [x]);
    PlainAppendKeepsHeadIff(at, q, x);
  }

  /** The queue as the dispatcher and the pushers change it. */
  class Pq {
    var q: seq<nat>

    constructor ()
      ensures q == []
    {
      q := [];
    }

    method Push(at: RunAt, x: nat)
      modifies this
      ensures q == HeapPush(at, old(q), x)
    {
      q := q + [x];
      var j := |q| - 1;
      while j > 0 && at(q[j]) < at(q[Parent(j)])
        invariant 0 <= j < |q|
        invariant SiftUp(at, q, j) == HeapPush(at, old(q), x)
        decreases j
      {
        q := Swap(q, Parent(j), j);
        j := Parent(j);
      }
    }

    method Pop(at: RunAt) returns (x: nat)
      requires q != []
      modifies this
      ensures x == old(q)[0] && q == HeapPop(at, old(q))
    {
      var n := |q| - 1;
      x := q[0];
      q := Swap(q, 0, n);
      var i := 0;
      while 2 * i + 1 < n && at(q[FirstChild(at, q, i, n)]) < at(q[i])
        invariant |q| == n + 1
        invariant SiftDown(at, q, i, n) == SiftDown(at, Swap(old(q), 0, n), 0, n)
        decreases n - i
      {
        var c := FirstChild(at, q, i, n);
        q := Swap(q, i, c);
        i := c;
      }
      q := q[..n];
    }
  }
}
