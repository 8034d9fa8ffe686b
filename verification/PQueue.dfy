/**
 The binary-heap priority queue: the two sifts as the program runs them in place, specified by
 functions on sequences, and what those functions keep.
 */
module PQueue {
  import opened ErrorCodes

  type Comparator<!T> = (T, T) -> int

  function Parent(i: nat): nat
    requires i > 0
  {
    (i - 1) / 2
  }

  /** What the array becomes when x rises from the hole at i. */
  function Up<T>(cmp: Comparator<T>, s: seq<T>, i: nat, x: T): (r: seq<T>)
    requires i < |s|
    ensures |r| == |s|
    decreases i
  {
    if i == 0 || cmp(x, s[Parent(i)]) <= 0 then s[i := x]
    else Up(cmp, s[i := s[Parent(i)]], Parent(i), x)
  }

  /** The child the program moves up next; it compares with the slot itself, not with the saved element. */
  function Largest<T>(cmp: Comparator<T>, s: seq<T>, i: nat): (m: nat)
    requires i < |s|
    ensures m == i || ((m == 2 * i + 1 || m == 2 * i + 2) && m < |s|)
  {
    var l := if 2 * i + 1 < |s| && cmp(s[2 * i + 1], s[i]) > 0 then 2 * i + 1 else i;
    if 2 * i + 2 < |s| && cmp(s[2 * i + 2], s[l]) > 0 then 2 * i + 2 else l
  }

  /** What the array becomes when x sinks from the hole at i. */
  function Down<T>(cmp: Comparator<T>, s: seq<T>, i: nat, x: T): (r: seq<T>)
    requires i < |s|
    ensures |r| == |s|
    decreases |s| - i
  {
    var m := Largest(cmp, s, i);
    if m == i then s[i := x] else Down(cmp, s[i := s[m]], m, x)
  }

  function Pushed<T>(cmp: Comparator<T>, s: seq<T>, x: T): seq<T> {
    Up(cmp, s + [x], |s|, x)
  }

  /** The last element in place of the root. */
  function Moved<T>(s: seq<T>): seq<T>
    requires |s| > 1
  {
    s[..|s| - 1][0 := s[|s| - 1]]
  }

  function Popped<T>(cmp: Comparator<T>, s: seq<T>): seq<T>
    requires |s| > 0
  {
    if |s| == 1 then [] else Down(cmp, Moved(s), 0, Moved(s)[0])
  }

  class Heap<T(0)> {
    var buffer: array<T>
    var capacity: nat
    var size: nat
    const compare: Comparator<T>

    ghost predicate Valid()
      reads this
    {
      size <= capacity == buffer.Length
    }

    ghost function Contents(): seq<T>
      requires Valid()
      reads this, buffer
    {
      buffer[..size]
    }

    constructor (capacity: nat, compare: Comparator<T>)
      requires capacity > 0
      ensures Valid() && fresh(buffer) && Contents() == [] && this.capacity == capacity && this.compare == compare
    {
      buffer := new T[capacity];
      this.capacity, size, this.compare := capacity, 0, compare;
    }

    method SiftUp(index: nat)
      requires Valid() && index < size
      modifies buffer
      ensures Contents() == Up(compare, old(Contents()), index, old(buffer[index]))
    {
      var i: nat, temp := index, buffer[index];
      ghost var goal := Up(compare, buffer[..size], index, temp);
      while i > 0
        invariant 0 <= i < size && Up(compare, buffer[..size], i, temp) == goal
      {
        var parent := (i - 1) / 2;
        if compare(temp, buffer[parent]) <= 0 {
          break;
        }
        ghost var before := buffer[..size];
        buffer[i] := buffer[parent];
        assert buffer[..size] == before[i := before[parent]];
        i := parent;
      }
      ghost var before := buffer[..size];
      buffer[i] := temp;
      assert buffer[..size] == before[i := temp];
    }

    method SiftDown(index: nat)
      requires Valid() && index < size
      modifies buffer
      ensures Contents() == Down(compare, old(Contents()), index, old(buffer[index]))
    {
      var i, temp := index, buffer[index];
      ghost var goal := Down(compare, buffer[..size], index, temp);
      while true
        invariant i < size && Down(compare, buffer[..size], i, temp) == goal
        invariant size == old(size) && buffer == old(buffer)
        decreases size - i
      {
        var left, right, largest := 2 * i + 1, 2 * i + 2, i;
        if left < size && compare(buffer[left], buffer[largest]) > 0 {
          largest := left;
        }
        if right < size && compare(buffer[right], buffer[largest]) > 0 {
          largest := right;
        }
        ghost var before := buffer[..size];
        assert largest == Largest(compare, before, i);
        if largest == i {
          break;
        }
        buffer[i] := buffer[largest];
        assert buffer[..size] == before[i := before[largest]];
        i := largest;
      }
      ghost var before := buffer[..size];
      buffer[i] := temp;
      assert buffer[..size] == before[i := temp];
    }

    method Push(element: T) returns (rc: Code)
      requires Valid()
      modifies this`size, buffer
      ensures Valid() && buffer == old(buffer)
      ensures rc == if old(size) >= capacity then Busy else Ok
      ensures Contents() == if rc == Ok then Pushed(compare, old(Contents()), element) else old(Contents())
    {
      if size >= capacity {
        return Busy;
      }
      buffer[size] := element;
      size := size + 1;
      assert Contents() == old(Contents()) + [element];
      SiftUp(size - 1);
      return Ok;
    }

    method Pop() returns (rc: Code, element: T)
      requires Valid()
      modifies this`size, buffer
      ensures Valid() && buffer == old(buffer)
      ensures rc == if old(size) == 0 then QueueEmpty else Ok
      ensures rc == Ok ==> element == old(Contents())[0] && Contents() == Popped(compare, old(Contents()))
      ensures rc != Ok ==> Contents() == old(Contents())
    {
      element := *;
      if size == 0 {
        return QueueEmpty, element;
      }
      element := buffer[0];
      size := size - 1;
      if size > 0 {
        buffer[0] := buffer[size];
        ghost var was := old(Contents());
        assert Contents() == Moved(was);
        SiftDown(0);
      }
      return Ok, element;
    }

    method Peek() returns (rc: Code, element: T)
      requires Valid()
      ensures rc == if size == 0 then QueueEmpty else Ok
      ensures rc == Ok ==> element == Contents()[0]
    {
      element := *;
      if size == 0 {
        return QueueEmpty, element;
      }
      return Ok, buffer[0];
    }

    method Clear()
      requires Valid()
      modifies this`size
      ensures Valid() && Contents() == []
    {
      size := 0;
    }

    /** The reallocation is taken to succeed. */
    method Reserve(newCapacity: nat) returns (rc: Code)
      requires Valid()
      modifies this
      ensures Valid() && Contents() == old(Contents())
      ensures rc == if newCapacity <= old(capacity) then InvalidArg else Ok
      ensures capacity == if rc == Ok then newCapacity else old(capacity)
      ensures buffer == old(buffer) || fresh(buffer)
    {
      if newCapacity <= capacity {
        return InvalidArg;
      }
      var bigger := new T[newCapacity];
      for i := 0 to size
        invariant bigger[..i] == buffer[..i]
        modifies bigger
      {
        bigger[i] := buffer[i];
      }
      buffer, capacity := bigger, newCapacity;
      return Ok;
    }
  }

  // ---------- Contents are conserved, whatever the comparator returns ----------

  lemma SwapBag<T>(s: seq<T>, i: nat, j: nat, x: T)
    requires i < |s| && j < |s| && i != j
    ensures multiset(s[i := s[j]][j := x]) == multiset(s[i := x])
  {
    var a, b := s[i := x], s[i := s[j]][j := x];
    assert a[i := a[j]][j := a[i]] == b;
  }

  lemma {:induction false} UpConserves<T>(cmp: Comparator<T>, s: seq<T>, i: nat, x: T)
    requires i < |s|
    ensures multiset(Up(cmp, s, i, x)) == multiset(s[i := x])
    decreases i
  {
    if i > 0 && cmp(x, s[Parent(i)]) > 0 {
      UpConserves(cmp, s[i := s[Parent(i)]], Parent(i), x);
      SwapBag(s, i, Parent(i), x);
    }
  }

  lemma {:induction false} DownConserves<T>(cmp: Comparator<T>, s: seq<T>, i: nat, x: T)
    requires i < |s|
    ensures multiset(Down(cmp, s, i, x)) == multiset(s[i := x])
    decreases |s| - i
  {
    var m := Largest(cmp, s, i);
    if m != i {
      DownConserves(cmp, s[i := s[m]], m, x);
      SwapBag(s, i, m, x);
    }
  }

  /** Push adds its element and nothing else. */
  lemma PushConserves<T>(cmp: Comparator<T>, s: seq<T>, x: T)
    ensures multiset(Pushed(cmp, s, x)) == multiset(s) + multiset{x}
    ensures |Pushed(cmp, s, x)| == |s| + 1
  {
    UpConserves(cmp, s + [x], |s|, x);
    assert (s + [x])[|s| := x] == s + [x];
  }

  lemma MovedBag<T>(s: seq<T>)
    requires |s| > 1
    ensures multiset(Moved(s)) + multiset{s[0]} == multiset(s)
  {
    var n := |s| - 1;
    assert Moved(s) == [s[n]] + s[1..n];
    assert s == [s[0]] + s[1..n] + [s[n]];
  }

  /** Pop takes out the root and nothing else. */
  lemma PopConserves<T>(cmp: Comparator<T>, s: seq<T>)
    requires |s| > 0
    ensures multiset(Popped(cmp, s)) + multiset{s[0]} == multiset(s)
    ensures |Popped(cmp, s)| == |s| - 1
  {
    if |s| == 1 {
      assert s == [s[0]];
    } else {
      var m := Moved(s);
      DownConserves(cmp, m, 0, m[0]);
      assert m[0 := m[0]] == m;
      MovedBag(s);
    }
  }

  datatype Op<T> = PushOp(x: T) | PopOp | ClearOp | ReserveOp(newCapacity: nat)

  /** A queue with the account of what went in, what Pop returned and what Clear dropped. */
  datatype Account<T> = Account(heap: seq<T>, capacity: nat, put: multiset<T>, taken: multiset<T>, dropped: multiset<T>)

  function Apply<T>(cmp: Comparator<T>, a: Account<T>, op: Op<T>): Account<T> {
    match op
    case PushOp(x) =>
      if |a.heap| >= a.capacity then a
      else a.(heap := Pushed(cmp, a.heap, x), put := a.put + multiset{x})
    case PopOp =>
      if a.heap == [] then a
      else a.(heap := Popped(cmp, a.heap), taken := a.taken + multiset{a.heap[0]})
    case ClearOp => a.(heap := [], dropped := a.dropped + multiset(a.heap))
    case ReserveOp(n) => if n <= a.capacity then a else a.(capacity := n)
  }

  function Run<T>(cmp: Comparator<T>, a: Account<T>, ops: seq<Op<T>>): Account<T>
    decreases |ops|
  {
    if ops == [] then a else Run(cmp, Apply(cmp, a, ops[0]), ops[1..])
  }

  ghost predicate Balanced<T>(a: Account<T>) {
    multiset(a.heap) + a.taken + a.dropped == a.put && |a.heap| <= a.capacity
  }

  lemma ApplyBalances<T>(cmp: Comparator<T>, a: Account<T>, op: Op<T>)
    requires Balanced(a)
    ensures Balanced(Apply(cmp, a, op))
  {
    match op
    case PushOp(x) => PushConserves(cmp, a.heap, x);
    case PopOp =>
      if a.heap != [] {
        PopConserves(cmp, a.heap);
      }
    case _ =>
  }

  /** Over every run and for every comparator nothing is lost, duplicated or invented. */
  lemma {:induction false} RunConserves<T>(cmp: Comparator<T>, a: Account<T>, ops: seq<Op<T>>)
    requires Balanced(a)
    ensures Balanced(Run(cmp, a, ops))
    decreases |ops|
  {
    if ops != [] {
      ApplyBalances(cmp, a, ops[0]);
      RunConserves(cmp, Apply(cmp, a, ops[0]), ops[1..]);
    }
  }

  // ---------- Heap order, for comparators that are total preorders ----------

  ghost predicate TotalPreorder<T(!new)>(cmp: Comparator<T>) {
    && (forall a, b :: cmp(a, b) > 0 <==> cmp(b, a) < 0)
    && (forall a, b, c :: cmp(a, b) >= 0 && cmp(b, c) >= 0 ==> cmp(a, c) >= 0)
  }

  ghost predicate IsHeap<T>(cmp: Comparator<T>, s: seq<T>) {
    forall j :: 0 < j < |s| ==> cmp(s[j], s[Parent(j)]) <= 0
  }

  /** Heap order around a hole at i that x is about to fill. */
  ghost predicate HoleOk<T>(cmp: Comparator<T>, s: seq<T>, i: nat, x: T)
    requires i < |s|
  {
    forall j :: 0 < j < |s| && j != i ==>
      if Parent(j) == i then cmp(s[j], x) <= 0 && (i > 0 ==> cmp(s[j], s[Parent(i)]) <= 0)
      else cmp(s[j], s[Parent(j)]) <= 0
  }

  lemma AtMost<T(!new)>(cmp: Comparator<T>, a: T, b: T, c: T)
    requires TotalPreorder(cmp) && cmp(a, b) <= 0 && cmp(b, c) <= 0
    ensures cmp(a, c) <= 0
  {
    assert cmp(b, a) >= 0 && cmp(c, b) >= 0;
    assert cmp(c, a) >= 0;
  }

  lemma RiseKeepsHole<T(!new)>(cmp: Comparator<T>, s: seq<T>, i: nat, x: T)
    requires TotalPreorder(cmp) && 0 < i < |s| && HoleOk(cmp, s, i, x) && cmp(x, s[Parent(i)]) > 0
    ensures HoleOk(cmp, s[i := s[Parent(i)]], Parent(i), x)
  {
    var p := Parent(i);
    var t := s[i := s[p]];
    forall j | 0 < j < |s| && j != p
      ensures if Parent(j) == p then cmp(t[j], x) <= 0 && (p > 0 ==> cmp(t[j], t[Parent(p)]) <= 0)
        else cmp(t[j], t[Parent(j)]) <= 0
    {
      if j == i {
        assert cmp(s[p], x) < 0;
      } else if Parent(j) == p {
        AtMost(cmp, s[j], s[p], x);
        if p > 0 {
          AtMost(cmp, s[j], s[p], s[Parent(p)]);
        }
      }
    }
  }

  lemma {:induction false} UpMakesHeap<T(!new)>(cmp: Comparator<T>, s: seq<T>, i: nat, x: T)
    requires TotalPreorder(cmp) && i < |s| && HoleOk(cmp, s, i, x)
    ensures IsHeap(cmp, Up(cmp, s, i, x))
    decreases i
  {
    if i > 0 && cmp(x, s[Parent(i)]) > 0 {
      RiseKeepsHole(cmp, s, i, x);
      UpMakesHeap(cmp, s[i := s[Parent(i)]], Parent(i), x);
    }
  }

  /** Push preserves heap order. */
  lemma PushKeepsHeap<T(!new)>(cmp: Comparator<T>, s: seq<T>, x: T)
    requires TotalPreorder(cmp) && IsHeap(cmp, s)
    ensures IsHeap(cmp, Pushed(cmp, s, x))
  {
    UpMakesHeap(cmp, s + [x], |s|, x);
  }

  lemma {:induction false} RootIsMaximal<T(!new)>(cmp: Comparator<T>, s: seq<T>, k: nat)
    requires TotalPreorder(cmp) && IsHeap(cmp, s) && k < |s|
    ensures cmp(s[k], s[0]) <= 0
    decreases k
  {
    if k > 0 {
      RootIsMaximal(cmp, s, Parent(k));
      AtMost(cmp, s[k], s[Parent(k)], s[0]);
    } else {
      assert cmp(s[0], s[0]) > 0 <==> cmp(s[0], s[0]) < 0;
    }
  }

  function PushAll<T>(cmp: Comparator<T>, s: seq<T>, xs: seq<T>): seq<T>
    decreases |xs|
  {
    if xs == [] then s else PushAll(cmp, Pushed(cmp, s, xs[0]), xs[1..])
  }

  lemma {:induction false} PushAllConserves<T>(cmp: Comparator<T>, s: seq<T>, xs: seq<T>)
    ensures multiset(PushAll(cmp, s, xs)) == multiset(s) + multiset(xs)
    ensures |PushAll(cmp, s, xs)| == |s| + |xs|
    decreases |xs|
  {
    if xs != [] {
      PushConserves(cmp, s, xs[0]);
      PushAllConserves(cmp, Pushed(cmp, s, xs[0]), xs[1..]);
      assert xs == [xs[0]] + xs[1..];
    }
  }

  lemma {:induction false} PushAllIsHeap<T(!new)>(cmp: Comparator<T>, s: seq<T>, xs: seq<T>)
    requires TotalPreorder(cmp) && IsHeap(cmp, s)
    ensures IsHeap(cmp, PushAll(cmp, s, xs))
    decreases |xs|
  {
    if xs != [] {
      PushKeepsHeap(cmp, s, xs[0]);
      PushAllIsHeap(cmp, Pushed(cmp, s, xs[0]), xs[1..]);
    }
  }

  /** After any push-only run, Peek and the first Pop return a maximal pushed element. */
  lemma FirstOutIsMaximal<T(!new)>(cmp: Comparator<T>, xs: seq<T>)
    requires TotalPreorder(cmp) && xs != []
    ensures var s := PushAll(cmp, [], xs);
      s != [] && s[0] in xs && forall k :: 0 <= k < |xs| ==> cmp(xs[k], s[0]) <= 0
  {
    PushAllIsHeap(cmp, [], xs);
    PushAllConserves(cmp, [], xs);
    var s := PushAll(cmp, [], xs);
    assert multiset(s) == multiset(xs);
    assert |s| == |multiset(s)| == |xs|;
    assert s[0] in multiset(s);
    forall k | 0 <= k < |xs|
      ensures cmp(xs[k], s[0]) <= 0
    {
      assert xs[k] in multiset(xs);
      var j :| 0 <= j < |s| && s[j] == xs[k];
      RootIsMaximal(cmp, s, j);
    }
  }

  // ---------- SiftDown as written ----------

  // ---------- What the sifts do to any array, heap or not ----------

  /** Along the slots ks every element moves up one place, x goes to the last slot, the rest stays. */
  ghost predicate Shifted<T>(s: seq<T>, r: seq<T>, ks: seq<nat>, x: T) {
    && |r| == |s| && ks != [] && (forall j :: 0 <= j < |ks| ==> ks[j] < |s|)
    && (forall j :: 0 <= j < |ks| - 1 ==> r[ks[j]] == s[ks[j + 1]])
    && r[ks[|ks| - 1]] == x
    && (forall k :: 0 <= k < |s| && k !in ks ==> r[k] == s[k])
  }

  /** The child of k that moves up: the left one if above s[k], unless the right one beats it; else the right one. */
  predicate Rises<T>(cmp: Comparator<T>, s: seq<T>, k: nat, child: nat) {
    && k < child < |s|
    && (|| (child == 2 * k + 1 && cmp(s[child], s[k]) > 0 && (child + 1 < |s| ==> cmp(s[child + 1], s[child]) <= 0))
        || (child == 2 * k + 2 && cmp(s[child], if cmp(s[child - 1], s[k]) > 0 then s[child - 1] else s[k]) > 0))
  }

  /** No child of k is above it. */
  predicate Rests<T>(cmp: Comparator<T>, s: seq<T>, k: nat) {
    && (2 * k + 1 < |s| ==> cmp(s[2 * k + 1], s[k]) <= 0)
    && (2 * k + 2 < |s| ==> cmp(s[2 * k + 2], s[k]) <= 0)
  }

  /** A way down from i: child after child that rises, to a slot where none does. */
  ghost predicate DownPath<T>(cmp: Comparator<T>, s: seq<T>, i: nat, ks: seq<nat>) {
    && ks != [] && ks[0] == i && (forall j :: 0 <= j < |ks| ==> i <= ks[j] < |s|)
    && (forall j :: 0 <= j < |ks| - 1 ==> Rises(cmp, s, ks[j], ks[j + 1]))
    && Rests(cmp, s, ks[|ks| - 1])
  }

  /** Comparisons below slot i do not see what slot i holds. */
  lemma BelowUnchanged<T>(cmp: Comparator<T>, s: seq<T>, i: nat, y: T, k: nat, child: nat)
    requires i < k < |s|
    ensures Rises(cmp, s[i := y], k, child) == Rises(cmp, s, k, child)
    ensures Rests(cmp, s[i := y], k) == Rests(cmp, s, k)
  {
  }

  lemma DownPathCons<T>(cmp: Comparator<T>, s: seq<T>, i: nat, m: nat, y: T, ks: seq<nat>)
    requires i < m < |s| && Rises(cmp, s, i, m) && DownPath(cmp, s[i := y], m, ks)
    ensures DownPath(cmp, s, i, [i] + ks)
  {
    var all := [i] + ks;
    BelowUnchanged(cmp, s, i, y, ks[|ks| - 1], 0);
    forall j | 0 <= j < |all| - 1
      ensures Rises(cmp, s, all[j], all[j + 1])
    {
      if j > 0 {
        assert Rises(cmp, s[i := y], ks[j - 1], ks[j]);
        BelowUnchanged(cmp, s, i, y, ks[j - 1], ks[j]);
      }
    }
  }

  lemma ShiftedCons<T>(s: seq<T>, i: nat, m: nat, r: seq<T>, ks: seq<nat>, x: T)
    requires i < |s| && m < |s| && ks != [] && ks[0] == m && i !in ks
    requires Shifted(s[i := s[m]], r, ks, x)
    ensures Shifted(s, r, [i] + ks, x)
  {
    var all := [i] + ks;
    forall j | 0 <= j < |all| - 1
      ensures r[all[j]] == s[all[j + 1]]
    {
      if j > 0 {
        assert r[ks[j - 1]] == s[i := s[m]][ks[j]];
      }
    }
    assert all[|all| - 1] == ks[|ks| - 1];
    forall k | 0 <= k < |s| && k !in all
      ensures r[k] == s[k]
    {
      assert all[0] == i && (k in ks ==> k in all);
    }
  }

  lemma LargestRises<T>(cmp: Comparator<T>, s: seq<T>, i: nat)
    requires i < |s|
    ensures var m := Largest(cmp, s, i);
      if m == i then Rests(cmp, s, i) else Rises(cmp, s, i, m)
  {
  }

  /** The descent follows the way down from i, whatever the array and the comparator. */
  lemma {:induction false} DownFollowsPath<T>(cmp: Comparator<T>, s: seq<T>, i: nat, x: T) returns (ks: seq<nat>)
    requires i < |s|
    ensures DownPath(cmp, s, i, ks) && Shifted(s, Down(cmp, s, i, x), ks, x)
    decreases |s| - i
  {
    var m := Largest(cmp, s, i);
    LargestRises(cmp, s, i);
    if m == i {
      ks := [i];
    } else {
      var rest := DownFollowsPath(cmp, s[i := s[m]], m, x);
      ks := [i] + rest;
      DownPathCons(cmp, s, i, m, s[m], rest);
      ShiftedCons(s, i, m, Down(cmp, s, i, x), rest, x);
    }
  }

  /** x is above the parent of slot k. */
  predicate Climbs<T>(cmp: Comparator<T>, s: seq<T>, x: T, k: nat, up: nat) {
    0 < k && up == Parent(k) && up < |s| && cmp(x, s[up]) > 0
  }

  /** A way up from i for x: parents that x is above, to the root or to a slot below one it is not above. */
  ghost predicate UpPath<T>(cmp: Comparator<T>, s: seq<T>, i: nat, x: T, ks: seq<nat>) {
    && ks != [] && ks[0] == i < |s| && (forall j :: 0 <= j < |ks| ==> ks[j] <= i)
    && (forall j :: 0 <= j < |ks| - 1 ==> Climbs(cmp, s, x, ks[j], ks[j + 1]))
    && (var last := ks[|ks| - 1]; last == 0 || cmp(x, s[Parent(last)]) <= 0)
  }

  lemma UpPathCons<T>(cmp: Comparator<T>, s: seq<T>, i: nat, x: T, y: T, ks: seq<nat>)
    requires 0 < i < |s| && cmp(x, s[Parent(i)]) > 0 && UpPath(cmp, s[i := y], Parent(i), x, ks)
    ensures UpPath(cmp, s, i, x, [i] + ks)
  {
    var all := [i] + ks;
    forall j | 0 <= j < |all| - 1
      ensures Climbs(cmp, s, x, all[j], all[j + 1])
    {
      if j > 0 {
        assert Climbs(cmp, s[i := y], x, ks[j - 1], ks[j]);
      }
    }
  }

  /** The rise follows the way up from i, whatever the array and the comparator. */
  lemma {:induction false} UpFollowsPath<T>(cmp: Comparator<T>, s: seq<T>, i: nat, x: T) returns (ks: seq<nat>)
    requires i < |s|
    ensures UpPath(cmp, s, i, x, ks) && Shifted(s, Up(cmp, s, i, x), ks, x)
    decreases i
  {
    if i == 0 || cmp(x, s[Parent(i)]) <= 0 {
      ks := [i];
    } else {
      var p := Parent(i);
      var rest := UpFollowsPath(cmp, s[i := s[p]], p, x);
      ks := [i] + rest;
      UpPathCons(cmp, s, i, x, s[p], rest);
      ShiftedCons(s, i, p, Up(cmp, s, i, x), rest, x);
    }
  }

  /** Push on any array: the new element starts in the last slot and climbs. */
  lemma PushShape<T>(cmp: Comparator<T>, s: seq<T>, x: T) returns (ks: seq<nat>)
    ensures UpPath(cmp, s + [x], |s|, x, ks) && Shifted(s + [x], Pushed(cmp, s, x), ks, x)
  {
    ks := UpFollowsPath(cmp, s + [x], |s|, x);
  }

  /** Pop on any array: the last element starts in the root and sinks. */
  lemma PopShape<T>(cmp: Comparator<T>, s: seq<T>) returns (ks: seq<nat>)
    requires |s| > 1
    ensures var n := |s| - 1;
      var m := [s[n]] + s[1..n];
      DownPath(cmp, m, 0, ks) && Shifted(m, Popped(cmp, s), ks, s[n])
  {
    var n := |s| - 1;
    assert Moved(s) == [s[n]] + s[1..n];
    ks := DownFollowsPath(cmp, Moved(s), 0, s[n]);
  }

  /** Heap order everywhere but between the root and its children. */
  ghost predicate HeapSubtrees<T>(cmp: Comparator<T>, s: seq<T>) {
    forall j :: 2 < j < |s| ==> cmp(s[j], s[Parent(j)]) <= 0
  }

  /** On a root with heap subtrees the sift sinks at most one level: the identity, or one swap. */
  lemma SiftDownSinksOnce<T>(cmp: Comparator<T>, s: seq<T>)
    requires |s| > 0 && HeapSubtrees(cmp, s)
    ensures var c := Largest(cmp, s, 0);
      Down(cmp, s, 0, s[0]) == if c == 0 then s else s[0 := s[c]][c := s[0]]
  {
    var c := Largest(cmp, s, 0);
    if c != 0 {
      var t := s[0 := s[c]];
      assert 2 * c + 1 < |s| ==> Parent(2 * c + 1) == c && cmp(s[2 * c + 1], s[c]) <= 0;
      assert 2 * c + 2 < |s| ==> Parent(2 * c + 2) == c && cmp(s[2 * c + 2], s[c]) <= 0;
      assert Largest(cmp, t, c) == c;
    } else {
      assert s[0 := s[0]] == s;
    }
  }

  /** The root is at least each child of the slot it sinks to. */
  ghost predicate SinksFarEnough<T>(cmp: Comparator<T>, m: seq<T>)
    requires |m| > 0
  {
    var c := Largest(cmp, m, 0);
    c == 0 || forall k :: 0 < k < |m| && Parent(k) == c ==> cmp(m[k], m[0]) <= 0
  }

  lemma LargestIsUpper<T(!new)>(cmp: Comparator<T>, s: seq<T>)
    requires TotalPreorder(cmp) && |s| > 0
    ensures var c := Largest(cmp, s, 0);
      && cmp(s[0], s[c]) <= 0
      && (1 < |s| ==> cmp(s[1], s[c]) <= 0) && (2 < |s| ==> cmp(s[2], s[c]) <= 0)
  {
    assert forall a :: cmp(a, a) == 0 by {
      forall a
        ensures cmp(a, a) == 0
      {
        assert cmp(a, a) > 0 <==> cmp(a, a) < 0;
      }
    }
    var l := if 1 < |s| && cmp(s[1], s[0]) > 0 then 1 else 0;
    assert cmp(s[0], s[l]) <= 0;
    if 2 < |s| && cmp(s[2], s[l]) > 0 {
      assert cmp(s[l], s[2]) < 0;
      AtMost(cmp, s[0], s[l], s[2]);
      if l == 0 {
        AtMost(cmp, s[1], s[0], s[2]);
      }
    }
  }

  /** After the swap only the pairs below the sunk root are in doubt. */
  lemma SwapMakesHeapIff<T>(cmp: Comparator<T>, m: seq<T>, c: nat)
    requires 0 < c <= 2 && c < |m| && HeapSubtrees(cmp, m)
    requires cmp(m[0], m[c]) <= 0 && cmp(m[1], m[c]) <= 0 && (2 < |m| ==> cmp(m[2], m[c]) <= 0)
    ensures IsHeap(cmp, m[0 := m[c]][c := m[0]]) <==>
      forall k :: 0 < k < |m| && Parent(k) == c ==> cmp(m[k], m[0]) <= 0
  {
    var r := m[0 := m[c]][c := m[0]];
    forall j | 0 < j < |m|
      ensures Parent(j) != c ==> cmp(r[j], r[Parent(j)]) <= 0
      ensures Parent(j) == c ==> r[j] == m[j] && r[Parent(j)] == m[0]
    {
      assert j > 2 ==> cmp(m[j], m[Parent(j)]) <= 0;
    }
  }

  lemma SinkMakesHeapIff<T(!new)>(cmp: Comparator<T>, m: seq<T>)
    requires TotalPreorder(cmp) && |m| > 0 && HeapSubtrees(cmp, m)
    ensures IsHeap(cmp, Down(cmp, m, 0, m[0])) <==> SinksFarEnough(cmp, m)
  {
    var c := Largest(cmp, m, 0);
    SiftDownSinksOnce(cmp, m);
    LargestIsUpper(cmp, m);
    if c != 0 {
      SwapMakesHeapIff(cmp, m, c);
    } else {
      AlreadyHeap(cmp, m);
    }
  }

  lemma AlreadyHeap<T>(cmp: Comparator<T>, m: seq<T>)
    requires |m| > 0 && HeapSubtrees(cmp, m)
    requires (1 < |m| ==> cmp(m[1], m[0]) <= 0) && (2 < |m| ==> cmp(m[2], m[0]) <= 0)
    ensures IsHeap(cmp, m)
  {
    forall j | 0 < j < |m|
      ensures cmp(m[j], m[Parent(j)]) <= 0
    {
      assert j > 2 ==> cmp(m[j], m[Parent(j)]) <= 0;
    }
  }

  /**
   Pop of a heap leaves a heap if and only if the last element, moved to the root, is at least each
   child of the slot it sinks to.
   */
  lemma PopKeepsHeapIff<T(!new)>(cmp: Comparator<T>, s: seq<T>)
    requires TotalPreorder(cmp) && IsHeap(cmp, s) && |s| > 1
    ensures IsHeap(cmp, Popped(cmp, s)) <==> SinksFarEnough(cmp, Moved(s))
  {
    assert HeapSubtrees(cmp, Moved(s)) by {
      assert forall j :: 2 < j < |s| - 1 ==> Moved(s)[j] == s[j] && Moved(s)[Parent(j)] == s[Parent(j)];
    }
    SinkMakesHeapIff(cmp, Moved(s));
  }

  /** With at most three elements left, Pop always leaves a heap. */
  lemma SmallPopKeepsHeap<T(!new)>(cmp: Comparator<T>, s: seq<T>)
    requires TotalPreorder(cmp) && IsHeap(cmp, s) && 1 <= |s| <= 4
    ensures IsHeap(cmp, Popped(cmp, s))
  {
    if |s| > 1 {
      PopKeepsHeapIff(cmp, s);
    }
  }

  function ByValue(a: int, b: int): int {
    a - b
  }

  /** A heap of n + 1 elements whose last one, moved to the root, stops too early. */
  function Deceptive(n: nat): (s: seq<int>)
    ensures |s| == n + 1
  {
    seq(n + 1, i => if i == 0 then 3 else if i == 1 then 2 else if i == 3 then 1 else 0)
  }

  lemma DeceptiveIsHeap(n: nat)
    ensures IsHeap(ByValue, Deceptive(n))
  {
    var s := Deceptive(n);
    forall j | 0 < j < |s|
      ensures ByValue(s[j], s[Parent(j)]) <= 0
    {
      assert j == 3 ==> Parent(j) == 1;
      assert j == 1 ==> Parent(j) == 0;
    }
  }

  lemma DeceptiveMoved(n: nat)
    requires n >= 4
    ensures var m := Moved(Deceptive(n));
      |m| == n && m[0] == 0 && m[1] == 2 && m[2] == 0 && m[3] == 1
  {
  }

  lemma StopsTooEarly(m: seq<int>)
    requires |m| >= 4 && m[0] == 0 && m[1] == 2 && m[2] == 0 && m[3] == 1
    ensures !SinksFarEnough(ByValue, m)
  {
    assert Largest(ByValue, m, 0) == 1;
    assert Parent(3) == 1;
  }

  /** With four or more left it may not, at any size: the moved 0 stops at slot 1, above the 1. */
  lemma PopCanBreakHeap(n: nat)
    requires n >= 4
    ensures var s := Deceptive(n);
      |Popped(ByValue, s)| == n && IsHeap(ByValue, s) && !IsHeap(ByValue, Popped(ByValue, s))
  {
    var s := Deceptive(n);
    ByValueIsPreorder();
    DeceptiveIsHeap(n);
    DeceptiveMoved(n);
    StopsTooEarly(Moved(s));
    PopConserves(ByValue, s);
    PopKeepsHeapIff(ByValue, s);
  }

  /** Pop is sure to leave a heap of n elements exactly when n is at most three. */
  lemma SmallExactly(n: nat)
    ensures (forall s: seq<int> :: |s| == n + 1 && IsHeap(ByValue, s) ==> IsHeap(ByValue, Popped(ByValue, s))) <==> n <= 3
  {
    ByValueIsPreorder();
    if n <= 3 {
      forall s: seq<int> | |s| == n + 1 && IsHeap(ByValue, s)
        ensures IsHeap(ByValue, Popped(ByValue, s))
      {
        SmallPopKeepsHeap(ByValue, s);
      }
    } else {
      PopCanBreakHeap(n);
      assert |Deceptive(n)| == n + 1;
    }
  }

  lemma ByValueIsPreorder()
    ensures TotalPreorder(ByValue)
  {
  }
}
