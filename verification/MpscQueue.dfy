/**
 The ring queue as an object used by one thread at a time: Init, Push and Pop on real arrays with
 32-bit counters, against a first-in first-out sequence.
 */
module MpscQueue {
  import opened Words
  import opened ErrorCodes

  class Queue<T(0)> {
    var buffer: array?<T>
    var marks: array?<nat>       // the seq array
    var capacity: nat
    var capacityMask: nat
    var writePos: nat
    var readPos: nat
    ghost var head: nat          // readPos without wrap-around
    ghost var contents: seq<T>

    /** An object that Init has not yet filled. */
    constructor ()
      ensures Valid() && !Initialised() && contents == []
    {
      buffer, marks := null, null;
      capacity, capacityMask, writePos, readPos := 0, 0, 0, 0;
      head, contents := 0, [];
    }

    ghost predicate Initialised()
      reads this
    {
      buffer != null
    }

    ghost predicate Valid()
      reads this, buffer, marks
    {
      && (buffer == null <==> marks == null)
      && (buffer == null ==> contents == [])
      && (buffer != null ==> marks != null && Ring(buffer[..], marks[..], capacity, head, contents))
      && (buffer != null ==>
            && buffer as object != marks as object
            && capacityMask == capacity - 1 && capacity < WORD
            && readPos == head % WORD && writePos == (head + |contents|) % WORD)
    }

    method Init(elementSize: nat, capacity: nat) returns (rc: Code)
      requires capacity < WORD
      modifies this
      ensures rc == Ok <==> elementSize > 0 && PowerOfTwo(capacity)
      ensures rc == Ok ==> Valid() && Initialised() && contents == [] && this.capacity == capacity
      ensures rc == Ok ==> fresh(buffer) && fresh(marks)
      ensures rc != Ok ==> rc == InvalidArg && unchanged(this)
    {
      if elementSize == 0 || capacity == 0 {
        return InvalidArg;
      }
      if And(capacity, capacity - 1) != 0 {
        return InvalidArg;
      }
      buffer := new T[capacity];
      var seqs := new nat[capacity];
      marks := seqs;
      this.capacity, capacityMask := capacity, capacity - 1;
      writePos, readPos := 0, 0;
      var i := 0;
      while i < capacity
        invariant i <= capacity && marks == seqs
        invariant forall k :: 0 <= k < i ==> seqs[k] == k
        modifies seqs
      {
        seqs[i] := i;
        i := i + 1;
      }
      head, contents := 0, [];
      EmptyRing(buffer[..], marks[..], capacity);
      return Ok;
    }

    /**
     Claim the slot, copy the element in and mark it ready. A weak compare-exchange may fail `spurious`
     times although it finds what it expects; the way out for a slot claimed already is never taken.
     */
    method Store(index: nat, write: nat, element: T, spurious: nat)
      requires buffer != null && marks != null && buffer as object != marks as object
      requires index < buffer.Length == marks.Length && marks[index] == write < WORD && 0 < capacity < WORD
      modifies buffer, marks
      ensures buffer[..] == old(buffer[..])[index := element]
      ensures marks[..] == old(marks[..])[index := (write + 1) % WORD]
    {
      var expected, desired := write, (write + capacity) % WORD;
      var misses: nat := spurious;
      var swapped, claimedBefore := false, false;
      while !swapped
        invariant expected == write && desired != write && !claimedBefore && buffer[..] == old(buffer[..])
        invariant !swapped ==> marks[index] == write
        invariant marks[..] == if swapped then old(marks[..])[index := desired] else old(marks[..])
        decreases if swapped then 0 else misses + 1
      {
        if marks[index] == expected && misses == 0 {
          marks[index] := desired;
          swapped := true;
        } else {
          misses := misses - 1;
          expected := marks[index];
          if expected == desired {
            claimedBefore := true;
            break;
          }
          expected := write;
        }
      }
      assert swapped && !claimedBefore;
      buffer[index] := element;
      marks[index] := (write + 1) % WORD;
    }

    /** The part of Push after the full test. */
    method Deposit(write: nat, element: T, spurious: nat)
      requires buffer != null && marks != null && buffer as object != marks as object
      requires Ring(buffer[..], marks[..], capacity, head, contents) && capacityMask == capacity - 1 && capacity < WORD
      requires |contents| < capacity && write == (head + |contents|) % WORD
      modifies this`contents, buffer, marks
      ensures Ring(buffer[..], marks[..], capacity, head, contents) && contents == old(contents) + [element]
    {
      var index := And(write, capacityMask);
      FreeSlot(buffer[..], marks[..], capacity, head, contents);
      Store(index, write, element, spurious);
      RingPush(old(buffer[..]), old(marks[..]), buffer[..], marks[..], capacity, head, contents, element, index);
      contents := contents + [element];
    }

    /** `spurious` is how often the weak compare-exchange fails for no reason. */
    method Push(element: T, spurious: nat) returns (rc: Code)
      requires Valid()
      modifies this, buffer, marks
      ensures Valid() && buffer == old(buffer) && marks == old(marks) && capacity == old(capacity)
      ensures rc == if !old(Initialised()) then TransNotInit
                    else if |old(contents)| == capacity then QueueFull else Ok
      ensures contents == if rc == Ok then old(contents) + [element] else old(contents)
      ensures head == old(head)
    {
      if buffer == null || capacity == 0 || marks == null {
        return TransNotInit;
      }
      var write := writePos;
      writePos := (writePos + 1) % WORD;
      var read := readPos;
      DistanceIsLength(head, |contents|);
      if Minus(write, read) >= capacity {
        writePos := Minus(writePos, 1);
        return QueueFull;
      }
      Deposit(write, element, spurious);
      return Ok;
    }

    /** Take the element at the head; `free` is the marker that hands its slot back. */
    method Withdraw(index: nat, free: nat) returns (element: T)
      requires buffer != null && marks != null && buffer as object != marks as object
      requires Ring(buffer[..], marks[..], capacity, head, contents) && contents != []
      requires index == And(head, capacity - 1) < capacity && buffer[index] == contents[0]
      requires free == (head + capacity) % WORD
      modifies this`contents, this`head, marks
      ensures Ring(buffer[..], marks[..], capacity, head, contents) && head == old(head) + 1
      ensures element == old(contents)[0] && contents == old(contents)[1..]
    {
      element := buffer[index];
      marks[index] := free;
      assert marks[..] == old(marks[..])[index := free];
      RingPop(buffer[..], old(marks[..]), marks[..], capacity, head, contents, index);
      contents := contents[1..];
      head := head + 1;
    }

    method Pop() returns (rc: Code, element: T)
      requires Valid()
      modifies this, marks
      ensures Valid() && buffer == old(buffer) && marks == old(marks) && capacity == old(capacity)
      ensures rc == if !old(Initialised()) then TransNotInit
                    else if old(contents) == [] then QueueEmpty else Ok
      ensures rc == Ok ==> element == old(contents)[0] && contents == old(contents)[1..]
      ensures rc != Ok ==> contents == old(contents)
    {
      element := *;
      if buffer == null || marks == null {
        return TransNotInit, element;
      }
      var read := readPos;
      var index := And(read, capacityMask);
      HeadSlot(buffer[..], marks[..], capacity, head, contents);
      if marks[index] != (read + 1) % WORD {
        return QueueEmpty, element;
      }
      AddMod(head, capacity);
      AddMod(head, 1);
      element := Withdraw(index, (read + capacity) % WORD);
      readPos := (read + 1) % WORD;
      return Ok, element;
    }
  }

  /** `write - read` counts the queued elements, wherever the counters have wrapped. */
  lemma DistanceIsLength(head: nat, n: nat)
    ensures n < WORD ==> Minus((head + n) % WORD, head % WORD) == n
    ensures ((head + n) % WORD + 1) % WORD == (head + n + 1) % WORD
    ensures Minus(((head + n) % WORD + 1) % WORD, 1) == (head + n) % WORD
  {
    if n < WORD {
      MinusWraps(head, n);
    }
    NextWraps(head + n);
  }

  /** Advancing a wrapped counter, and taking the advance back. */
  lemma NextWraps(a: nat)
    ensures (a % WORD + 1) % WORD == (a + 1) % WORD != a % WORD
    ensures Minus((a % WORD + 1) % WORD, 1) == a % WORD
  {
    AddMod(a, 1);
    AddWrap(a, 1);
  }

  lemma FreeSlot<T>(buffer: seq<T>, marks: seq<nat>, c: nat, head: nat, contents: seq<T>)
    requires Ring(buffer, marks, c, head, contents) && |contents| < c < WORD
    ensures var t := head + |contents|;
      And(t % WORD, c - 1) == And(t, c - 1) && marks[And(t, c - 1)] == t % WORD
  {
    MaskAfterWrap(head + |contents|, c);
    assert SlotMark(marks, c, head, |contents|, head + |contents|);
  }

  lemma WrapSteps(head: nat, c: nat)
    ensures (head % WORD + 1) % WORD == (head + 1) % WORD != head % WORD
    ensures (head % WORD + c) % WORD == (head + c) % WORD
  {
    NextWraps(head);
    AddMod(head, c);
  }

  /** The slot at the head is marked ready exactly when the queue is not empty. */
  lemma HeadSlot<T>(buffer: seq<T>, marks: seq<nat>, c: nat, head: nat, contents: seq<T>)
    requires Ring(buffer, marks, c, head, contents) && c < WORD
    ensures And(head % WORD, c - 1) == And(head, c - 1)
    ensures marks[And(head, c - 1)] == (head % WORD + 1) % WORD <==> contents != []
    ensures contents != [] ==> buffer[And(head, c - 1)] == contents[0]
  {
    MaskAfterWrap(head, c);
    WrapSteps(head, c);
    assert SlotMark(marks, c, head, |contents|, head);
    assert SlotItem(buffer, c, head, contents, head);
  }

  /** The marker of position k's slot: ready for the filled positions, free for the rest of the lap. */
  ghost predicate SlotMark(marks: seq<nat>, c: nat, head: nat, n: nat, k: nat)
    requires c > 0 && |marks| == c
  {
    marks[And(k, c - 1)] == (if k < head + n then k + 1 else k) % WORD
  }

  ghost predicate SlotItem<T>(buffer: seq<T>, c: nat, head: nat, contents: seq<T>, k: nat)
    requires c > 0 && |buffer| == c
  {
    head <= k < head + |contents| ==> buffer[And(k, c - 1)] == contents[k - head]
  }

  ghost predicate Ring<T>(buffer: seq<T>, marks: seq<nat>, c: nat, head: nat, contents: seq<T>) {
    && PowerOfTwo(c) && |buffer| == |marks| == c && |contents| <= c
    && (forall k :: head <= k < head + c ==> SlotMark(marks, c, head, |contents|, k))
    && (forall k :: head <= k < head + c ==> SlotItem(buffer, c, head, contents, k))
  }

  lemma EmptyRing<T>(buffer: seq<T>, marks: seq<nat>, c: nat)
    requires PowerOfTwo(c) && |buffer| == |marks| == c < WORD
    requires forall k :: 0 <= k < c ==> marks[k] == k
    ensures Ring(buffer, marks, c, 0, [])
  {
    forall k | 0 <= k < c
      ensures SlotMark(marks, c, 0, 0, k)
    {
      MaskSmall(k, c);
    }
  }

  lemma OtherSlot(k: nat, t: nat, head: nat, c: nat)
    requires PowerOfTwo(c) && head <= k < head + c && head <= t < head + c && k != t
    ensures And(k, c - 1) != And(t, c - 1)
  {
    if And(k, c - 1) == And(t, c - 1) {
      if k < t {
        MaskInjective(k, t, c);
      } else {
        MaskInjective(t, k, c);
      }
    }
  }

  lemma RingPush<T>(buffer: seq<T>, marks: seq<nat>, buffer': seq<T>, marks': seq<nat>,
                          c: nat, head: nat, contents: seq<T>, x: T, index: nat)
    requires Ring(buffer, marks, c, head, contents) && |contents| < c
    requires index == And(head + |contents|, c - 1) && |buffer'| == |marks'| == c
    requires buffer' == buffer[index := x]
    requires marks' == marks[index := ((head + |contents|) % WORD + 1) % WORD]
    ensures Ring(buffer', marks', c, head, contents + [x])
  {
    var t := head + |contents|;
    DistanceIsLength(head, |contents|);
    forall k | head <= k < head + c
      ensures SlotMark(marks', c, head, |contents + [x]|, k) && SlotItem(buffer', c, head, contents + [x], k)
    {
      if k != t {
        OtherSlot(k, t, head, c);
        assert SlotMark(marks, c, head, |contents|, k) && SlotItem(buffer, c, head, contents, k);
      }
    }
  }

  lemma RingPop<T>(buffer: seq<T>, marks: seq<nat>, marks': seq<nat>,
                         c: nat, head: nat, contents: seq<T>, index: nat)
    requires Ring(buffer, marks, c, head, contents) && |contents| > 0
    requires index == And(head, c - 1) && |marks'| == c
    requires marks' == marks[index := (head + c) % WORD]
    ensures Ring(buffer, marks', c, head + 1, contents[1..])
  {
    MaskPeriodic(head, c);
    var lo, rest := head + 1, contents[1..];
    var n := |rest|;
    forall k | lo <= k < lo + c
      ensures SlotMark(marks', c, lo, n, k) && SlotItem(buffer, c, lo, rest, k)
    {
      if k < head + c {
        OtherSlot(k, head, head, c);
        assert SlotMark(marks, c, head, |contents|, k) && SlotItem(buffer, c, head, contents, k);
      }
    }
  }
}
