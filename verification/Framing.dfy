/** Cutting a stream into consecutive blocks of a fixed size. */
module Framing {
  function Blocks<T>(s: seq<T>, n: nat): (r: seq<seq<T>>)
    requires n > 0
    ensures forall i :: 0 <= i < |r| ==> |r[i]| == n
    decreases |s|
  {
    if |s| < n then [] else [s[..n]] + Blocks(s[n..], n)
  }

  /** What is left after the last whole block. */
  function Leftover<T>(s: seq<T>, n: nat): (r: seq<T>)
    requires n > 0
    ensures |r| < n
    decreases |s|
  {
    if |s| < n then s else Leftover(s[n..], n)
  }

  function Flatten<T>(blocks: seq<seq<T>>): seq<T> {
    if blocks == [] then [] else blocks[0] + Flatten(blocks[1..])
  }

  /** Blocks and leftover are the stream, cut; with the sizes above this determines both. */
  lemma {:induction false} BlocksPartition<T>(s: seq<T>, n: nat)
    requires n > 0
    ensures Flatten(Blocks(s, n)) + Leftover(s, n) == s
    decreases |s|
  {
    if |s| >= n {
      BlocksPartition(s[n..], n);
      var tail := Blocks(s[n..], n);
      assert Blocks(s, n)[1..] == tail;
      assert s == s[..n] + s[n..];
    }
  }

  lemma {:induction false} FlattenLength<T>(blocks: seq<seq<T>>, n: nat)
    requires forall i :: 0 <= i < |blocks| ==> |blocks[i]| == n
    ensures |Flatten(blocks)| == |blocks| * n
  {
    if blocks != [] {
      FlattenLength(blocks[1..], n);
      assert |blocks| * n == n + |blocks[1..]| * n;
    }
  }

  lemma BlockCount<T>(s: seq<T>, n: nat)
    requires n > 0
    ensures |s| == |Blocks(s, n)| * n + |Leftover(s, n)|
  {
    BlocksPartition(s, n);
    FlattenLength(Blocks(s, n), n);
  }

  lemma BlocksCons<T>(block: seq<T>, rest: seq<T>, n: nat)
    requires n > 0 && |block| == n
    ensures Blocks(block + rest, n) == [block] + Blocks(rest, n)
    ensures Leftover(block + rest, n) == Leftover(rest, n)
  {
    assert (block + rest)[..n] == block && (block + rest)[n..] == rest;
  }

  /** A chunk that stays within the current block completes it or just extends it. */
  lemma {:induction false} BlocksGrow<T>(s: seq<T>, chunk: seq<T>, n: nat)
    requires n > 0 && |Leftover(s, n)| + |chunk| <= n
    ensures |Leftover(s, n)| + |chunk| < n ==>
      Blocks(s + chunk, n) == Blocks(s, n) && Leftover(s + chunk, n) == Leftover(s, n) + chunk
    ensures |Leftover(s, n)| + |chunk| == n ==>
      Blocks(s + chunk, n) == Blocks(s, n) + [Leftover(s, n) + chunk] && Leftover(s + chunk, n) == []
    decreases |s|
  {
    if |s| >= n {
      BlocksGrow(s[n..], chunk, n);
      assert s + chunk == s[..n] + (s[n..] + chunk);
      BlocksCons(s[..n], s[n..] + chunk, n);
    } else if |s| + |chunk| == n {
      BlocksCons(s + chunk, [], n);
      assert s + chunk + [] == s + chunk;
    }
  }

  // ---------- Frames offered to a stream that may take only part of them ----------

  /** A frame and how many of its elements the stream took. */
  datatype Offer<T> = Offer(frame: seq<T>, count: nat)

  ghost predicate Offers<T>(a: seq<Offer<T>>, n: nat) {
    forall i :: 0 <= i < |a| ==> |a[i].frame| == n && a[i].count <= n
  }

  ghost function Taken<T>(a: seq<Offer<T>>, n: nat): seq<T>
    requires Offers(a, n)
  {
    if a == [] then [] else a[0].frame[..a[0].count] + Taken(a[1..], n)
  }

  /** The frames taken whole. */
  ghost function Whole<T>(a: seq<Offer<T>>, n: nat): seq<seq<T>>
    requires Offers(a, n)
  {
    if a == [] then [] else (if a[0].count == n then [a[0].frame] else []) + Whole(a[1..], n)
  }

  function Total<T>(a: seq<Offer<T>>): nat {
    if a == [] then 0 else a[0].count + Total(a[1..])
  }

  /** From the first frame taken in part on, fewer elements than one frame were taken. */
  predicate TailShort<T>(a: seq<Offer<T>>, n: nat) {
    a == [] || (if a[0].count == n || a[0].count == 0 then TailShort(a[1..], n) else Total(a) < n)
  }

  lemma {:induction false} TakenLength<T>(a: seq<Offer<T>>, n: nat)
    requires Offers(a, n)
    ensures |Taken(a, n)| == Total(a)
  {
    if a != [] {
      TakenLength(a[1..], n);
    }
  }

  lemma TakenWhole<T>(a: seq<Offer<T>>, n: nat, k: nat)
    requires n > 0 && Offers(a, n) && a != [] && a[0].count == n <= k <= |Taken(a, n)|
    ensures k - n <= |Taken(a[1..], n)|
    ensures Blocks(Taken(a, n)[..k], n) == [a[0].frame] + Blocks(Taken(a[1..], n)[..k - n], n)
  {
    var rest := Taken(a[1..], n);
    assert Taken(a, n)[..k] == a[0].frame + rest[..k - n];
    BlocksCons(a[0].frame, rest[..k - n], n);
  }

  /** With a short tail, the blocks of however much has arrived are a prefix of the whole frames. */
  lemma {:induction false} ShortTailInOrder<T>(a: seq<Offer<T>>, n: nat, k: nat)
    requires n > 0 && Offers(a, n) && TailShort(a, n) && k <= |Taken(a, n)|
    ensures Blocks(Taken(a, n)[..k], n) <= Whole(a, n)
  {
    if k < n {
      assert Blocks(Taken(a, n)[..k], n) == [];
    } else if a[0].count == n {
      TakenWhole(a, n, k);
      ShortTailInOrder(a[1..], n, k - n);
      PrefixCons(a[0].frame, Blocks(Taken(a[1..], n)[..k - n], n), Whole(a[1..], n));
    } else if a[0].count == 0 {
      assert Taken(a, n) == Taken(a[1..], n) && Whole(a, n) == Whole(a[1..], n);
      ShortTailInOrder(a[1..], n, k);
    } else {
      TakenLength(a, n);
    }
  }

  lemma PrefixCons<T>(x: T, p: seq<T>, q: seq<T>)
    requires p <= q
    ensures [x] + p <= [x] + q
  {
  }

  /** Otherwise, if frames not taken whole start with x, some block starts with x. */
  lemma {:induction false} LongTailShows<T>(a: seq<Offer<T>>, n: nat, x: T) returns (j: nat)
    requires n > 0 && Offers(a, n) && !TailShort(a, n)
    requires forall i :: 0 <= i < |a| && a[i].count < n ==> a[i].frame[0] == x
    ensures j < |Blocks(Taken(a, n), n)| && Blocks(Taken(a, n), n)[j][0] == x
  {
    var rest := Taken(a[1..], n);
    if a[0].count == n {
      var k := LongTailShows(a[1..], n, x);
      assert Taken(a, n) == a[0].frame + rest;
      BlocksCons(a[0].frame, rest, n);
      j := k + 1;
    } else if a[0].count == 0 {
      assert Taken(a, n) == rest;
      j := LongTailShows(a[1..], n, x);
    } else {
      TakenLength(a, n);
      j := 0;
      assert Blocks(Taken(a, n), n)[0] == Taken(a, n)[..n];
      assert Taken(a, n)[0] == a[0].frame[0];
    }
  }

  lemma {:induction false} CountsDecide<T>(a: seq<Offer<T>>, b: seq<Offer<T>>, n: nat)
    requires |a| == |b| && forall i :: 0 <= i < |a| ==> a[i].count == b[i].count
    ensures Total(a) == Total(b) && TailShort(a, n) == TailShort(b, n)
  {
    if a != [] {
      CountsDecide(a[1..], b[1..], n);
    }
  }

  /** Only the last frame taken in part, so the tail is short. */
  lemma {:induction false} LastPartIsShort<T>(a: seq<Offer<T>>, n: nat)
    requires Offers(a, n)
    requires forall i :: 0 <= i < |a| - 1 && a[i].count < n ==> a[i].count == 0
    ensures TailShort(a, n)
  {
    if |a| > 1 {
      assert forall i :: 0 <= i < |a[1..]| - 1 ==> a[1..][i] == a[i + 1];
      LastPartIsShort(a[1..], n);
    } else if a != [] {
      assert a[1..] == [];
    }
  }
}
