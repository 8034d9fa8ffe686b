/**
 Entries over a byte stream: partial sends on the server, reassembly from arbitrary chunks on the
 client, and what the two together deliver.
 */
module RemoteStream {
  import opened Words
  import opened ErrorCodes
  import opened RemoteCodec
  import opened Framing

  // ---------- Server side: sending one entry to one client ----------

  /** What one call of send may do; the kernel never accepts more than it is offered. */
  datatype SendOutcome = Accepted(n: nat) | WouldBlock | SendError

  /** The verdict of the send loop and how many bytes went out. A script that runs out would block. */
  function SendResult(len: nat, sent: nat, script: seq<SendOutcome>): (r: (Code, nat))
    requires sent <= len
    ensures sent <= r.1 <= len && (r.0 == Ok <==> r.1 == len)
    ensures r.0 == Ok || r.0 == NetTimeout || r.0 == NetFileError
    decreases |script|
  {
    if sent == len then (Ok, sent)
    else if script == [] || script[0].WouldBlock? then (NetTimeout, sent)
    else if script[0].SendError? || script[0].n == 0 then (NetFileError, sent)
    else SendResult(len, if sent + script[0].n <= len then sent + script[0].n else len, script[1..])
  }

  /** How many calls of send accept something before the first that does not. */
  function Stop(script: seq<SendOutcome>): (k: nat)
    ensures k <= |script| && (k < |script| ==> !(script[k].Accepted? && script[k].n > 0))
    ensures forall i :: 0 <= i < k ==> script[i].Accepted? && script[i].n > 0
  {
    if script != [] && script[0].Accepted? && script[0].n > 0 then 1 + Stop(script[1..]) else 0
  }

  /** What the calls accept up to that one. */
  function Sum(script: seq<SendOutcome>): nat {
    if script != [] && script[0].Accepted? && script[0].n > 0 then script[0].n + Sum(script[1..]) else 0
  }

  /** The verdict of the whole loop, read off the outcomes of send. */
  predicate Verdict(len: nat, script: seq<SendOutcome>, rc: Code, sent: nat) {
    if Sum(script) >= len then rc == Ok && sent == len
    else
      && sent == Sum(script)
      && rc == if Stop(script) == |script| || script[Stop(script)].WouldBlock? then NetTimeout else NetFileError
  }

  /** All bytes are out if the calls accept enough; else those accepted, with the code of the call that stopped. */
  lemma {:induction false} SendVerdict(len: nat, done: nat, script: seq<SendOutcome>)
    requires done <= len
    ensures var (rc, sent) := SendResult(len, done, script);
      sent >= done && Verdict(len - done, script, rc, sent - done)
    decreases |script|
  {
    if script != [] && script[0].Accepted? && script[0].n > 0 && done < len {
      var next := if done + script[0].n <= len then done + script[0].n else len;
      SendVerdict(len, next, script[1..]);
    }
  }

  method SendFull(len: nat, script: seq<SendOutcome>) returns (rc: Code, sent: nat)
    ensures (rc, sent) == SendResult(len, 0, script)
    ensures Verdict(len, script, rc, sent)
  {
    SendVerdict(len, 0, script);
    sent := 0;
    var calls := 0;
    while sent < len
      invariant sent <= len && calls <= |script|
      invariant SendResult(len, sent, script[calls..]) == SendResult(len, 0, script)
      decreases |script| - calls
    {
      if calls == |script| {
        return NetTimeout, sent;
      }
      assert script[calls..][1..] == script[calls + 1..];
      match script[calls] {
        case WouldBlock => return NetTimeout, sent;
        case SendError => return NetFileError, sent;
        case Accepted(n) =>
          if n == 0 {
            return NetFileError, sent;
          }
          sent := if sent + n <= len then sent + n else len;
      }
      calls := calls + 1;
    }
    return Ok, sent;
  }

  // ---------- Client side: reassembly ----------

  /** The decoding of one whole frame. */
  function Frame(b: seq<byte>): Entry
    requires |b| == ENTRY_SIZE
  {
    FromWire(Split(b))
  }

  function Entries(blocks: seq<seq<byte>>): (r: seq<Entry>)
    requires forall i :: 0 <= i < |blocks| ==> |blocks[i]| == ENTRY_SIZE
    ensures |r| == |blocks| && forall i :: 0 <= i < |r| ==> r[i] == Frame(blocks[i])
  {
    seq(|blocks|, i requires 0 <= i < |blocks| => Frame(blocks[i]))
  }

  /** The entries decoded from the whole frames of a stream. */
  function Frames(stream: seq<byte>): seq<Entry> {
    Entries(Blocks(stream, ENTRY_SIZE))
  }

  /** The bytes after the last whole frame. */
  function Partial(stream: seq<byte>): (r: seq<byte>)
    ensures |r| < ENTRY_SIZE
  {
    Leftover(stream, ENTRY_SIZE)
  }

  /** After k bytes, k div 377 frames on consecutive blocks and k mod 377 bytes pending. */
  lemma FrameCount(stream: seq<byte>)
    ensures |Frames(stream)| == |stream| / ENTRY_SIZE && |Partial(stream)| == |stream| % ENTRY_SIZE
    ensures Flatten(Blocks(stream, ENTRY_SIZE)) + Partial(stream) == stream
  {
    BlocksPartition(stream, ENTRY_SIZE);
    BlockCount(stream, ENTRY_SIZE);
    DivMod(|Blocks(stream, ENTRY_SIZE)|, |Partial(stream)|);
  }

  lemma DivMod(q: nat, r: nat)
    requires r < ENTRY_SIZE
    ensures (q * ENTRY_SIZE + r) / ENTRY_SIZE == q && (q * ENTRY_SIZE + r) % ENTRY_SIZE == r
  {
  }

  /** A chunk that stays within the current frame completes it or just extends it. */
  lemma FramesGrow(stream: seq<byte>, chunk: seq<byte>)
    requires |Partial(stream)| + |chunk| <= ENTRY_SIZE
    ensures |Partial(stream)| + |chunk| < ENTRY_SIZE ==>
      Frames(stream + chunk) == Frames(stream) && Partial(stream + chunk) == Partial(stream) + chunk
    ensures |Partial(stream)| + |chunk| == ENTRY_SIZE ==>
      Frames(stream + chunk) == Frames(stream) + [Frame(Partial(stream) + chunk)] && Partial(stream + chunk) == []
  {
    BlocksGrow(stream, chunk, ENTRY_SIZE);
  }

  /** What select and recv may report in one call; recv returns at most the bytes asked for. */
  datatype RecvEvent =
    | SelectInterrupted
    | SelectFailed
    | SelectTimeout
    | RecvWouldBlock
    | RecvFailed
    | PeerClosed
    | Data(bytes: seq<byte>)

  class Client {
    var isInit: bool
    var isConnected: bool
    var recvBuf: array<byte>
    var recvOffset: nat
    var delivered: seq<Entry>      // entries passed to the callback since connecting
    ghost var stream: seq<byte>   // bytes received since connecting

    ghost predicate Valid()
      reads this, recvBuf
    {
      && recvBuf.Length == ENTRY_SIZE
      && (isConnected ==> isInit)
      && recvOffset == |Partial(stream)|
      && recvBuf[..recvOffset] == Partial(stream)
      && delivered == Frames(stream)
    }

    constructor ()
      ensures Valid() && isInit && !isConnected
    {
      isInit, isConnected, recvOffset, delivered, stream := true, false, 0, [], [];
      recvBuf := new byte[ENTRY_SIZE];
    }

    /** `outcome` tells how creating the socket, parsing the address and connecting went. */
    method Connect(outcome: Code) returns (rc: Code)
      requires Valid()
      modifies this
      ensures Valid() && recvBuf == old(recvBuf) && isInit == old(isInit)
      ensures rc == if !old(isInit) then TransNotInit else if old(isConnected) then Ok else outcome
      ensures if old(isInit && !isConnected) && rc == Ok then isConnected && stream == [] else unchanged(this)
    {
      if !isInit {
        return TransNotInit;
      }
      if isConnected {
        return Ok;
      }
      if outcome != Ok {
        return outcome;
      }
      isConnected, recvOffset, delivered, stream := true, 0, [], [];
      return Ok;
    }

    method Disconnect()
      requires Valid()
      modifies this
      ensures Valid() && recvBuf == old(recvBuf) && isInit == old(isInit)
      ensures if isInit then !isConnected && stream == [] else unchanged(this)
    {
      if isInit {
        isConnected, recvOffset, delivered, stream := false, 0, [], [];
      }
    }

    /** The frame loop: a full buffer is decoded and handed to the callback. */
    method PassFrames() returns (rounds: nat, moved: bool)
      requires recvBuf.Length == ENTRY_SIZE && recvOffset <= ENTRY_SIZE
      modifies this`recvOffset, this`delivered
      ensures !moved && rounds == if old(recvOffset) == ENTRY_SIZE then 1 else 0
      ensures recvOffset == if rounds == 1 then 0 else old(recvOffset)
      ensures delivered == old(delivered) + if rounds == 1 then [Frame(recvBuf[..ENTRY_SIZE])] else []
    {
      rounds, moved := 0, false;
      while recvOffset >= ENTRY_SIZE
        invariant recvOffset <= ENTRY_SIZE && !moved && rounds <= 1
        invariant rounds == 0 ==> recvOffset == old(recvOffset) && delivered == old(delivered)
        invariant rounds == 1 ==> old(recvOffset) == ENTRY_SIZE && recvOffset == 0
        invariant rounds == 1 ==> delivered == old(delivered) + [Frame(recvBuf[..ENTRY_SIZE])]
        decreases recvOffset
      {
        delivered := delivered + [Frame(recvBuf[..ENTRY_SIZE])];
        var remaining := recvOffset - ENTRY_SIZE;
        if remaining > 0 {
          moved := true;
        }
        recvOffset := remaining;
        rounds := rounds + 1;
      }
    }

    /** Received bytes go behind the pending ones; then the frame loop runs. */
    method Absorb(bytes: seq<byte>) returns (rounds: nat, moved: bool)
      requires Valid() && isConnected && 0 < |bytes| <= ENTRY_SIZE - recvOffset
      modifies this`recvOffset, this`delivered, this`stream, recvBuf
      ensures Valid()
      ensures stream == old(stream) + bytes && rounds <= 1 && !moved
    {
      FramesGrow(stream, bytes);
      recvOffset := Put(recvBuf, recvOffset, bytes);
      ghost var all := Partial(stream) + bytes;
      assert recvBuf[..recvOffset] == all;
      rounds, moved := PassFrames();
      assert rounds == 1 ==> recvBuf[..ENTRY_SIZE] == all && recvBuf[..recvOffset] == [];
      stream := stream + bytes;
    }

    /** `rounds` counts passes through the frame loop; `moved` tells whether leftovers were shifted. */
    method Receive(hasCallback: bool, event: RecvEvent) returns (rc: Code, rounds: nat, moved: bool)
      requires Valid()
      requires event.Data? ==> 0 < |event.bytes| <= ENTRY_SIZE - recvOffset
      modifies this, recvBuf
      ensures Valid() && recvBuf == old(recvBuf)
      ensures rounds <= 1 && !moved
      ensures rc ==
        if !old(isInit) then TransNotInit else if !old(isConnected) then NetClosed
        else if !hasCallback then NullPtr
        else match event
          case SelectInterrupted => NetTimeout
          case SelectFailed => NetFileError
          case SelectTimeout => NetTimeout
          case RecvWouldBlock => NetTimeout
          case RecvFailed => NetRecv
          case PeerClosed => NetClosed
          case Data(_) => Ok
      ensures rc == Ok ==> isConnected && stream == old(stream) + event.bytes
      ensures rc == TransNotInit || rc == NullPtr || rc == NetTimeout || !old(isConnected) ==>
        stream == old(stream) && isConnected == old(isConnected)
      ensures old(isConnected) && (rc == NetFileError || rc == NetRecv || rc == NetClosed) ==> !isConnected && stream == []
    {
      rounds, moved := 0, false;
      if !isInit {
        return TransNotInit, rounds, moved;
      }
      if !isConnected {
        return NetClosed, rounds, moved;
      }
      if !hasCallback {
        return NullPtr, rounds, moved;
      }
      match event {
        case SelectInterrupted => return NetTimeout, rounds, moved;
        case SelectTimeout => return NetTimeout, rounds, moved;
        case RecvWouldBlock => return NetTimeout, rounds, moved;
        case SelectFailed =>
          Disconnect();
          return NetFileError, rounds, moved;
        case RecvFailed =>
          Disconnect();
          return NetRecv, rounds, moved;
        case PeerClosed =>
          Disconnect();
          return NetClosed, rounds, moved;
        case Data(bytes) =>
          rounds, moved := Absorb(bytes);
          return Ok, rounds, moved;
      }
    }
  }

  // ---------- End to end ----------

  /** One SendFull of an entry and what the calls of send did. */
  datatype Attempt = Attempt(entry: Entry, script: seq<SendOutcome>) {
    function Rc(): Code {
      SendResult(ENTRY_SIZE, 0, script).0
    }

    function Count(): (n: nat)
      ensures n <= ENTRY_SIZE && (n == ENTRY_SIZE <==> Rc() == Ok)
    {
      SendResult(ENTRY_SIZE, 0, script).1
    }
  }

  /** Attempts to one client: after a send fails outright the connection is closed. */
  predicate OneConnection(a: seq<Attempt>) {
    && (forall i :: 0 <= i < |a| ==> a[i].entry.Valid())
    && (forall i :: 0 <= i < |a| - 1 ==> a[i].Rc() != NetFileError)
  }

  ghost function Offered(a: seq<Attempt>): (r: seq<Offer<byte>>)
    requires OneConnection(a)
    ensures |r| == |a| && forall i :: 0 <= i < |a| ==> r[i] == Offer(Encode(a[i].entry), a[i].Count())
    ensures Offers(r, ENTRY_SIZE)
  {
    seq(|a|, i requires 0 <= i < |a| => Offer(Encode(a[i].entry), a[i].Count()))
  }

  /** The bytes on the wire. */
  ghost function Wired(a: seq<Attempt>): seq<byte>
    requires OneConnection(a)
  {
    Taken(Offered(a), ENTRY_SIZE)
  }

  /** The decoded encodings of the entries whose SendFull returned OK, in order. */
  ghost function Confirmed(a: seq<Attempt>): seq<Entry>
    requires OneConnection(a)
  {
    if a == [] then []
    else (if a[0].Rc() == Ok then [FromWire(ToWire(a[0].entry))] else []) + Confirmed(a[1..])
  }

  /** However much of the wire has arrived, the callback has seen a prefix of the confirmed entries. */
  ghost predicate InOrder(a: seq<Attempt>)
    requires OneConnection(a)
  {
    forall k :: 0 <= k <= |Wired(a)| ==> Frames(Wired(a)[..k]) <= Confirmed(a)
  }

  /** A send that would have blocked part-way, and a frame's worth of bytes from there on. */
  ghost predicate Torn(a: seq<Attempt>)
    requires OneConnection(a)
  {
    !TailShort(Offered(a), ENTRY_SIZE)
  }

  lemma FrameOfEncoding(e: Entry)
    requires e.Valid()
    ensures Frame(Encode(e)) == FromWire(ToWire(e))
  {
    SplitJoin(ToWire(e));
  }

  ghost predicate Decodes(blocks: seq<seq<byte>>, entries: seq<Entry>) {
    |blocks| == |entries| && forall i :: 0 <= i < |blocks| ==> |blocks[i]| == ENTRY_SIZE && entries[i] == Frame(blocks[i])
  }

  lemma DecodesCons(b: seq<byte>, blocks: seq<seq<byte>>, e: Entry, entries: seq<Entry>)
    requires |b| == ENTRY_SIZE && e == Frame(b) && Decodes(blocks, entries)
    ensures Decodes([b] + blocks, [e] + entries)
  {
  }

  lemma {:induction false} ConfirmedIsWhole(a: seq<Attempt>)
    requires OneConnection(a)
    ensures Decodes(Whole(Offered(a), ENTRY_SIZE), Confirmed(a))
  {
    if a != [] {
      var o, rest := Offered(a), a[1..];
      ConfirmedIsWhole(rest);
      assert o[1..] == Offered(rest);
      if a[0].Rc() == Ok {
        FrameOfEncoding(a[0].entry);
        DecodesCons(o[0].frame, Whole(Offered(rest), ENTRY_SIZE), FromWire(ToWire(a[0].entry)), Confirmed(rest));
      } else {
        assert Whole(o, ENTRY_SIZE) == Whole(o[1..], ENTRY_SIZE) && Confirmed(a) == Confirmed(rest);
      }
    }
  }

  /** Decoding keeps the prefix order. */
  lemma DecodedPrefix(blocks: seq<seq<byte>>, all: seq<seq<byte>>, entries: seq<Entry>)
    requires Decodes(all, entries) && blocks <= all
    requires forall i :: 0 <= i < |blocks| ==> |blocks[i]| == ENTRY_SIZE
    ensures Entries(blocks) <= entries
  {
    assert forall i :: 0 <= i < |blocks| ==> blocks[i] == all[i];
  }

  lemma UntornInOrder(a: seq<Attempt>)
    requires OneConnection(a) && !Torn(a)
    ensures InOrder(a)
  {
    ConfirmedIsWhole(a);
    forall k | 0 <= k <= |Wired(a)|
      ensures Frames(Wired(a)[..k]) <= Confirmed(a)
    {
      ShortTailInOrder(Offered(a), ENTRY_SIZE, k);
      DecodedPrefix(Blocks(Wired(a)[..k], ENTRY_SIZE), Whole(Offered(a), ENTRY_SIZE), Confirmed(a));
    }
  }

  // Entries that tell confirmed sends from the others, even after decoding.

  const LATE: bv64 := 0x0100_0000_0000_0000

  function Blank(ts: bv64): (e: Entry)
    ensures e.Valid()
  {
    Entry(ts, 0, 0, 0, 0, seq(TAG_MAX_LEN, _ => 0), seq(FILE_MAX_LEN, _ => 0), seq(MSG_MAX_LEN, _ => 0), 0, false)
  }

  lemma BlankEncoding(ts: bv64)
    ensures Encode(Blank(ts))[0] == Big64(ts)[0]
    ensures FromWire(ToWire(Blank(ts))).ts == DecodeTs(Big64(ts))
  {
  }

  lemma Times()
    ensures Big64(LATE)[0] == 1 && DecodeTs(Big64(0)) == 0
  {
  }

  lemma LateTs(b: seq<byte>)
    requires |b| == 8 && b[0] == 1
    ensures DecodeTs(b) != 0
  {
  }

  lemma LateFrame(b: seq<byte>)
    requires |b| == ENTRY_SIZE && b[0] == 1
    ensures Frame(b).ts != 0
  {
    LateTs(b[..8]);
  }

  /** The same sends with confirmed entries at time zero and the others at a late time. */
  function Marked(a: seq<Attempt>): (b: seq<Attempt>)
    ensures |b| == |a|
    ensures forall i :: 0 <= i < |a| ==> b[i] == Attempt(Blank(if a[i].Rc() == Ok then 0 else LATE), a[i].script)
  {
    seq(|a|, i requires 0 <= i < |a| => Attempt(Blank(if a[i].Rc() == Ok then 0 else LATE), a[i].script))
  }

  ghost predicate SameSends(a: seq<Attempt>, b: seq<Attempt>) {
    |a| == |b| && forall i :: 0 <= i < |a| ==> a[i].script == b[i].script
  }

  lemma MarkedIsSame(a: seq<Attempt>)
    requires OneConnection(a)
    ensures OneConnection(Marked(a)) && SameSends(a, Marked(a))
  {
    var b := Marked(a);
    forall i | 0 <= i < |b| - 1
      ensures b[i].Rc() != NetFileError
    {
      assert a[i].Rc() != NetFileError;
    }
  }

  lemma SendsDecide(a: seq<Attempt>, b: seq<Attempt>)
    requires OneConnection(a) && OneConnection(b) && SameSends(a, b)
    ensures Torn(a) == Torn(b)
  {
    CountsDecide(Offered(a), Offered(b), ENTRY_SIZE);
  }

  lemma {:induction false} ConfirmedAtZero(a: seq<Attempt>)
    requires OneConnection(a)
    requires forall i :: 0 <= i < |a| && a[i].Rc() == Ok ==> a[i].entry == Blank(0)
    ensures forall i :: 0 <= i < |Confirmed(a)| ==> Confirmed(a)[i].ts == 0
  {
    if a != [] {
      ConfirmedAtZero(a[1..]);
      if a[0].Rc() == Ok {
        BlankEncoding(0);
        Times();
      }
    }
  }

  lemma MarkedFrames(a: seq<Attempt>)
    requires OneConnection(a)
    ensures OneConnection(Marked(a))
    ensures forall i :: 0 <= i < |a| && Offered(Marked(a))[i].count < ENTRY_SIZE ==> Offered(Marked(a))[i].frame[0] == 1
    ensures forall i :: 0 <= i < |Confirmed(Marked(a))| ==> Confirmed(Marked(a))[i].ts == 0
  {
    MarkedIsSame(a);
    var b := Marked(a);
    BlankEncoding(LATE);
    Times();
    forall i | 0 <= i < |b| && Offered(b)[i].count < ENTRY_SIZE
      ensures Offered(b)[i].frame[0] == 1
    {
      assert b[i].Rc() != Ok;
    }
    ConfirmedAtZero(b);
  }

  lemma LateBlockShows(stream: seq<byte>, j: nat)
    requires j < |Blocks(stream, ENTRY_SIZE)| && Blocks(stream, ENTRY_SIZE)[j][0] == 1
    ensures j < |Frames(stream)| && Frames(stream)[j].ts != 0
  {
    LateFrame(Blocks(stream, ENTRY_SIZE)[j]);
  }

  lemma LateWireMisleads(b: seq<Attempt>, j: nat)
    requires OneConnection(b)
    requires j < |Blocks(Wired(b), ENTRY_SIZE)| && Blocks(Wired(b), ENTRY_SIZE)[j][0] == 1
    requires forall i :: 0 <= i < |Confirmed(b)| ==> Confirmed(b)[i].ts == 0
    ensures !InOrder(b)
  {
    var wire := Wired(b);
    LateBlockShows(wire, j);
    NotPrefix(Frames(wire), Confirmed(b), j);
    var k := |wire|;
    assert wire[..k] == wire;
  }

  lemma TornMisleads(a: seq<Attempt>)
    requires OneConnection(a) && Torn(a)
    ensures OneConnection(Marked(a)) && !InOrder(Marked(a))
  {
    MarkedIsSame(a);
    MarkedFrames(a);
    var b := Marked(a);
    SendsDecide(a, b);
    var j := LongTailShows(Offered(b), ENTRY_SIZE, 1);
    LateWireMisleads(b, j);
  }

  lemma NotPrefix(seen: seq<Entry>, confirmed: seq<Entry>, j: nat)
    requires j < |seen| && seen[j].ts != 0
    requires forall i :: 0 <= i < |confirmed| ==> confirmed[i].ts == 0
    ensures !(seen <= confirmed)
  {
  }

  /**
   Whatever the entries hold, the client sees a prefix of the confirmed entries in order, if and only
   if the bytes sent from the first partial send on do not complete a frame.
   */
  lemma DeliveryIff(a: seq<Attempt>)
    requires OneConnection(a)
    ensures !Torn(a) <==> forall b :: SameSends(a, b) && OneConnection(b) ==> InOrder(b)
  {
    if Torn(a) {
      MarkedIsSame(a);
      TornMisleads(a);
    } else {
      forall b | SameSends(a, b) && OneConnection(b)
        ensures InOrder(b)
      {
        SendsDecide(a, b);
        UntornInOrder(b);
      }
    }
  }

  /** If every send that would have blocked had transferred nothing, delivery is in order. */
  lemma EndToEnd(a: seq<Attempt>)
    requires OneConnection(a)
    requires forall i :: 0 <= i < |a| && a[i].Rc() == NetTimeout ==> a[i].Count() == 0
    ensures InOrder(a)
  {
    LastPartIsShort(Offered(a), ENTRY_SIZE);
    UntornInOrder(a);
  }
}
