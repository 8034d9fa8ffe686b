/** The fixed-size wire format of a log entry: what the server writes and what the client reads back. */
module RemoteCodec {
  import opened Words
  import opened ErrorCodes

  const TAG_MAX_LEN: nat := 32
  const FILE_MAX_LEN: nat := 64
  const MSG_MAX_LEN: nat := 256
  const ENTRY_SIZE: nat := 8 + 8 + 4 + 1 + 4 + TAG_MAX_LEN + FILE_MAX_LEN + MSG_MAX_LEN

  /**
   A log entry. Integers are their bit patterns (`pid` and `tid` are signed 32-bit in the program,
   `level` is an enum); the three texts are the whole character arrays.
   */
  datatype Entry = Entry(
    ts: bv64, pid: bv32, tid: bv32, level: bv32, line: bv32,
    tag: seq<byte>, file: seq<byte>, msg: seq<byte>, msgLen: nat, enabled: bool)
  {
    predicate Valid() {
      |tag| == TAG_MAX_LEN && |file| == FILE_MAX_LEN && |msg| == MSG_MAX_LEN
    }
  }

  /** `(uint64_t)pid` for a signed 32-bit pid. */
  function SignExtend(x: bv32): bv64 {
    (if x >= 0x8000_0000 then 0xFFFF_FFFF_0000_0000 else 0) | (x as bv64)
  }

  function Octet64(x: bv64): byte {
    (x & 0xFF) as bv8
  }

  function Octet32(x: bv32): byte {
    (x & 0xFF) as bv8
  }

  function Big64(x: bv64): (r: seq<byte>)
    ensures |r| == 8
  {
    [Octet64(x >> 56), Octet64(x >> 48), Octet64(x >> 40), Octet64(x >> 32),
     Octet64(x >> 24), Octet64(x >> 16), Octet64(x >> 8), Octet64(x)]
  }

  function Big32(x: bv32): (r: seq<byte>)
    ensures |r| == 4
  {
    [Octet32(x >> 24), Octet32(x >> 16), Octet32(x >> 8), Octet32(x)]
  }

  /** An entry as it lies on the wire, field by field. */
  datatype Wire = Wire(
    ts: seq<byte>, pid: seq<byte>, tid: seq<byte>, level: byte, line: seq<byte>,
    tag: seq<byte>, file: seq<byte>, msg: seq<byte>)
  {
    predicate Valid() {
      && |ts| == |pid| == 8 && |tid| == |line| == 4
      && |tag| == TAG_MAX_LEN && |file| == FILE_MAX_LEN && |msg| == MSG_MAX_LEN
    }
  }

  function Header(w: Wire): (r: seq<byte>)
    requires w.Valid()
    ensures |r| == 25
  {
    w.ts + w.pid + w.tid + [w.level] + w.line
  }

  function Join(w: Wire): (r: seq<byte>)
    requires w.Valid()
    ensures |r| == ENTRY_SIZE
  {
    Header(w) + (w.tag + w.file + w.msg)
  }

  function Split(b: seq<byte>): (w: Wire)
    requires |b| == ENTRY_SIZE
    ensures w.Valid()
  {
    Wire(b[..8], b[8..16], b[16..20], b[20], b[21..25], b[25..57], b[57..121], b[121..377])
  }

  function ToWire(e: Entry): (w: Wire)
    requires e.Valid()
    ensures w.Valid()
  {
    Wire(Big64(e.ts), Big64(SignExtend(e.pid)), Big32(e.tid), Octet32(e.level), Big32(e.line), e.tag, e.file, e.msg)
  }

  function Encode(e: Entry): (r: seq<byte>)
    requires e.Valid()
    ensures |r| == ENTRY_SIZE
  {
    Join(ToWire(e))
  }

  /** The timestamp expression of the decoder, shift for shift. */
  function DecodeTs(b: seq<byte>): bv64
    requires |b| == 8
  {
    ((b[0] as bv64) << 56) | (((b[1] as bv64) << 56) >> 8) |
    ((b[2] as bv64) << 48) | (((b[3] as bv64) << 48) >> 8) |
    ((b[4] as bv64) << 40) | (((b[5] as bv64) << 40) >> 8) |
    ((b[6] as bv64) << 32) | (b[7] as bv64)
  }

  function Decode64(b: seq<byte>): bv64
    requires |b| == 8
  {
    ((b[0] as bv64) << 56) | ((b[1] as bv64) << 48) | ((b[2] as bv64) << 40) | ((b[3] as bv64) << 32) |
    ((b[4] as bv64) << 24) | ((b[5] as bv64) << 16) | ((b[6] as bv64) << 8) | (b[7] as bv64)
  }

  function Decode32(b: seq<byte>): bv32
    requires |b| == 4
  {
    ((b[0] as bv32) << 24) | ((b[1] as bv32) << 16) | ((b[2] as bv32) << 8) | (b[3] as bv32)
  }

  /** The characters before the first NUL. */
  function CString(s: seq<byte>): seq<byte> {
    if s == [] || s[0] == 0 then [] else [s[0]] + CString(s[1..])
  }

  function Terminated(s: seq<byte>): seq<byte>
    requires s != []
  {
    s[|s| - 1 := 0]
  }

  function FromWire(w: Wire): (e: Entry)
    requires w.Valid()
    ensures e.Valid()
  {
    var msg := Terminated(w.msg);
    Entry(DecodeTs(w.ts), (Decode64(w.pid) & 0xFFFF_FFFF) as bv32, Decode32(w.tid), w.level as bv32, Decode32(w.line),
          Terminated(w.tag), Terminated(w.file), msg, |CString(msg)|, true)
  }

  datatype Decoded = Success(entry: Entry) | Failure(code: Code)

  function Deserialize(buf: seq<byte>): Decoded {
    if |buf| < ENTRY_SIZE then Failure(InvalidArg) else Success(FromWire(Split(buf[..ENTRY_SIZE])))
  }

  /** Copy a field into the buffer. */
  method Put(buf: array<byte>, offset: nat, data: seq<byte>) returns (next: nat)
    requires offset + |data| <= buf.Length
    modifies buf
    ensures next == offset + |data|
    ensures buf[..next] == old(buf[..offset]) + data
    ensures forall i :: next <= i < buf.Length ==> buf[i] == old(buf[i])
  {
    for i := 0 to |data|
      invariant buf[..offset + i] == old(buf[..offset]) + data[..i]
      invariant forall j :: offset + i <= j < buf.Length ==> buf[j] == old(buf[j])
    {
      buf[offset + i] := data[i];
      assert buf[..offset + i + 1] == buf[..offset + i] + [data[i]];
      assert data[..i + 1] == data[..i] + [data[i]];
    }
    assert data[..|data|] == data;
    next := offset + |data|;
  }

  method PutHeader(buf: array<byte>, w: Wire) returns (next: nat)
    requires w.Valid() && ENTRY_SIZE <= buf.Length
    modifies buf
    ensures next == 25 && buf[..next] == Header(w)
    ensures forall i :: next <= i < buf.Length ==> buf[i] == old(buf[i])
  {
    next := Put(buf, 0, w.ts);
    next := Put(buf, next, w.pid);
    next := Put(buf, next, w.tid);
    next := Put(buf, next, [w.level]);
    next := Put(buf, next, w.line);
  }

  /** With too small a buffer nothing is written and `outLen` keeps its value. */
  method Serialize(entry: Entry, buf: array<byte>, outLenIn: nat) returns (outLen: nat)
    requires entry.Valid()
    modifies buf
    ensures buf.Length < ENTRY_SIZE ==> outLen == outLenIn && buf[..] == old(buf[..])
    ensures buf.Length >= ENTRY_SIZE ==> outLen == ENTRY_SIZE && buf[..ENTRY_SIZE] == Encode(entry)
    ensures forall i :: ENTRY_SIZE <= i < buf.Length ==> buf[i] == old(buf[i])
  {
    if buf.Length < ENTRY_SIZE {
      return outLenIn;
    }
    var w := ToWire(entry);
    var offset := PutHeader(buf, w);
    offset := Put(buf, offset, w.tag);
    offset := Put(buf, offset, w.file);
    offset := Put(buf, offset, w.msg);
    assert Header(w) + w.tag + w.file + w.msg == Join(w);
    return offset;
  }

  // ---------- Reading back what was written ----------

  lemma Big64Inverse(x: bv64)
    ensures Decode64(Big64(x)) == x
  {
  }

  lemma Big32Inverse(x: bv32)
    ensures Decode32(Big32(x)) == x
  {
  }

  lemma SignExtendInverse(x: bv32)
    ensures (SignExtend(x) & 0xFFFF_FFFF) as bv32 == x
  {
  }

  /** The decoder's timestamp is right exactly when bits 8 to 47 are zero. */
  lemma TimestampIff(ts: bv64)
    ensures DecodeTs(Big64(ts)) == ts <==> ts & 0x0000_FFFF_FFFF_FF00 == 0
  {
  }

  lemma LevelInverse(x: bv32)
    ensures Octet32(x) as bv32 == x <==> x < 256
  {
  }

  /** Forcing the last character to NUL keeps the text exactly when there was a NUL already. */
  lemma {:induction false} TerminatedText(s: seq<byte>)
    requires s != []
    ensures CString(Terminated(s)) == CString(s) <==> 0 in s
    ensures 0 !in s ==> |CString(s)| == |s|
    decreases |s|
  {
    if s[0] != 0 && |s| > 1 {
      TerminatedText(s[1..]);
      assert Terminated(s)[1..] == Terminated(s[1..]);
      assert CString(Terminated(s))[1..] == CString(Terminated(s[1..]));
      assert CString(s)[1..] == CString(s[1..]);
      assert s == [s[0]] + s[1..];
    } else if s[0] != 0 {
      assert Terminated(s)[0] == 0;
    }
  }

  lemma SplitJoin(w: Wire)
    requires w.Valid()
    ensures Split(Join(w)) == w
  {
    var b, h := Join(w), Header(w);
    assert h[..8] == w.ts && h[8..16] == w.pid && h[16..20] == w.tid && h[20] == w.level && h[21..25] == w.line;
    assert b[..8] == h[..8] && b[8..16] == h[8..16] && b[16..20] == h[16..20] && b[20] == h[20] && b[21..25] == h[21..25];
    assert b[25..57] == w.tag && b[57..121] == w.file && b[121..377] == w.msg;
  }

  lemma DecodeEncode(e: Entry)
    requires e.Valid()
    ensures Deserialize(Encode(e)) == Success(FromWire(ToWire(e)))
  {
    var w := ToWire(e);
    assert Join(w)[..ENTRY_SIZE] == Join(w);
    SplitJoin(w);
  }

  lemma PidInverse(x: bv32)
    ensures (Decode64(Big64(SignExtend(x))) & 0xFFFF_FFFF) as bv32 == x
  {
    Big64Inverse(SignExtend(x));
    SignExtendInverse(x);
  }

  /** Decoding an encoded entry: every field, and exactly when each is restored. */
  lemma RoundTrip(e: Entry)
    requires e.Valid()
    ensures Deserialize(Encode(e)).Success?
    ensures var d := Deserialize(Encode(e)).entry;
      && d.pid == e.pid && d.tid == e.tid && d.line == e.line && d.enabled
      && (d.level == e.level <==> e.level < 256)
      && (d.ts == e.ts <==> e.ts & 0x0000_FFFF_FFFF_FF00 == 0)
      && (CString(d.tag) == CString(e.tag) <==> 0 in e.tag)
      && (CString(d.file) == CString(e.file) <==> 0 in e.file)
      && (CString(d.msg) == CString(e.msg) <==> 0 in e.msg)
      && d.msgLen == |CString(d.msg)| < MSG_MAX_LEN
  {
    DecodeEncode(e);
    Numbers(e);
    Texts(e);
  }

  lemma Numbers(e: Entry)
    requires e.Valid()
    ensures var d := FromWire(ToWire(e));
      && d.pid == e.pid && d.tid == e.tid && d.line == e.line
      && (d.level == e.level <==> e.level < 256)
      && (d.ts == e.ts <==> e.ts & 0x0000_FFFF_FFFF_FF00 == 0)
  {
    PidInverse(e.pid);
    Big32Inverse(e.tid);
    Big32Inverse(e.line);
    LevelInverse(e.level);
    TimestampIff(e.ts);
  }

  lemma Texts(e: Entry)
    requires e.Valid()
    ensures var d := FromWire(ToWire(e));
      && (CString(d.tag) == CString(e.tag) <==> 0 in e.tag)
      && (CString(d.file) == CString(e.file) <==> 0 in e.file)
      && (CString(d.msg) == CString(e.msg) <==> 0 in e.msg)
      && d.msgLen == |CString(d.msg)| < MSG_MAX_LEN
  {
    TerminatedText(e.tag);
    TerminatedText(e.file);
    TerminatedText(e.msg);
    assert Terminated(e.msg)[MSG_MAX_LEN - 1] == 0;
    TextFits(Terminated(e.msg));
  }

  lemma {:induction false} TextFits(s: seq<byte>)
    requires 0 in s
    ensures |CString(s)| < |s|
    decreases |s|
  {
    if s[0] != 0 {
      TextFits(s[1..]);
    }
  }

  // ---------- The bytes on the wire ----------

  /** The number that four bytes spell, most significant first; and eight. */
  function Word4(b: seq<byte>): bv64
    requires |b| == 4
  {
    ((((((b[0] as bv64) << 8) | (b[1] as bv64)) << 8) | (b[2] as bv64)) << 8) | (b[3] as bv64)
  }

  function Word8(b: seq<byte>): bv64
    requires |b| == 8
  {
    (Word4(b[..4]) << 32) | Word4(b[4..])
  }

  /** Big32 and Big64 write a number most significant byte first. */
  lemma Big32Spells(x: bv32)
    ensures Word4(Big32(x)) == x as bv64
  {
  }

  lemma Big64Spells(x: bv64)
    ensures Word8(Big64(x)) == x
  {
  }

  lemma SignFills(x: bv32)
    ensures SignExtend(x) >> 32 == (if x >= 0x8000_0000 then 0xFFFF_FFFF else 0)
    ensures SignExtend(x) & 0xFFFF_FFFF == x as bv64
  {
  }

  /** A pid goes out as 64 bits, the sign filling the upper half. */
  lemma PidSpells(x: bv32)
    ensures Word8(Big64(SignExtend(x))) >> 32 == (if x >= 0x8000_0000 then 0xFFFF_FFFF else 0)
    ensures Word8(Big64(SignExtend(x))) & 0xFFFF_FFFF == x as bv64
  {
    Big64Spells(SignExtend(x));
    SignFills(x);
  }

  /** What lies where in an encoded entry. */
  lemma WireLayout(e: Entry)
    requires e.Valid()
    ensures var b := Encode(e);
      && b[0..8] == Big64(e.ts) && b[8..16] == Big64(SignExtend(e.pid)) && b[16..20] == Big32(e.tid)
      && b[20] == Octet32(e.level) && b[21..25] == Big32(e.line)
      && b[25..57] == e.tag && b[57..121] == e.file && b[121..377] == e.msg
  {
    SplitJoin(ToWire(e));
  }

  lemma TsSpelled(b: seq<byte>)
    requires |b| == 8
    ensures Big64(DecodeTs(b)) == [b[0], b[1] | b[2], b[3] | b[4], b[5] | b[6], 0, 0, 0, b[7]]
  {
  }

  lemma Big32OfDecode(b: seq<byte>)
    requires |b| == 4
    ensures Big32(Decode32(b)) == b
  {
  }

  lemma PidOfDecode(b: seq<byte>)
    requires |b| == 8
    ensures Big32((Decode64(b) & 0xFFFF_FFFF) as bv32) == b[4..]
  {
  }

  /** The text is the field with its last character replaced by NUL. */
  predicate TextOf(text: seq<byte>, field: seq<byte>) {
    |text| == |field| > 0 && text[..|text| - 1] == field[..|text| - 1] && text[|text| - 1] == 0
  }

  /** What the decoder makes of any frame, whoever wrote it. */
  lemma DecodeLayout(b: seq<byte>)
    requires |b| == ENTRY_SIZE
    ensures var d := FromWire(Split(b));
      && Big64(d.ts) == [b[0], b[1] | b[2], b[3] | b[4], b[5] | b[6], 0, 0, 0, b[7]]
      && Big32(d.pid) == b[12..16] && Big32(d.tid) == b[16..20] && Big32(d.line) == b[21..25]
      && d.level == b[20] as bv32
      && TextOf(d.tag, b[25..57]) && TextOf(d.file, b[57..121]) && TextOf(d.msg, b[121..377])
      && d.msgLen == |CString(d.msg)| && d.enabled
  {
    TsSpelled(b[..8]);
    PidOfDecode(b[8..16]);
    assert b[8..16][4..] == b[12..16];
    Big32OfDecode(b[16..20]);
    Big32OfDecode(b[21..25]);
  }
}
