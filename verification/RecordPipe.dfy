/** The byte pipes of lua/coroutine as queues of records: fixed-size C structs of ints, written
    atomically by any number of writers and read by one reader in pieces of any size. */
module RecordPipe {
  import opened Machine
  import opened PipeIo

  /** A C struct of ints: one word for a request or a result, two for ServiceReq and ServiceResp. */
  type Record = seq<int32>

  function Pow256(n: nat): nat {
    if n == 0 then 1 else 256 * Pow256(n - 1)
  }

  /** The low `n` bytes of an unsigned number, least significant first. */
  function EncodeBytes(u: nat, n: nat): (b: seq<byte>)
    ensures |b| == n
    decreases n, u
  {
    if n == 0 then [] else [(u % 256) as byte] + EncodeBytes(u / 256, n - 1)
  }

  function DecodeBytes(b: seq<byte>): nat {
    if b == [] then 0 else b[0] as int + 256 * DecodeBytes(b[1..])
  }

  lemma {:induction false} BytesRoundTrip(u: nat, n: nat)
    requires u < Pow256(n)
    ensures DecodeBytes(EncodeBytes(u, n)) == u
  {
    if n > 0 { BytesRoundTrip(u / 256, n - 1); }
  }

  /** An int in memory: four bytes, two's complement. */
  function EncodeInt(x: int32): (b: seq<byte>)
    ensures |b| == 4
  {
    EncodeBytes(if x < 0 then x as int + 0x1_0000_0000 else x as int, 4)
  }

  function DecodeInt(b: seq<byte>): int32 {
    var u := DecodeBytes(b) % 0x1_0000_0000;
    if u < 0x8000_0000 then u as int32 else (u - 0x1_0000_0000) as int32
  }

  function Encode(r: Record): (b: seq<byte>)
    ensures |b| == 4 * |r|
  {
    if r == [] then [] else EncodeInt(r[0]) + Encode(r[1..])
  }

  function Decode(b: seq<byte>): (r: Record)
    requires |b| % 4 == 0
    ensures 4 * |r| == |b|
  {
    if b == [] then [] else [DecodeInt(b[..4])] + Decode(b[4..])
  }

  lemma IntRoundTrip(x: int32)
    ensures DecodeInt(EncodeInt(x)) == x
  {
    assert Pow256(4) == 256 * 256 * Pow256(2) == 0x1_0000_0000;
    BytesRoundTrip(if x < 0 then x as int + 0x1_0000_0000 else x as int, 4);
  }

  /** Four bytes, the lowest first, negative numbers in two's complement. */
  lemma IntLayout()
    ensures EncodeInt(0x01020304) == [4, 3, 2, 1] && EncodeInt(-1) == [255, 255, 255, 255] && EncodeInt(-2) == [254, 255, 255, 255]
  {
    assert EncodeBytes(0x01, 1) == [1] && EncodeBytes(0x0102, 2) == [2, 1] && EncodeBytes(0x010203, 3) == [3, 2, 1];
    assert EncodeBytes(0xFF, 1) == [255] && EncodeBytes(0xFFFF, 2) == [255, 255] && EncodeBytes(0xFF_FFFF, 3) == [255, 255, 255];
  }

  lemma {:induction false} RecordRoundTrip(r: Record)
    ensures Decode(Encode(r)) == r
  {
    if r != [] {
      var b := Encode(r);
      IntRoundTrip(r[0]);
      RecordRoundTrip(r[1..]);
      assert b[..4] == EncodeInt(r[0]) && b[4..] == Encode(r[1..]);
    }
  }

  function EncodeAll(rs: seq<Record>): seq<byte> {
    if rs == [] then [] else Encode(rs[0]) + EncodeAll(rs[1..])
  }

  lemma {:induction false} EncodeAllConcat(rs: seq<Record>, ts: seq<Record>)
    ensures EncodeAll(rs + ts) == EncodeAll(rs) + EncodeAll(ts)
  {
    if rs == [] {
      assert rs + ts == ts;
    } else {
      assert (rs + ts)[1..] == rs[1..] + ts;
      EncodeAllConcat(rs[1..], ts);
    }
  }

  /** Wherever the bytes of a queue of records are cut after one record's length, the front decodes to
      the first record and the rest is the rest of the queue. */
  lemma CutFirstRecord(got: seq<byte>, rest: seq<byte>, queue: seq<Record>)
    requires queue != [] && |got| == 4 * |queue[0]| && got + rest == EncodeAll(queue)
    ensures Decode(got) == queue[0] && rest == EncodeAll(queue[1..])
  {
    var all := got + rest;
    assert got == all[..|got|] == Encode(queue[0]);
    assert rest == all[|got|..] == EncodeAll(queue[1..]);
    RecordRoundTrip(queue[0]);
  }

  /** ReadPipe on such a stream: a successful call with the record's size returns exactly the oldest
      record, however the read() calls split it, and leaves the later ones whole. */
  lemma ReadPipeTakesRecord(rs: seq<ReadResult>, rest: seq<byte>, queue: seq<Record>)
    requires queue != [] && ReadTrace(rs, 4 * |queue[0]|)
    requires !ReadRun(rs).failed && |ReadRun(rs).got| == 4 * |queue[0]|
    requires ReadRun(rs).got + rest == EncodeAll(queue)
    ensures Received(rs) == Encode(queue[0]) && Decode(ReadRun(rs).got) == queue[0]
    ensures rest == EncodeAll(queue[1..])
  {
    CutFirstRecord(ReadRun(rs).got, rest, queue);
    ReadFailsIff(rs, 4 * |queue[0]|);
    assert ReadRun(rs).got == EncodeAll(queue)[..4 * |queue[0]|];
  }

  lemma {:induction false} Join(a: Record, b: Record)
    ensures Encode(a + b) == Encode(a) + Encode(b)
  {
    if a == [] {
      assert a + b == b;
    } else {
      assert (a + b)[1..] == a[1..] + b;
      Join(a[1..], b);
    }
  }

  /** How many ints of an array WritePipe offers in one chunk. */
  function ChunkWords(left: nat): (k: nat)
    ensures k <= left && 4 * k == Chunk(4 * left)
  {
    if left < 1024 then left else 1024
  }

  // ---------- the channel as a step system ----------

  /** A pipe of `width`-word records, the reader's partly filled record, and the history of both ends. */
  datatype Channel = Channel(width: nat, pipe: seq<byte>, part: seq<byte>, written: seq<Record>, taken: seq<Record>)

  /** An atomic write of some records by some writer; one read() of `k` bytes by the reader, which asks
      only for what its record still lacks; the return of ReadPipe with a full record. */
  datatype Event = Append(rs: seq<Record>) | Take(k: nat) | Deliver

  function Fresh(width: nat): Channel {
    Channel(width, [], [], [], [])
  }

  /** The channel after an atomic write. */
  function Written(c: Channel, rs: seq<Record>): Channel {
    c.(pipe := c.pipe + EncodeAll(rs), written := c.written + rs)
  }

  predicate Enabled(c: Channel, e: Event) {
    match e
    case Append(rs) => |EncodeAll(rs)| <= PIPE_ATOMIC_SIZE && forall i :: 0 <= i < |rs| ==> |rs[i]| == c.width
    case Take(k) => 0 < k <= |c.pipe| && k <= 4 * c.width - |c.part|
    case Deliver => |c.part| == 4 * c.width > 0
  }

  function Next(c: Channel, e: Event): Channel
    requires Enabled(c, e)
  {
    match e
    case Append(rs) => Written(c, rs)
    case Take(k) => c.(part := c.part + c.pipe[..k], pipe := c.pipe[k..])
    case Deliver => c.(taken := c.taken + [Decode(c.part)], part := [])
  }

  predicate Legal(c: Channel, es: seq<Event>)
    decreases |es|
  {
    es == [] || (Enabled(c, es[0]) && Legal(Next(c, es[0]), es[1..]))
  }

  function Run(c: Channel, es: seq<Event>): Channel
    requires Legal(c, es)
    decreases |es|
  {
    if es == [] then c else Run(Next(c, es[0]), es[1..])
  }

  /** The records written and not yet delivered. */
  function Queue(c: Channel): seq<Record>
    requires |c.taken| <= |c.written|
  {
    c.written[|c.taken|..]
  }

  /** Partly read bytes and pipe together are always whole records, and they are the undelivered ones. */
  ghost predicate Framed(c: Channel) {
    && |c.taken| <= |c.written| && c.taken == c.written[..|c.taken|]
    && c.part + c.pipe == EncodeAll(Queue(c))
    && |c.part| <= 4 * c.width
    && forall i :: 0 <= i < |c.written| ==> |c.written[i]| == c.width
  }

  lemma AppendEnqueues(c: Channel, rs: seq<Record>)
    requires Framed(c) && Enabled(c, Append(rs))
    ensures var d := Next(c, Append(rs)); Framed(d) && Queue(d) == Queue(c) + rs
  {
    var q, d := Queue(c), Next(c, Append(rs));
    EncodeAllConcat(q, rs);
    assert Queue(d) == q + rs;
    assert d.part + d.pipe == (c.part + c.pipe) + EncodeAll(rs);
  }

  lemma DeliverDequeues(c: Channel)
    requires Framed(c) && Enabled(c, Deliver)
    ensures Queue(c) != []
    ensures var d := Next(c, Deliver);
      Framed(d) && Queue(d) == Queue(c)[1..] && d.taken == c.taken + [Queue(c)[0]]
  {
    var q, d := Queue(c), Next(c, Deliver);
    CutFirstRecord(c.part, c.pipe, q);
    assert c.written == c.taken + q;
    assert Queue(d) == q[1..];
    assert d.part + d.pipe == c.pipe;
  }

  /** Every byte-level step is a step of the record queue: writes enqueue, single reads change nothing,
      and the end of a ReadPipe dequeues the oldest record. */
  lemma StepRefinesQueue(c: Channel, e: Event)
    requires Framed(c) && Enabled(c, e)
    ensures var d := Next(c, e);
      && Framed(d)
      && match e
         case Append(rs) => Queue(d) == Queue(c) + rs && d.taken == c.taken
         case Take(_) => Queue(d) == Queue(c) && d.taken == c.taken
         case Deliver => Queue(c) != [] && Queue(d) == Queue(c)[1..] && d.taken == c.taken + [Queue(c)[0]]
  {
    match e {
      case Append(rs) => AppendEnqueues(c, rs);
      case Take(k) => assert Next(c, e).part + Next(c, e).pipe == c.part + c.pipe;
      case Deliver => DeliverDequeues(c);
    }
  }

  /** Over every run, by whatever writers and in whatever pieces: what the reader got is a prefix, in
      order, of the records written, and nothing else is in the pipe than the records still to come. */
  lemma {:induction false} BytesRefineRecords(c: Channel, es: seq<Event>)
    requires Framed(c) && Legal(c, es)
    ensures Framed(Run(c, es)) && Run(c, es).width == c.width
    ensures c.written <= Run(c, es).written && c.taken <= Run(c, es).taken <= Run(c, es).written
    decreases |es|
  {
    if es != [] {
      StepRefinesQueue(c, es[0]);
      BytesRefineRecords(Next(c, es[0]), es[1..]);
    }
  }

  /** So from an empty pipe on, at every moment: what the reader has is a prefix of what was written, and
      its partly filled record together with the pipe is the bytes of the rest. */
  lemma FreshPipeRuns(width: nat, es: seq<Event>)
    requires Legal(Fresh(width), es)
    ensures var c := Run(Fresh(width), es);
      c.taken <= c.written && c.part + c.pipe == EncodeAll(c.written[|c.taken|..])
  {
    BytesRefineRecords(Fresh(width), es);
  }

  /** A WritePipe call, in the intended form, that sends some records and returns 0 is one Append of them. */
  lemma WritePipeAppends(ts: seq<WriteResult>, rs: seq<Record>, c: Channel)
    requires Enabled(c, Append(rs)) && WriteTrace(ts, EncodeAll(rs), Intended)
    requires var l := WriteRun(ts, EncodeAll(rs), Intended); !l.failed && l.total == |EncodeAll(rs)|
    ensures c.pipe + WriteRun(ts, EncodeAll(rs), Intended).sent == Next(c, Append(rs)).pipe
    ensures forall i :: 0 <= i < |ts| - 1 ==> ts[i] == WriteAgain
  {
    ShortMessage(ts, EncodeAll(rs));
    IntendedLosesNothing(ts, EncodeAll(rs));
  }

  /** Ints of an array, each a record of its own. */
  function Singles(words: Record): (rs: seq<Record>)
    ensures |rs| == |words| && forall i :: 0 <= i < |rs| ==> rs[i] == [words[i]]
  {
    seq(|words|, i requires 0 <= i < |words| => [words[i]])
  }

  lemma {:induction false} EncodeSingles(words: Record)
    ensures EncodeAll(Singles(words)) == Encode(words)
  {
    if words != [] {
      EncodeSingles(words[1..]);
      assert Singles(words)[1..] == Singles(words[1..]);
      assert Encode([words[0]]) == EncodeInt(words[0]);
    }
  }

  lemma Middle(all: seq<byte>, x: seq<byte>, y: seq<byte>, z: seq<byte>)
    requires all == x + (y + z)
    ensures all[|x|..|x| + |y|] == y
  {
  }

  lemma SliceEncodes(a: Record, b: Record, c: Record)
    ensures Encode(a + (b + c))[4 * |a|..4 * |a| + 4 * |b|] == Encode(b)
  {
    Join(a, b + c);
    Join(b, c);
    Middle(Encode(a + (b + c)), Encode(a), Encode(b), Encode(c));
  }

  lemma PieceOfInts(words: Record, off: nat, n: nat)
    requires off + n <= |words|
    ensures 4 * off + 4 * n <= |Encode(words)|
    ensures Encode(words)[4 * off..4 * off + 4 * n] == EncodeAll(Singles(words[off..off + n]))
  {
    var a, b, c := words[..off], words[off..off + n], words[off + n..];
    assert words == a + (b + c);
    SliceEncodes(a, b, c);
    EncodeSingles(b);
  }

  /** The chunk that WritePipe offers from position `off` of an array of ints is an Append of whole ints. */
  lemma ChunkAppends(words: Record, off: nat)
    requires off < |words|
    ensures 4 * ChunkWords(|words| - off) == Chunk(|Encode(words)| - 4 * off)
    ensures var n := ChunkWords(|words| - off);
      Encode(words)[4 * off..4 * off + 4 * n] == EncodeAll(Singles(words[off..off + n]))
      && Enabled(Fresh(1), Append(Singles(words[off..off + n])))
  {
    var n := ChunkWords(|words| - off);
    PieceOfInts(words, off, n);
    SinglesEnabled(words[off..off + n]);
  }

  lemma SinglesEnabled(words: Record)
    requires |words| <= 1024
    ensures Enabled(Fresh(1), Append(Singles(words)))
  {
    EncodeSingles(words);
  }
}
