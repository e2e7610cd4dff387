/** ReadPipe and WritePipe of lua/coroutine/lib_src/pipeop.c over a pipe whose system calls may come
    back short, with EAGAIN, at end of file or with another error. */
module PipeIo {
  import opened Machine

  const MAX_WRITE_TRY_TIMES := 10
  const MAX_READ_TRY_TIMES := 10
  const PIPE_ATOMIC_SIZE := 4096

  // ---------- reading ----------

  datatype ReadResult = Data(bytes: seq<byte>) | ReadAgain | EndOfFile | ReadError

  /** The read end of a pipe. `stream` is everything the writers put in, now or later, that has not
      been read; `log` records what each read() returned. */
  class ReadEnd {
    var stream: seq<byte>
    ghost var log: seq<ReadResult>

    constructor (stream: seq<byte>)
      ensures this.stream == stream && log == []
    {
      this.stream, this.log := stream, [];
    }

    /** read(): a non-empty piece of at most `len` bytes, or a failure that takes nothing. */
    method Read(len: nat) returns (r: ReadResult)
      requires len > 0
      modifies this
      ensures log == old(log) + [r]
      ensures if r.Data? then 0 < |r.bytes| <= len && r.bytes + stream == old(stream) else stream == old(stream)
    {
      if * {
        r := ReadAgain;
      } else if * {
        r := EndOfFile;
      } else if stream == [] {
        r := ReadError;
      } else if * {
        r := ReadError;
      } else {
        var k: nat :| 0 < k <= len && k <= |stream|;
        r := Data(stream[..k]);
        stream := stream[k..];
      }
      log := log + [r];
    }
  }

  /** The variables of the read loop: the bytes stored so far, the retries left, whether it gave up. */
  datatype ReadLoop = ReadLoop(got: seq<byte>, maxTry: nat, failed: bool)

  function AfterRead(l: ReadLoop, r: ReadResult): ReadLoop {
    match r
    case Data(bytes) => l.(got := l.got + bytes)
    case ReadAgain => if l.maxTry > 0 then l.(maxTry := l.maxTry - 1) else l.(failed := true)
    case EndOfFile => l.(failed := true)
    case ReadError => l.(failed := true)
  }

  /** The loop after the results `rs` of its read() calls. */
  function ReadRun(rs: seq<ReadResult>): ReadLoop {
    if rs == [] then ReadLoop([], MAX_READ_TRY_TIMES, false)
    else AfterRead(ReadRun(rs[..|rs| - 1]), rs[|rs| - 1])
  }

  /** Results the loop can see when it wants `len` bytes: each comes to a loop that is still running and
      is no longer than what is missing. */
  predicate ReadTrace(rs: seq<ReadResult>, len: nat) {
    rs == [] ||
    var l, r := ReadRun(rs[..|rs| - 1]), rs[|rs| - 1];
    ReadTrace(rs[..|rs| - 1], len) && !l.failed && |l.got| < len && (r.Data? ==> 0 < |r.bytes| <= len - |l.got|)
  }

  lemma ReadExtends(rs: seq<ReadResult>, r: ReadResult, len: nat)
    requires ReadTrace(rs, len) && !ReadRun(rs).failed && |ReadRun(rs).got| < len
    requires r.Data? ==> 0 < |r.bytes| <= len - |ReadRun(rs).got|
    ensures ReadTrace(rs + [r], len) && ReadRun(rs + [r]) == AfterRead(ReadRun(rs), r)
  {
    assert (rs + [r])[..|rs|] == rs;
  }

  /** All bytes a sequence of read() results delivered, in order. */
  function Received(rs: seq<ReadResult>): seq<byte> {
    if rs == [] then []
    else Received(rs[..|rs| - 1]) + if rs[|rs| - 1].Data? then rs[|rs| - 1].bytes else []
  }

  function ReadAgains(rs: seq<ReadResult>): nat {
    if rs == [] then 0 else ReadAgains(rs[..|rs| - 1]) + if rs[|rs| - 1].ReadAgain? then 1 else 0
  }

  /** What arrived is what is stored, and the loop gives up exactly on an error, an end of file, or one
      EAGAIN more than it has retries. */
  lemma {:induction false} ReadFailsIff(rs: seq<ReadResult>, len: nat)
    requires ReadTrace(rs, len)
    ensures var l := ReadRun(rs);
      && l.got == Received(rs) && |l.got| <= len
      && (l.failed <==> EndOfFile in rs || ReadError in rs || ReadAgains(rs) > 10)
      && (!l.failed ==> l.maxTry == 10 - ReadAgains(rs))
  {
    if rs != [] {
      var before, r := rs[..|rs| - 1], rs[|rs| - 1];
      ReadFailsIff(before, len);
      assert rs == before + [r];
    }
  }

  lemma {:induction false} OnlyReadAgains(n: nat, len: nat)
    requires n <= 11 && len > 0
    ensures var rs := seq(n, _ => ReadAgain);
      ReadTrace(rs, len) && ReadRun(rs) == ReadLoop([], if n <= 10 then 10 - n else 0, n == 11)
  {
    if n > 0 {
      OnlyReadAgains(n - 1, len);
      var before := seq(n - 1, _ => ReadAgain);
      ReadExtends(before, ReadAgain, len);
      assert before + [ReadAgain] == seq(n, _ => ReadAgain);
    }
  }

  /** Ten EAGAINs are survived, the eleventh is not. */
  lemma TenRetries(bytes: seq<byte>)
    requires bytes != []
    ensures var rs := seq(10, _ => ReadAgain) + [Data(bytes)];
      ReadTrace(rs, |bytes|) && ReadRun(rs) == ReadLoop(bytes, 0, false)
    ensures var rs := seq(11, _ => ReadAgain);
      ReadTrace(rs, |bytes|) && ReadRun(rs).failed
  {
    OnlyReadAgains(10, |bytes|);
    OnlyReadAgains(11, |bytes|);
    ReadExtends(seq(10, _ => ReadAgain), Data(bytes), |bytes|);
    assert [] + bytes == bytes;
  }

  /** No trace is longer than the bytes wanted and the retries allow: the loop ends. */
  lemma {:induction false} ReadLoopEnds(rs: seq<ReadResult>, len: nat)
    requires ReadTrace(rs, len)
    ensures var l := ReadRun(rs);
      |rs| + l.maxTry <= |l.got| + MAX_READ_TRY_TIMES + (if l.failed then 1 else 0) && |l.got| <= len
  {
    if rs != [] { ReadLoopEnds(rs[..|rs| - 1], len); }
  }

  /** One read() of the loop, straight into the buffer behind what is there. */
  method ReadPiece(fd: ReadEnd, buf: array<byte>, total: nat, len: nat, ghost base: seq<byte>, ghost l: ReadLoop)
    returns (r: ReadResult)
    requires |l.got| == total < len <= buf.Length && buf[..total] == l.got && l.got + fd.stream == base
    modifies fd, buf
    ensures fd.log == old(fd.log) + [r] && (r.Data? ==> 0 < |r.bytes| <= len - total)
    ensures var got := AfterRead(l, r).got;
      buf[..|got|] == got && buf[|got|..] == old(buf[|got|..]) && got + fd.stream == base
  {
    r := fd.Read(len - total);
    if r.Data? {
      forall i | 0 <= i < |r.bytes| {
        buf[total + i] := r.bytes[i];
      }
      assert l.got + (r.bytes + fd.stream) == l.got + r.bytes + fd.stream;
    }
  }

  /** ReadPipe: on 0 the buffer holds exactly the next `len` bytes of the stream; otherwise it holds the
      prefix that arrived before the failure. Nothing is lost, repeated or reordered either way. */
  method ReadPipe(fd: ReadEnd, buf: array<byte>, len: nat) returns (ret: int, ghost rs: seq<ReadResult>)
    requires len <= buf.Length
    modifies fd, buf
    ensures fd.log == old(fd.log) + rs && ReadTrace(rs, len)
    ensures var got := ReadRun(rs).got;
      && ret == (if ReadRun(rs).failed then -1 else 0)
      && |got| <= len && (ret == 0 ==> |got| == len)
      && buf[..|got|] == got && buf[|got|..] == old(buf[|got|..])
      && got + fd.stream == old(fd.stream)
  {
    rs := [];
    var maxTry: nat := MAX_READ_TRY_TIMES;
    var total: nat := 0;
    ghost var l, base := ReadLoop([], MAX_READ_TRY_TIMES, false), fd.stream;
    while total < len
      invariant fd.log == old(fd.log) + rs && ReadTrace(rs, len) && ReadRun(rs) == l
      invariant |l.got| == total <= len && l.maxTry == maxTry && !l.failed
      invariant buf[..total] == l.got && buf[total..] == old(buf[total..]) && l.got + fd.stream == base
      decreases len - total + maxTry
    {
      var r := ReadPiece(fd, buf, total, len, base, l);
      ReadExtends(rs, r, len);
      assert old(fd.log) + rs + [r] == old(fd.log) + (rs + [r]);
      rs, l := rs + [r], AfterRead(l, r);
      match r {
        case ReadAgain =>
          if maxTry > 0 {
            maxTry := maxTry - 1;
          } else {
            return -1, rs;
          }
        case ReadError =>
          return -1, rs;
        case EndOfFile =>
          return -1, rs;
        case Data(bytes) =>
          total := total + |bytes|;
      }
    }
    ret := 0;
  }

  // ---------- writing ----------

  datatype WriteResult = Accepted | WriteAgain | WriteError

  /** The write end of a pipe: the bytes the pipe has taken and what each write() returned. */
  class WriteEnd {
    var stream: seq<byte>
    ghost var log: seq<WriteResult>

    constructor ()
      ensures stream == [] && log == []
    {
      stream, log := [], [];
    }

    /** write() of at most PIPE_BUF bytes to a non-blocking pipe: all of them or none. */
    method Write(data: seq<byte>) returns (r: WriteResult)
      requires 0 < |data| <= PIPE_ATOMIC_SIZE
      modifies this
      ensures log == old(log) + [r]
      ensures stream == if r.Accepted? then old(stream) + data else old(stream)
    {
      if * {
        r := WriteAgain;
      } else if * {
        r := WriteError;
      } else {
        r := Accepted;
        stream := stream + data;
      }
      log := log + [r];
    }
  }

  /** The two forms of the loop: as written it advances over a chunk even when the pipe refused it; as
      intended it offers that chunk again. */
  datatype Form = AsWritten | Intended

  function Chunk(left: nat): (n: nat)
    ensures n <= left && n <= PIPE_ATOMIC_SIZE && (left > 0 ==> n > 0)
  {
    if left < PIPE_ATOMIC_SIZE then left else PIPE_ATOMIC_SIZE
  }

  /** The variables of the write loop: what the pipe took, how far it got, the retries left. */
  datatype WriteLoop = WriteLoop(sent: seq<byte>, total: nat, maxTry: nat, failed: bool)

  function AfterWrite(l: WriteLoop, r: WriteResult, buf: seq<byte>, form: Form): (l': WriteLoop)
    requires l.total <= |buf|
    ensures l.total <= l'.total <= |buf|
  {
    var wlen := Chunk(|buf| - l.total);
    match r
    case Accepted => l.(sent := l.sent + buf[l.total..l.total + wlen], total := l.total + wlen)
    case WriteAgain =>
      if l.maxTry == 0 then l.(failed := true)
      else if form.AsWritten? then l.(maxTry := l.maxTry - 1, total := l.total + wlen)
      else l.(maxTry := l.maxTry - 1)
    case WriteError => l.(failed := true)
  }

  /** The loop after the results `rs` of its write() calls. */
  function WriteRun(rs: seq<WriteResult>, buf: seq<byte>, form: Form): (l: WriteLoop)
    ensures l.total <= |buf|
  {
    if rs == [] then WriteLoop([], 0, MAX_WRITE_TRY_TIMES, false)
    else AfterWrite(WriteRun(rs[..|rs| - 1], buf, form), rs[|rs| - 1], buf, form)
  }

  /** Results the loop can see: each comes to a loop that is still running. */
  predicate WriteTrace(rs: seq<WriteResult>, buf: seq<byte>, form: Form) {
    rs == [] ||
    var l := WriteRun(rs[..|rs| - 1], buf, form);
    WriteTrace(rs[..|rs| - 1], buf, form) && !l.failed && l.total < |buf|
  }

  lemma WriteExtends(rs: seq<WriteResult>, r: WriteResult, buf: seq<byte>, form: Form)
    requires WriteTrace(rs, buf, form) && !WriteRun(rs, buf, form).failed && WriteRun(rs, buf, form).total < |buf|
    ensures WriteTrace(rs + [r], buf, form)
    ensures WriteRun(rs + [r], buf, form) == AfterWrite(WriteRun(rs, buf, form), r, buf, form)
  {
    assert (rs + [r])[..|rs|] == rs;
  }

  function WriteAgains(rs: seq<WriteResult>): nat {
    if rs == [] then 0 else WriteAgains(rs[..|rs| - 1]) + if rs[|rs| - 1].WriteAgain? then 1 else 0
  }

  /** Either form gives up exactly on an error or on one EAGAIN more than it has retries. */
  lemma {:induction false} WriteFailsIff(rs: seq<WriteResult>, buf: seq<byte>, form: Form)
    requires WriteTrace(rs, buf, form)
    ensures var l := WriteRun(rs, buf, form);
      && (l.failed <==> WriteError in rs || WriteAgains(rs) > 10)
      && (!l.failed ==> l.maxTry == 10 - WriteAgains(rs))
  {
    if rs != [] {
      var before, r := rs[..|rs| - 1], rs[|rs| - 1];
      WriteFailsIff(before, buf, form);
      assert rs == before + [r];
    }
  }

  /** The intended form keeps "taken by the pipe, then not yet offered" equal to the buffer: 0 means the
      pipe took all of it in order, -1 that it took a prefix. */
  lemma {:induction false} IntendedLosesNothing(rs: seq<WriteResult>, buf: seq<byte>)
    requires WriteTrace(rs, buf, Intended)
    ensures var l := WriteRun(rs, buf, Intended); l.sent == buf[..l.total]
  {
    if rs != [] { IntendedLosesNothing(rs[..|rs| - 1], buf); }
  }

  lemma {:induction false} AgainsCount(rs: seq<WriteResult>)
    ensures WriteAgains(rs) > 0 <==> WriteAgain in rs
  {
    if rs != [] {
      AgainsCount(rs[..|rs| - 1]);
      assert rs == rs[..|rs| - 1] + [rs[|rs| - 1]];
    }
  }

  /** After an EAGAIN the pipe is behind the loop; before, it has what the loop stepped over. */
  ghost predicate Tracks(l: WriteLoop, buf: seq<byte>, again: bool)
    requires l.total <= |buf|
  {
    (l.maxTry == 0 ==> again) && if again then |l.sent| < l.total else l.sent == buf[..l.total]
  }

  lemma AsWrittenStep(l: WriteLoop, r: WriteResult, buf: seq<byte>, again: bool)
    requires l.total < |buf| && Tracks(l, buf, again)
    ensures Tracks(AfterWrite(l, r, buf, AsWritten), buf, again || r.WriteAgain?)
  {
    var wlen := Chunk(|buf| - l.total);
    assert buf[..l.total] + buf[l.total..l.total + wlen] == buf[..l.total + wlen];
  }

  lemma {:induction false} AsWrittenTracks(rs: seq<WriteResult>, buf: seq<byte>)
    requires WriteTrace(rs, buf, AsWritten)
    ensures Tracks(WriteRun(rs, buf, AsWritten), buf, WriteAgains(rs) > 0)
  {
    if rs != [] {
      var before, r := rs[..|rs| - 1], rs[|rs| - 1];
      AsWrittenTracks(before, buf);
      AsWrittenStep(WriteRun(before, buf, AsWritten), r, buf, WriteAgains(before) > 0);
    }
  }

  /** The code as written keeps that equality if and only if no EAGAIN came, whatever it returns: after
      one, the pipe has taken strictly less than the loop has stepped over, for good. */
  lemma AsWrittenLosesIff(rs: seq<WriteResult>, buf: seq<byte>)
    requires WriteTrace(rs, buf, AsWritten)
    ensures var l := WriteRun(rs, buf, AsWritten);
      && (l.sent == buf[..l.total] <==> WriteAgain !in rs)
      && |l.sent| <= l.total && (WriteAgain in rs ==> |l.sent| < l.total)
  {
    AsWrittenTracks(rs, buf);
    AgainsCount(rs);
  }

  lemma SkipThenSend(buf: seq<byte>)
    requires |buf| > 2 * PIPE_ATOMIC_SIZE
    ensures WriteTrace([WriteAgain, Accepted], buf, AsWritten)
    ensures WriteRun([WriteAgain, Accepted], buf, AsWritten) ==
            WriteLoop(buf[PIPE_ATOMIC_SIZE..2 * PIPE_ATOMIC_SIZE], 2 * PIPE_ATOMIC_SIZE, 9, false)
  {
    WriteExtends([], WriteAgain, buf, AsWritten);
    WriteExtends([WriteAgain], Accepted, buf, AsWritten);
    assert [] + [WriteAgain] == [WriteAgain] && [WriteAgain] + [Accepted] == [WriteAgain, Accepted];
  }

  /** So -1 from the code as written does not even mean that a prefix went out. */
  lemma NotEvenAPrefix(buf: seq<byte>)
    requires |buf| > 2 * PIPE_ATOMIC_SIZE && buf[0] != buf[PIPE_ATOMIC_SIZE]
    ensures var rs := [WriteAgain, Accepted] + [WriteError];
      && WriteTrace(rs, buf, AsWritten) && WriteRun(rs, buf, AsWritten).failed
      && WriteRun(rs, buf, AsWritten).sent == buf[PIPE_ATOMIC_SIZE..2 * PIPE_ATOMIC_SIZE]
      && !(WriteRun(rs, buf, AsWritten).sent <= buf)
  {
    SkipThenSend(buf);
    WriteExtends([WriteAgain, Accepted], WriteError, buf, AsWritten);
    assert buf[PIPE_ATOMIC_SIZE..2 * PIPE_ATOMIC_SIZE][0] != buf[0];
  }

  /** Without EAGAIN the two forms are the same loop. */
  lemma {:induction false} FormsAgree(rs: seq<WriteResult>, buf: seq<byte>)
    requires WriteAgain !in rs
    ensures WriteRun(rs, buf, AsWritten) == WriteRun(rs, buf, Intended)
    ensures WriteTrace(rs, buf, AsWritten) <==> WriteTrace(rs, buf, Intended)
  {
    if rs != [] { FormsAgree(rs[..|rs| - 1], buf); }
  }

  lemma RetrySends(buf: seq<byte>)
    requires 0 < |buf| <= PIPE_ATOMIC_SIZE
    ensures WriteTrace([WriteAgain] + [Accepted], buf, Intended)
    ensures WriteRun([WriteAgain] + [Accepted], buf, Intended) == WriteLoop(buf, |buf|, 9, false)
  {
    WriteExtends([], WriteAgain, buf, Intended);
    assert [] + [WriteAgain] == [WriteAgain];
    WriteExtends([WriteAgain], Accepted, buf, Intended);
    assert [] + buf[0..|buf|] == buf;
  }

  /** One EAGAIN on a message of at most PIPE_BUF bytes: the code as written reports it as sent, and
      nothing was; the intended form sends it on the next try. */
  lemma SilentLoss(buf: seq<byte>)
    requires 0 < |buf| <= PIPE_ATOMIC_SIZE
    ensures WriteTrace([WriteAgain], buf, AsWritten)
    ensures WriteRun([WriteAgain], buf, AsWritten) == WriteLoop([], |buf|, 9, false)
    ensures WriteTrace([WriteAgain] + [Accepted], buf, Intended)
    ensures WriteRun([WriteAgain] + [Accepted], buf, Intended) == WriteLoop(buf, |buf|, 9, false)
  {
    WriteExtends([], WriteAgain, buf, AsWritten);
    assert [] + [WriteAgain] == [WriteAgain];
    RetrySends(buf);
  }

  /** A message of at most PIPE_BUF bytes that the intended form reports as sent went out in one piece, by
      the last of its write() calls. */
  lemma {:induction false} ShortMessage(rs: seq<WriteResult>, buf: seq<byte>)
    requires WriteTrace(rs, buf, Intended) && |buf| <= 4096
    ensures var l := WriteRun(rs, buf, Intended);
      && (forall i :: 0 <= i < |rs| - 1 ==> rs[i] == WriteAgain)
      && (l.total == 0 || (l.total == |buf| && rs != [] && rs[|rs| - 1] == Accepted && l.sent == buf))
      && (l.total == 0 && !l.failed && rs != [] ==> rs[|rs| - 1] == WriteAgain)
  {
    if rs != [] {
      ShortMessage(rs[..|rs| - 1], buf);
      IntendedLosesNothing(rs, buf);
      assert buf[..|buf|] == buf;
    }
  }

  /** One write() of the loop. */
  method OfferChunk(fd: WriteEnd, buf: seq<byte>, total: nat, ghost base: seq<byte>, ghost l: WriteLoop, form: Form)
    returns (r: WriteResult)
    requires l.total == total < |buf| && fd.stream == base + l.sent
    modifies fd
    ensures fd.log == old(fd.log) + [r]
    ensures fd.stream == base + AfterWrite(l, r, buf, form).sent
  {
    var wlen := Chunk(|buf| - total);
    var chunk := buf[total..total + wlen];
    r := fd.Write(chunk);
    assert base + l.sent + chunk == base + (l.sent + chunk);
  }

  /** WritePipe in either form; `rs` is what its write() calls returned. */
  method WritePipe(fd: WriteEnd, buf: seq<byte>, form: Form) returns (ret: int, ghost rs: seq<WriteResult>)
    modifies fd
    ensures fd.log == old(fd.log) + rs && WriteTrace(rs, buf, form)
    ensures var l := WriteRun(rs, buf, form);
      && ret == (if l.failed then -1 else 0)
      && (ret == 0 ==> l.total == |buf|)
      && fd.stream == old(fd.stream) + l.sent
  {
    rs := [];
    var maxTry: nat := MAX_WRITE_TRY_TIMES;
    var total: nat := 0;
    ghost var l, base := WriteLoop([], 0, MAX_WRITE_TRY_TIMES, false), fd.stream;
    while total < |buf|
      invariant fd.log == old(fd.log) + rs && WriteTrace(rs, buf, form) && WriteRun(rs, buf, form) == l
      invariant l.total == total <= |buf| && l.maxTry == maxTry && !l.failed
      invariant fd.stream == base + l.sent
      decreases |buf| - total + maxTry
    {
      var wlen := Chunk(|buf| - total);
      var r := OfferChunk(fd, buf, total, base, l, form);
      WriteExtends(rs, r, buf, form);
      assert old(fd.log) + rs + [r] == old(fd.log) + (rs + [r]);
      rs, l := rs + [r], AfterWrite(l, r, buf, form);
      match r {
        case Accepted =>
          total := total + wlen;
        case WriteAgain =>
          if maxTry == 0 {
            return -1, rs;
          }
          maxTry := maxTry - 1;
          if form.AsWritten? {
            total := total + wlen;
          }
        case WriteError =>
          return -1, rs;
      }
    }
    ret := 0;
  }
}
