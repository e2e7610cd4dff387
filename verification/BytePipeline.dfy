/** The pipeline over byte pipes: threads encode what they write, and every read() of a ReadPipe call is a
    step of its own that may come back short and be interleaved with anything. Module Pipeline says what
    the threads do with whole records; here they get one only when its last byte has arrived. */
module BytePipeline {
  import opened Machine
  import opened Entrance
  import opened Pipeline
  import opened PipelineSafety
  import opened PipelineRuns
  import RecordPipe

  type Words = RecordPipe.Record
  type Channel = RecordPipe.Channel

  // ---------- values and records as C ints ----------

  predicate Fits(x: int) {
    -0x8000_0000 <= x < 0x8000_0000
  }

  /** The C assignment of an integer to an int. */
  function Word(x: int): (w: int32)
    ensures Fits(x) ==> w as int == x
  {
    var u := x % 0x1_0000_0000;
    if u < 0x8000_0000 then u as int32 else (u - 0x1_0000_0000) as int32
  }

  function PackValues(vs: seq<int>): (ws: seq<Words>)
    ensures |ws| == |vs| && forall i :: 0 <= i < |ws| ==> |ws[i]| == 1
  {
    seq(|vs|, i requires 0 <= i < |vs| => [Word(vs[i])])
  }

  function PackRecords(rs: seq<Record>): (ws: seq<Words>)
    ensures |ws| == |rs| && forall i :: 0 <= i < |ws| ==> |ws[i]| == 2
  {
    seq(|rs|, i requires 0 <= i < |rs| => [Word(rs[i].value), Word(rs[i].session)])
  }

  function UnpackValue(w: Words): int {
    if |w| == 1 then w[0] as int else 0
  }

  function UnpackRecord(w: Words): Record {
    if |w| == 2 then Record(w[0] as int, w[1] as int) else Record(0, 0)
  }

  function UnpackValues(ws: seq<Words>): (vs: seq<int>)
    ensures |vs| == |ws|
  {
    seq(|ws|, i requires 0 <= i < |ws| => UnpackValue(ws[i]))
  }

  function UnpackRecords(ws: seq<Words>): (rs: seq<Record>)
    ensures |rs| == |ws|
  {
    seq(|ws|, i requires 0 <= i < |ws| => UnpackRecord(ws[i]))
  }

  /** The two fields of ServiceReq and ServiceResp in their order. */
  lemma RecordLayout(value: int32, session: int32)
    ensures PackRecords([Record(value as int, session as int)]) == [[value, session]]
    ensures UnpackRecord([value, session]) == Record(value as int, session as int)
  {
  }

  // ---------- the system ----------

  /** `threads` are the threads with their own variables; its record pipes stay empty. */
  datatype Bytes = Bytes(threads: State, rw: Channel, sw: Channel, sr: Channel, rr: Channel)

  datatype Pipe = Requests | Services | Answers | Results

  function Of(b: Bytes, p: Pipe): Channel {
    match p
    case Requests => b.rw
    case Services => b.sw
    case Answers => b.sr
    case Results => b.rr
  }

  function Start(sent: seq<int>, slots: seq<Record>): Bytes {
    Bytes(Pipeline.Start(sent, slots), RecordPipe.Fresh(1), RecordPipe.Fresh(2), RecordPipe.Fresh(2), RecordPipe.Fresh(1))
  }

  /** The pipe's reader is inside ReadPipe. */
  predicate InReadPipe(s: State, p: Pipe) {
    match p
    case Requests => s.server.Ready? && s.server.req
    case Services => s.inner.Idle?
    case Answers => s.server.Ready? && !s.server.req && s.server.resp
    case Results => s.client.Reading? && s.client.i < |s.buf|
  }

  /** The pipe's writers have closed it. */
  predicate Closed(s: State, p: Pipe) {
    match p
    case Requests => s.client.ClientEnd?
    case Services => s.server.ServerEnd?
    case Answers => s.inner.InnerEnd?
    case Results => s.server.ServerEnd?
  }

  /** ReadPipe returns when its record is full, or at the end of file. */
  predicate Full(c: Channel) {
    |c.part| == 4 * c.width > 0
  }

  predicate ReadDone(c: Channel, closed: bool) {
    Full(c) || (c.pipe == [] && closed)
  }

  /** The record a ReadPipe call returns, if any, and the channel it leaves. */
  function Received(reading: bool, c: Channel): seq<Words> {
    if reading && Full(c) then [RecordPipe.Decode(c.part)] else []
  }

  function Left(reading: bool, c: Channel): Channel {
    if reading && Full(c) then RecordPipe.Next(c, RecordPipe.Deliver) else c
  }

  function Emptied(s: State): State {
    s.(rwch := [], swch := [], srch := [], rrch := [])
  }

  function ClientMove(b: Bytes): Bytes {
    var t := ClientNext(b.threads.(rrch := UnpackValues(Received(InReadPipe(b.threads, Results), b.rr))));
    b.(threads := Emptied(t), rr := Left(InReadPipe(b.threads, Results), b.rr), rw := RecordPipe.Written(b.rw, PackValues(t.rwch)))
  }

  /** select() looks at the bytes in the pipes. */
  function SelectMove(b: Bytes): Bytes {
    var req := b.rw.pipe != [] || Closed(b.threads, Requests);
    var resp := b.sr.pipe != [] || Closed(b.threads, Answers);
    b.(threads := b.threads.(server := Ready(req, resp)))
  }

  function ServerMove(b: Bytes): Bytes {
    if b.threads.server.Select? then SelectMove(b)
    else
      var t := ServerNext(b.threads.(rwch := UnpackValues(Received(InReadPipe(b.threads, Requests), b.rw)), srch := UnpackRecords(Received(InReadPipe(b.threads, Answers), b.sr))));
      Bytes(Emptied(t), Left(InReadPipe(b.threads, Requests), b.rw), RecordPipe.Written(b.sw, PackRecords(t.swch)), Left(InReadPipe(b.threads, Answers), b.sr),
            RecordPipe.Written(b.rr, PackValues(t.rrch)))
  }

  function InnerMove(b: Bytes, createFails: bool): Bytes {
    var t := InnerNext(b.threads.(swch := UnpackRecords(Received(InReadPipe(b.threads, Services), b.sw))), createFails);
    b.(threads := Emptied(t), sw := Left(InReadPipe(b.threads, Services), b.sw), sr := RecordPipe.Written(b.sr, PackRecords(t.srch)))
  }

  function WorkMove(b: Bytes, k: nat): Bytes
    requires WorkEnabled(b.threads, k)
  {
    var t := WorkNext(b.threads, k);
    b.(threads := Emptied(t), sr := RecordPipe.Written(b.sr, PackRecords(t.srch)))
  }

  /** One read() of `k` bytes, or one step of a thread as before. */
  datatype Move = Read(p: Pipe, k: nat) | Step(a: Action)

  predicate CanMove(b: Bytes, m: Move) {
    match m
    case Read(p, k) => InReadPipe(b.threads, p) && RecordPipe.Enabled(Of(b, p), RecordPipe.Take(k))
    case Step(Client) => if InReadPipe(b.threads, Results) then ReadDone(b.rr, Closed(b.threads, Results)) else !b.threads.client.ClientEnd?
    case Step(Server) =>
      if b.threads.server.Select? then
        b.rw.pipe != [] || b.sr.pipe != [] || Closed(b.threads, Requests) || Closed(b.threads, Answers)
      else if InReadPipe(b.threads, Requests) then ReadDone(b.rw, Closed(b.threads, Requests))
      else if InReadPipe(b.threads, Answers) then ReadDone(b.sr, Closed(b.threads, Answers))
      else !b.threads.server.ServerEnd?
    case Step(Inner(_)) => if InReadPipe(b.threads, Services) then ReadDone(b.sw, Closed(b.threads, Services)) else !b.threads.inner.InnerEnd?
    case Step(Work(k)) => WorkEnabled(b.threads, k)
  }

  function ReadMove(b: Bytes, p: Pipe, k: nat): Bytes
    requires RecordPipe.Enabled(Of(b, p), RecordPipe.Take(k))
  {
    var c := RecordPipe.Next(Of(b, p), RecordPipe.Take(k));
    match p
    case Requests => b.(rw := c)
    case Services => b.(sw := c)
    case Answers => b.(sr := c)
    case Results => b.(rr := c)
  }

  function Make(b: Bytes, m: Move): Bytes
    requires CanMove(b, m)
  {
    match m
    case Read(p, k) => ReadMove(b, p, k)
    case Step(Client) => ClientMove(b)
    case Step(Server) => ServerMove(b)
    case Step(Inner(createFails)) => InnerMove(b, createFails)
    case Step(Work(k)) => WorkMove(b, k)
  }

  predicate Legal(b: Bytes, ms: seq<Move>)
    decreases |ms|
  {
    ms == [] || (CanMove(b, ms[0]) && Legal(Make(b, ms[0]), ms[1..]))
  }

  function Run(b: Bytes, ms: seq<Move>): Bytes
    requires Legal(b, ms)
    decreases |ms|
  {
    if ms == [] then b else Run(Make(b, ms[0]), ms[1..])
  }

  // ---------- what it looks like in records ----------

  predicate Ordered(b: Bytes) {
    && |b.rw.taken| <= |b.rw.written| && |b.sw.taken| <= |b.sw.written|
    && |b.sr.taken| <= |b.sr.written| && |b.rr.taken| <= |b.rr.written|
  }

  /** The state of the record-level system: each pipe holds the records not yet delivered. */
  function Abs(b: Bytes): State
    requires Ordered(b)
  {
    b.threads.(rwch := UnpackValues(RecordPipe.Queue(b.rw)), swch := UnpackRecords(RecordPipe.Queue(b.sw)),
               srch := UnpackRecords(RecordPipe.Queue(b.sr)), rrch := UnpackValues(RecordPipe.Queue(b.rr)))
  }

  /** Whole records in a channel, and a partly read one only where a ReadPipe is under way. */
  ghost predicate Sound(c: Channel, width: nat, reading: bool) {
    c.width == width && RecordPipe.Framed(c) && (c.part != [] ==> reading)
  }

  ghost predicate Channels(b: Bytes) {
    && b.threads == Emptied(b.threads)
    && Sound(b.rw, 1, InReadPipe(b.threads, Requests)) && Sound(b.sw, 2, InReadPipe(b.threads, Services))
    && Sound(b.sr, 2, InReadPipe(b.threads, Answers)) && Sound(b.rr, 1, InReadPipe(b.threads, Results))
  }

  /** The values are C ints, and there are no more of them than there are ints for sessions. */
  predicate IntsFit(sent: seq<int>) {
    |sent| < 0x8000_0000 && forall i :: 0 <= i < |sent| ==> Fits(sent[i])
  }

  // ---------- what is written fits into ints ----------

  predicate RecordFits(r: Record) {
    Fits(r.value) && Fits(r.session)
  }

  /** What the threads may write next are C ints. */
  predicate Fitting(s: State) {
    && (s.client.Writing? ==> forall i :: 0 <= i < |s.buf| ==> Fits(s.buf[i]))
    && (s.server.Resuming? || s.server.GotResp? ==> RecordFits(s.server.r))
    && (s.inner.Got? ==> RecordFits(s.inner.r))
    && (forall k :: 0 <= k < |s.workers| && !s.workers[k].answered ==> RecordFits(ReadBy(s, k)))
  }

  lemma FlightFits(s: State, r: Record)
    requires Inv(s) && IntsFit(s.sent) && r in InFlight(s)
    ensures RecordFits(r)
  {
    InFlightNotDone(s, r);
  }

  lemma WorkerFits(s: State, k: nat)
    requires Inv(s) && IntsFit(s.sent) && WorkEnabled(s, k)
    ensures RecordFits(ReadBy(s, k))
  {
    AnswerLeavesBusy(s.workers, k);
    assert s.workers[k].started in multiset(Busy(s.workers));
    FlightFits(s, s.workers[k].started);
  }

  lemma ThreadsFit(s: State)
    requires Inv(s) && IntsFit(s.sent)
    ensures Fitting(s)
  {
    if s.server.Resuming? || s.server.GotResp? {
      assert s.server.r in multiset(ServerHeld(s.server));
      FlightFits(s, s.server.r);
    }
    if s.inner.Got? {
      assert s.inner.r in multiset(InnerHeld(s.inner));
      FlightFits(s, s.inner.r);
    }
    forall k | 0 <= k < |s.workers| && !s.workers[k].answered ensures RecordFits(ReadBy(s, k)) {
      WorkerFits(s, k);
    }
  }

  // ---------- channels ----------

  lemma {:induction false} EncodedLength(ws: seq<Words>, width: nat)
    requires width == 1 || width == 2
    requires forall i :: 0 <= i < |ws| ==> |ws[i]| == width
    ensures |RecordPipe.EncodeAll(ws)| == if width == 1 then 4 * |ws| else 8 * |ws|
  {
    if ws != [] {
      assert |RecordPipe.Encode(ws[0])| == if width == 1 then 4 else 8;
      EncodedLength(ws[1..], width);
    }
  }

  /** What a queue says about the bytes: a reader that is not done finds the rest of its record. */
  lemma QueueBytes(c: Channel)
    requires RecordPipe.Framed(c) && (c.width == 1 || c.width == 2)
    ensures RecordPipe.Queue(c) == [] <==> c.part == [] && c.pipe == []
    ensures RecordPipe.Queue(c) != [] ==> |c.part| + |c.pipe| >= 4 * c.width
  {
    EncodedLength(RecordPipe.Queue(c), c.width);
  }

  lemma WritingEnqueues(c: Channel, ws: seq<Words>, width: nat, reading: bool)
    requires Sound(c, width, reading) && (width == 1 || width == 2) && |ws| <= (if width == 1 then 1024 else 512)
    requires forall i :: 0 <= i < |ws| ==> |ws[i]| == width
    ensures var d := RecordPipe.Written(c, ws);
      Sound(d, width, reading) && RecordPipe.Queue(d) == RecordPipe.Queue(c) + ws
  {
    EncodedLength(ws, width);
    RecordPipe.AppendEnqueues(c, ws);
  }

  lemma PostValues(c: Channel, vs: seq<int>, reading: bool)
    requires Sound(c, 1, reading) && |vs| <= 1024
    ensures Sound(RecordPipe.Written(c, PackValues(vs)), 1, reading)
    ensures RecordPipe.Queue(RecordPipe.Written(c, PackValues(vs))) == RecordPipe.Queue(c) + PackValues(vs)
  {
    WritingEnqueues(c, PackValues(vs), 1, reading);
  }

  lemma PostRecords(c: Channel, rs: seq<Record>, reading: bool)
    requires Sound(c, 2, reading) && |rs| <= 512
    ensures Sound(RecordPipe.Written(c, PackRecords(rs)), 2, reading)
    ensures RecordPipe.Queue(RecordPipe.Written(c, PackRecords(rs))) == RecordPipe.Queue(c) + PackRecords(rs)
  {
    WritingEnqueues(c, PackRecords(rs), 2, reading);
  }

  function Head<T>(take: bool, q: seq<T>): seq<T> {
    if take && q != [] then q[..1] else []
  }

  function Tail<T>(take: bool, q: seq<T>): seq<T> {
    if take && q != [] then q[1..] else q
  }

  /** The end of a ReadPipe takes the oldest record off the queue; with nothing to take it is the end of file. */
  lemma ReadingDequeues(c: Channel, width: nat, reading: bool, closed: bool, after: bool)
    requires Sound(c, width, reading) && (width == 1 || width == 2) && (reading ==> ReadDone(c, closed))
    ensures Sound(Left(reading, c), width, after)
    ensures Received(reading, c) == Head(reading, RecordPipe.Queue(c))
    ensures RecordPipe.Queue(Left(reading, c)) == Tail(reading, RecordPipe.Queue(c))
    ensures reading && RecordPipe.Queue(c) == [] ==> closed
  {
    QueueBytes(c);
    if reading && Full(c) {
      FullDequeues(c);
    }
  }

  lemma FullDequeues(c: Channel)
    requires RecordPipe.Framed(c) && Full(c)
    ensures var q, d := RecordPipe.Queue(c), RecordPipe.Next(c, RecordPipe.Deliver);
      && RecordPipe.Framed(d) && q != [] && RecordPipe.Queue(d) == q[1..] && d.part == [] && d.width == c.width
      && RecordPipe.Decode(c.part) == q[0]
  {
    RecordPipe.DeliverDequeues(c);
    assert (c.taken + [RecordPipe.Decode(c.part)])[|c.taken|] == RecordPipe.Decode(c.part);
  }

  lemma ValuesUnpack(ws: seq<Words>, vs: seq<int>)
    requires forall i :: 0 <= i < |vs| ==> Fits(vs[i])
    ensures UnpackValues(ws + PackValues(vs)) == UnpackValues(ws) + vs
  {
  }

  lemma RecordsUnpack(ws: seq<Words>, rs: seq<Record>)
    requires forall i :: 0 <= i < |rs| ==> RecordFits(rs[i])
    ensures UnpackRecords(ws + PackRecords(rs)) == UnpackRecords(ws) + rs
  {
  }

  lemma UnpackSplit(take: bool, ws: seq<Words>)
    ensures UnpackValues(Head(take, ws)) == Head(take, UnpackValues(ws))
    ensures UnpackValues(Tail(take, ws)) == Tail(take, UnpackValues(ws))
    ensures UnpackRecords(Head(take, ws)) == Head(take, UnpackRecords(ws))
    ensures UnpackRecords(Tail(take, ws)) == Tail(take, UnpackRecords(ws))
  {
  }

  // ---------- a step of a thread, and the pipes it does not look into ----------

  lemma ClientFrame(s: State, rwch: seq<int>, swch: seq<Record>, srch: seq<Record>, rrch: seq<int>)
    requires s == Emptied(s)
    ensures var next := InReadPipe(s, Results);
      var t := ClientNext(s.(rrch := Head(next, rrch)));
      && ClientNext(s.(rwch := rwch, swch := swch, srch := srch, rrch := rrch)) ==
           t.(rwch := rwch + t.rwch, swch := swch, srch := srch, rrch := Tail(next, rrch))
      && |t.rwch| <= 1024 && (t.rwch != [] ==> s.client.Writing? && t.rwch <= s.buf[s.client.off..])
  {
  }

  ghost predicate ServerFramed(s: State, rwch: seq<int>, swch: seq<Record>, srch: seq<Record>, rrch: seq<int>) {
    var req, resp := InReadPipe(s, Requests), InReadPipe(s, Answers);
    var t := ServerNext(s.(rwch := Head(req, rwch), srch := Head(resp, srch)));
    && ServerNext(s.(rwch := rwch, swch := swch, srch := srch, rrch := rrch)) ==
         t.(rwch := Tail(req, rwch), swch := swch + t.swch, srch := Tail(resp, srch), rrch := rrch + t.rrch)
    && (t.swch == [] || (s.server.Resuming? && t.swch == [s.server.r]))
    && (t.rrch == [] || (s.server.GotResp? && t.rrch == [s.server.r.value]))
  }

  lemma ReadFrame(s: State, rwch: seq<int>, swch: seq<Record>, srch: seq<Record>, rrch: seq<int>)
    requires s == Emptied(s) && s.server.Ready?
    ensures ServerFramed(s, rwch, swch, srch, rrch)
  {
  }

  lemma ResumeFrame(s: State, rwch: seq<int>, swch: seq<Record>, srch: seq<Record>, rrch: seq<int>)
    requires s == Emptied(s) && s.server.GotResp?
    ensures ServerFramed(s, rwch, swch, srch, rrch)
  {
  }

  lemma ServerFrame(s: State, rwch: seq<int>, swch: seq<Record>, srch: seq<Record>, rrch: seq<int>)
    requires s == Emptied(s) && !s.server.Select?
    ensures ServerFramed(s, rwch, swch, srch, rrch)
  {
    match s.server {
      case Ready(_, _) => ReadFrame(s, rwch, swch, srch, rrch);
      case GotResp(_) => ResumeFrame(s, rwch, swch, srch, rrch);
      case _ =>
    }
  }

  lemma InnerFrame(s: State, createFails: bool, rwch: seq<int>, swch: seq<Record>, srch: seq<Record>, rrch: seq<int>)
    requires s == Emptied(s)
    ensures var next := InReadPipe(s, Services);
      var t := InnerNext(s.(swch := Head(next, swch)), createFails);
      && InnerNext(s.(rwch := rwch, swch := swch, srch := srch, rrch := rrch), createFails) ==
           t.(rwch := rwch, swch := Tail(next, swch), srch := srch + t.srch, rrch := rrch)
      && (t.srch == [] || (s.inner.Got? && t.srch == [s.inner.r]))
  {
  }

  lemma WorkFrame(s: State, k: nat, rwch: seq<int>, swch: seq<Record>, srch: seq<Record>, rrch: seq<int>)
    requires s == Emptied(s) && WorkEnabled(s, k)
    ensures var t := WorkNext(s, k);
      && WorkNext(s.(rwch := rwch, swch := swch, srch := srch, rrch := rrch), k) ==
           t.(rwch := rwch, swch := swch, srch := srch + t.srch, rrch := rrch)
      && (t.srch == [] || t.srch == [ReadBy(s, k)])
  {
  }

  // ---------- every move is a step of the record-level system or none ----------

  /** The client writes at most one chunk, every other thread at most one record. */
  lemma ClientOutput(s: State)
    requires s.rwch == []
    ensures |ClientNext(s).rwch| <= 1024
  {
  }

  lemma ServerOutput(s: State)
    requires s.swch == [] && s.rrch == []
    ensures |ServerNext(s).swch| + |ServerNext(s).rrch| <= 1
  {
  }

  lemma InnerOutput(s: State, createFails: bool)
    requires s.srch == []
    ensures |InnerNext(s, createFails).srch| <= 1
  {
  }

  lemma WorkOutput(s: State, k: nat)
    requires WorkEnabled(s, k) && s.srch == []
    ensures var t := WorkNext(s, k); |t.srch| <= 1 && t.client == s.client && t.buf == s.buf && t.server == s.server && t.inner == s.inner
  {
  }

  lemma ClientChannels(b: Bytes, t: State)
    requires Channels(b) && CanMove(b, Step(Client))
    requires t == ClientNext(b.threads.(rrch := UnpackValues(Received(InReadPipe(b.threads, Results), b.rr))))
    ensures var d, next := ClientMove(b), InReadPipe(b.threads, Results);
      && Channels(d)
      && RecordPipe.Queue(d.rw) == RecordPipe.Queue(b.rw) + PackValues(t.rwch)
      && RecordPipe.Queue(d.rr) == Tail(next, RecordPipe.Queue(b.rr))
      && Received(next, b.rr) == Head(next, RecordPipe.Queue(b.rr))
      && (next && RecordPipe.Queue(b.rr) == [] ==> Closed(b.threads, Results))
  {
    var next := InReadPipe(b.threads, Results);
    ReadingDequeues(b.rr, 1, next, Closed(b.threads, Results), InReadPipe(t, Results));
    ClientOutput(b.threads.(rrch := UnpackValues(Received(next, b.rr))));
    ClientTouches(b.threads.(rrch := UnpackValues(Received(next, b.rr))));
    PostValues(b.rw, t.rwch, InReadPipe(b.threads, Requests));
  }

  lemma ClientRefines(b: Bytes)
    requires Channels(b) && Fitting(b.threads) && CanMove(b, Step(Client))
    ensures var d := ClientMove(b); Channels(d) && ClientEnabled(Abs(b)) && Abs(d) == ClientNext(Abs(b))
  {
    var a, next := Abs(b), InReadPipe(b.threads, Results);
    var t := ClientNext(b.threads.(rrch := UnpackValues(Received(next, b.rr))));
    ClientChannels(b, t);
    UnpackSplit(next, RecordPipe.Queue(b.rr));
    ClientFrame(b.threads, a.rwch, a.swch, a.srch, a.rrch);
    ValuesUnpack(RecordPipe.Queue(b.rw), t.rwch);
  }

  lemma SelectRefines(b: Bytes)
    requires Channels(b) && CanMove(b, Step(Server)) && b.threads.server.Select?
    ensures var d := ServerMove(b); Channels(d) && ServerEnabled(Abs(b)) && Abs(d) == ServerNext(Abs(b))
  {
    QueueBytes(b.rw);
    QueueBytes(b.sr);
  }

  /** The server's own step on the records its ReadPipe calls return. */
  function ServerLocal(b: Bytes): State {
    ServerNext(b.threads.(rwch := UnpackValues(Received(InReadPipe(b.threads, Requests), b.rw)),
                          srch := UnpackRecords(Received(InReadPipe(b.threads, Answers), b.sr))))
  }

  lemma ServerChannels(b: Bytes, t: State)
    requires Channels(b) && CanMove(b, Step(Server)) && !b.threads.server.Select? && t == ServerLocal(b)
    ensures var d, req, resp := ServerMove(b), InReadPipe(b.threads, Requests), InReadPipe(b.threads, Answers);
      && Channels(d)
      && RecordPipe.Queue(d.sw) == RecordPipe.Queue(b.sw) + PackRecords(t.swch)
      && RecordPipe.Queue(d.rr) == RecordPipe.Queue(b.rr) + PackValues(t.rrch)
      && RecordPipe.Queue(d.rw) == Tail(req, RecordPipe.Queue(b.rw))
      && RecordPipe.Queue(d.sr) == Tail(resp, RecordPipe.Queue(b.sr))
      && Received(req, b.rw) == Head(req, RecordPipe.Queue(b.rw))
      && Received(resp, b.sr) == Head(resp, RecordPipe.Queue(b.sr))
  {
    var req, resp := InReadPipe(b.threads, Requests), InReadPipe(b.threads, Answers);
    ReadingDequeues(b.rw, 1, req, Closed(b.threads, Requests), InReadPipe(t, Requests));
    ReadingDequeues(b.sr, 2, resp, Closed(b.threads, Answers), InReadPipe(t, Answers));
    var s := b.threads.(rwch := UnpackValues(Received(req, b.rw)), srch := UnpackRecords(Received(resp, b.sr)));
    ServerOutput(s);
    OthersStay(s, false);
    PostRecords(b.sw, t.swch, InReadPipe(b.threads, Services));
    PostValues(b.rr, t.rrch, InReadPipe(b.threads, Results));
  }

  /** No thread moves another thread's program counter. */
  lemma OthersStay(s: State, createFails: bool)
    ensures ServerNext(s).client == s.client && ServerNext(s).buf == s.buf && ServerNext(s).inner == s.inner
    ensures var t := InnerNext(s, createFails); t.client == s.client && t.buf == s.buf && t.server == s.server && t.sent == s.sent
  {
  }

  lemma ServerRefines(b: Bytes)
    requires Channels(b) && Fitting(b.threads) && CanMove(b, Step(Server)) && !b.threads.server.Select?
    ensures var d := ServerMove(b); Channels(d) && ServerEnabled(Abs(b)) && Abs(d) == ServerNext(Abs(b))
  {
    var a, t := Abs(b), ServerLocal(b);
    ServerChannels(b, t);
    UnpackSplit(InReadPipe(b.threads, Requests), RecordPipe.Queue(b.rw));
    UnpackSplit(InReadPipe(b.threads, Answers), RecordPipe.Queue(b.sr));
    ServerFrame(b.threads, a.rwch, a.swch, a.srch, a.rrch);
    RecordsUnpack(RecordPipe.Queue(b.sw), t.swch);
    ValuesUnpack(RecordPipe.Queue(b.rr), t.rrch);
  }

  /** The channels after any step `t` that takes what Services brings and writes to Answers. */
  lemma InnerPosts(b: Bytes, t: State)
    requires Channels(b) && t.client == b.threads.client && t.buf == b.threads.buf && t.server == b.threads.server
    requires |t.srch| <= 1
    requires InReadPipe(b.threads, Services) ==> ReadDone(b.sw, Closed(b.threads, Services))
    ensures var next := InReadPipe(b.threads, Services);
      var d := b.(threads := Emptied(t), sw := Left(next, b.sw), sr := RecordPipe.Written(b.sr, PackRecords(t.srch)));
      && Channels(d)
      && RecordPipe.Queue(d.sr) == RecordPipe.Queue(b.sr) + PackRecords(t.srch)
      && RecordPipe.Queue(d.sw) == Tail(next, RecordPipe.Queue(b.sw))
      && Received(next, b.sw) == Head(next, RecordPipe.Queue(b.sw))
      && (next && RecordPipe.Queue(b.sw) == [] ==> Closed(b.threads, Services))
  {
    ReadingDequeues(b.sw, 2, InReadPipe(b.threads, Services), Closed(b.threads, Services), InReadPipe(t, Services));
    PostRecords(b.sr, t.srch, InReadPipe(b.threads, Answers));
    assert InReadPipe(t, Answers) == InReadPipe(b.threads, Answers);
  }

  lemma InnerRefines(b: Bytes, createFails: bool)
    requires Channels(b) && Fitting(b.threads) && CanMove(b, Step(Inner(createFails)))
    ensures var d := InnerMove(b, createFails); Channels(d) && InnerEnabled(Abs(b)) && Abs(d) == InnerNext(Abs(b), createFails)
  {
    var a, next := Abs(b), InReadPipe(b.threads, Services);
    var s := b.threads.(swch := UnpackRecords(Received(next, b.sw)));
    var t := InnerNext(s, createFails);
    InnerOutput(s, createFails);
    OthersStay(s, createFails);
    InnerPosts(b, t);
    UnpackSplit(next, RecordPipe.Queue(b.sw));
    InnerFrame(b.threads, createFails, a.rwch, a.swch, a.srch, a.rrch);
    RecordsUnpack(RecordPipe.Queue(b.sr), t.srch);
  }

  lemma WorkChannels(b: Bytes, k: nat, t: State)
    requires Channels(b) && WorkEnabled(b.threads, k) && t == WorkNext(b.threads, k)
    ensures var d := WorkMove(b, k); Channels(d) && RecordPipe.Queue(d.sr) == RecordPipe.Queue(b.sr) + PackRecords(t.srch)
  {
    WorkOutput(b.threads, k);
    PostRecords(b.sr, t.srch, InReadPipe(b.threads, Answers));
  }

  lemma WorkRefines(b: Bytes, k: nat)
    requires Channels(b) && Fitting(b.threads) && WorkEnabled(b.threads, k)
    ensures var d := WorkMove(b, k); Channels(d) && Abs(d) == WorkNext(Abs(b), k)
  {
    var a, t := Abs(b), WorkNext(b.threads, k);
    WorkChannels(b, k, t);
    WorkFrame(b.threads, k, a.rwch, a.swch, a.srch, a.rrch);
    RecordsUnpack(RecordPipe.Queue(b.sr), t.srch);
  }

  lemma TakeKeeps(c: Channel, width: nat, k: nat)
    requires Sound(c, width, true) && RecordPipe.Enabled(c, RecordPipe.Take(k))
    ensures var d := RecordPipe.Next(c, RecordPipe.Take(k));
      Sound(d, width, true) && RecordPipe.Queue(d) == RecordPipe.Queue(c) && |d.pipe| < |c.pipe|
  {
    RecordPipe.StepRefinesQueue(c, RecordPipe.Take(k));
  }

  lemma ReadRefines(b: Bytes, p: Pipe, k: nat)
    requires Channels(b) && CanMove(b, Read(p, k))
    ensures var d := ReadMove(b, p, k); Channels(d) && Abs(d) == Abs(b)
  {
    TakeKeeps(Of(b, p), Of(b, p).width, k);
  }

  /** A read() changes nothing at the level of records; any other move is the step of the same thread. */
  lemma MoveRefines(b: Bytes, m: Move)
    requires Channels(b) && Fitting(b.threads) && CanMove(b, m)
    ensures Channels(Make(b, m))
    ensures match m
      case Read(_, _) => Abs(Make(b, m)) == Abs(b)
      case Step(a) => Pipeline.Enabled(Abs(b), a) && Abs(Make(b, m)) == Pipeline.Next(Abs(b), a)
  {
    match m {
      case Read(p, k) => ReadRefines(b, p, k);
      case Step(Client) => ClientRefines(b);
      case Step(Server) => if b.threads.server.Select? { SelectRefines(b); } else { ServerRefines(b); }
      case Step(Inner(createFails)) => InnerRefines(b, createFails);
      case Step(Work(k)) => WorkRefines(b, k);
    }
  }

  // ---------- runs ----------

  /** Whole records in the pipes, and a state of the record-level system that can be reached. */
  ghost predicate Tracked(b: Bytes, sent: seq<int>, slots: seq<Record>) {
    Channels(b) && IntsFit(sent) && Reachable(Abs(b), sent, slots)
  }

  lemma TrackedFits(b: Bytes, sent: seq<int>, slots: seq<Record>)
    requires Tracked(b, sent, slots)
    ensures Fitting(b.threads)
  {
    ReachableInv(Abs(b), sent, slots);
    ThreadsFit(Abs(b));
    assert forall k :: 0 <= k < |b.threads.workers| ==> ReadBy(b.threads, k) == ReadBy(Abs(b), k);
  }

  lemma MoveTracked(b: Bytes, m: Move, sent: seq<int>, slots: seq<Record>)
    requires Tracked(b, sent, slots) && CanMove(b, m)
    ensures Tracked(Make(b, m), sent, slots)
    ensures match m
      case Read(_, _) => Abs(Make(b, m)) == Abs(b)
      case Step(a) => Pipeline.Enabled(Abs(b), a) && Abs(Make(b, m)) == Pipeline.Next(Abs(b), a)
  {
    TrackedFits(b, sent, slots);
    MoveRefines(b, m);
    if m.Step? {
      var t := Advance(Abs(b), m.a, sent, slots);
    }
  }

  /** The steps of a run, without its read() calls. */
  function Steps(ms: seq<Move>): seq<Action> {
    if ms == [] then []
    else match ms[0]
      case Read(_, _) => Steps(ms[1..])
      case Step(a) => [a] + Steps(ms[1..])
  }

  lemma ExecCons(s: State, a: Action, run: seq<Action>)
    requires Pipeline.Enabled(s, a) && Pipeline.Legal(Pipeline.Next(s, a), run)
    ensures Pipeline.Legal(s, [a] + run) && Exec(s, [a] + run) == Exec(Pipeline.Next(s, a), run)
  {
    assert ([a] + run)[1..] == run;
  }

  /** Every run over byte pipes, with any splitting of the reads, is a run over record pipes. */
  lemma {:induction false} RunRefines(b: Bytes, ms: seq<Move>, sent: seq<int>, slots: seq<Record>)
    requires Tracked(b, sent, slots) && Legal(b, ms)
    ensures Tracked(Run(b, ms), sent, slots)
    ensures Pipeline.Legal(Abs(b), Steps(ms)) && Exec(Abs(b), Steps(ms)) == Abs(Run(b, ms))
    decreases |ms|
  {
    if ms != [] {
      MoveTracked(b, ms[0], sent, slots);
      RunRefines(Make(b, ms[0]), ms[1..], sent, slots);
      if ms[0].Step? { ExecCons(Abs(b), ms[0].a, Steps(ms[1..])); }
    }
  }

  lemma StartTracked(sent: seq<int>, slots: seq<Record>)
    requires |sent| <= |slots| && IntsFit(sent)
    ensures Tracked(Start(sent, slots), sent, slots) && Abs(Start(sent, slots)) == Pipeline.Start(sent, slots)
  {
    var s := Abs(Start(sent, slots));
    assert s.rwch == [] && s.swch == [] && s.srch == [] && s.rrch == [];
    ReachableStart(sent, slots);
  }

  ghost predicate BytesReachable(b: Bytes, sent: seq<int>, slots: seq<Record>) {
    |sent| <= |slots| && IntsFit(sent)
    && exists ms: seq<Move> :: Legal(Start(sent, slots), ms) && Run(Start(sent, slots), ms) == b
  }

  /** So everything proved of the reachable states of the record-level system holds here. */
  lemma ReachableRefines(b: Bytes, sent: seq<int>, slots: seq<Record>)
    requires BytesReachable(b, sent, slots)
    ensures Channels(b) && Reachable(Abs(b), sent, slots)
  {
    var ms :| Legal(Start(sent, slots), ms) && Run(Start(sent, slots), ms) == b;
    StartTracked(sent, slots);
    RunRefines(Start(sent, slots), ms, sent, slots);
  }

  /** A read() inside a record always finds the rest of it: no ReadPipe call that has begun a record meets
      an empty pipe, so none sees EAGAIN or the end of file half-way. Nor does any thread meet a fault. */
  lemma RecordsArriveWhole(b: Bytes, sent: seq<int>, slots: seq<Record>, p: Pipe)
    requires BytesReachable(b, sent, slots)
    ensures var c := Of(b, p); c.part != [] ==> |c.part| + |c.pipe| >= 4 * c.width
    ensures b.threads.faults == []
  {
    ReachableRefines(b, sent, slots);
    QueueBytes(Of(b, p));
    NoFaultEver(Abs(b), sent, slots);
  }

  ghost predicate BytesStuck(b: Bytes) {
    forall m: Move :: !CanMove(b, m)
  }

  /** A reader that can do nothing waits on an empty pipe that is still open. */
  lemma ReaderWaits(b: Bytes, p: Pipe)
    requires Channels(b) && InReadPipe(b.threads, p)
    requires !CanMove(b, Read(p, 1)) && !ReadDone(Of(b, p), Closed(b.threads, p))
    ensures RecordPipe.Queue(Of(b, p)) == [] && !Closed(b.threads, p)
  {
    QueueBytes(Of(b, p));
  }

  lemma StuckBelow(b: Bytes)
    requires Channels(b) && ThreadsInOrder(Abs(b)) && BytesStuck(b)
    ensures Stuck(Abs(b))
  {
    assert !CanMove(b, Step(Client)) && !CanMove(b, Step(Server)) && !CanMove(b, Step(Inner(false)));
    forall k | 0 <= k < |b.threads.workers| ensures b.threads.workers[k].answered {
      assert !CanMove(b, Step(Work(k)));
    }
    QueueBytes(b.rw);
    QueueBytes(b.sr);
    if InReadPipe(b.threads, Requests) { ReaderWaits(b, Requests); }
    if InReadPipe(b.threads, Services) { ReaderWaits(b, Services); }
    if InReadPipe(b.threads, Answers) { ReaderWaits(b, Answers); }
    if InReadPipe(b.threads, Results) { ReaderWaits(b, Results); }
  }

  lemma StuckAbove(b: Bytes)
    requires Channels(b) && Fitting(b.threads) && Stuck(Abs(b)) && AllEnded(Abs(b))
    ensures BytesStuck(b)
  {
    forall m: Move ensures !CanMove(b, m) {
      if CanMove(b, m) { MoveRefines(b, m); }
    }
  }

  /** Over byte pipes, too, nothing can move exactly if all threads have returned; then the client holds a
      permutation of what it sent and not a byte is left in any pipe. */
  lemma BytesEndInOrder(b: Bytes, sent: seq<int>, slots: seq<Record>)
    requires BytesReachable(b, sent, slots)
    ensures BytesStuck(b) <==> AllEnded(b.threads)
    ensures BytesStuck(b) ==>
      && multiset(b.threads.buf) == multiset(sent)
      && b.threads.script.table == map[]
      && forall p: Pipe :: Of(b, p).pipe == [] && Of(b, p).part == []
  {
    ReachableRefines(b, sent, slots);
    StuckIsOrderlyEnd(Abs(b), sent, slots);
    if BytesStuck(b) {
      ReachableInv(Abs(b), sent, slots);
      StuckBelow(b);
      forall p: Pipe ensures Of(b, p).pipe == [] && Of(b, p).part == [] { QueueBytes(Of(b, p)); }
    }
    if AllEnded(b.threads) {
      TrackedFits(b, sent, slots);
      StuckAbove(b);
    }
  }

  // ---------- every run ends ----------

  function Unread(b: Bytes): nat {
    |b.rw.pipe| + |b.sw.pipe| + |b.sr.pipe| + |b.rr.pipe|
  }

  /** Values the client has not sent, in bytes. */
  function Unsent(s: State): nat {
    if Off(s) <= |s.sent| then 4 * (|s.sent| - Off(s)) else 0
  }

  lemma ReadLess(b: Bytes, p: Pipe, k: nat)
    requires Channels(b) && CanMove(b, Read(p, k))
    ensures Unread(ReadMove(b, p, k)) < Unread(b)
  {
  }

  lemma WrittenBytes(c: Channel, ws: seq<Words>, width: nat)
    requires (width == 1 || width == 2) && forall i :: 0 <= i < |ws| ==> |ws[i]| == width
    ensures |RecordPipe.Written(c, ws).pipe| == |c.pipe| + if width == 1 then 4 * |ws| else 8 * |ws|
  {
    EncodedLength(ws, width);
  }

  lemma LeftBytes(reading: bool, c: Channel)
    ensures Left(reading, c).pipe == c.pipe
  {
  }

  lemma ClientSends(s: State)
    requires s.rwch == [] && Off(s) <= |s.sent| == |s.buf|
    ensures var t := ClientNext(s); 4 * |t.rwch| + Unsent(t) <= Unsent(s)
  {
  }

  /** The client sends what it had not sent; every other step writes at most one record. */
  lemma ClientWrites(b: Bytes)
    requires Channels(b) && Off(b.threads) <= |b.threads.sent| == |b.threads.buf|
    ensures var d := ClientMove(b); Unread(d) + Unsent(d.threads) <= Unread(b) + Unsent(b.threads)
  {
    var s := b.threads.(rrch := UnpackValues(Received(InReadPipe(b.threads, Results), b.rr)));
    ClientSends(s);
    LeftBytes(InReadPipe(b.threads, Results), b.rr);
    WrittenBytes(b.rw, PackValues(ClientNext(s).rwch), 1);
  }

  lemma ServerWrites(b: Bytes)
    requires Channels(b) && !b.threads.server.Select?
    ensures var d := ServerMove(b); Unread(d) <= Unread(b) + 8 && Unsent(d.threads) == Unsent(b.threads)
  {
    var req, resp := InReadPipe(b.threads, Requests), InReadPipe(b.threads, Answers);
    var s, t := b.threads.(rwch := UnpackValues(Received(req, b.rw)), srch := UnpackRecords(Received(resp, b.sr))), ServerLocal(b);
    ServerOutput(s);
    OthersStay(s, false);
    ServerTouches(s);
    LeftBytes(req, b.rw);
    LeftBytes(resp, b.sr);
    WrittenBytes(b.sw, PackRecords(t.swch), 2);
    WrittenBytes(b.rr, PackValues(t.rrch), 1);
  }

  lemma InnerWrites(b: Bytes, createFails: bool)
    requires Channels(b)
    ensures var d := InnerMove(b, createFails); Unread(d) <= Unread(b) + 8 && Unsent(d.threads) == Unsent(b.threads)
  {
    var s := b.threads.(swch := UnpackRecords(Received(InReadPipe(b.threads, Services), b.sw)));
    InnerOutput(s, createFails);
    OthersStay(s, createFails);
    LeftBytes(InReadPipe(b.threads, Services), b.sw);
    WrittenBytes(b.sr, PackRecords(InnerNext(s, createFails).srch), 2);
  }

  lemma WorkWrites(b: Bytes, k: nat)
    requires Channels(b) && WorkEnabled(b.threads, k)
    ensures var d := WorkMove(b, k); Unread(d) <= Unread(b) + 8 && Unsent(d.threads) == Unsent(b.threads)
  {
    WorkOutput(b.threads, k);
    WrittenBytes(b.sr, PackRecords(WorkNext(b.threads, k).srch), 2);
  }

  /** Nine times the hops of the record-level system, and the bytes to be sent and to be read. */
  function BytesMeasure(b: Bytes): nat
    requires Ordered(b) && Off(Abs(b)) <= |Abs(b).sent|
  {
    9 * Measure(Abs(b)) + Unsent(b.threads) + Unread(b)
  }

  lemma MoveWrites(b: Bytes, m: Move)
    requires Channels(b) && CanMove(b, m) && Off(b.threads) <= |b.threads.sent| == |b.threads.buf|
    ensures var d := Make(b, m);
      Unread(d) + Unsent(d.threads) <= Unread(b) + Unsent(b.threads) + if m.Step? then 8 else -1
  {
    match m {
      case Read(p, k) => ReadLess(b, p, k);
      case Step(Client) => ClientWrites(b);
      case Step(Server) => if !b.threads.server.Select? { ServerWrites(b); }
      case Step(Inner(createFails)) => InnerWrites(b, createFails);
      case Step(Work(k)) => WorkWrites(b, k);
    }
  }

  lemma TrackedMeasure(b: Bytes, sent: seq<int>, slots: seq<Record>)
    requires Tracked(b, sent, slots)
    ensures Off(Abs(b)) <= |Abs(b).sent| == |Abs(b).buf|
  {
    ReachableInv(Abs(b), sent, slots);
  }

  lemma MeasureDescends(b: Bytes, m: Move, sent: seq<int>, slots: seq<Record>)
    requires Tracked(b, sent, slots) && CanMove(b, m)
    ensures Tracked(Make(b, m), sent, slots) && Off(Abs(b)) <= |Abs(b).sent|
    ensures Off(Abs(Make(b, m))) <= |Abs(Make(b, m)).sent| && BytesMeasure(Make(b, m)) < BytesMeasure(b)
  {
    TrackedMeasure(b, sent, slots);
    MoveTracked(b, m, sent, slots);
    TrackedMeasure(Make(b, m), sent, slots);
    MoveWrites(b, m);
    if m.Step? {
      ReachableInv(Abs(b), sent, slots);
      StepDescends(Abs(b), m.a);
    }
  }

  lemma {:induction false} RunIsShort(b: Bytes, ms: seq<Move>, sent: seq<int>, slots: seq<Record>)
    requires Tracked(b, sent, slots) && Legal(b, ms)
    ensures Off(Abs(b)) <= |Abs(b).sent| && |ms| <= BytesMeasure(b)
    decreases |ms|
  {
    TrackedMeasure(b, sent, slots);
    if ms != [] {
      MeasureDescends(b, ms[0], sent, slots);
      RunIsShort(Make(b, ms[0]), ms[1..], sent, slots);
    }
  }

  /** However the reads are split, no run has more moves than a bound linear in the number of values. */
  lemma EveryBytesRunEnds(sent: seq<int>, slots: seq<Record>, ms: seq<Move>)
    requires |sent| <= |slots| && IntsFit(sent) && Legal(Start(sent, slots), ms)
    ensures |ms| <= 724 * |sent| + 45
  {
    StartTracked(sent, slots);
    StartMeasure(sent, slots);
    RunIsShort(Start(sent, slots), ms, sent, slots);
  }
}
