/** The runs the byte-level system has: every run of the record-level system, with every way of splitting
    the reads. */
module BytePipelineRuns {
  import opened Entrance
  import opened Pipeline
  import opened PipelineSafety
  import opened PipelineRuns
  import opened BytePipeline
  import PipelineSchedules
  import RecordPipe

  // ---------- putting runs together ----------

  lemma MoveFirst(b: Bytes, m: Move, ms: seq<Move>)
    requires CanMove(b, m) && BytePipeline.Legal(Make(b, m), ms)
    ensures BytePipeline.Legal(b, [m] + ms) && Run(b, [m] + ms) == Run(Make(b, m), ms)
  {
    assert ([m] + ms)[1..] == ms;
  }

  lemma {:induction false} RunConcat(b: Bytes, ms: seq<Move>, ns: seq<Move>)
    requires BytePipeline.Legal(b, ms) && BytePipeline.Legal(Run(b, ms), ns)
    ensures BytePipeline.Legal(b, ms + ns) && Run(b, ms + ns) == Run(Run(b, ms), ns)
    decreases |ms|
  {
    if ms == [] {
      assert ms + ns == ns;
    } else {
      var m, rest := ms[0], ms[1..];
      var c := Make(b, m);
      assert BytePipeline.Legal(c, rest) && Run(b, ms) == Run(c, rest);
      RunConcat(c, rest, ns);
      MoveFirst(b, m, rest + ns);
      Regroup(m, rest, ns);
      assert ms == [m] + rest;
    }
  }

  lemma Regroup(m: Move, ms: seq<Move>, ns: seq<Move>)
    ensures [m] + (ms + ns) == [m] + ms + ns
  {
  }

  lemma {:induction false} StepsConcat(ms: seq<Move>, ns: seq<Move>)
    ensures Steps(ms + ns) == Steps(ms) + Steps(ns)
  {
    if ms == [] {
      assert ms + ns == ns;
    } else {
      assert (ms + ns)[1..] == ms[1..] + ns;
      StepsConcat(ms[1..], ns);
    }
  }

  // ---------- a record in pieces ----------

  function Sum(ks: seq<nat>): nat {
    if ks == [] then 0 else ks[0] + Sum(ks[1..])
  }

  function Pieces(p: Pipe, ks: seq<nat>): seq<Move> {
    if ks == [] then [] else [Read(p, ks[0])] + Pieces(p, ks[1..])
  }

  /** Inside ReadPipe, with a record on its way. */
  ghost predicate Arriving(b: Bytes, p: Pipe) {
    Channels(b) && InReadPipe(b.threads, p) && RecordPipe.Queue(Of(b, p)) != []
  }

  lemma PieceArrives(b: Bytes, p: Pipe, k: nat)
    requires Arriving(b, p) && 0 < k <= 4 * Of(b, p).width - |Of(b, p).part|
    ensures CanMove(b, Read(p, k))
    ensures var c := ReadMove(b, p, k);
      && Arriving(c, p) && Abs(c) == Abs(b) && c.threads == b.threads
      && |Of(c, p).part| == |Of(b, p).part| + k && Of(c, p).width == Of(b, p).width
  {
    QueueBytes(Of(b, p));
    ReadRefines(b, p, k);
    TakeKeeps(Of(b, p), Of(b, p).width, k);
  }

  /** However the bytes a reader still lacks are cut into pieces, read() can deliver those pieces. */
  lemma {:induction false} AnyPiecesArrive(b: Bytes, p: Pipe, ks: seq<nat>)
    requires Arriving(b, p) && forall i :: 0 <= i < |ks| ==> ks[i] > 0
    requires |Of(b, p).part| + Sum(ks) == 4 * Of(b, p).width
    ensures BytePipeline.Legal(b, Pieces(p, ks)) && Steps(Pieces(p, ks)) == []
    ensures var c := Run(b, Pieces(p, ks));
      Arriving(c, p) && Abs(c) == Abs(b) && Full(Of(c, p)) && c.threads == b.threads
    decreases |ks|
  {
    if ks == [] {
      QueueBytes(Of(b, p));
    } else {
      PieceArrives(b, p, ks[0]);
      AnyPiecesArrive(ReadMove(b, p, ks[0]), p, ks[1..]);
    }
  }

  // ---------- every step can be made over bytes ----------

  /** The pipe a thread's next step reads from. */
  predicate ReadsFrom(s: State, a: Action, p: Pipe) {
    InReadPipe(s, p) &&
    match a
    case Client => p == Results
    case Server => p == Requests || p == Answers
    case Inner(_) => p == Services
    case Work(_) => false
  }

  /** What the record-level step finds at its pipe: a record, or the end of file. */
  lemma RecordOrEnd(b: Bytes, a: Action, p: Pipe, sent: seq<int>, slots: seq<Record>)
    requires Tracked(b, sent, slots) && Pipeline.Enabled(Abs(b), a) && ReadsFrom(b.threads, a, p)
    ensures RecordPipe.Queue(Of(b, p)) != [] || Closed(b.threads, p)
  {
    ReachableInv(Abs(b), sent, slots);
  }

  /** The reads, if any, before a thread's step. */
  lemma Fetch(b: Bytes, a: Action, p: Pipe, sent: seq<int>, slots: seq<Record>) returns (ms: seq<Move>, c: Bytes)
    requires Tracked(b, sent, slots) && Pipeline.Enabled(Abs(b), a) && ReadsFrom(b.threads, a, p)
    ensures BytePipeline.Legal(b, ms) && Run(b, ms) == c && Steps(ms) == []
    ensures Channels(c) && Abs(c) == Abs(b) && c.threads == b.threads
    ensures ReadDone(Of(c, p), Closed(c.threads, p))
  {
    QueueBytes(Of(b, p));
    RecordOrEnd(b, a, p, sent, slots);
    if ReadDone(Of(b, p), Closed(b.threads, p)) {
      ms, c := [], b;
    } else {
      var lacking: nat := 4 * Of(b, p).width - |Of(b, p).part|;
      assert Sum([lacking]) == lacking;
      AnyPiecesArrive(b, p, [lacking]);
      ms, c := Pieces(p, [lacking]), Run(b, Pieces(p, [lacking]));
    }
  }

  lemma StepWithoutRead(b: Bytes, a: Action)
    requires Channels(b) && Pipeline.Enabled(Abs(b), a) && forall p: Pipe :: !ReadsFrom(b.threads, a, p)
    ensures CanMove(b, Step(a))
  {
    QueueBytes(b.rw);
    QueueBytes(b.sr);
    assert !ReadsFrom(b.threads, a, Requests) && !ReadsFrom(b.threads, a, Answers);
    assert !ReadsFrom(b.threads, a, Services) && !ReadsFrom(b.threads, a, Results);
  }

  lemma Prepare(b: Bytes, a: Action, sent: seq<int>, slots: seq<Record>) returns (ms: seq<Move>, c: Bytes)
    requires Tracked(b, sent, slots) && Pipeline.Enabled(Abs(b), a)
    ensures BytePipeline.Legal(b, ms) && Run(b, ms) == c && Steps(ms) == []
    ensures Tracked(c, sent, slots) && Abs(c) == Abs(b) && CanMove(c, Step(a))
  {
    if p: Pipe :| ReadsFrom(b.threads, a, p) {
      ms, c := Fetch(b, a, p, sent, slots);
    } else {
      ms, c := [], b;
      StepWithoutRead(b, a);
    }
  }

  /** Every step of the record-level system is some reads and the same step over bytes. */
  lemma StepRealised(b: Bytes, a: Action, sent: seq<int>, slots: seq<Record>) returns (ms: seq<Move>, c: Bytes)
    requires Tracked(b, sent, slots) && Pipeline.Enabled(Abs(b), a)
    ensures BytePipeline.Legal(b, ms) && Run(b, ms) == c && Steps(ms) == [a]
    ensures Tracked(c, sent, slots) && Abs(c) == Pipeline.Next(Abs(b), a)
  {
    var d;
    ms, d := Prepare(b, a, sent, slots);
    MoveTracked(d, Step(a), sent, slots);
    c := Make(d, Step(a));
    OneMove(d, Step(a));
    RunConcat(b, ms, [Step(a)]);
    StepsConcat(ms, [Step(a)]);
    ms := ms + [Step(a)];
  }

  lemma OneMove(b: Bytes, m: Move)
    requires CanMove(b, m)
    ensures BytePipeline.Legal(b, [m]) && Run(b, [m]) == Make(b, m)
    ensures m.Step? ==> Steps([m]) == [m.a]
  {
  }

  /** Every run of the record-level system is a run over bytes with the same steps: with `RunRefines`, the
      two systems have the same runs up to reads. */
  lemma {:induction false} RunRealised(b: Bytes, run: seq<Action>, sent: seq<int>, slots: seq<Record>)
    returns (ms: seq<Move>)
    requires Tracked(b, sent, slots) && Pipeline.Legal(Abs(b), run)
    ensures BytePipeline.Legal(b, ms) && Steps(ms) == run
    ensures Channels(Run(b, ms)) && Abs(Run(b, ms)) == Exec(Abs(b), run)
    decreases |run|
  {
    if run == [] {
      ms := [];
    } else {
      var first, c := StepRealised(b, run[0], sent, slots);
      var rest := RunRealised(c, run[1..], sent, slots);
      RunConcat(b, first, rest);
      StepsConcat(first, rest);
      ms := first + rest;
    }
  }

  /** Over byte pipes, too, the client can end with its results in any order, each answered by a worker. */
  lemma EveryOrderOccursOverBytes(sent: seq<int>, slots: seq<Record>, out: seq<int>)
    requires |sent| <= |slots| && IntsFit(sent) && multiset(out) == multiset(sent)
    ensures exists ms: seq<Move> ::
      && BytePipeline.Legal(BytePipeline.Start(sent, slots), ms) && Inner(true) !in Steps(ms)
      && AllEnded(Run(BytePipeline.Start(sent, slots), ms).threads)
      && Run(BytePipeline.Start(sent, slots), ms).threads.buf == out
  {
    PipelineSchedules.EveryOrderOccurs(sent, slots, out);
    var s := Pipeline.Start(sent, slots);
    var run :| Pipeline.Legal(s, run) && Inner(true) !in run && AllEnded(Exec(s, run)) && Exec(s, run).buf == out;
    StartTracked(sent, slots);
    var ms := RunRealised(BytePipeline.Start(sent, slots), run, sent, slots);
  }
}
