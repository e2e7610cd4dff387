/** Interleavings that do occur: the results come back in any order, requests and responses overlap, and
    the bound on the Lua stack is reached. */
module PipelineSchedules {
  import opened Entrance
  import opened Pipeline
  import opened PipelineSafety
  import opened PipelineRuns
  import LuaHost

  // ---------- building runs ----------

  /** A state of some interleaving in which every request got a worker thread. */
  ghost predicate Threaded(s: State, sent: seq<int>, slots: seq<Record>) {
    |sent| <= |slots|
    && exists run: seq<Action> :: Legal(Start(sent, slots), run) && Exec(Start(sent, slots), run) == s && Inner(true) !in run
  }

  lemma ThreadedStart(sent: seq<int>, slots: seq<Record>)
    requires |sent| <= |slots|
    ensures Threaded(Start(sent, slots), sent, slots)
  {
    assert Legal(Start(sent, slots), []);
  }

  lemma ThreadedInv(s: State, sent: seq<int>, slots: seq<Record>)
    requires Threaded(s, sent, slots)
    ensures Reachable(s, sent, slots) && Inv(s) && s.sent == sent
  {
    ReachableInv(s, sent, slots);
  }

  lemma Forward(s: State, a: Action, sent: seq<int>, slots: seq<Record>) returns (t: State)
    requires Threaded(s, sent, slots) && Enabled(s, a) && a != Inner(true)
    ensures t == Next(s, a) && Threaded(t, sent, slots)
  {
    var run :| Legal(Start(sent, slots), run) && Exec(Start(sent, slots), run) == s && Inner(true) !in run;
    ExtendRun(Start(sent, slots), run, a);
    t := Next(s, a);
    assert Inner(true) !in run + [a];
  }

  // ---------- stages ----------

  /** The client has sent all values and not begun to read; server and inner server wait for work. */
  ghost predicate Staged(s: State, sent: seq<int>, slots: seq<Record>) {
    Threaded(s, sent, slots) && s.client == Writing(|sent|) && s.server.Select? && s.inner.Idle?
  }

  /** First the client sends everything. */
  lemma SendAll(sent: seq<int>, slots: seq<Record>) returns (s: State)
    requires |sent| <= |slots|
    ensures Staged(s, sent, slots) && s.workers == [] && s.srch == [] && s.done == [] && s.rrch == [] && s.calls == []
    ensures s.rwch == sent && s.swch == []
  {
    s := Start(sent, slots);
    ThreadedStart(sent, slots);
    while s.client != Writing(|sent|)
      invariant Threaded(s, sent, slots) && s.client.Writing? && s.client.off <= |sent| == |s.buf|
      invariant s.server.Select? && s.inner.Idle? && s.workers == [] && s.srch == [] && s.done == [] && s.rrch == []
      invariant s.calls == [] && s.script.counter == 0 && s.swch == []
      decreases |sent| - if s.client.Writing? then s.client.off else 0
    {
      s := Forward(s, Client, sent, slots);
    }
    ThreadedInv(s, sent, slots);
  }

  lemma AskOne(s: State, sent: seq<int>, slots: seq<Record>) returns (t: State)
    requires Staged(s, sent, slots) && s.rwch != [] && s.srch == []
    ensures Staged(t, sent, slots) && t.rwch == s.rwch[1..] && t.srch == [] && t.done == s.done && t.rrch == s.rrch
    ensures t.workers == s.workers && |t.swch| == |s.swch| + 1 && t.calls == s.calls + [LuaHost.Request]
  {
    t := Forward(s, Server, sent, slots);
    t := Forward(t, Server, sent, slots);
    t := Forward(t, Server, sent, slots);
    t := Forward(t, Server, sent, slots);
    t := Forward(t, Server, sent, slots);
    t := Forward(t, Server, sent, slots);
  }

  /** Then the server starts all coroutines. */
  lemma AskAll(s: State, sent: seq<int>, slots: seq<Record>) returns (t: State)
    requires Staged(s, sent, slots) && s.workers == [] && s.srch == [] && s.done == [] && s.rrch == [] && s.calls == []
    ensures Staged(t, sent, slots) && t.rwch == [] && t.workers == [] && t.srch == [] && t.done == [] && t.rrch == []
    ensures LuaHost.DepthOf(t.calls) == 1
  {
    t := s;
    while t.rwch != []
      invariant Staged(t, sent, slots) && t.workers == [] && t.srch == [] && t.done == [] && t.rrch == []
      invariant LuaHost.DepthOf(t.calls) == 1
      decreases |t.rwch|
    {
      t := AskOne(t, sent, slots);
    }
  }

  /** The parts of the state that starting workers and their answers leave alone. */
  ghost predicate SameFront(s: State, t: State) {
    t.rwch == s.rwch && t.done == s.done && t.rrch == s.rrch && t.calls == s.calls
  }

  lemma SpawnOne(s: State, sent: seq<int>, slots: seq<Record>) returns (t: State)
    requires Staged(s, sent, slots) && s.swch != []
    ensures Staged(t, sent, slots) && t.swch == s.swch[1..] && t.srch == s.srch && SameFront(s, t)
    ensures |t.workers| == |s.workers| + 1 && t.workers[..|s.workers|] == s.workers && !t.workers[|s.workers|].answered
  {
    t := Forward(s, Inner(false), sent, slots);
    t := Forward(t, Inner(false), sent, slots);
  }

  /** Then the inner server starts all workers. */
  lemma SpawnAll(s: State, sent: seq<int>, slots: seq<Record>) returns (t: State)
    requires Staged(s, sent, slots) && s.rwch == [] && s.srch == [] && s.done == []
    ensures Staged(t, sent, slots) && t.swch == [] && t.srch == [] && SameFront(s, t)
    ensures multiset(Values(Busy(t.workers))) == multiset(sent)
  {
    t := s;
    while t.swch != []
      invariant Staged(t, sent, slots) && t.srch == [] && SameFront(s, t)
      decreases |t.swch|
    {
      t := SpawnOne(t, sent, slots);
    }
    AllBusy(t, sent, slots);
  }

  lemma AllBusy(s: State, sent: seq<int>, slots: seq<Record>)
    requires Staged(s, sent, slots) && s.rwch == [] && s.swch == [] && s.srch == [] && s.done == []
    ensures multiset(Values(Busy(s.workers))) == multiset(sent)
  {
    ThreadedInv(s, sent, slots);
    assert s.script.counter == |sent|;
    assert multiset(Busy(s.workers)) == InFlight(s) == multiset(Issued(sent, |sent|));
    SameValues(Busy(s.workers), Issued(sent, |sent|));
    ValuesOfIssued(sent, |sent|);
    assert sent[..|sent|] == sent;
  }

  // ---------- answers in any order ----------

  /** A busy worker with a given value. */
  lemma {:induction false} PickWorker(ws: seq<Worker>, v: int) returns (k: nat)
    requires v in Values(Busy(ws))
    ensures k < |ws| && !ws[k].answered && ws[k].started.value == v
  {
    var n := |ws| - 1;
    if !ws[n].answered && ws[n].started.value == v {
      k := n;
    } else {
      var i :| 0 <= i < |Busy(ws)| && Values(Busy(ws))[i] == v;
      assert Busy(ws)[i] == Busy(ws[..n])[i];
      assert Values(Busy(ws[..n]))[i] == v;
      k := PickWorker(ws[..n], v);
    }
  }

  lemma OneLessBusy(ws: seq<Worker>, k: nat)
    requires k < |ws| && !ws[k].answered
    ensures multiset(Values(Busy(ws[k := ws[k].(answered := true)]))) + multiset{ws[k].started.value} ==
            multiset(Values(Busy(ws)))
  {
    var left, r := Busy(ws[k := ws[k].(answered := true)]), ws[k].started;
    AnswerLeavesBusy(ws, k);
    assert multiset(left + [r]) == multiset(Busy(ws));
    SameValues(left + [r], Busy(ws));
    assert Values(left + [r]) == Values(left) + [r.value];
  }

  /** Any worker that has not answered may be the next one to answer. */
  lemma AnswerOne(s: State, v: int, sent: seq<int>, slots: seq<Record>) returns (t: State)
    requires Staged(s, sent, slots) && v in Values(Busy(s.workers))
    ensures Staged(t, sent, slots) && t.swch == s.swch && SameFront(s, t)
    ensures Values(t.srch) == Values(s.srch) + [v]
    ensures multiset(Values(Busy(t.workers))) + multiset{v} == multiset(Values(Busy(s.workers)))
  {
    var k := PickWorker(s.workers, v);
    ThreadedInv(s, sent, slots);
    t := Forward(s, Work(k), sent, slots);
    OneLessBusy(s.workers, k);
    assert t.srch == s.srch + [s.workers[k].started];
  }

  lemma TakeFirst(out: seq<int>, busy: seq<int>)
    requires out != [] && multiset(busy) == multiset(out)
    ensures out[0] in busy && multiset(busy) == multiset(out[1..]) + multiset{out[0]}
  {
    assert out == [out[0]] + out[1..];
    assert out[0] in multiset(busy);
  }

  lemma PutFirst(front: seq<int>, out: seq<int>)
    requires out != []
    ensures front + [out[0]] + out[1..] == front + out
  {
  }

  /** The workers answer in the order `out`. */
  lemma {:induction false} AnswerAll(s: State, sent: seq<int>, slots: seq<Record>, out: seq<int>) returns (t: State)
    requires Staged(s, sent, slots) && s.swch == []
    requires multiset(Values(Busy(s.workers))) == multiset(out)
    ensures Staged(t, sent, slots) && t.swch == [] && SameFront(s, t) && Values(t.srch) == Values(s.srch) + out
    decreases |out|
  {
    t := s;
    if out != [] {
      TakeFirst(out, Values(Busy(s.workers)));
      PutFirst(Values(s.srch), out);
      t := AnswerOne(s, out[0], sent, slots);
      Cancel(multiset(Values(Busy(t.workers))), multiset(out[1..]), out[0]);
      t := AnswerAll(t, sent, slots, out[1..]);
    }
  }

  // ---------- results back to the client ----------

  lemma TakeResponse(s: State, sent: seq<int>, slots: seq<Record>) returns (t: State)
    requires Staged(s, sent, slots) && s.rwch == [] && s.srch != []
    ensures Threaded(t, sent, slots) && t == s.(server := GotResp(s.srch[0]), srch := s.srch[1..])
  {
    t := Forward(s, Server, sent, slots);
    t := Forward(t, Server, sent, slots);
  }

  lemma PassOne(s: State, sent: seq<int>, slots: seq<Record>) returns (t: State)
    requires Staged(s, sent, slots) && s.rwch == [] && s.swch == [] && s.srch != []
    ensures Staged(t, sent, slots) && t.rwch == [] && t.swch == [] && t.srch == s.srch[1..]
    ensures t.rrch == s.rrch + [s.srch[0].value] && t.calls == s.calls + [LuaHost.Response]
  {
    t := TakeResponse(s, sent, slots);
    ThreadedInv(t, sent, slots);
    LookupHits(t);
    t := Forward(t, Server, sent, slots);
    t := Forward(t, Server, sent, slots);
    t := Forward(t, Server, sent, slots);
  }

  lemma PassedOn(rrch: seq<int>, srch: seq<Record>)
    requires srch != []
    ensures rrch + [srch[0].value] + Values(srch[1..]) == rrch + Values(srch)
  {
    assert Values(srch) == [srch[0].value] + Values(srch[1..]);
  }

  lemma PassAll(s: State, sent: seq<int>, slots: seq<Record>) returns (t: State)
    requires Staged(s, sent, slots) && s.rwch == [] && s.swch == [] && s.rrch == []
    ensures Staged(t, sent, slots) && t.rwch == [] && t.swch == [] && t.srch == [] && t.rrch == Values(s.srch)
  {
    t := s;
    while t.srch != []
      invariant Staged(t, sent, slots) && t.rwch == [] && t.swch == [] && t.rrch + Values(t.srch) == Values(s.srch)
      decreases |t.srch|
    {
      ghost var u := t;
      t := PassOne(t, sent, slots);
      PassedOn(u.rrch, u.srch);
    }
  }

  /** The client is reading; `out` is what it has and what is still in its pipe. */
  ghost predicate Collecting(s: State, t: State, out: seq<int>, i: nat) {
    i <= |out| == |t.buf| && t == s.(client := Reading(i), buf := t.buf, rrch := out[i..]) && t.buf[..i] == out[..i]
  }

  lemma CollectOne(s: State, t: State, out: seq<int>, i: nat)
    requires Collecting(s, t, out, i) && i < |out|
    ensures ClientEnabled(t) && Collecting(s, ClientNext(t), out, i + 1)
  {
    var u := ClientNext(t);
    assert u.buf[..i + 1] == t.buf[..i] + [out[i]];
    assert out[..i + 1] == out[..i] + [out[i]];
  }

  /** The client reads all results and ends. */
  lemma CollectAll(s: State, sent: seq<int>, slots: seq<Record>, out: seq<int>) returns (t: State)
    requires Staged(s, sent, slots) && |out| == |sent| && s.rrch == out
    ensures Threaded(t, sent, slots) && t == s.(client := ClientEnd, buf := out, rrch := [])
  {
    ThreadedInv(s, sent, slots);
    t := Forward(s, Client, sent, slots);
    var i := 0;
    while i < |out|
      invariant 0 <= i <= |out| && Threaded(t, sent, slots) && Collecting(s, t, out, i)
    {
      CollectOne(s, t, out, i);
      t := Forward(t, Client, sent, slots);
      i := i + 1;
    }
    assert t.buf == t.buf[..i] == out;
    t := Forward(t, Client, sent, slots);
  }

  /** Then the end of file goes through the pipes. */
  lemma CloseAll(s: State, sent: seq<int>, slots: seq<Record>) returns (t: State)
    requires Threaded(s, sent, slots) && s.client.ClientEnd? && s.server.Select? && s.inner.Idle?
    requires s.rwch == [] && s.swch == []
    ensures Threaded(t, sent, slots) && AllEnded(t) && t.buf == s.buf
  {
    t := Forward(s, Server, sent, slots);
    t := Forward(t, Server, sent, slots);
    t := Forward(t, Inner(false), sent, slots);
  }

  // ---------- the theorems ----------

  /** All requests are started, all are answered in the order `out`. */
  lemma Answered(sent: seq<int>, slots: seq<Record>, out: seq<int>) returns (s: State)
    requires |sent| <= |slots| && multiset(out) == multiset(sent)
    ensures Staged(s, sent, slots) && s.rwch == [] && s.swch == [] && s.rrch == []
    ensures Values(s.srch) == out && LuaHost.DepthOf(s.calls) == 1
  {
    s := SendAll(sent, slots);
    s := AskAll(s, sent, slots);
    s := SpawnAll(s, sent, slots);
    s := AnswerAll(s, sent, slots, out);
  }

  /** The workers really answer in any order: every permutation of the values is what the client holds at
      the end of some run in which every request has a worker thread of its own. */
  lemma EveryOrderOccurs(sent: seq<int>, slots: seq<Record>, out: seq<int>)
    requires |sent| <= |slots| && multiset(out) == multiset(sent)
    ensures exists run: seq<Action> ::
      && Legal(Start(sent, slots), run) && Inner(true) !in run
      && AllEnded(Exec(Start(sent, slots), run)) && Exec(Start(sent, slots), run).buf == out
  {
    assert |out| == |multiset(out)| == |multiset(sent)| == |sent|;
    var s := Answered(sent, slots, out);
    s := PassAll(s, sent, slots);
    s := CollectAll(s, sent, slots, out);
    s := CloseAll(s, sent, slots);
  }

  /** Requests and responses overlap: the first result can be on its way to the client when only the
      second request has been read. */
  lemma RequestsOverlapResponses(sent: seq<int>, slots: seq<Record>) returns (s: State)
    requires 2 <= |sent| <= |slots|
    ensures Reachable(s, sent, slots) && s.rrch == [sent[0]] && s.rwch == sent[2..]
  {
    s := SendAll(sent, slots);
    s := AskOne(s, sent, slots);
    s := SpawnOne(s, sent, slots);
    s := FirstAnswer(s, sent, slots);
    s := AskAndPass(s, sent, slots);
    ThreadedInv(s, sent, slots);
  }

  lemma FirstAnswer(s: State, sent: seq<int>, slots: seq<Record>) returns (t: State)
    requires Staged(s, sent, slots) && 2 <= |sent| && s.rwch == sent[1..] && s.swch == [] && s.srch == [] && s.rrch == []
    requires |s.workers| == 1 && !s.workers[0].answered
    ensures Staged(t, sent, slots) && t.rwch == sent[1..] && |t.srch| == 1 && t.srch[0].value == sent[0] && t.rrch == []
  {
    ThreadedInv(s, sent, slots);
    Count(s);
    var r := s.workers[0].started;
    assert s.workers == s.workers[..0] + [s.workers[0]] && Busy(s.workers[..0]) == [];
    assert r in multiset(Busy(s.workers));
    InFlightNotDone(s, r);
    t := Forward(s, Work(0), sent, slots);
  }

  /** One round of the server's loop in which both pipes are readable. */
  lemma AskAndPass(s: State, sent: seq<int>, slots: seq<Record>) returns (t: State)
    requires Staged(s, sent, slots) && s.rwch != [] && s.srch != []
    ensures Threaded(t, sent, slots) && t.rwch == s.rwch[1..] && t.rrch == s.rrch + [s.srch[0].value]
  {
    t := Forward(s, Server, sent, slots);
    t := AskInRound(t, sent, slots);
    t := PassInRound(t, sent, slots);
  }

  lemma PassInRound(s: State, sent: seq<int>, slots: seq<Record>) returns (t: State)
    requires Threaded(s, sent, slots) && s.server == Ready(false, true) && s.srch != []
    ensures Threaded(t, sent, slots) && t.rwch == s.rwch && t.rrch == s.rrch + [s.srch[0].value]
  {
    t := Forward(s, Server, sent, slots);
    ThreadedInv(t, sent, slots);
    LookupHits(t);
    ThreadedClean(t, sent, slots);
    t := Forward(t, Server, sent, slots);
  }

  lemma ThreadedClean(s: State, sent: seq<int>, slots: seq<Record>)
    requires Threaded(s, sent, slots) && s.server.GotResp?
    ensures !s.client.ClientEnd?
  {
    ThreadedInv(s, sent, slots);
    StepIsClean(s, Server);
  }

  lemma AskInRound(s: State, sent: seq<int>, slots: seq<Record>) returns (t: State)
    requires Threaded(s, sent, slots) && s.server == Ready(true, true) && s.rwch != [] && !s.inner.InnerEnd?
    ensures Threaded(t, sent, slots) && t.server == Ready(false, true)
    ensures t.rwch == s.rwch[1..] && t.rrch == s.rrch && t.srch == s.srch
  {
    t := Forward(s, Server, sent, slots);
    t := Forward(t, Server, sent, slots);
    t := Forward(t, Server, sent, slots);
    t := Forward(t, Server, sent, slots);
  }

  /** A thread waits only where the program blocks: the client for a result, the server at a select that
      has nothing to report, the inner server on its empty pipe; a worker waits for nobody. */
  lemma WaitsExactly(s: State, sent: seq<int>, slots: seq<Record>)
    requires Reachable(s, sent, slots)
    ensures !s.client.ClientEnd? ==>
      (Enabled(s, Client) <==> !(s.client.Reading? && s.client.i < |sent| && s.rrch == [] && !s.server.ServerEnd?))
    ensures !s.server.ServerEnd? ==>
      (Enabled(s, Server) <==>
        !(s.server.Select? && s.rwch == [] && s.srch == [] && !s.client.ClientEnd? && !s.inner.InnerEnd?))
    ensures !s.inner.InnerEnd? ==>
      forall fails: bool :: Enabled(s, Inner(fails)) <==> !(s.inner.Idle? && s.swch == [] && !s.server.ServerEnd?)
    ensures forall k: nat :: Enabled(s, Work(k)) <==> k < |s.workers| && !s.workers[k].answered
  {
    ReachableInv(s, sent, slots);
  }

  /** The client's values go out in chunks of 4096 bytes, 1024 ints, each at once. */
  lemma ChunksAreWhole(s: State)
    requires s.client.Writing? && s.client.off < |s.buf| && !s.server.ServerEnd?
    ensures var end := if |s.buf| - s.client.off < 1024 then |s.buf| else s.client.off + 1024;
      ClientNext(s) == s.(client := Writing(end), rwch := s.rwch + s.buf[s.client.off..end])
  {
  }

  /** The bound on the slots is reached: with the requests served first, the last response finds the
      leftovers of all the others on the stack. */
  lemma PeakIsReached(sent: seq<int>, slots: seq<Record>) returns (s: State)
    requires 0 < |sent| <= |slots|
    ensures Reachable(s, sent, slots) && s.server.GotResp?
    ensures LuaHost.PeakDuring(|s.stack|, LuaHost.Response) == |sent| + 5
  {
    s := Answered(sent, slots, sent);
    while |s.srch| > 1
      invariant Staged(s, sent, slots) && s.rwch == [] && s.swch == [] && s.srch != []
      invariant |s.srch| + LuaHost.DepthOf(s.calls) == |sent| + 1
      decreases |s.srch|
    {
      s := PassOne(s, sent, slots);
    }
    s := TakeResponse(s, sent, slots);
    ThreadedInv(s, sent, slots);
    ResourcesSuffice(s, sent, slots);
  }

  /** The slots Lua guarantees are enough in every interleaving if and only if there are at most 15 values
      (the program has 10). */
  lemma MinStackIff(sent: seq<int>, slots: seq<Record>)
    requires |sent| <= |slots|
    ensures |sent| <= 15 <==>
      forall s: State :: Reachable(s, sent, slots) ==>
        && (s.server.GotReq? ==> LuaHost.PeakDuring(|s.stack|, LuaHost.Request) <= LuaHost.LUA_MINSTACK)
        && (s.server.GotResp? ==> LuaHost.PeakDuring(|s.stack|, LuaHost.Response) <= LuaHost.LUA_MINSTACK)
  {
    if |sent| <= 15 {
      forall s: State | Reachable(s, sent, slots)
        ensures s.server.GotReq? ==> LuaHost.PeakDuring(|s.stack|, LuaHost.Request) <= LuaHost.LUA_MINSTACK
        ensures s.server.GotResp? ==> LuaHost.PeakDuring(|s.stack|, LuaHost.Response) <= LuaHost.LUA_MINSTACK
      {
        ResourcesSuffice(s, sent, slots);
      }
    } else {
      var s := PeakIsReached(sent, slots);
    }
  }
}
