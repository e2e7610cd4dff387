/** The theorems about whole runs of the pipeline: safety in every state, an end to every run, and what
    the end looks like. */
module PipelineRuns {
  import opened Entrance
  import opened Pipeline
  import opened PipelineSafety
  import LuaHost

  // ---------- every run ends ----------

  function ServerHops(pc: ServerPc): nat {
    match pc
    case GotReq(_, _) => 8
    case Resuming(_, _) => 7
    case GotResp(_) => 2
    case _ => 0
  }

  function ServerRank(pc: ServerPc): nat {
    match pc
    case Select => 2
    case Ready(req, resp) => if req || resp then 1 else 3
    case ServerEnd => 0
    case _ => 4
  }

  function ClientRank(pc: ClientPc): nat {
    match pc
    case Writing(_) => 2
    case Reading(_) => 1
    case ClientEnd => 0
  }

  /** The hops all values of the run still have to make. */
  function Hops(s: State): nat
    requires Off(s) <= |s.sent|
  {
    10 * (|s.sent| - Off(s)) + 9 * |s.rwch| + ServerHops(s.server) + 6 * |s.swch| + (if s.inner.Got? then 5 else 0)
    + 4 * |Busy(s.workers)| + 3 * |s.srch| + |s.rrch|
  }

  function Measure(s: State): nat
    requires Off(s) <= |s.sent|
  {
    8 * Hops(s) + ServerRank(s.server) + ClientRank(s.client) + if s.inner.InnerEnd? then 0 else 1
  }

  lemma ClientDescends(s: State)
    requires Streams(s) && Clean(s, Client) && Off(ClientNext(s)) <= |ClientNext(s).sent|
    ensures Measure(ClientNext(s)) < Measure(s)
  {
    ClientTouches(s);
  }

  /** A server step between two records keeps every pipe and lowers its rank; the others move a record. */
  lemma IdleDescends(s: State)
    requires Off(s) <= |s.sent| && Clean(s, Server) && Idles(s)
    ensures Off(ServerNext(s)) <= |ServerNext(s).sent| && Measure(ServerNext(s)) < Measure(s)
  {
  }

  lemma ServerDescends(s: State)
    requires Off(s) <= |s.sent| && Clean(s, Server)
    ensures Off(ServerNext(s)) <= |ServerNext(s).sent| && Measure(ServerNext(s)) < Measure(s)
  {
    if Idles(s) { IdleDescends(s); }
  }

  lemma InnerDescends(s: State, createFails: bool)
    requires Off(s) <= |s.sent| && Clean(s, Inner(createFails))
    ensures var t := InnerNext(s, createFails); Off(t) <= |t.sent| && Measure(t) < Measure(s)
  {
    var t := InnerNext(s, createFails);
    if s.inner.Got? && !createFails {
      assert t.workers[..|s.workers|] == s.workers;
      assert |Busy(t.workers)| == |Busy(s.workers)| + 1;
    }
  }

  lemma WorkDescends(s: State, k: nat)
    requires Off(s) <= |s.sent| && Clean(s, Work(k))
    ensures var t := WorkNext(s, k); Off(t) <= |t.sent| && Measure(t) < Measure(s)
  {
    var t := WorkNext(s, k);
    AnswerLeavesBusy(s.workers, k);
    assert |multiset(Busy(t.workers)) + multiset{s.workers[k].started}| == |Busy(s.workers)|;
  }

  /** Each step takes something off the weighted count of hops. */
  lemma StepDescends(s: State, a: Action)
    requires Inv(s) && Enabled(s, a)
    ensures Inv(Next(s, a)) && Measure(Next(s, a)) < Measure(s)
  {
    StepKeeps(s, a);
    StepIsClean(s, a);
    match a {
      case Client => ClientDescends(s);
      case Server => ServerDescends(s);
      case Inner(createFails) => InnerDescends(s, createFails);
      case Work(k) => WorkDescends(s, k);
    }
  }

  /** The invariant holds in every reachable state, and a run is never longer than the measure allows. */
  lemma {:induction false} RunKeeps(s: State, run: seq<Action>)
    requires Inv(s) && Legal(s, run)
    ensures Inv(Exec(s, run)) && |run| + Measure(Exec(s, run)) <= Measure(s)
    ensures Exec(s, run).sent == s.sent
    decreases |run|
  {
    if run != [] {
      StepDescends(s, run[0]);
      SentStays(s, run[0]);
      RunKeeps(Next(s, run[0]), run[1..]);
    }
  }

  lemma SentStays(s: State, a: Action)
    requires Enabled(s, a)
    ensures Next(s, a).sent == s.sent
  {
    ClientTouches(s);
    ServerTouches(s);
  }

  // ---------- no state is stuck before the end ----------

  lemma {:induction false} AllAnswered(ws: seq<Worker>)
    requires forall k :: 0 <= k < |ws| ==> ws[k].answered
    ensures Busy(ws) == []
  {
    if ws != [] { AllAnswered(ws[..|ws| - 1]); }
  }

  lemma StuckIsEnd(s: State)
    requires Inv(s) && Stuck(s)
    ensures AllEnded(s)
  {
    assert !Enabled(s, Client) && !Enabled(s, Server) && !Enabled(s, Inner(false));
    forall k | 0 <= k < |s.workers| ensures s.workers[k].answered { assert !Enabled(s, Work(k)); }
    AllAnswered(s.workers);
    Count(s);
  }

  // ---------- results ----------

  lemma TakeOut(b: seq<Record>, i: nat)
    requires i < |b|
    ensures var rest := b[..i] + b[i + 1..];
      && multiset(b) == multiset(rest) + multiset{b[i]}
      && multiset(Values(b)) == multiset(Values(rest)) + multiset{b[i].value}
  {
    var front, back := b[..i], b[i + 1..];
    assert b == front + ([b[i]] + back);
    assert Values(b) == Values(front) + ([b[i].value] + Values(back));
    assert Values(front + back) == Values(front) + Values(back);
  }

  lemma Cancel<T>(x: multiset<T>, y: multiset<T>, r: T)
    requires x + multiset{r} == y + multiset{r}
    ensures x == y
  {
    assert x == x + multiset{r} - multiset{r};
  }

  lemma {:induction false} SameValues(a: seq<Record>, b: seq<Record>)
    requires multiset(a) == multiset(b)
    ensures multiset(Values(a)) == multiset(Values(b))
    decreases |a|
  {
    if a == [] {
      assert |b| == |multiset(b)| == |multiset(a)| == 0;
    } else {
      assert a[0] in multiset(b);
      var i :| 0 <= i < |b| && b[i] == a[0];
      TakeOut(a, 0);
      TakeOut(b, i);
      var aRest, bRest := a[..0] + a[1..], b[..i] + b[i + 1..];
      Cancel(multiset(aRest), multiset(bRest), a[0]);
      SameValues(aRest, bRest);
    }
  }

  lemma ValuesOfIssued(sent: seq<int>, counter: nat)
    requires counter <= |sent|
    ensures Values(Issued(sent, counter)) == sent[..counter]
  {
  }

  /** The records in flight, place after place. */
  function Flying(s: State): seq<Record> {
    ServerHeld(s.server) + s.swch + InnerHeld(s.inner) + Busy(s.workers) + s.srch
  }

  lemma FlyingIsInFlight(s: State)
    ensures multiset(Flying(s)) == InFlight(s)
  {
  }

  // ---------- the theorems ----------

  /** A state of some interleaving of the threads, for the values `sent` and an array `slots` that is
      large enough for them (the program has ten of both). */
  ghost predicate Reachable(s: State, sent: seq<int>, slots: seq<Record>) {
    |sent| <= |slots| && exists run: seq<Action> :: Legal(Start(sent, slots), run) && Exec(Start(sent, slots), run) == s
  }

  lemma ReachableInv(s: State, sent: seq<int>, slots: seq<Record>)
    requires Reachable(s, sent, slots)
    ensures Inv(s) && s.sent == sent
  {
    var run :| Legal(Start(sent, slots), run) && Exec(Start(sent, slots), run) == s;
    StartInv(sent, slots);
    RunKeeps(Start(sent, slots), run);
  }

  /** How often a session's record, with its own request's value, occurs anywhere. */
  function Copies(s: State, k: int): nat
    requires 1 <= k <= |s.sent|
  {
    InFlight(s)[Record(s.sent[k - 1], k)] + multiset(s.done)[Record(s.sent[k - 1], k)]
  }

  /** Every session that was drawn is in exactly one place, once, with the value of its own request; no
      other record exists anywhere; sessions are the numbers 1 to `counter`, never drawn twice. */
  lemma OnePlaceEach(s: State, sent: seq<int>, slots: seq<Record>)
    requires Reachable(s, sent, slots)
    ensures s.sent == sent && s.script.counter <= |sent|
    ensures forall k :: 1 <= k <= s.script.counter ==> Copies(s, k) == 1
    ensures forall r :: r in InFlight(s) || r in s.done ==> 1 <= r.session <= s.script.counter && r.value == sent[r.session - 1]
  {
    ReachableInv(s, sent, slots);
    forall k | 1 <= k <= s.script.counter ensures Copies(s, k) == 1 {
      var r := Record(sent[k - 1], k);
      IssuedOnce(sent, s.script.counter, r);
      assert r in multiset(Issued(sent, s.script.counter));
      assert (InFlight(s) + multiset(s.done))[r] == 1;
    }
    forall r | r in InFlight(s) || r in s.done
      ensures 1 <= r.session <= s.script.counter && r.value == sent[r.session - 1]
    {
      if r in s.done { DoneIsIssued(s, r); } else { InFlightNotDone(s, r); }
    }
  }

  /** The results the client has stored. */
  function Collected(s: State): seq<int>
    requires s.client.Reading? ==> s.client.i <= |s.buf|
  {
    match s.client
    case Writing(_) => []
    case Reading(i) => s.buf[..i]
    case ClientEnd => s.buf
  }

  function Drawn(pc: ServerPc): seq<int> {
    if pc.GotReq? then [pc.value] else []
  }

  lemma DoneValues(s: State)
    requires Inv(s)
    ensures multiset(Values(Flying(s))) + multiset(Values(s.done)) == multiset(s.sent[..s.script.counter])
  {
    var c := s.script.counter;
    FlyingIsInFlight(s);
    assert multiset(Flying(s) + s.done) == multiset(Issued(s.sent, c));
    SameValues(Flying(s) + s.done, Issued(s.sent, c));
    ValuesOfIssued(s.sent, c);
    assert Values(Flying(s) + s.done) == Values(Flying(s)) + Values(s.done);
  }

  lemma StreamPieces(s: State)
    requires Streams(s)
    ensures s.client.Reading? ==> s.client.i <= |s.buf|
    ensures Values(s.done) == Collected(s) + s.rrch
    ensures s.sent == s.sent[..s.script.counter] + (Drawn(s.server) + s.rwch) + s.sent[Off(s)..]
  {
    var c := s.script.counter;
    DrawnFirst(s.sent, c, Off(s), Drawn(s.server), s.rwch);
    ThreeParts(s.sent, c, Off(s));
  }

  lemma DrawnFirst(all: seq<int>, c: nat, off: nat, drawn: seq<int>, unread: seq<int>)
    requires c + |drawn| <= off <= |all| && |drawn| <= 1 && (drawn != [] ==> drawn[0] == all[c])
    requires unread == all[c + |drawn|..off]
    ensures drawn + unread == all[c..off]
  {
  }

  lemma ThreeParts(all: seq<int>, c: nat, off: nat)
    requires c <= off <= |all|
    ensures all == all[..c] + all[c..off] + all[off..]
  {
  }

  /** No value is lost, invented or doubled: unsent values, unread requests, values in flight, unread
      results and collected results are together what the client sent. */
  lemma ValuesConserved(s: State, sent: seq<int>, slots: seq<Record>)
    requires Reachable(s, sent, slots)
    ensures Off(s) <= |sent| && (s.client.Reading? ==> s.client.i <= |s.buf|)
    ensures multiset(sent) ==
      multiset(sent[Off(s)..]) + multiset(s.rwch) + multiset(Drawn(s.server)) + multiset(Values(Flying(s)))
      + multiset(s.rrch) + multiset(Collected(s))
  {
    ReachableInv(s, sent, slots);
    DoneValues(s);
    StreamPieces(s);
    AddUp(sent, sent[..s.script.counter], Drawn(s.server), s.rwch, sent[Off(s)..]);
    assert multiset(Values(s.done)) == multiset(Collected(s)) + multiset(s.rrch);
    Balance(multiset(sent), multiset(sent[..s.script.counter]), multiset(Drawn(s.server)), multiset(s.rwch),
            multiset(sent[Off(s)..]), multiset(Values(Flying(s))), multiset(Collected(s)), multiset(s.rrch));
  }

  lemma Balance(all: multiset<int>, issued: multiset<int>, drawn: multiset<int>, unread: multiset<int>, unsent: multiset<int>,
                flying: multiset<int>, collected: multiset<int>, results: multiset<int>)
    requires all == issued + drawn + unread + unsent && issued == flying + (collected + results)
    ensures all == unsent + unread + drawn + flying + results + collected
  {
  }

  lemma AddUp(all: seq<int>, issued: seq<int>, drawn: seq<int>, unread: seq<int>, unsent: seq<int>)
    requires all == issued + (drawn + unread) + unsent
    ensures multiset(all) == multiset(issued) + multiset(drawn) + multiset(unread) + multiset(unsent)
  {
  }

  /** No branch that reports or hides a fault is ever reached, or can be taken next: no pipe is written after its reader is
      gone, no end of file comes early, no slot is written past the array, and whenever the server holds a
      response, its session leads to the suspended coroutine that was started for that very request. */
  lemma NoFaultEver(s: State, sent: seq<int>, slots: seq<Record>)
    requires Reachable(s, sent, slots)
    ensures s.faults == []
    ensures s.server.GotResp? ==>
      && 1 <= s.server.r.session <= |sent| && s.server.r.value == sent[s.server.r.session - 1]
      && s.server.r.session in s.script.table
      && s.script.table[s.server.r.session] == Coroutine(s.server.r.value, s.server.r.session, Suspended)
    ensures forall a: Action :: Enabled(s, a) ==> Clean(s, a)
  {
    ReachableInv(s, sent, slots);
    if s.server.GotResp? { LookupHits(s); }
    forall a: Action | Enabled(s, a) ensures Clean(s, a) { StepIsClean(s, a); }
  }

  /** The array of requests and the Lua stack suffice: each worker reads the request it was started with,
      `pos` never passes the number of requests; between calls the stack holds the handler table at index
      1 and, exactly, one leftover for each response since the last request, at most one for each value. */
  lemma ResourcesSuffice(s: State, sent: seq<int>, slots: seq<Record>)
    requires Reachable(s, sent, slots)
    ensures s.pos <= |sent| <= |s.slots|
    ensures forall i :: 0 <= i < |s.workers| ==>
      s.workers[i].slot < s.pos && s.slots[s.workers[i].slot] == s.workers[i].started
    ensures forall i, j :: 0 <= i < j < |s.workers| ==> s.workers[i].slot != s.workers[j].slot
    ensures |s.stack| == LuaHost.DepthOf(s.calls) && s.stack[0] == LuaHost.Handler
    ensures 1 <= |s.stack| <= |sent| + 1
    ensures s.server.GotReq? ==> LuaHost.PeakDuring(|s.stack|, LuaHost.Request) <= |sent| + 4
    ensures s.server.GotResp? ==> LuaHost.PeakDuring(|s.stack|, LuaHost.Response) <= |sent| + 5
  {
    ReachableInv(s, sent, slots);
    Count(s);
    LuaHost.StackHolds(LuaHost.Handler, s.calls);
    DepthBounded(s.calls);
  }

  /** When the client has ended, nothing is under way: every pipe is empty, no worker is busy, the table
      holds at most the session whose entry the server is about to clear, and the client's buffer is a
      permutation of what it sent. */
  lemma ShutdownIsQuiet(s: State, sent: seq<int>, slots: seq<Record>)
    requires Reachable(s, sent, slots) && s.client.ClientEnd?
    ensures Quiet(s) && s.rrch == []
    ensures forall k :: k in s.script.table ==> s.server == Clearing(k)
    ensures multiset(s.buf) == multiset(sent)
  {
    ReachableInv(s, sent, slots);
    ClientEndIsQuiet(s);
    assert InFlight(s) == multiset{};
    assert multiset(s.done) == multiset(Issued(sent, |sent|));
    SameValues(s.done, Issued(sent, |sent|));
    ValuesOfIssued(sent, |sent|);
    assert sent[..|sent|] == sent;
    forall k | k in s.script.table ensures s.server == Clearing(k) {
      IssuedOnce(sent, |sent|, Record(sent[k - 1], k));
      assert Record(sent[k - 1], k) in multiset(s.done);
    }
  }

  /** No run is longer than a bound linear in the number of values. */
  lemma EveryRunEnds(sent: seq<int>, slots: seq<Record>, run: seq<Action>)
    requires |sent| <= |slots| && Legal(Start(sent, slots), run)
    ensures |run| <= 80 * |sent| + 5
  {
    StartMeasure(sent, slots);
    RunBounded(Start(sent, slots), run);
  }

  lemma StartMeasure(sent: seq<int>, slots: seq<Record>)
    requires |sent| <= |slots|
    ensures Inv(Start(sent, slots)) && Measure(Start(sent, slots)) == 80 * |sent| + 5
  {
    StartInv(sent, slots);
  }

  lemma RunBounded(s: State, run: seq<Action>)
    requires Inv(s) && Legal(s, run)
    ensures |run| <= Measure(s)
  {
    RunKeeps(s, run);
  }

  /** A state in which no thread can move is the orderly end, and only that: all threads have returned,
      the client holds a permutation of what it sent, the pipes and the session table are empty. */
  lemma StuckIsOrderlyEnd(s: State, sent: seq<int>, slots: seq<Record>)
    requires Reachable(s, sent, slots)
    ensures Stuck(s) <==> AllEnded(s)
    ensures Stuck(s) ==>
      && multiset(s.buf) == multiset(sent)
      && Quiet(s) && s.rrch == [] && s.script.table == map[] && s.faults == []
  {
    ReachableInv(s, sent, slots);
    if Stuck(s) {
      StuckIsEnd(s);
    }
    if AllEnded(s) {
      ShutdownIsQuiet(s, sent, slots);
      assert forall k :: k !in s.script.table;
      forall k | 0 <= k < |s.workers| ensures s.workers[k].answered {
        if !s.workers[k].answered { UnansweredIsBusy(s.workers, k); }
      }
    }
  }

  /** The interleaving that makes the lookup interesting does occur: the worker has answered while the
      coroutine that asked is not in the table yet. */
  lemma AnswerBeforeRegistration(v: int, junk: Record)
    ensures exists s: State ::
      Reachable(s, [v], [junk]) && s.srch == [Record(v, 1)] && s.server.Registering? && s.script.table == map[]
  {
    var s0 := Start([v], [junk]);
    ReachableStart([v], [junk]);
    var s1 := Advance(s0, Client, [v], [junk]);
    var s2 := Advance(s1, Server, [v], [junk]);
    var s3 := Advance(s2, Server, [v], [junk]);
    var s4 := Advance(s3, Server, [v], [junk]);
    var s5 := Advance(s4, Server, [v], [junk]);
    var s6 := Advance(s5, Inner(false), [v], [junk]);
    var s7 := Advance(s6, Inner(false), [v], [junk]);
    var s8 := Advance(s7, Work(0), [v], [junk]);
    assert s8.srch == [Record(v, 1)] && s8.server.Registering? && s8.script.table == map[];
  }

  lemma ReachableStart(sent: seq<int>, slots: seq<Record>)
    requires |sent| <= |slots|
    ensures Reachable(Start(sent, slots), sent, slots)
  {
    assert Legal(Start(sent, slots), []);
  }

  lemma {:induction false} ExtendRun(s: State, run: seq<Action>, a: Action)
    requires Legal(s, run) && Enabled(Exec(s, run), a)
    ensures Legal(s, run + [a]) && Exec(s, run + [a]) == Next(Exec(s, run), a)
    decreases |run|
  {
    if run == [] {
      assert run + [a] == [a];
    } else {
      assert (run + [a])[1..] == run[1..] + [a];
      ExtendRun(Next(s, run[0]), run[1..], a);
    }
  }

  lemma Advance(s: State, a: Action, sent: seq<int>, slots: seq<Record>) returns (t: State)
    requires Reachable(s, sent, slots) && Enabled(s, a)
    ensures t == Next(s, a) && Reachable(t, sent, slots)
  {
    var run :| Legal(Start(sent, slots), run) && Exec(Start(sent, slots), run) == s;
    ExtendRun(Start(sent, slots), run, a);
    t := Next(s, a);
  }
}
