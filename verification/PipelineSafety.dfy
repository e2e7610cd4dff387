/** What every interleaving of the pipeline keeps, and how every run ends. */
module PipelineSafety {
  import opened Entrance
  import opened Pipeline
  import LuaHost

  // ---------- where the records are ----------

  /** The record of session k + 1: sessions are drawn in the order in which the client sent the values. */
  function Issued(sent: seq<int>, counter: nat): (rs: seq<Record>)
    requires counter <= |sent|
    ensures |rs| == counter
  {
    seq(counter, k requires 0 <= k < counter => Record(sent[k], k + 1))
  }

  function Values(rs: seq<Record>): (vs: seq<int>)
    ensures |vs| == |rs|
    ensures forall i :: 0 <= i < |rs| ==> vs[i] == rs[i].value
  {
    seq(|rs|, i requires 0 <= i < |rs| => rs[i].value)
  }

  function ServerHeld(pc: ServerPc): seq<Record> {
    match pc
    case Resuming(r, _) => [r]
    case GotResp(r) => [r]
    case _ => []
  }

  function InnerHeld(pc: InnerPc): seq<Record> {
    if pc.Got? then [pc.r] else []
  }

  /** The requests of the workers that have not answered. */
  function Busy(ws: seq<Worker>): seq<Record> {
    if ws == [] then []
    else Busy(ws[..|ws| - 1]) + if ws[|ws| - 1].answered then [] else [ws[|ws| - 1].started]
  }

  /** Every place a session can be between being drawn and its response being passed on: with the server
      thread, in the service pipe, with the inner server, with a worker, in the response pipe. */
  function InFlight(s: State): multiset<Record> {
    multiset(ServerHeld(s.server)) + multiset(s.swch) + multiset(InnerHeld(s.inner)) + multiset(Busy(s.workers)) + multiset(s.srch)
  }

  lemma {:induction false} AnswerLeavesBusy(ws: seq<Worker>, k: nat)
    requires k < |ws| && !ws[k].answered
    ensures multiset(Busy(ws[k := ws[k].(answered := true)])) + multiset{ws[k].started} == multiset(Busy(ws))
    decreases |ws|
  {
    var n := |ws| - 1;
    var us := ws[k := ws[k].(answered := true)];
    if k == n {
      assert us[..n] == ws[..n];
    } else {
      assert us[..n] == ws[..n][k := ws[k].(answered := true)];
      AnswerLeavesBusy(ws[..n], k);
    }
  }

  /** Issued records are pairwise different and known by their sessions. */
  lemma IssuedOnce(sent: seq<int>, counter: nat, r: Record)
    requires counter <= |sent|
    ensures r in Issued(sent, counter) <==> 1 <= r.session <= counter && r.value == sent[r.session - 1]
    ensures multiset(Issued(sent, counter))[r] <= 1
    decreases counter
  {
    var rs := Issued(sent, counter);
    if 1 <= r.session <= counter && r.value == sent[r.session - 1] {
      assert rs[r.session - 1] == r;
    }
    if counter > 0 {
      IssuedOnce(sent, counter - 1, r);
      assert rs == Issued(sent, counter - 1) + [rs[counter - 1]];
    }
  }

  // ---------- the invariant ----------

  function Off(s: State): nat {
    if s.client.Writing? then s.client.off else |s.sent|
  }

  function Held(s: State): nat {
    if s.server.GotReq? then 1 else 0
  }

  /** Values go out in order and come back as the results of `done`, in the order it records. */
  ghost predicate Streams(s: State) {
    && |s.buf| == |s.sent| && Off(s) <= |s.sent|
    && s.script.counter + Held(s) + |s.rwch| == Off(s)
    && s.rwch == s.sent[s.script.counter + Held(s)..Off(s)]
    && (s.server.GotReq? ==> s.server.value == s.sent[s.script.counter])
    && match s.client
       case Writing(off) => s.buf == s.sent && s.rrch == Values(s.done)
       case Reading(i) => i <= |s.buf| && s.buf[..i] + s.rrch == Values(s.done)
       case ClientEnd => s.rrch == [] && s.buf == Values(s.done)
  }

  /** Conservation: what is in flight and what is done is exactly what was issued. */
  ghost predicate Conserved(s: State)
    requires s.script.counter <= |s.sent|
  {
    InFlight(s) + multiset(s.done) == multiset(Issued(s.sent, s.script.counter))
  }

  predicate Unregistered(pc: ServerPc, k: int) {
    (pc.Resuming? || pc.Registering?) && pc.r.session == k
  }

  /** tCoroutine holds exactly the sessions that are drawn, entered and not answered, each with its own
      suspended coroutine; only the entry being cleared is dead. */
  ghost predicate TableMatches(s: State)
    requires s.script.counter <= |s.sent|
  {
    && (forall k: int :: k in s.script.table <==>
          || s.server == Clearing(k)
          || (1 <= k <= s.script.counter && Record(s.sent[k - 1], k) !in s.done && !Unregistered(s.server, k)))
    && (s.server.Clearing? ==>
          && 1 <= s.server.session <= s.script.counter
          && Record(s.sent[s.server.session - 1], s.server.session) in s.done)
    && (forall k: int :: k in s.script.table ==>
          && 1 <= k <= s.script.counter
          && s.script.table[k] == Coroutine(s.sent[k - 1], k, if s.server == Clearing(k) then Dead else Suspended))
    && (s.server.Resuming? || s.server.Registering? ==>
          && s.script.counter > 0 && s.server.r == Record(s.sent[s.script.counter - 1], s.script.counter)
          && s.server.r !in s.done)
  }

  /** The inner server has stored one slot for every record that has reached it. */
  ghost predicate SlotsCounted(s: State) {
    && s.pos + |s.swch| + |InnerHeld(s.inner)| + (if s.server.Resuming? then 1 else 0) == s.script.counter
    && |s.sent| <= |s.slots|
  }

  /** Each worker's slot is its own and still holds the request it was started with. */
  ghost predicate SlotsOwned(slots: seq<Record>, pos: nat, workers: seq<Worker>) {
    && (forall i :: 0 <= i < |workers| ==> workers[i].slot < pos <= |slots| && slots[workers[i].slot] == workers[i].started)
    && (forall i, j :: 0 <= i < j < |workers| ==> workers[i].slot != workers[j].slot)
  }

  function RespFlag(pc: ServerPc): bool {
    match pc
    case Ready(_, resp) => resp
    case GotReq(_, resp) => resp
    case Resuming(_, resp) => resp
    case Registering(_, resp, _) => resp
    case _ => false
  }

  /** Threads end in order, a readiness flag stays true until it is served, and nothing went wrong. */
  ghost predicate ThreadsInOrder(s: State) {
    && (s.inner.InnerEnd? ==> s.server.ServerEnd?)
    && (s.server.ServerEnd? ==> s.client.ClientEnd?)
    && (s.server.Ready? && s.server.req ==> RequestReadable(s))
    && (RespFlag(s.server) ==> s.srch != [])
    && (s.server.Registering? ==> s.server.ok)
    && s.faults == []
  }

  function Responses(calls: seq<LuaHost.Call>): nat {
    if calls == [] then 0 else Responses(calls[..|calls| - 1]) + if calls[|calls| - 1].Response? then 1 else 0
  }

  /** The Lua stack is what the calls so far leave on it; each response passed on is one such call. */
  ghost predicate StackMatches(s: State) {
    && s.stack == LuaHost.StackOf([LuaHost.Handler], s.calls)
    && Responses(s.calls) + (if s.server.Clearing? then 1 else 0) == |s.done|
  }

  lemma {:induction false} DepthBounded(calls: seq<LuaHost.Call>)
    ensures 1 <= LuaHost.DepthOf(calls) <= 1 + Responses(calls)
  {
    if calls != [] { DepthBounded(calls[..|calls| - 1]); }
  }

  ghost predicate Inv(s: State) {
    && Streams(s) && Conserved(s) && TableMatches(s) && ThreadsInOrder(s) && StackMatches(s)
    && SlotsCounted(s) && SlotsOwned(s.slots, s.pos, s.workers)
  }

  lemma StartInv(sent: seq<int>, slots: seq<Record>)
    requires |sent| <= |slots|
    ensures Inv(Start(sent, slots))
  {
    var s := Start(sent, slots);
    assert InFlight(s) == multiset{} && Issued(sent, 0) == [];
    assert s.rwch == sent[0..0];
  }

  // ---------- consequences of conservation ----------

  /** A record in flight is the issued record of its session and is not done. */
  lemma InFlightNotDone(s: State, r: Record)
    requires s.script.counter <= |s.sent| && Conserved(s) && r in InFlight(s)
    ensures 1 <= r.session <= s.script.counter && r.value == s.sent[r.session - 1] && r !in s.done
  {
    IssuedOnce(s.sent, s.script.counter, r);
    assert InFlight(s)[r] + multiset(s.done)[r] == multiset(Issued(s.sent, s.script.counter))[r] <= 1;
    assert r in s.done ==> r in multiset(s.done);
  }

  lemma DoneIsIssued(s: State, r: Record)
    requires s.script.counter <= |s.sent| && Conserved(s) && r in s.done
    ensures 1 <= r.session <= s.script.counter && r.value == s.sent[r.session - 1]
  {
    IssuedOnce(s.sent, s.script.counter, r);
    assert r in multiset(s.done);
    assert r in multiset(Issued(s.sent, s.script.counter));
  }

  lemma Count(s: State)
    requires s.script.counter <= |s.sent| && Conserved(s)
    ensures |InFlight(s)| + |s.done| == s.script.counter
    ensures |InFlight(s)| == |ServerHeld(s.server)| + |s.swch| + |InnerHeld(s.inner)| + |Busy(s.workers)| + |s.srch|
  {
    assert |InFlight(s) + multiset(s.done)| == |InFlight(s)| + |s.done|;
  }

  /** Nothing is left anywhere: no value, no record, no busy worker. */
  ghost predicate Quiet(s: State) {
    && s.rwch == [] && s.swch == [] && s.srch == []
    && ServerHeld(s.server) == [] && !s.server.GotReq? && !s.inner.Got? && Busy(s.workers) == []
  }

  lemma ClientEndIsQuiet(s: State)
    requires Streams(s) && Conserved(s) && s.client.ClientEnd?
    ensures s.script.counter == |s.sent| == |s.done| && Quiet(s)
  {
    Count(s);
  }

  // ---------- every step keeps the invariant ----------

  /** The step can be taken and runs into none of the branches that record a fault. */
  ghost predicate Clean(s: State, a: Action) {
    Enabled(s, a) &&
    match a
    case Client =>
      && (s.client.Writing? && s.client.off < |s.buf| ==> !s.server.ServerEnd?)
      && (s.client.Reading? && s.client.i < |s.buf| ==> s.rrch != [])
    case Server =>
      && (s.server.Resuming? ==> !s.inner.InnerEnd?)
      && (s.server.GotResp? ==>
            && s.server.r.session in s.script.table && s.script.table[s.server.r.session].status == Suspended
            && !s.client.ClientEnd?)
    case Inner(createFails) => s.inner.Got? ==> s.pos < |s.slots| && (createFails ==> !s.server.ServerEnd?)
    case Work(k) => s.workers[k].slot < |s.slots| && !s.server.ServerEnd? && !s.inner.InnerEnd?
  }

  lemma SendStreams(s: State)
    requires Streams(s) && s.client.Writing? && !s.server.ServerEnd?
    ensures Streams(ClientNext(s))
  {
    var t := ClientNext(s);
    if s.client.off < |s.buf| {
      assert t.rwch == s.sent[s.script.counter + Held(s)..Off(t)];
    }
  }

  lemma CollectStreams(s: State)
    requires Streams(s) && s.client.Reading? && s.client.i < |s.buf| && s.rrch != []
    ensures Streams(ClientNext(s))
  {
    var t, i := ClientNext(s), s.client.i;
    assert t.buf[..i + 1] == s.buf[..i] + [s.rrch[0]];
    assert t.buf[..i + 1] + t.rrch == s.buf[..i] + s.rrch;
  }

  lemma ClientStreams(s: State)
    requires Streams(s) && Clean(s, Client) && |s.done| <= |s.sent|
    ensures Streams(ClientNext(s))
  {
    if s.client.Writing? {
      if s.client.off < |s.buf| { SendStreams(s); }
    } else if s.client.i < |s.buf| {
      CollectStreams(s);
    } else {
      assert s.buf[..s.client.i] == s.buf && |s.buf + s.rrch| == |s.done|;
      assert s.buf + s.rrch == s.buf;
    }
  }

  lemma ReadRequestStreams(s: State)
    requires Streams(s) && s.server.Ready? && s.server.req && s.rwch != []
    ensures Streams(ServerNext(s))
  {
    var t := ServerNext(s);
    assert t.rwch == t.sent[t.script.counter + Held(t)..Off(t)];
  }

  lemma ResumeStreams(s: State)
    requires Streams(s) && Clean(s, Server) && s.server.GotResp?
    ensures Streams(ServerNext(s))
  {
    var t, v := ServerNext(s), s.server.r.value;
    assert t.rrch == s.rrch + [v] && Values(t.done) == Values(s.done) + [v];
    if s.client.Reading? {
      assert t.buf[..s.client.i] + t.rrch == s.buf[..s.client.i] + s.rrch + [v];
    }
  }

  /** Steps that touch neither the client's buffer nor its pipes. */
  lemma SameStreams(s: State, t: State)
    requires Streams(s) && t.sent == s.sent && t.client == s.client && t.buf == s.buf
    requires t.rwch == s.rwch && t.rrch == s.rrch && t.done == s.done
    requires t.script.counter + Held(t) == s.script.counter + Held(s) && !t.server.GotReq?
    ensures Streams(t)
  {
  }

  lemma ServerStreams(s: State)
    requires Streams(s) && Clean(s, Server)
    ensures Streams(ServerNext(s))
  {
    if s.server.GotResp? {
      ResumeStreams(s);
    } else if s.server.Ready? && s.server.req && s.rwch != [] {
      ReadRequestStreams(s);
    } else {
      SameStreams(s, ServerNext(s));
    }
  }

  lemma OtherStreams(s: State, a: Action)
    requires Streams(s) && Clean(s, a) && (a.Inner? || a.Work?)
    ensures Streams(Next(s, a))
  {
  }

  /** What the server does to the records when it draws a session, writes a record, and passes on a result. */
  lemma ServerMoves(s: State)
    requires Clean(s, Server)
    ensures var t := ServerNext(s);
      && t.sent == s.sent && t.inner == s.inner && t.workers == s.workers
      && match s.server
         case GotReq(value, _) =>
           && t.script.counter == s.script.counter + 1 && t.swch == s.swch && t.srch == s.srch && t.done == s.done
           && ServerHeld(t.server) == [Record(value, s.script.counter + 1)]
         case Resuming(r, _) =>
           && t.script.counter == s.script.counter && t.swch == s.swch + [r] && t.srch == s.srch && t.done == s.done
           && ServerHeld(t.server) == []
         case GotResp(r) =>
           && t.script.counter == s.script.counter && t.swch == s.swch && t.srch == s.srch && t.done == s.done + [r]
           && ServerHeld(t.server) == []
         case _ => true
  {
  }

  lemma IssueConserved(s: State, t: State, r: Record)
    requires s.script.counter < |s.sent| && t.sent == s.sent && t.script.counter == s.script.counter + 1
    requires Conserved(s) && r == Record(s.sent[s.script.counter], s.script.counter + 1)
    requires t.inner == s.inner && t.workers == s.workers && t.swch == s.swch && t.srch == s.srch && t.done == s.done
    requires ServerHeld(s.server) == [] && ServerHeld(t.server) == [r]
    ensures Conserved(t)
  {
    assert Issued(s.sent, s.script.counter + 1) == Issued(s.sent, s.script.counter) + [r];
    assert InFlight(t) == multiset{r} + InFlight(s);
  }

  lemma WriteConserved(s: State, t: State, r: Record)
    requires s.script.counter == t.script.counter <= |s.sent| && t.sent == s.sent && Conserved(s)
    requires t.inner == s.inner && t.workers == s.workers && t.srch == s.srch && t.done == s.done
    requires ServerHeld(s.server) == [r] && ServerHeld(t.server) == [] && t.swch == s.swch + [r]
    ensures Conserved(t)
  {
    assert InFlight(t) == InFlight(s);
  }

  lemma ResumeConserved(s: State, t: State, r: Record)
    requires s.script.counter == t.script.counter <= |s.sent| && t.sent == s.sent && Conserved(s)
    requires t.inner == s.inner && t.workers == s.workers && t.swch == s.swch && t.srch == s.srch
    requires ServerHeld(s.server) == [r] && ServerHeld(t.server) == [] && t.done == s.done + [r]
    ensures Conserved(t)
  {
    assert InFlight(s) == multiset{r} + InFlight(t);
  }

  lemma ReadResponseConserved(s: State)
    requires s.script.counter <= |s.sent| && Conserved(s) && s.server == Ready(false, true) && s.srch != []
    ensures Conserved(ServerNext(s))
  {
    var t := ServerNext(s);
    assert s.srch == [s.srch[0]] + t.srch;
    assert InFlight(t) == InFlight(s);
  }

  /** The server steps that move no record. */
  predicate Idles(s: State) {
    match s.server
    case Select => true
    case Ready(req, resp) => req || s.srch == [] || !resp
    case Registering(_, _, _) => true
    case Clearing(_) => true
    case _ => false
  }

  lemma IdleConserved(s: State)
    requires s.script.counter <= |s.sent| && Conserved(s) && Idles(s)
    ensures ServerNext(s).script.counter <= |ServerNext(s).sent| && Conserved(ServerNext(s))
  {
    var t := ServerNext(s);
    assert ServerHeld(t.server) == ServerHeld(s.server);
    assert t.sent == s.sent && t.script.counter == s.script.counter && t.done == s.done && t.swch == s.swch;
    assert t.inner == s.inner && t.workers == s.workers && t.srch == s.srch;
    SameFlight(s, t);
  }

  lemma ServerConserved(s: State)
    requires s.script.counter <= |s.sent| && Conserved(s) && Clean(s, Server)
    requires s.server.GotReq? ==> s.script.counter < |s.sent| && s.server.value == s.sent[s.script.counter]
    ensures ServerNext(s).script.counter <= |ServerNext(s).sent| && Conserved(ServerNext(s))
  {
    if Idles(s) {
      IdleConserved(s);
    } else {
      ServerMoves(s);
      match s.server {
        case Ready(_, _) => ReadResponseConserved(s);
        case GotReq(value, _) => IssueConserved(s, ServerNext(s), Record(value, s.script.counter + 1));
        case Resuming(r, _) => WriteConserved(s, ServerNext(s), r);
        case GotResp(r) => ResumeConserved(s, ServerNext(s), r);
      }
    }
  }

  lemma TakeConserved(s: State)
    requires s.script.counter <= |s.sent| && Conserved(s) && s.inner.Idle? && s.swch != []
    ensures Conserved(InnerNext(s, false))
  {
    var t := InnerNext(s, false);
    assert s.swch == [s.swch[0]] + t.swch;
    assert InFlight(t) == InFlight(s);
  }

  lemma SpawnConserved(s: State)
    requires s.script.counter <= |s.sent| && Conserved(s) && s.inner.Got? && s.pos < |s.slots|
    ensures Conserved(InnerNext(s, false))
  {
    var t := InnerNext(s, false);
    assert t.workers[..|s.workers|] == s.workers;
    assert Busy(t.workers) == Busy(s.workers) + [s.inner.r];
    assert InFlight(t) == InFlight(s);
  }

  lemma AnswerConserved(s: State)
    requires s.script.counter <= |s.sent| && Conserved(s) && s.inner.Got? && s.pos < |s.slots| && !s.server.ServerEnd?
    ensures Conserved(InnerNext(s, true))
  {
    assert InFlight(InnerNext(s, true)) == InFlight(s);
  }

  /** The client works on its own variables and its two pipes only. */
  lemma ClientTouches(s: State)
    ensures ClientNext(s) == s.(client := ClientNext(s).client, buf := ClientNext(s).buf, rwch := ClientNext(s).rwch,
                                rrch := ClientNext(s).rrch, faults := ClientNext(s).faults)
  {
  }

  lemma ServerTouches(s: State)
    ensures var t := ServerNext(s); t.slots == s.slots && t.pos == s.pos && t.workers == s.workers && t.sent == s.sent
  {
  }

  lemma ClientConserved(s: State)
    requires s.script.counter <= |s.sent| && Conserved(s)
    ensures ClientNext(s).script.counter <= |ClientNext(s).sent| && Conserved(ClientNext(s))
  {
    ClientTouches(s);
    SameFlight(s, ClientNext(s));
  }

  lemma InnerConserved(s: State, createFails: bool)
    requires s.script.counter <= |s.sent| && Conserved(s) && Clean(s, Inner(createFails))
    ensures Conserved(InnerNext(s, createFails))
  {
    if s.inner.Got? {
      if createFails { AnswerConserved(s); } else { SpawnConserved(s); }
    } else if s.swch != [] {
      TakeConserved(s);
    } else {
      SameFlight(s, InnerNext(s, createFails));
    }
  }

  lemma WorkConserved(s: State, k: nat)
    requires s.script.counter <= |s.sent| && Conserved(s) && WorkEnabled(s, k) && !s.server.ServerEnd? && !s.inner.InnerEnd?
    requires s.workers[k].slot < |s.slots| && s.slots[s.workers[k].slot] == s.workers[k].started
    ensures Conserved(WorkNext(s, k))
  {
    var t := WorkNext(s, k);
    AnswerLeavesBusy(s.workers, k);
    assert InFlight(t) == InFlight(s);
  }

  /** Steps that move no record. */
  lemma SameFlight(s: State, t: State)
    requires s.script.counter <= |s.sent| && Conserved(s)
    requires t.sent == s.sent && t.script.counter == s.script.counter && t.done == s.done
    requires ServerHeld(t.server) == ServerHeld(s.server) && t.swch == s.swch && InnerHeld(t.inner) == InnerHeld(s.inner)
    requires t.workers == s.workers && t.srch == s.srch
    ensures Conserved(t)
  {
    assert InFlight(t) == InFlight(s);
  }

  lemma IssueTable(s: State)
    requires s.server.GotReq? && s.script.counter < |s.sent| && TableMatches(s)
    requires s.server.value == s.sent[s.script.counter]
    requires forall r :: r in s.done ==> r.session <= s.script.counter
    ensures TableMatches(ServerNext(s))
  {
  }

  lemma ResumeTable(s: State)
    requires s.script.counter <= |s.sent| && TableMatches(s) && Clean(s, Server) && s.server.GotResp?
    requires var r := s.server.r; 1 <= r.session <= s.script.counter && r.value == s.sent[r.session - 1]
    ensures TableMatches(ServerNext(s))
  {
  }

  lemma RegisterTable(s: State)
    requires s.script.counter <= |s.sent| && TableMatches(s) && s.server.Registering? && s.server.ok
    ensures TableMatches(ServerNext(s))
  {
  }

  lemma ServerTable(s: State)
    requires s.script.counter <= |s.sent| && TableMatches(s) && Clean(s, Server)
    requires s.server.GotReq? ==> s.script.counter < |s.sent| && s.server.value == s.sent[s.script.counter]
    requires forall r :: r in s.done ==> r.session <= s.script.counter
    requires s.server.GotResp? ==>
      1 <= s.server.r.session <= s.script.counter && s.server.r.value == s.sent[s.server.r.session - 1]
    requires s.server.Registering? ==> s.server.ok
    ensures ServerNext(s).script.counter <= |ServerNext(s).sent| && TableMatches(ServerNext(s))
  {
    match s.server {
      case GotReq(_, _) => IssueTable(s);
      case GotResp(_) => ResumeTable(s);
      case Registering(_, _, _) => RegisterTable(s);
      case _ =>
    }
  }

  lemma OtherTable(s: State, a: Action)
    requires s.script.counter <= |s.sent| && TableMatches(s) && Clean(s, a) && !a.Server?
    ensures Next(s, a).script.counter <= |Next(s, a).sent| && TableMatches(Next(s, a))
  {
  }

  lemma CountKeeps(s: State, a: Action)
    requires SlotsCounted(s) && Clean(s, a)
    ensures SlotsCounted(Next(s, a))
  {
  }

  lemma InnerSlots(s: State, createFails: bool)
    requires SlotsOwned(s.slots, s.pos, s.workers) && Clean(s, Inner(createFails))
    ensures var t := InnerNext(s, createFails); SlotsOwned(t.slots, t.pos, t.workers)
  {
  }

  lemma WorkSlots(s: State, k: nat)
    requires SlotsOwned(s.slots, s.pos, s.workers) && WorkEnabled(s, k)
    ensures var t := WorkNext(s, k); SlotsOwned(t.slots, t.pos, t.workers)
  {
  }

  lemma OrderKeeps(s: State, a: Action)
    requires ThreadsInOrder(s) && Clean(s, a)
    ensures ThreadsInOrder(Next(s, a))
  {
  }

  lemma StackKeeps(s: State, a: Action)
    requires StackMatches(s) && Clean(s, a)
    ensures StackMatches(Next(s, a))
  {
  }

  /** The lookup of a response finds its own coroutine, suspended: a worker can answer before the session
      is entered, but the only thread that looks it up is the one that enters it first. */
  lemma LookupHits(s: State)
    requires s.script.counter <= |s.sent| && Conserved(s) && TableMatches(s) && s.server.GotResp?
    ensures var r := s.server.r;
      && 1 <= r.session <= s.script.counter && r.value == s.sent[r.session - 1] && r !in s.done
      && r.session in s.script.table && s.script.table[r.session] == Coroutine(r.value, r.session, Suspended)
  {
    assert s.server.r in multiset(ServerHeld(s.server));
    InFlightNotDone(s, s.server.r);
  }

  lemma UnansweredIsBusy(ws: seq<Worker>, k: nat)
    requires k < |ws| && !ws[k].answered
    ensures Busy(ws) != []
  {
    AnswerLeavesBusy(ws, k);
    assert ws[k].started in multiset(Busy(ws));
  }

  lemma NeverFaults(s: State, a: Action)
    requires ThreadsInOrder(s) && Enabled(s, a)
    requires s.client.ClientEnd? ==> Quiet(s)
    requires s.server.GotResp? ==>
      s.server.r.session in s.script.table && s.script.table[s.server.r.session].status == Suspended
    requires s.inner.Got? ==> s.pos < |s.slots|
    requires forall i :: 0 <= i < |s.workers| ==> s.workers[i].slot < |s.slots|
    ensures Clean(s, a)
  {
    if a.Work? { UnansweredIsBusy(s.workers, a.k); }
  }

  lemma StepIsClean(s: State, a: Action)
    requires Inv(s) && Enabled(s, a)
    ensures Clean(s, a)
  {
    if s.client.ClientEnd? { ClientEndIsQuiet(s); }
    if s.server.GotResp? { LookupHits(s); }
    NeverFaults(s, a);
  }

  lemma ServerKeeps(s: State)
    requires Inv(s) && Clean(s, Server)
    ensures Inv(ServerNext(s))
  {
    if s.server.GotResp? { LookupHits(s); }
    forall r | r in s.done ensures r.session <= s.script.counter { DoneIsIssued(s, r); }
    ServerStreams(s);
    ServerConserved(s);
    ServerTable(s);
    CountKeeps(s, Server);
    ServerTouches(s);
    OrderKeeps(s, Server);
    StackKeeps(s, Server);
  }

  lemma ClientKeeps(s: State)
    requires Inv(s) && Clean(s, Client)
    ensures Inv(ClientNext(s))
  {
    Count(s);
    ClientStreams(s);
    ClientConserved(s);
    OtherTable(s, Client);
    CountKeeps(s, Client);
    ClientTouches(s);
    OrderKeeps(s, Client);
    StackKeeps(s, Client);
  }

  lemma InnerKeeps(s: State, createFails: bool)
    requires Inv(s) && Clean(s, Inner(createFails))
    ensures Inv(InnerNext(s, createFails))
  {
    OtherStreams(s, Inner(createFails));
    InnerConserved(s, createFails);
    OtherTable(s, Inner(createFails));
    CountKeeps(s, Inner(createFails));
    InnerSlots(s, createFails);
    OrderKeeps(s, Inner(createFails));
    StackKeeps(s, Inner(createFails));
  }

  lemma WorkKeeps(s: State, k: nat)
    requires Inv(s) && Clean(s, Work(k))
    ensures Inv(WorkNext(s, k))
  {
    OtherStreams(s, Work(k));
    WorkConserved(s, k);
    OtherTable(s, Work(k));
    CountKeeps(s, Work(k));
    WorkSlots(s, k);
    OrderKeeps(s, Work(k));
    StackKeeps(s, Work(k));
  }

  lemma StepKeeps(s: State, a: Action)
    requires Inv(s) && Enabled(s, a)
    ensures Inv(Next(s, a))
  {
    StepIsClean(s, a);
    match a {
      case Client => ClientKeeps(s);
      case Server => ServerKeeps(s);
      case Inner(createFails) => InnerKeeps(s, createFails);
      case Work(k) => WorkKeeps(s, k);
    }
  }
}
