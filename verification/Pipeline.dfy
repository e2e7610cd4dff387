/** The four kinds of threads of lua/coroutine/src/main.c as an interleaved step system. Pipes are FIFOs
    of records (module RecordPipe is the layer below); the server thread runs entrance.lua (module
    Entrance) on one Lua stack (module LuaHost). Client, server and inner server are run by their
    program counters; every worker is one step. */
module Pipeline {
  import opened Entrance
  import LuaHost
  import RecordPipe

  /** Writing: `off` values are sent. Reading: `i` results are stored. */
  datatype ClientPc = Writing(off: nat) | Reading(i: nat) | ClientEnd

  /** Select: about to call select. Ready: what select reported and is still to be served. GotReq: a
      request is read. Resuming: its session is drawn, the coroutine not yet started. Registering: the
      coroutine has written its record and yielded, the table does not know it yet. GotResp: a response
      is read. Clearing: its coroutine has run to the end, its table entry is still there. */
  datatype ServerPc =
    | Select
    | Ready(req: bool, resp: bool)
    | GotReq(value: int, resp: bool)
    | Resuming(r: Record, resp: bool)
    | Registering(r: Record, resp: bool, ok: bool)
    | GotResp(r: Record)
    | Clearing(session: int)
    | ServerEnd

  datatype InnerPc = Idle | Got(r: Record) | InnerEnd

  /** A worker thread holds a pointer to a slot of `buf`, not a copy; `started` records, for the proof
      only, what that slot held when the thread was created. */
  datatype Worker = Worker(slot: nat, started: Record, answered: bool)

  /** What the program would report or suffer if something went wrong. */
  datatype Fault = BrokenPipe | UnexpectedEof | NoCoroutine(session: int) | DeadCoroutine(session: int) | BufferOverrun

  datatype State = State(
    sent: seq<int>,          // the values of the run; never changes
    client: ClientPc,
    buf: seq<int>,           // the client's buffer: values to send, overwritten by results
    rwch: seq<int>,          // client to server
    swch: seq<Record>,       // server to inner server
    srch: seq<Record>,       // workers to server
    rrch: seq<int>,          // server to client
    server: ServerPc,
    script: Script,
    stack: seq<LuaHost.Value>,    // the Lua stack between calls
    calls: seq<LuaHost.Call>,     // history: the calls into the script that have returned
    inner: InnerPc,
    slots: seq<Record>,      // the inner server's buf
    pos: nat,
    workers: seq<Worker>,
    done: seq<Record>,       // history: the responses passed on to the client
    faults: seq<Fault>       // history
  )

  /** All threads started, pipes open and empty. `slots` is the uninitialised array. */
  function Start(sent: seq<int>, slots: seq<Record>): State {
    State(sent, Writing(0), sent, [], [], [], [], Select, Script(0, map[]), [LuaHost.Handler], [], Idle, slots, 0, [], [], [])
  }

  /** A call into the script has returned. */
  function Returned(s: State, c: LuaHost.Call): State {
    s.(stack := if s.stack == [] then [] else LuaHost.StackAfter(s.stack, c), calls := s.calls + [c])
  }

  // ---------- client ----------

  predicate ClientEnabled(s: State) {
    match s.client
    case Writing(_) => true
    case Reading(i) => i >= |s.buf| || s.rrch != [] || s.server.ServerEnd?
    case ClientEnd => false
  }

  function ClientNext(s: State): State {
    match s.client
    case Writing(off) =>
      if off >= |s.buf| then s.(client := Reading(0))
      else if s.server.ServerEnd? then s.(client := ClientEnd, faults := s.faults + [BrokenPipe])
      else
        var n := RecordPipe.ChunkWords(|s.buf| - off);
        s.(client := Writing(off + n), rwch := s.rwch + s.buf[off..off + n])
    case Reading(i) =>
      if i >= |s.buf| then s.(client := ClientEnd)
      else if s.rrch == [] then s.(client := ClientEnd, faults := s.faults + [UnexpectedEof])
      else s.(client := Reading(i + 1), buf := s.buf[i := s.rrch[0]], rrch := s.rrch[1..])
    case ClientEnd => s
  }

  // ---------- server ----------

  /** A pipe is readable when it holds a record or its write end is closed. */
  predicate RequestReadable(s: State) {
    s.rwch != [] || s.client.ClientEnd?
  }

  predicate ResponseReadable(s: State) {
    s.srch != [] || s.inner.InnerEnd?
  }

  predicate ServerEnabled(s: State) {
    match s.server
    case Select => RequestReadable(s) || ResponseReadable(s)
    case ServerEnd => false
    case _ => true
  }

  function ServerNext(s: State): State {
    match s.server
    case Select => s.(server := Ready(RequestReadable(s), ResponseReadable(s)))
    case Ready(req, resp) =>
      if req then
        if s.rwch == [] then s.(server := ServerEnd)
        else s.(server := GotReq(s.rwch[0], resp), rwch := s.rwch[1..])
      else if resp then
        if s.srch == [] then s.(server := ServerEnd)
        else s.(server := GotResp(s.srch[0]), srch := s.srch[1..])
      else s.(server := Select)
    case GotReq(value, resp) =>
      var script := Issue(s.script);
      s.(script := script, server := Resuming(Record(value, script.counter), resp))
    case Resuming(r, resp) =>
      if s.inner.InnerEnd? then s.(server := Registering(r, resp, false), faults := s.faults + [BrokenPipe])
      else s.(server := Registering(r, resp, true), swch := s.swch + [r])
    case Registering(r, resp, ok) =>
      Returned(s, LuaHost.Request)
        .(server := Ready(false, resp), script := if ok then Register(s.script, r) else s.script)
    case GotResp(r) => Resume(s, r)
    case Clearing(session) =>
      Returned(s, LuaHost.Response).(server := Ready(false, false), script := Clear(s.script, session))
    case ServerEnd => s
  }

  /** doResponse up to the end of the resumed coroutine. */
  function Resume(s: State, r: Record): State {
    if r.session !in s.script.table then
      Returned(s, LuaHost.Response).(server := Ready(false, false), faults := s.faults + [NoCoroutine(r.session)])
    else
      var t := s.(server := Clearing(r.session));
      if s.script.table[r.session].status.Dead? then t.(faults := s.faults + [DeadCoroutine(r.session)])
      else
        var u := t.(script := Finish(s.script, r.session));
        if s.client.ClientEnd? then u.(faults := s.faults + [BrokenPipe])
        else u.(rrch := s.rrch + [r.value], done := s.done + [r])
  }

  // ---------- inner server and workers ----------

  predicate InnerEnabled(s: State) {
    match s.inner
    case Idle => s.swch != [] || s.server.ServerEnd?
    case Got(_) => true
    case InnerEnd => false
  }

  /** `createFails`: pthread_create fails and the inner server answers by itself. */
  function InnerNext(s: State, createFails: bool): State {
    match s.inner
    case Idle =>
      if s.swch == [] then s.(inner := InnerEnd)
      else s.(inner := Got(s.swch[0]), swch := s.swch[1..])
    case Got(r) =>
      var t :=
        if s.pos < |s.slots| then s.(inner := Idle, slots := s.slots[s.pos := r], pos := s.pos + 1)
        else s.(inner := Idle, pos := s.pos + 1, faults := s.faults + [BufferOverrun]);
      if !createFails then t.(workers := t.workers + [Worker(s.pos, r, false)])
      else if s.server.ServerEnd? then t.(inner := InnerEnd, faults := t.faults + [BrokenPipe])
      else t.(srch := t.srch + [r])
    case InnerEnd => s
  }

  predicate WorkEnabled(s: State, k: nat) {
    k < |s.workers| && !s.workers[k].answered
  }

  /** What worker `k` finds in its slot. */
  function ReadBy(s: State, k: nat): Record
    requires k < |s.workers|
  {
    var w := s.workers[k];
    if w.slot < |s.slots| then s.slots[w.slot] else w.started
  }

  /** A worker reads its slot and writes the response; the inner server and the worker share the write end. */
  function WorkNext(s: State, k: nat): State
    requires WorkEnabled(s, k)
  {
    var t := s.(workers := s.workers[k := s.workers[k].(answered := true)]);
    if s.server.ServerEnd? || s.inner.InnerEnd? then t.(faults := s.faults + [BrokenPipe])
    else t.(srch := s.srch + [ReadBy(s, k)])
  }

  // ---------- runs ----------

  datatype Action = Client | Server | Inner(createFails: bool) | Work(k: nat)

  predicate Enabled(s: State, a: Action) {
    match a
    case Client => ClientEnabled(s)
    case Server => ServerEnabled(s)
    case Inner(_) => InnerEnabled(s)
    case Work(k) => WorkEnabled(s, k)
  }

  function Next(s: State, a: Action): State
    requires Enabled(s, a)
  {
    match a
    case Client => ClientNext(s)
    case Server => ServerNext(s)
    case Inner(createFails) => InnerNext(s, createFails)
    case Work(k) => WorkNext(s, k)
  }

  predicate Legal(s: State, run: seq<Action>)
    decreases |run|
  {
    run == [] || (Enabled(s, run[0]) && Legal(Next(s, run[0]), run[1..]))
  }

  function Exec(s: State, run: seq<Action>): State
    requires Legal(s, run)
    decreases |run|
  {
    if run == [] then s else Exec(Next(s, run[0]), run[1..])
  }

  ghost predicate Stuck(s: State) {
    forall a: Action :: !Enabled(s, a)
  }

  predicate AllEnded(s: State) {
    s.client.ClientEnd? && s.server.ServerEnd? && s.inner.InnerEnd?
  }

  // ---------- the server's steps and the script's functions ----------

  function ScriptWorld(s: State): World {
    World(s.script, s.swch, s.rrch)
  }

  /** The three server steps for one request, run without interruption, have the effect of doRequest on the
      script and its pipes and of a completed DoRequest on the Lua stack, the failing write included. */
  lemma RequestSteps(s: State)
    requires s.server.GotReq?
    ensures var t := ServerNext(ServerNext(ServerNext(s)));
      && ScriptWorld(t) == Requested(ScriptWorld(s), s.server.value, !s.inner.InnerEnd?)
      && t.server == Ready(false, s.server.resp)
      && t.stack == Returned(s, LuaHost.Request).stack && t.calls == s.calls + [LuaHost.Request]
      && t.faults == s.faults + if s.inner.InnerEnd? then [BrokenPipe] else []
  {
  }

  /** The server's one or two steps for a response have the effect of doResponse: for a session that is
      unknown, whose coroutine is dead, whose client is gone, or for which all is well. */
  lemma ResponseSteps(s: State)
    requires s.server.GotResp?
    ensures var r, u := s.server.r, ServerNext(s);
      var t := if r.session in s.script.table then ServerNext(u) else u;
      && ScriptWorld(t) == Responded(ScriptWorld(s), r.value, r.session, !s.client.ClientEnd?)
      && t.server == Ready(false, false)
      && t.stack == Returned(s, LuaHost.Response).stack && t.calls == s.calls + [LuaHost.Response]
      && (t.faults == s.faults <==> Waiting(s.script, r.session) && !s.client.ClientEnd?)
  {
    var r, u := s.server.r, ServerNext(s);
    var t := if r.session in s.script.table then ServerNext(u) else u;
    assert t.script.table == s.script.table - {r.session};
  }
}
