/** The session table of lua/coroutine/lua_script/entrance.lua and the two C functions its coroutines
    call (lua/coroutine/lua_lib_src/serverop.c). */
module Entrance {

  /** ServiceReq and ServiceResp have the same layout: a value and the session it belongs to. */
  datatype Record = Record(value: int, session: int)

  datatype Status = Suspended | Dead

  /** A coroutine that was started for a request and has yielded in `c.call`. */
  datatype Coroutine = Coroutine(request: int, session: int, status: Status)

  /** The script's upvalues: genSession's counter and tCoroutine. */
  datatype Script = Script(counter: nat, table: map<int, Coroutine>)

  function Issue(s: Script): Script {
    s.(counter := s.counter + 1)
  }

  function Register(s: Script, r: Record): Script {
    s.(table := s.table[r.session := Coroutine(r.value, r.session, Suspended)])
  }

  function Finish(s: Script, session: int): Script
    requires session in s.table
  {
    s.(table := s.table[session := s.table[session].(status := Dead)])
  }

  function Clear(s: Script, session: int): Script {
    s.(table := s.table - {session})
  }

  /** The script together with what its coroutines have written to the service pipe and to the client. */
  datatype World = World(script: Script, serviceOut: seq<Record>, clientOut: seq<int>)

  /** The effect of doRequest; the service pipe may refuse the record. */
  function Requested(w: World, req: int, writable: bool): World {
    var script := Issue(w.script);
    var r := Record(req, script.counter);
    if writable then World(Register(script, r), w.serviceOut + [r], w.clientOut) else w.(script := script)
  }

  /** The coroutine of the session is there and waits for its response. */
  predicate Waiting(s: Script, session: int) {
    session in s.table && s.table[session].status.Suspended?
  }

  /** The effect of doResponse; the client's pipe may refuse the result. */
  function Responded(w: World, resp: int, session: int, writable: bool): World {
    World(Clear(w.script, session), w.serviceOut,
          if Waiting(w.script, session) && writable then w.clientOut + [resp] else w.clientOut)
  }

  datatype Event = Wrote(r: Record) | Entered(session: int) | Passed(result: int) | Removed(session: int)

  class Entrance {
    var counter: nat
    var tCoroutine: map<int, Coroutine>
    var serviceOut: seq<Record>
    var clientOut: seq<int>
    ghost var log: seq<Event>   // the order in which things happened

    function View(): World
      reads this
    {
      World(Script(counter, tCoroutine), serviceOut, clientOut)
    }

    constructor ()
      ensures View() == World(Script(0, map[]), [], []) && log == []
    {
      counter, tCoroutine, serviceOut, clientOut, log := 0, map[], [], [], [];
    }

    method GenSession() returns (s: nat)
      modifies this`counter
      ensures counter == old(counter) + 1 && s == counter
    {
      counter := counter + 1;
      s := counter;
    }

    /** First resume: the coroutine runs into `c.call`, which writes the request and yields; when the
        write fails the coroutine dies of the error. */
    method Start(r: Record, writable: bool) returns (result: bool, co: Coroutine)
      modifies this`serviceOut, this`log
      ensures result == writable && co == Coroutine(r.value, r.session, if writable then Suspended else Dead)
      ensures serviceOut == if writable then old(serviceOut) + [r] else old(serviceOut)
      ensures log == if writable then old(log) + [Wrote(r)] else old(log)
    {
      if writable {
        serviceOut, log := serviceOut + [r], log + [Wrote(r)];
      }
      result, co := writable, Coroutine(r.value, r.session, if writable then Suspended else Dead);
    }

    /** The record goes out before the coroutine is entered into the table. */
    method DoRequest(req: int, writable: bool)
      modifies this
      ensures View() == Requested(old(View()), req, writable)
      ensures log == old(log) + if writable then [Wrote(Record(req, counter)), Entered(counter)] else []
    {
      var s := GenSession();
      var result, co := Start(Record(req, s), writable);
      if result {
        tCoroutine, log := tCoroutine[s := co], log + [Entered(s)];
      }
    }

    /** `found` is false where the script prints "No coroutine correspond session". */
    method DoResponse(resp: int, session: int, writable: bool) returns (found: bool)
      modifies this
      ensures found == (session in old(tCoroutine))
      ensures View() == Responded(old(View()), resp, session, writable)
      ensures log == old(log) + (if old(Waiting(View().script, session)) && writable then [Passed(resp)] else [])
                     + if found then [Removed(session)] else []
    {
      found := session in tCoroutine;
      if found {
        if tCoroutine[session].status == Suspended {
          if writable {
            clientOut, log := clientOut + [resp], log + [Passed(resp)];
          }
          tCoroutine := tCoroutine[session := tCoroutine[session].(status := Dead)];
        }
        tCoroutine, log := tCoroutine - {session}, log + [Removed(session)];
      }
    }
  }
}
