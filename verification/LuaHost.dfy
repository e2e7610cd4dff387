/** How lua/coroutine/src/main.c uses the global Lua stack in DoRequest and DoResponse. */
module LuaHost {

  datatype Value = Nil | Int(n: int) | Str(s: string) | Function(name: string) | Table(fields: map<string, Value>) | Error

  /** What the called Lua function does, seen from lua_pcall: it returns no results or raises an error. */
  datatype PCall = Completes | Raises(code: int)

  const LUA_OK := 0

  /** The stack slots that a Lua C function may count on without lua_checkstack. */
  const LUA_MINSTACK := 20

  /** lua_rawget on a table. */
  function Field(t: Value, key: string): Value {
    if t.Table? && key in t.fields then t.fields[key] else Nil
  }

  /** The table entrance.lua returns. */
  const Handler := Table(map["doRequest" := Function("doRequest"), "doResponse" := Function("doResponse"),
                             "debugTrace" := Function("debugTrace")])

  datatype Call = Request | Response

  /** The stack a completed call leaves: a request resets it, a response adds its message handler. */
  function StackAfter(stack: seq<Value>, c: Call): seq<Value>
    requires stack != []
  {
    match c
    case Request => stack[..1]
    case Response => stack + [Field(stack[0], "debugTrace")]
  }

  /** The slots in use when lua_pcall is entered: message handler, function and arguments. */
  function PeakDuring(depth: nat, c: Call): nat {
    match c
    case Request => depth + 4
    case Response => depth + 5
  }

  class LuaHost {
    var stack: seq<Value>
    // the last lua_pcall: the slots in use, the function with its arguments, and the message handler
    ghost var entered: nat
    ghost var called: seq<Value>
    ghost var guard: Value

    /** LoadEntranceScript on a fresh machine leaves the handler table, and nothing else, on the stack. */
    constructor (handler: Value)
      ensures stack == [handler]
    {
      stack, entered, called, guard := [handler], 0, [], Nil;
    }

    method PushString(s: string)
      modifies this`stack
      ensures stack == old(stack) + [Str(s)]
    {
      stack := stack + [Str(s)];
    }

    method PushInteger(n: int)
      modifies this`stack
      ensures stack == old(stack) + [Int(n)]
    {
      stack := stack + [Int(n)];
    }

    /** lua_rawget(L, 1): replaces the key on top by the field of the table at index 1. */
    method RawGet1()
      requires |stack| > 1 && stack[0].Table? && stack[|stack| - 1].Str?
      modifies this`stack
      ensures var key := old(stack)[|old(stack)| - 1].s;
        stack == old(stack)[..|old(stack)| - 1] + [Field(old(stack)[0], key)]
    {
      var top := |stack| - 1;
      stack := stack[..top] + [Field(stack[0], stack[top].s)];
    }

    method SetTop1()
      requires stack != []
      modifies this`stack
      ensures stack == old(stack)[..1]
    {
      stack := stack[..1];
    }

    /** lua_pcall: consumes the function and its arguments; an error leaves one error object. `msgh` is the
        index of the message handler, counted from 1. */
    method PCall(args: nat, msgh: nat, outcome: PCall) returns (ret: int)
      requires |stack| > args + 1 && 0 < msgh < |stack| - args
      modifies this
      ensures entered == |old(stack)| && called == old(stack)[|old(stack)| - args - 1..] && guard == old(stack)[msgh - 1]
      ensures stack == old(stack)[..|old(stack)| - args - 1] + (if outcome.Raises? then [Error] else [])
      ensures ret == if outcome.Raises? then outcome.code else LUA_OK
    {
      entered, called, guard := |stack|, stack[|stack| - args - 1..], stack[msgh - 1];
      stack := stack[..|stack| - args - 1] + (if outcome.Raises? then [Error] else []);
      ret := if outcome.Raises? then outcome.code else LUA_OK;
    }

    method DoRequest(req: int, swchWfd: int, outcome: PCall) returns (ret: int)
      modifies this
      ensures old(stack) == [] || !old(stack)[0].Table? ==> ret == -1 && stack == old(stack)
      ensures old(stack) != [] && old(stack)[0].Table? ==>
        var trace := Field(old(stack)[0], "debugTrace");
        if trace == Nil || Field(old(stack)[0], "doRequest") == Nil then ret == -1 && stack == old(stack)[..1]
        else
          entered == PeakDuring(|old(stack)|, Request) && guard == trace &&
          called == [Field(old(stack)[0], "doRequest"), Int(req), Int(swchWfd)] &&
          if outcome.Completes? then ret == LUA_OK && stack == StackAfter(old(stack), Request)
          else ret == outcome.code && stack == old(stack) + [trace, Error]
    {
      if |stack| == 0 || !stack[0].Table? {
        return -1;
      }
      PushString("debugTrace");
      RawGet1();
      if stack[|stack| - 1] == Nil {
        SetTop1();
        return -1;
      }
      var msgh := |stack|;
      PushString("doRequest");
      RawGet1();
      if stack[|stack| - 1] == Nil {
        SetTop1();
        return -1;
      }
      PushInteger(req);
      PushInteger(swchWfd);
      ret := PCall(2, msgh, outcome);
      if outcome.Raises? {
        return;
      }
      SetTop1();
    }

    /** DoResponse never resets the stack: each call leaves its message handler behind. */
    method DoResponse(resp: int, session: int, rrchWfd: int, outcome: PCall) returns (ret: int)
      modifies this
      ensures old(stack) == [] || !old(stack)[0].Table? ==> ret == -1 && stack == old(stack)
      ensures old(stack) != [] && old(stack)[0].Table? ==>
        var trace := Field(old(stack)[0], "debugTrace");
        if trace == Nil || Field(old(stack)[0], "doResponse") == Nil then ret == -1 && stack == old(stack)[..1]
        else
          entered == PeakDuring(|old(stack)|, Response) && guard == trace &&
          called == [Field(old(stack)[0], "doResponse"), Int(resp), Int(session), Int(rrchWfd)] &&
          if outcome.Completes? then ret == LUA_OK && stack == StackAfter(old(stack), Response)
          else ret == outcome.code && stack == old(stack) + [trace, Error]
    {
      if |stack| == 0 || !stack[0].Table? {
        return -1;
      }
      PushString("debugTrace");
      RawGet1();
      if stack[|stack| - 1] == Nil {
        SetTop1();
        return -1;
      }
      var msgh := |stack|;
      PushString("doResponse");
      RawGet1();
      if stack[|stack| - 1] == Nil {
        SetTop1();
        return -1;
      }
      PushInteger(resp);
      PushInteger(session);
      PushInteger(rrchWfd);
      ret := PCall(3, msgh, outcome);
    }

    /** The server loop's calls on a fresh machine, each of them completing. */
    method Serve(calls: seq<Call>)
      requires stack == [Handler]
      modifies this
      ensures stack == StackOf([Handler], calls) && |stack| == DepthOf(calls) && stack[0] == Handler
    {
      StackHolds(Handler, []);
      for i := 0 to |calls|
        invariant stack == StackOf([Handler], calls[..i]) && stack[0] == Handler
      {
        var value, session, fd, ret := *, *, *, 0;
        match calls[i] {
          case Request => ret := DoRequest(value, fd, Completes);
          case Response => ret := DoResponse(value, session, fd, Completes);
        }
        assert calls[..i + 1][..i] == calls[..i];
      }
      assert calls[..|calls|] == calls;
      StackHolds(Handler, calls);
    }
  }

  // ---------- the stack over a run ----------

  function StackOf(stack: seq<Value>, calls: seq<Call>): (r: seq<Value>)
    requires stack != []
    ensures r != []
  {
    if calls == [] then stack else StackAfter(StackOf(stack, calls[..|calls| - 1]), calls[|calls| - 1])
  }

  function DepthAfter(depth: nat, c: Call): nat {
    match c
    case Request => 1
    case Response => depth + 1
  }

  /** The depth between calls. */
  function DepthOf(calls: seq<Call>): nat {
    if calls == [] then 1 else DepthAfter(DepthOf(calls[..|calls| - 1]), calls[|calls| - 1])
  }

  /** Whatever the calls were, the handler table stays at index 1 and everything above it is a leftover
      message handler. */
  lemma {:induction false} StackHolds(handler: Value, calls: seq<Call>)
    ensures var stack := StackOf([handler], calls);
      && |stack| == DepthOf(calls) && stack[0] == handler
      && forall i :: 0 < i < |stack| ==> stack[i] == Field(handler, "debugTrace")
  {
    if calls != [] { StackHolds(handler, calls[..|calls| - 1]); }
  }

  /** Between calls the stack holds the handler table and one leftover for each response since the last
      request, whatever came before. */
  lemma {:induction false} DepthSinceRequest(before: seq<Call>, responses: nat)
    ensures DepthOf(before + [Request] + seq(responses, _ => Response)) == 1 + responses
  {
    var calls := before + [Request] + seq(responses, _ => Response);
    if responses == 0 {
      assert calls[..|calls| - 1] == before;
    } else {
      assert calls[..|calls| - 1] == before + [Request] + seq(responses - 1, _ => Response);
      DepthSinceRequest(before, responses - 1);
    }
  }
}
