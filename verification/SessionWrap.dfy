/** What happens to calls whose session number no longer fits into a message. */
module SessionWrap {
  import opened Bits
  import opened SessionTables
  import opened SessionProtocol
  import opened SessionSteps
  import opened SessionRuns

  /** A call goes out under the number it is registered under exactly as long as fewer than 2^32 calls came before it.
      Its answer goes out under the number in the message, or not at all when that is 0. */
  lemma NumberOnTheWire(l: Lua, callee: Lua, self: nat, to: nat, payload: Payload, answer: Payload)
    ensures var m := CallMessage(l, self, to, payload);
            && (m.session == l.sessionId <==> l.sessionId < SESSION_LIMIT)
            && Answer(StartHandler(callee, m), to, answer)
               == if l.sessionId % SESSION_LIMIT == 0 then None
                  else Some(Message(to, self, l.sessionId % SESSION_LIMIT, Response, answer))
  {
  }

  /** The answer to a later call resumes the caller still registered under the number in the message, and the caller it
      was meant for goes on waiting. */
  lemma AnswerResumesAnother(sys: Sys, s: nat, number: nat)
    requires Enabled(sys, DispatchResponse(s))
    requires var n := sys.nodes[s];
             var session := n.log[n.taken].session;
             && session == OnTheWire(number) && number >= SESSION_LIMIT && CallerFound(n, session)
             && CallerFound(n, number) && n.lua.lookup[number] != n.lua.lookup[session]
    ensures var n, n' := sys.nodes[s], Next(sys, DispatchResponse(s)).nodes[s];
            var m := n.log[n.taken];
            && n'.lua.running == Some(n.lua.lookup[m.session]) && m.session !in n'.lua.lookup
            && (s, m.session) in Next(sys, DispatchResponse(s)).got
            && Next(sys, DispatchResponse(s)).got[(s, m.session)] == m.payload
            && CallerFound(n', number) && n'.lua.lookup[number] == n.lua.lookup[number]
            && n'.lua.coroutines[n'.lua.lookup[number]] == n.lua.coroutines[n.lua.lookup[number]]
  {
  }

  // ---------- a run in which a caller gets the answer to another call ----------

  ghost predicate Reachable(ids: set<nat>, sys: Sys)
  {
    exists states: seq<Sys>, actions: seq<Action> :: AnyRun(ids, states, actions) && states[|actions|] == sys
  }

  lemma StartReachable(ids: set<nat>)
    ensures Reachable(ids, Start(ids))
  {
    var states: seq<Sys>, actions: seq<Action> := [Start(ids)], [];
    assert AnyRun(ids, states, actions) && states[|actions|] == Start(ids);
  }

  lemma StepReachable(ids: set<nat>, sys: Sys, a: Action)
    requires Reachable(ids, sys) && Enabled(sys, a)
    ensures Reachable(ids, Next(sys, a))
  {
    hide Next, Enabled;
    var states: seq<Sys>, actions: seq<Action> :| AnyRun(ids, states, actions) && states[|actions|] == sys;
    var states', actions' := states + [Next(sys, a)], actions + [a];
    assert AnyRun(ids, states', actions') && states'[|actions'|] == Next(sys, a);
  }

  const SELF := Message(0, 0, 0, Request, 0)

  /** Service 0 with one coroutine suspended in its first call. */
  function Caller(sessionId: nat): Lua
  {
    Lua(sessionId, map[1 := 0], map[0 := 0], map[0 := 0], None, [Coroutine(InCall(1), SELF)])
  }

  /** Service 0 waits for the answer to call 1 and has made the calls before n from outside any coroutine; service 1
      has the requests in `inbox` before it. */
  ghost predicate Waits(sys: Sys, n: nat, inbox: seq<Message>, payload: Payload)
  {
    && sys.nodes.Keys == {0, 1, 2} && sys.nodes[0] == Node([SELF], 1, Caller(n), false)
    && sys.nodes[1] == Node(inbox, 0, FRESH, false)
    && (0, 1) in sys.asked && sys.asked[(0, 1)] == Ask(Some(0), 1, payload)
  }

  lemma FirstCall(payload: Payload) returns (sys: Sys)
    ensures Reachable({0, 1, 2}, sys) && Waits(sys, 2, [Message(0, 1, 1, Request, payload)], payload)
  {
    hide Reachable;
    var ids := {0, 1, 2};
    StartReachable(ids);
    sys := Start(ids);
    StepReachable(ids, sys, Send(0, 0, 0));
    sys := Next(sys, Send(0, 0, 0));
    StepReachable(ids, sys, DispatchRequest(0));
    sys := Next(sys, DispatchRequest(0));
    StepReachable(ids, sys, CallSends(0, 1, payload));
    sys := Next(sys, CallSends(0, 1, payload));
    StepReachable(ids, sys, CallRegisters(0));
    sys := Next(sys, CallRegisters(0));
  }

  /** One call from outside any coroutine. */
  lemma OneMoreCall(sys: Sys, n: nat, inbox: seq<Message>, payload: Payload, to: nat, more: Payload) returns (sys': Sys)
    requires Reachable({0, 1, 2}, sys) && Waits(sys, n, inbox, payload) && n > 1 && to in {1, 2} && |inbox| < CAPACITY
    ensures Reachable({0, 1, 2}, sys')
    ensures Waits(sys', n + 1, if to == 1 then inbox + [Message(0, 1, OnTheWire(n), Request, more)] else inbox, payload)
  {
    hide Reachable;
    var ids := {0, 1, 2};
    StepReachable(ids, sys, CallSends(0, to, more));
    sys' := Next(sys, CallSends(0, to, more));
    StepReachable(ids, sys', CallRegisters(0));
    sys' := Next(sys', CallRegisters(0));
  }

  lemma {:induction false} ManyCalls(sys: Sys, n: nat, n': nat, inbox: seq<Message>, payload: Payload)
      returns (sys': Sys)
    requires Reachable({0, 1, 2}, sys) && Waits(sys, n, inbox, payload) && 1 < n <= n' && |inbox| < CAPACITY
    ensures Reachable({0, 1, 2}, sys') && Waits(sys', n', inbox, payload)
    decreases n' - n
  {
    hide Reachable, Waits;
    if n == n' {
      sys' := sys;
    } else {
      sys' := OneMoreCall(sys, n, inbox, payload, 2, 0);
      sys' := ManyCalls(sys', n + 1, n', inbox, payload);
    }
  }

  /** There is a run in which a coroutine suspended in call 1 is handed the answer to call 2^32 + 1, while the handler
      of call 1 is still at work. */
  lemma WrongAnswerReached(payload: Payload, later: Payload, answer: Payload) returns (sys: Sys)
    ensures Reachable({0, 1, 2}, sys)
    ensures (0, 1) in sys.asked && sys.asked[(0, 1)] == Ask(Some(0), 1, payload)
    ensures (0, 1) in sys.got && sys.got[(0, 1)] == answer && sys.nodes.Keys == {0, 1, 2}
    ensures sys.nodes[0].lua.running == Some(0) && KeyAt(sys, Held(1, 0)) == Some((0, 1))
    ensures PayloadAt(sys, Held(1, 0)) == payload
  {
    hide Reachable;
    var ids := {0, 1, 2};
    var first := Message(0, 1, 1, Request, payload);
    sys := FirstCall(payload);
    sys := ManyCalls(sys, 2, SESSION_LIMIT + 1, [first], payload);
    sys := OneMoreCall(sys, SESSION_LIMIT + 1, [first], payload, 1, later);
    sys := BothHandled(sys, [first, Message(0, 1, 1, Request, later)], payload, answer);
  }

  /** Service 1 starts both handlers, and the second answers first. */
  lemma BothHandled(sys: Sys, inbox: seq<Message>, payload: Payload, answer: Payload) returns (sys': Sys)
    requires Reachable({0, 1, 2}, sys) && Waits(sys, SESSION_LIMIT + 2, inbox, payload) && |inbox| == 2
    requires inbox[0] == Message(0, 1, 1, Request, payload) && inbox[1].from == 0 && inbox[1].kind == Request
    requires inbox[1].session == 1
    ensures Reachable({0, 1, 2}, sys')
    ensures (0, 1) in sys'.asked && sys'.asked[(0, 1)] == Ask(Some(0), 1, payload)
    ensures (0, 1) in sys'.got && sys'.got[(0, 1)] == answer && sys'.nodes.Keys == {0, 1, 2}
    ensures sys'.nodes[0].lua.running == Some(0) && KeyAt(sys', Held(1, 0)) == Some((0, 1))
    ensures PayloadAt(sys', Held(1, 0)) == payload
  {
    hide Reachable, Next, Enabled, KeyAt, PayloadAt;
    sys' := BothStarted(sys, inbox, payload);
    sys' := SecondAnswers(sys', inbox, payload, answer);
  }

  /** Service 1 with the handler of the first call asleep and that of the second running. */
  function BothStartedAt(inbox: seq<Message>): Node
    requires |inbox| == 2
  {
    Node(inbox, 2, Lua(1, map[], map[0 := 0, 1 := 0], map[0 := 1, 1 := 1], Some(1),
                       [Coroutine(Asleep, inbox[0]), Coroutine(Running, inbox[1])]), false)
  }

  lemma BothStarted(sys: Sys, inbox: seq<Message>, payload: Payload) returns (sys': Sys)
    requires Reachable({0, 1, 2}, sys) && Waits(sys, SESSION_LIMIT + 2, inbox, payload) && |inbox| == 2
    requires inbox[0] == Message(0, 1, 1, Request, payload) && inbox[1].from == 0 && inbox[1].kind == Request
    requires inbox[1].session == 1
    ensures Reachable({0, 1, 2}, sys') && sys'.nodes.Keys == {0, 1, 2} && sys'.asked == sys.asked
    ensures sys'.nodes[0] == sys.nodes[0] && sys'.nodes[1] == BothStartedAt(inbox)
  {
    hide Reachable;
    var ids := {0, 1, 2};
    StepReachable(ids, sys, DispatchRequest(1));
    sys' := Next(sys, DispatchRequest(1));
    StepReachable(ids, sys', Sleep(1));
    sys' := Next(sys', Sleep(1));
    StepReachable(ids, sys', DispatchRequest(1));
    sys' := Next(sys', DispatchRequest(1));
  }

  lemma SecondAnswers(sys: Sys, inbox: seq<Message>, payload: Payload, answer: Payload) returns (sys': Sys)
    requires Reachable({0, 1, 2}, sys) && sys.nodes.Keys == {0, 1, 2} && |inbox| == 2 && inbox[0].payload == payload
    requires sys.nodes[0] == Node([SELF], 1, Caller(SESSION_LIMIT + 2), false) && sys.nodes[1] == BothStartedAt(inbox)
    ensures Reachable({0, 1, 2}, sys') && sys'.nodes.Keys == {0, 1, 2} && sys'.asked == sys.asked
    ensures (0, 1) in sys'.got && sys'.got[(0, 1)] == answer
    ensures sys'.nodes[0].lua.running == Some(0) && KeyAt(sys', Held(1, 0)) == Some((0, 1))
    ensures PayloadAt(sys', Held(1, 0)) == payload
  {
    hide Reachable;
    var ids := {0, 1, 2};
    StepReachable(ids, sys, Respond(1, answer));
    sys' := Next(sys, Respond(1, answer));
    StepReachable(ids, sys', DispatchResponse(0));
    sys' := Next(sys', DispatchResponse(0));
  }
}
