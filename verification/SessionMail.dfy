/** What is sent arrives in order, once, with its payload, and a handler is started for it. */
module SessionMail {
  import opened Bits
  import opened SessionTables
  import opened SessionProtocol
  import opened SessionSteps
  import opened SessionRuns
  import opened SessionEffects

  // ---------- the requests a service has had ----------

  /** The requests its coroutines were started for, in order. */
  function Started(l: Lua): seq<Message>
  {
    seq(|l.coroutines|, c requires 0 <= c < |l.coroutines| => l.coroutines[c].request)
  }

  function OnlyRequests(log: seq<Message>): seq<Message>
  {
    if log == [] then [] else (if log[0].kind == Request then [log[0]] else []) + OnlyRequests(log[1..])
  }

  /** The requests in its inbox. */
  function Waiting(n: Node): seq<Message>
  {
    if n.taken <= |n.log| then OnlyRequests(n.log[n.taken..]) else []
  }

  lemma {:induction false} RequestBehind(log: seq<Message>, m: Message)
    ensures OnlyRequests(log + [m]) == OnlyRequests(log) + if m.kind == Request then [m] else []
  {
    if log == [] {
      assert [m][1..] == [] && log + [m] == [m];
    } else {
      RequestBehind(log[1..], m);
      assert (log + [m])[1..] == log[1..] + [m];
    }
  }

  lemma StatusOnly(l: Lua, l': Lua, c: nat, status: Status)
    requires OnlyStatus(l, l', c, status)
    ensures Started(l') == Started(l)
  {
    assert forall d :: 0 <= d < |l.coroutines| ==> l'.coroutines[d].request == l.coroutines[d].request;
  }

  lemma SameCoroutines(l: Lua, l': Lua)
    requires l'.coroutines == l.coroutines
    ensures Started(l') == Started(l)
  {
  }

  /** Every request a service has had, first those it has started a coroutine for. */
  function Requests(n: Node): seq<Message> { Started(n.lua) + Waiting(n) }

  /** The request a step sends to `to`, if its inbox has room. */
  function Accepted(sys: Sys, a: Action, to: nat, number: nat): seq<Message>
  {
    if to in sys.nodes && HasRoom(sys.nodes[to]) then
      match a
      case Send(s, to', payload) => if to' == to then [Message(s, to, 0, Request, payload)] else []
      case CallSends(s, to', payload) =>
        if to' == to then [Message(s, to, number % 0x1_0000_0000, Request, payload)] else []
      case _ => []
    else []
  }

  // ---------- one step ----------

  /** Delivery makes the requests longer by the message, if that is a request and there is room. */
  lemma Delivered(sys: Sys, sys': Sys, to: nat, m: Message, r: nat)
    requires OnlyDelivers(sys, sys', to, m) && r in sys.nodes && sys.nodes[r].taken <= |sys.nodes[r].log|
    ensures r in sys'.nodes && sys'.nodes[r].taken <= |sys'.nodes[r].log|
    ensures Requests(sys'.nodes[r])
            == Requests(sys.nodes[r]) + if r == to && HasRoom(sys.nodes[r]) && m.kind == Request then [m] else []
  {
    hide OnlyRequests, HasRoom;
    var n, n' := sys.nodes[r], sys'.nodes[r];
    SameCoroutines(n.lua, n'.lua);
    if r == to && HasRoom(n) {
      RequestBehind(n.log[n.taken..], m);
      assert (n.log + [m])[n.taken..] == n.log[n.taken..] + [m];
      ConcatAssoc(Started(n.lua), OnlyRequests(n.log[n.taken..]), if m.kind == Request then [m] else []);
    }
  }

  /** Taking the message in front moves it, if it is a request, to the coroutines. */
  lemma Taken(n: Node, n': Node)
    requires n.taken < |n.log| && n'.log == n.log && n'.taken == n.taken + 1
    requires if n.log[n.taken].kind == Request then
               n'.lua.coroutines == n.lua.coroutines + [Coroutine(Running, n.log[n.taken])]
             else Started(n'.lua) == Started(n.lua)
    ensures Requests(n') == Requests(n)
  {
    var m := n.log[n.taken];
    assert n.log[n.taken..][1..] == n.log[n.taken + 1..] && n.log[n.taken..][0] == m;
    if m.kind == Request {
      OneStarted(n.lua, n'.lua, m);
      ConcatAssoc(Started(n.lua), [m], OnlyRequests(n.log[n.taken + 1..]));
    }
  }

  lemma OneStarted(l: Lua, l': Lua, m: Message)
    requires l'.coroutines == l.coroutines + [Coroutine(Running, m)]
    ensures Started(l') == Started(l) + [m]
  {
  }

  lemma SameRequests(n: Node, n': Node)
    requires Started(n'.lua) == Started(n.lua) && n'.log == n.log && n'.taken == n.taken
    ensures Requests(n') == Requests(n)
  {
  }

  ghost predicate InRange(sys: Sys)
  {
    forall r :: r in sys.nodes ==> sys.nodes[r].taken <= |sys.nodes[r].log|
  }

  lemma NoMore<T>(s: seq<T>)
    ensures s + [] == s
  {
  }

  lemma OthersKeep(sys: Sys, sys': Sys, s: nat, r: nat)
    requires OthersSame(sys, sys', s) && r in sys.nodes && s in sys.nodes && InRange(sys)
    requires sys'.nodes[s].taken <= |sys'.nodes[s].log| && Requests(sys'.nodes[s]) == Requests(sys.nodes[s])
    ensures InRange(sys') && r in sys'.nodes && Requests(sys'.nodes[r]) == Requests(sys.nodes[r])
  {
    hide Requests;
  }

  /** What every step does to the requests of a service: nothing, unless it sends it one. */
  lemma StepRequests(sys: Sys, a: Action, r: nat)
    requires Enabled(sys, a) && InRange(sys) && r in sys.nodes
    ensures var sys' := Next(sys, a);
            && sys'.nodes.Keys == sys.nodes.Keys && InRange(sys')
            && Requests(sys'.nodes[r]) == Requests(sys.nodes[r]) + Accepted(sys, a, r, sys.nodes[a.s].lua.sessionId)
  {
    hide Next, Requests, HasRoom, InRange;
    NoMore(Requests(sys.nodes[r]));
    match a
    case Send(_, _, _) => SendRequests(sys, a, r);
    case CallSends(_, _, _) => CallRequests(sys, a, r);
    case Respond(_, _) => RespondRequests(sys, a, r);
    case _ => OwnRequests(sys, a, r);
  }

  lemma SendRequests(sys: Sys, a: Action, r: nat)
    requires a.Send? && Enabled(sys, a) && InRange(sys) && r in sys.nodes
    ensures var sys' := Next(sys, a);
            && sys'.nodes.Keys == sys.nodes.Keys && InRange(sys')
            && Requests(sys'.nodes[r]) == Requests(sys.nodes[r]) + Accepted(sys, a, r, sys.nodes[a.s].lua.sessionId)
  {
    hide Next, Requests, HasRoom, OnlyDelivers;
    var m := Message(a.s, a.to, 0, Request, a.payload);
    SendEffect(sys, a.s, a.to, a.payload);
    DeliversKeys(sys, Next(sys, a), a.to, m);
    forall q | q in sys.nodes
      ensures q in Next(sys, a).nodes && Next(sys, a).nodes[q].taken <= |Next(sys, a).nodes[q].log| {
      Delivered(sys, Next(sys, a), a.to, m, q);
    }
    Delivered(sys, Next(sys, a), a.to, m, r);
  }

  lemma DeliversKeys(sys: Sys, sys': Sys, to: nat, m: Message)
    requires OnlyDelivers(sys, sys', to, m)
    ensures sys'.nodes.Keys == sys.nodes.Keys
  {
  }

  /** The flag of a service in a call is no part of its requests. */
  lemma CallingAside(sys: Sys, s: nat, q: nat)
    requires s in sys.nodes && q in sys.nodes
    ensures var sys1 := sys.(nodes := sys.nodes[s := sys.nodes[s].(calling := true)]);
            && Requests(sys1.nodes[q]) == Requests(sys.nodes[q]) && HasRoom(sys1.nodes[q]) == HasRoom(sys.nodes[q])
            && sys1.nodes[q].log == sys.nodes[q].log && sys1.nodes[q].taken == sys.nodes[q].taken
  {
  }

  lemma CallRequests(sys: Sys, a: Action, r: nat)
    requires a.CallSends? && Enabled(sys, a) && InRange(sys) && r in sys.nodes
    ensures var sys' := Next(sys, a);
            && sys'.nodes.Keys == sys.nodes.Keys && InRange(sys')
            && Requests(sys'.nodes[r]) == Requests(sys.nodes[r]) + Accepted(sys, a, r, sys.nodes[a.s].lua.sessionId)
  {
    hide Next, Requests, HasRoom, OnlyDelivers;
    var m := Message(a.s, a.to, sys.nodes[a.s].lua.sessionId % 0x1_0000_0000, Request, a.payload);
    var sys' := Next(sys, a);
    CallSendsEffect(sys, a.s, a.to, a.payload);
    var sys1 := sys.(nodes := sys.nodes[a.s := sys.nodes[a.s].(calling := true)]);
    DeliversKeys(sys1, sys', a.to, m);
    assert sys1.nodes.Keys == sys.nodes.Keys;
    forall q | q in sys.nodes ensures q in sys'.nodes && sys'.nodes[q].taken <= |sys'.nodes[q].log| {
      CallingAside(sys, a.s, q);
      Delivered(sys1, sys', a.to, m, q);
    }
    CallingAside(sys, a.s, r);
    Delivered(sys1, sys', a.to, m, r);
  }

  lemma RespondRequests(sys: Sys, a: Action, r: nat)
    requires a.Respond? && Enabled(sys, a) && InRange(sys) && r in sys.nodes
    ensures var sys' := Next(sys, a);
            && sys'.nodes.Keys == sys.nodes.Keys && InRange(sys') && Requests(sys'.nodes[r]) == Requests(sys.nodes[r])
  {
    hide Next, Requests, HasRoom, OnlyDelivers, OnlyStatus, Started, Waiting;
    var sys' := Next(sys, a);
    var l := sys.nodes[a.s].lua;
    RespondEffect(sys, a.s, a.payload);
    StatusOnly(l, sys'.nodes[a.s].lua, l.running.value, Dead);
    var over := sys.(nodes := sys.nodes[a.s := sys.nodes[a.s].(lua := sys'.nodes[a.s].lua)]);
    SameRequests(sys.nodes[a.s], over.nodes[a.s]);
    OthersKeep(sys, over, a.s, r);
    NoMore(Requests(over.nodes[r]));
    if sys' != over {
      var m := Message(a.s, l.address[l.running.value], l.response[l.running.value], Response, a.payload);
      DeliversKeys(over, sys', m.to, m);
      forall q | q in sys.nodes ensures q in sys'.nodes && sys'.nodes[q].taken <= |sys'.nodes[q].log| {
        Delivered(over, sys', m.to, m, q);
      }
      Delivered(over, sys', m.to, m, r);
    }
  }

  lemma OwnRequests(sys: Sys, a: Action, r: nat)
    requires !a.Send? && !a.CallSends? && !a.Respond? && Enabled(sys, a) && InRange(sys) && r in sys.nodes
    ensures var sys' := Next(sys, a);
            && sys'.nodes.Keys == sys.nodes.Keys && InRange(sys') && Requests(sys'.nodes[r]) == Requests(sys.nodes[r])
  {
    hide Next, Requests, Started, Waiting, OnlyStatus;
    var sys' := Next(sys, a);
    var n, l := sys.nodes[a.s], sys.nodes[a.s].lua;
    match a {
      case CallRegisters(s) =>
        CallRegistersEffect(sys, s);
        if l.running.None? {
          SameCoroutines(l, sys'.nodes[s].lua);
        } else {
          StatusOnly(l, sys'.nodes[s].lua, l.running.value, InCall(l.sessionId));
        }
        SameRequests(n, sys'.nodes[s]);
      case DispatchRequest(s) =>
        DispatchRequestEffect(sys, s);
        Taken(n, sys'.nodes[s]);
      case DispatchResponse(s) =>
        DispatchResponseEffect(sys, s);
        var session := n.log[n.taken].session;
        if session in l.lookup && l.lookup[session] < |l.coroutines| {
          StatusOnly(l, sys'.nodes[s].lua, l.lookup[session], Running);
        }
        Taken(n, sys'.nodes[s]);
      case HandlerError(s) =>
        HandlerErrorEffect(sys, s);
        StatusOnly(l, sys'.nodes[s].lua, l.running.value, Dead);
        SameRequests(n, sys'.nodes[s]);
      case Sleep(s) =>
        SleepEffect(sys, s);
        StatusOnly(l, sys'.nodes[s].lua, l.running.value, Asleep);
        SameRequests(n, sys'.nodes[s]);
      case TimerFires(s, c) =>
        TimerEffect(sys, s, c);
        StatusOnly(l, sys'.nodes[s].lua, c, Running);
        SameRequests(n, sys'.nodes[s]);
    }
    OthersKeep(sys, sys', a.s, r);
  }

  // ---------- calls are numbered ----------

  function CallsBy(actions: seq<Action>, i: nat, s: nat): nat
    requires i <= |actions|
  {
    if i == 0 then 0
    else CallsBy(actions, i - 1, s) + if actions[i - 1].CallSends? && actions[i - 1].s == s then 1 else 0
  }

  /** The number the service will use next, told from what it has sent. */
  function NextNumber(n: Node): nat { n.lua.sessionId + if n.calling then 1 else 0 }

  lemma StepNumbers(sys: Sys, a: Action, s: nat)
    requires Enabled(sys, a) && s in sys.nodes
    ensures s in Next(sys, a).nodes
    ensures NextNumber(Next(sys, a).nodes[s]) == NextNumber(sys.nodes[s]) + if a.CallSends? && a.s == s then 1 else 0
  {
    hide Next, HasRoom;
    match a {
      case Send(_, to, payload) => SendEffect(sys, a.s, to, payload);
      case CallSends(_, to, payload) => CallSendsEffect(sys, a.s, to, payload);
      case CallRegisters(_) => CallRegistersEffect(sys, a.s);
      case DispatchRequest(_) => DispatchRequestEffect(sys, a.s);
      case DispatchResponse(_) => DispatchResponseEffect(sys, a.s);
      case Respond(_, payload) => RespondNumbers(sys, a.s, payload, s);
      case HandlerError(_) => HandlerErrorEffect(sys, a.s);
      case Sleep(_) => SleepEffect(sys, a.s);
      case TimerFires(_, c) => TimerEffect(sys, a.s, c);
    }
  }

  lemma RespondNumbers(sys: Sys, a: nat, payload: Payload, s: nat)
    requires Enabled(sys, Respond(a, payload)) && s in sys.nodes
    ensures s in Next(sys, Respond(a, payload)).nodes
    ensures NextNumber(Next(sys, Respond(a, payload)).nodes[s]) == NextNumber(sys.nodes[s])
  {
    hide Next, HasRoom, OnlyStatus;
    RespondEffect(sys, a, payload);
  }

  lemma {:induction false} CallsAreNumbered(ids: set<nat>, states: seq<Sys>, actions: seq<Action>, i: nat, s: nat)
    requires AnyRun(ids, states, actions) && i < |states| && s in ids
    ensures s in states[i].nodes && NextNumber(states[i].nodes[s]) == 1 + CallsBy(actions, i, s)
  {
    hide Next, Enabled;
    if i > 0 {
      CallsAreNumbered(ids, states, actions, i - 1, s);
      StepNumbers(states[i - 1], actions[i - 1], s);
    }
  }

  // ---------- over a run ----------

  /** The requests sent to `to` in the first i steps and let in, in order: those of service.send under session 0, those
      of service.call under the number of the call among its caller's. */
  function AcceptedBefore(states: seq<Sys>, actions: seq<Action>, i: nat, to: nat): seq<Message>
    requires i <= |actions| && i < |states|
  {
    if i == 0 then []
    else AcceptedBefore(states, actions, i - 1, to)
         + Accepted(states[i - 1], actions[i - 1], to, 1 + CallsBy(actions, i - 1, actions[i - 1].s))
  }

  lemma {:induction false} KeysStay(ids: set<nat>, states: seq<Sys>, actions: seq<Action>, i: nat)
    requires AnyRun(ids, states, actions) && i < |states|
    ensures states[i].nodes.Keys == ids && InRange(states[i])
  {
    hide Next, Enabled;
    if i > 0 {
      KeysStay(ids, states, actions, i - 1);
      StepRequests(states[i - 1], actions[i - 1], actions[i - 1].s) by { EnabledHere(states[i - 1], actions[i - 1]); }
    }
  }

  lemma EnabledHere(sys: Sys, a: Action)
    requires Enabled(sys, a)
    ensures a.s in sys.nodes && (a.CallSends? ==> !sys.nodes[a.s].calling)
  {
  }

  /** In every run the requests let into an inbox are served in the order in which they were sent: a coroutine has been
      started for each of the first ones, and the others wait. None is served twice, changed, or made up. */
  lemma {:induction false} RequestsInOrder(ids: set<nat>, states: seq<Sys>, actions: seq<Action>, i: nat, to: nat)
    requires AnyRun(ids, states, actions) && i < |states| && to in ids
    ensures to in states[i].nodes
    ensures Started(states[i].nodes[to].lua) + Waiting(states[i].nodes[to]) == AcceptedBefore(states, actions, i, to)
  {
    hide Next, Enabled, Started, Waiting, Accepted;
    KeysStay(ids, states, actions, i);
    if i > 0 {
      var a := actions[i - 1];
      KeysStay(ids, states, actions, i - 1);
      RequestsInOrder(ids, states, actions, i - 1, to);
      EnabledHere(states[i - 1], a);
      StepRequests(states[i - 1], a, to);
      CallsAreNumbered(ids, states, actions, i - 1, a.s);
      NumberOnlyForCalls(states[i - 1], a, to, 1 + CallsBy(actions, i - 1, a.s),
                         states[i - 1].nodes[a.s].lua.sessionId);
    } else {
      NoRequestsYet(ids, to);
    }
  }

  lemma NumberOnlyForCalls(sys: Sys, a: Action, to: nat, x: nat, y: nat)
    requires a.CallSends? ==> x == y
    ensures Accepted(sys, a, to, x) == Accepted(sys, a, to, y)
  {
  }

  lemma NoRequestsYet(ids: set<nat>, to: nat)
    requires to in ids
    ensures Started(Start(ids).nodes[to].lua) + Waiting(Start(ids).nodes[to]) == []
  {
  }

  // ---------- service.send on its own ----------

  /** The payload of a message of service.send from s. */
  function SendOf(m: Message, s: nat): seq<Payload>
  {
    if m.session == 0 && m.kind == Request && m.from == s then [m.payload] else []
  }

  function SentBy(ms: seq<Message>, s: nat): seq<Payload>
  {
    if ms == [] then [] else SendOf(ms[0], s) + SentBy(ms[1..], s)
  }

  lemma {:induction false} SentByParts(a: seq<Message>, b: seq<Message>, s: nat)
    ensures SentBy(a + b, s) == SentBy(a, s) + SentBy(b, s)
  {
    hide SendOf;
    if a == [] {
      assert a + b == b;
    } else {
      SentByParts(a[1..], b, s);
      assert (a + b)[1..] == a[1..] + b && (a + b)[0] == a[0];
      ConcatAssoc(SendOf(a[0], s), SentBy(a[1..], s), SentBy(b, s));
    }
  }

  /** What s has sent to `to` in the first i steps and no full inbox has swallowed. */
  function SentBefore(states: seq<Sys>, actions: seq<Action>, i: nat, s: nat, to: nat): seq<Payload>
    requires i <= |actions| && i < |states|
  {
    if i == 0 then []
    else
      var a, sys := actions[i - 1], states[i - 1];
      SentBefore(states, actions, i - 1, s, to)
      + if a.Send? && a.s == s && a.to == to && to in sys.nodes && |sys.nodes[to].log| - sys.nodes[to].taken < 1023 then
          [a.payload]
        else []
  }

  lemma AcceptedSend(sys: Sys, a: Action, s: nat, to: nat, number: nat)
    requires Enabled(sys, a) && Fits(sys, a) && to in sys.nodes
    requires a.CallSends? ==> number == sys.nodes[a.s].lua.sessionId && number > 0
    ensures SentBy(Accepted(sys, a, to, number), s)
            == if a.Send? && a.s == s && a.to == to && |sys.nodes[to].log| - sys.nodes[to].taken < 1023 then [a.payload]
               else []
  {
    var ms := Accepted(sys, a, to, number);
    if ms != [] {
      assert ms == [ms[0]] && ms[1..] == [];
    }
  }

  lemma {:induction false} AcceptedSends(ids: set<nat>, states: seq<Sys>, actions: seq<Action>, i: nat, s: nat, to: nat)
    requires Run(ids, states, actions) && i < |states| && to in ids
    ensures SentBy(AcceptedBefore(states, actions, i, to), s) == SentBefore(states, actions, i, s, to)
  {
    hide Next, Enabled, Fits, Accepted, Inv, HasRoom;
    if i > 0 {
      var a, sys := actions[i - 1], states[i - 1];
      AcceptedSends(ids, states, actions, i - 1, s, to);
      KeysStay(ids, states, actions, i - 1);
      EnabledHere(sys, a);
      CallsAreNumbered(ids, states, actions, i - 1, a.s);
      var number := 1 + CallsBy(actions, i - 1, a.s);
      AcceptedSend(sys, a, s, to, number);
      SentByParts(AcceptedBefore(states, actions, i - 1, to), Accepted(sys, a, to, number), s);
    }
  }

  /** What one service sends another is handled in the order in which it was sent, each message once and with its
      payload: coroutines have been started for the first of them, and the others wait in the inbox. */
  lemma SendsInOrder(ids: set<nat>, states: seq<Sys>, actions: seq<Action>, i: nat, s: nat, to: nat)
    requires Run(ids, states, actions) && i < |states| && to in ids
    ensures to in states[i].nodes
    ensures SentBy(Started(states[i].nodes[to].lua), s) + SentBy(Waiting(states[i].nodes[to]), s)
            == SentBefore(states, actions, i, s, to)
  {
    hide Next, Enabled, Fits, Started, Waiting;
    RequestsInOrder(ids, states, actions, i, to);
    AcceptedSends(ids, states, actions, i, s, to);
    SentByParts(Started(states[i].nodes[to].lua), Waiting(states[i].nodes[to]), s);
  }
}
