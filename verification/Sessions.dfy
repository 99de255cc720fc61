/** The call and response protocol of lua/lservice3.lua between any number of services, as a transition system. */
module SessionProtocol {
  import opened Bits
  import opened SessionTables

  /** A service: all messages its inbox ever accepted, how many it has taken out, its tables, and whether its thread
      is inside service.call between sending and registering. */
  datatype Node = Node(log: seq<Message>, taken: nat, lua: Lua, calling: bool)

  /** A call is named by its caller and its session number. */
  type Key = (nat, nat)

  datatype Ask = Ask(co: Option<nat>, to: nat, payload: Payload)

  /** The services, and what has happened: calls made, answers given by handlers, answers received by callers, and
      calls whose request, handler or answer has been lost. */
  datatype Sys = Sys(nodes: map<nat, Node>, asked: map<Key, Ask>, answered: map<Key, Payload>,
                     got: map<Key, Payload>, lost: set<Key>)

  /** The ring of 1024 slots holds 1023 messages. */
  const CAPACITY := 1023

  datatype Action =
    | Send(s: nat, to: nat, payload: Payload)
    | CallSends(s: nat, to: nat, payload: Payload)
    | CallRegisters(s: nat)
    | DispatchRequest(s: nat)
    | DispatchResponse(s: nat)
    | Respond(s: nat, payload: Payload)
    | HandlerError(s: nat)
    | Sleep(s: nat)
    | TimerFires(s: nat, c: nat)

  // ---------- steps ----------

  predicate HasMessage(n: Node, kind: Kind) { n.taken < |n.log| && n.log[n.taken].kind == kind }

  predicate Idle(n: Node) { n.lua.running.None? && !n.calling }

  predicate InHandler(n: Node) { Busy(n.lua) && !n.calling }

  predicate Enabled(sys: Sys, a: Action)
  {
    a.s in sys.nodes
    && var n := sys.nodes[a.s];
       match a
       case Send(_, to, _) => to in sys.nodes && !n.calling
       case CallSends(_, to, _) => to in sys.nodes && !n.calling && (n.lua.running.Some? ==> Busy(n.lua))
       case CallRegisters(_) => n.calling && (n.lua.running.Some? ==> Busy(n.lua))
       case DispatchRequest(_) => Idle(n) && HasMessage(n, Request)
       case DispatchResponse(_) => Idle(n) && HasMessage(n, Response)
       case Respond(_, _) => InHandler(n)
       case HandlerError(_) => InHandler(n)
       case Sleep(_) => InHandler(n)
       case TimerFires(_, c) => Idle(n) && c < |n.lua.coroutines| && n.lua.coroutines[c].status == Asleep
  }

  predicate Full(n: Node) { |n.log| - n.taken >= CAPACITY }

  /** service_send: a full inbox swallows the message. */
  function Deliver(nodes: map<nat, Node>, to: nat, m: Message): map<nat, Node>
  {
    if to !in nodes || Full(nodes[to]) then nodes
    else nodes[to := nodes[to].(log := nodes[to].log + [m])]
  }

  function SetLua(sys: Sys, s: nat, l: Lua): Sys
    requires s in sys.nodes
  {
    sys.(nodes := sys.nodes[s := sys.nodes[s].(lua := l)])
  }

  /** Whether an answer would find its caller: the test of the response branch. */
  predicate CallerFound(n: Node, session: nat)
  {
    session in n.lua.lookup && n.lua.lookup[session] < |n.lua.coroutines|
  }

  function Next(sys: Sys, a: Action): Sys
    requires Enabled(sys, a)
  {
    var n := sys.nodes[a.s];
    match a
    case Send(s, to, payload) => sys.(nodes := Deliver(sys.nodes, to, Message(s, to, 0, Request, payload)))
    case CallSends(s, to, payload) =>
      var m := CallMessage(n.lua, s, to, payload);
      var key := (s, n.lua.sessionId);
      var nodes := sys.nodes[s := n.(calling := true)];
      sys.(nodes := Deliver(nodes, to, m), asked := sys.asked[key := Ask(n.lua.running, to, payload)],
           lost := if Full(sys.nodes[to]) then sys.lost + {key} else sys.lost)
    case CallRegisters(s) =>
      sys.(nodes := sys.nodes[s := n.(calling := false,
                                      lua := if n.lua.running.Some? then CallYields(n.lua) else CallFails(n.lua))])
    case DispatchRequest(s) =>
      sys.(nodes := sys.nodes[s := n.(taken := n.taken + 1, lua := StartHandler(n.lua, n.log[n.taken]))])
    case DispatchResponse(s) =>
      var m := n.log[n.taken];
      if CallerFound(n, m.session) then
        sys.(nodes := sys.nodes[s := n.(taken := n.taken + 1, lua := ResumeCaller(n.lua, m.session))],
             got := sys.got[(s, m.session) := m.payload])
      else
        sys.(nodes := sys.nodes[s := n.(taken := n.taken + 1)], lost := sys.lost + {(s, m.session)})
    case Respond(s, payload) =>
      var nodes := sys.nodes[s := n.(lua := Finish(n.lua))];
      (match Answer(n.lua, s, payload)
       case None => sys.(nodes := nodes)
       case Some(m) =>
         var key := (m.to, m.session);
         sys.(nodes := Deliver(nodes, m.to, m), answered := sys.answered[key := payload],
              lost := if m.to !in nodes || Full(nodes[m.to]) then sys.lost + {key} else sys.lost))
    case HandlerError(s) =>
      var sys' := SetLua(sys, s, Abort(n.lua));
      (match HeldKey(n.lua, n.lua.running.value)
       case None => sys'
       case Some(key) => sys'.(lost := sys.lost + {key}))
    case Sleep(s) => SetLua(sys, s, SleepYields(n.lua))
    case TimerFires(s, c) => SetLua(sys, s, Resume(n.lua, c))
  }

  // ---------- tokens ----------

  /** A call is carried by its request in an inbox, then by the handler that owes the answer, then by the answer. */
  datatype Place = InInbox(b: nat, i: nat) | Held(b: nat, c: nat)

  function MessageKey(b: nat, m: Message): Option<Key>
  {
    if m.session == 0 then None
    else match m.kind case Request => Some((m.from, m.session)) case Response => Some((b, m.session))
  }

  function HeldKey(l: Lua, c: nat): Option<Key>
  {
    if c < |l.coroutines| && l.coroutines[c].status != Dead && c in l.response && c in l.address && l.response[c] > 0
    then Some((l.address[c], l.response[c]))
    else None
  }

  function KeyAt(sys: Sys, p: Place): Option<Key>
  {
    if p.b !in sys.nodes then None
    else
      var n := sys.nodes[p.b];
      match p
      case InInbox(b, i) => if n.taken <= i < |n.log| then MessageKey(b, n.log[i]) else None
      case Held(b, c) => HeldKey(n.lua, c)
  }

  predicate IsAnswer(sys: Sys, p: Place)
  {
    p.InInbox? && p.b in sys.nodes && p.i < |sys.nodes[p.b].log| && sys.nodes[p.b].log[p.i].kind == Response
  }

  function PayloadAt(sys: Sys, p: Place): Payload
  {
    if p.b !in sys.nodes then 0
    else if p.InInbox? then (if p.i < |sys.nodes[p.b].log| then sys.nodes[p.b].log[p.i].payload else 0)
    else if p.c < |sys.nodes[p.b].lua.coroutines| then sys.nodes[p.b].lua.coroutines[p.c].request.payload else 0
  }

  // ---------- the invariant ----------

  ghost predicate Unique(sys: Sys)
  {
    forall p, q :: KeyAt(sys, p).Some? && KeyAt(sys, p) == KeyAt(sys, q) ==> p == q
  }

  /** Session number n of service a has been used. */
  predicate Issued(sys: Sys, key: Key)
  {
    key.0 in sys.nodes && 0 < key.1
    && var n := sys.nodes[key.0];
       key.1 < n.lua.sessionId || (key.1 == n.lua.sessionId && n.calling)
  }

  /** The caller is suspended in this very call and will be found, or is about to be registered, or never was in a
      coroutine. */
  predicate Waiting(sys: Sys, key: Key)
    requires key in sys.asked && key.0 in sys.nodes
  {
    var l, co := sys.nodes[key.0].lua, sys.asked[key].co;
    co.Some? ==>
      if key.1 == l.sessionId then sys.nodes[key.0].calling && l.running == co
      else CallerFound(sys.nodes[key.0], key.1) && l.lookup[key.1] == co.value
           && l.coroutines[co.value].status == InCall(key.1)
  }

  ghost predicate TokenOk(sys: Sys, p: Place)
  {
    KeyAt(sys, p).Some? ==>
      var key := KeyAt(sys, p).value;
      && Issued(sys, key) && key in sys.asked && key !in sys.got && key !in sys.lost
      && Waiting(sys, key)
      && (if IsAnswer(sys, p) then key in sys.answered && PayloadAt(sys, p) == sys.answered[key]
          else key !in sys.answered && PayloadAt(sys, p) == sys.asked[key].payload && p.b == sys.asked[key].to)
  }

  ghost predicate NodeOk(sys: Sys, s: nat)
    requires s in sys.nodes
  {
    var n := sys.nodes[s];
    var l := n.lua;
    && 0 < l.sessionId && n.taken <= |n.log|
    && (forall k :: k in l.lookup ==>
          0 < k < l.sessionId && CallerFound(n, k) && l.coroutines[l.lookup[k]].status == InCall(k)
          && (s, k) in sys.asked && sys.asked[(s, k)].co == Some(l.lookup[k]) && (s, k) !in sys.got)
    && (forall c :: 0 <= c < |l.coroutines| && l.coroutines[c].status != Dead ==> c in l.address && c in l.response)
    && (forall c :: c in l.response ==> c < |l.coroutines|)
    && (forall i :: n.taken <= i < |n.log| && n.log[i].kind == Response ==> n.log[i].session > 0)
    && (l.running.Some? ==> Busy(l) && l.coroutines[l.running.value].status == Running)
    && (n.calling ==>
          (s, l.sessionId) in sys.asked && sys.asked[(s, l.sessionId)].co == l.running && (s, l.sessionId) !in sys.got)
  }

  ghost predicate HistoryOk(sys: Sys)
  {
    && (forall key :: key in sys.asked ==> Issued(sys, key))
    && (forall key :: key in sys.answered ==> key in sys.asked)
    && (forall key :: key in sys.lost ==> key in sys.asked && key !in sys.got)
    && (forall key :: key in sys.got ==>
          key in sys.answered && sys.got[key] == sys.answered[key] && sys.asked[key].co.Some?)
  }

  /** No call vanishes: its answer has arrived, or it has been lost, or one token carries it. */
  ghost predicate AccountedFor(sys: Sys)
  {
    forall key :: key in sys.asked ==>
      key in sys.got || key in sys.lost || exists p :: KeyAt(sys, p) == Some(key)
  }

  ghost predicate Inv(sys: Sys)
  {
    && Unique(sys) && HistoryOk(sys) && AccountedFor(sys)
    && (forall p :: TokenOk(sys, p))
    && (forall s :: s in sys.nodes ==> NodeOk(sys, s))
  }

  function Start(ids: set<nat>): Sys
  {
    Sys(map s | s in ids :: Node([], 0, FRESH, false), map[], map[], map[], {})
  }

  lemma StartInv(ids: set<nat>)
    ensures Inv(Start(ids))
  {
  }
}
