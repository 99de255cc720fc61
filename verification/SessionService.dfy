/** A service of the protocol, driven through its tables: each step does to them what the transition system says. */
module SessionService {
  import opened Bits
  import opened SessionTables
  import opened SessionProtocol
  import opened SessionSteps
  import opened SessionRuns

  /** The inbox of r after a step in which `sent` was sent. */
  function Received(sys: Sys, r: nat, sent: Option<Message>): seq<Message>
    requires r in sys.nodes
  {
    var log := sys.nodes[r].log;
    if sent.Some? && sent.value.to == r && !Full(sys.nodes[r]) then log + [sent.value] else log
  }

  /** What the step needs of the tables. */
  lemma Callable(sys: Sys, a: Action)
    requires Enabled(sys, a) && NodeOk(sys, a.s)
    ensures a.s in sys.nodes
    ensures var n := sys.nodes[a.s];
            && (n.lua.running.Some? ==> Busy(n.lua))
            && (forall k :: k in n.lua.lookup ==> n.lua.lookup[k] < |n.lua.coroutines|)
            && (a.Respond? || a.HandlerError? || a.Sleep? ==> n.lua.running.Some?)
            && (a.TimerFires? ==> a.c < |n.lua.coroutines|)
            && (a.DispatchRequest? ==> HasMessage(n, Request)) && (a.DispatchResponse? ==> HasMessage(n, Response))
  {
  }

  function Sent(sys: Sys, a: Action): Option<Message>
    requires a.s in sys.nodes && (a.Respond? ==> Busy(sys.nodes[a.s].lua))
  {
    var l := sys.nodes[a.s].lua;
    match a
    case Send(s, to, payload) => Some(Message(s, to, 0, Request, payload))
    case CallSends(s, to, payload) => Some(CallMessage(l, s, to, payload))
    case Respond(s, payload) => Answer(l, s, payload)
    case _ => None
  }

  lemma DeliverLogs(sys: Sys, nodes: map<nat, Node>, s: nat, m: Message)
    requires s in sys.nodes && s in nodes && nodes == sys.nodes[s := nodes[s]]
    requires nodes[s].log == sys.nodes[s].log && nodes[s].taken == sys.nodes[s].taken
    ensures Deliver(nodes, m.to, m).Keys == sys.nodes.Keys
    ensures forall r :: r in sys.nodes ==> Deliver(nodes, m.to, m)[r].log == Received(sys, r, Some(m))
  {
  }

  lemma StepSends(sys: Sys, a: Action)
    requires Enabled(sys, a)
    ensures Next(sys, a).nodes.Keys == sys.nodes.Keys
    ensures forall r :: r in sys.nodes ==> Next(sys, a).nodes[r].log == Received(sys, r, Sent(sys, a))
  {
    hide Answer, Finish, Abort, Resume, StartHandler, CallYields, CallFails, SleepYields, ResumeCaller, Deliver,
         Received;
    var n := sys.nodes[a.s];
    match a
    case Send(s, to, payload) =>
      DeliverLogs(sys, sys.nodes, s, Message(s, to, 0, Request, payload));
    case CallSends(s, to, payload) =>
      DeliverLogs(sys, sys.nodes[s := n.(calling := true)], s, CallMessage(n.lua, s, to, payload));
    case Respond(s, payload) =>
      var nodes := sys.nodes[s := n.(lua := Finish(n.lua))];
      if Answer(n.lua, s, payload).Some? {
        DeliverLogs(sys, nodes, s, Answer(n.lua, s, payload).value);
      } else {
        NothingReceived(sys);
      }
    case _ => NothingReceived(sys);
  }

  lemma NothingReceived(sys: Sys)
    ensures forall r :: r in sys.nodes ==> Received(sys, r, None) == sys.nodes[r].log
  {
  }

  /** One step of service a.s. `head` is the message in front of its inbox when the step takes one. */
  method Step(t: Sessions, ghost sys: Sys, a: Action, head: Message) returns (sent: Option<Message>)
    requires Enabled(sys, a) && NodeOk(sys, a.s) && t.self == a.s && t.State() == sys.nodes[a.s].lua
    requires a.DispatchRequest? || a.DispatchResponse? ==> head == sys.nodes[a.s].log[sys.nodes[a.s].taken]
    modifies t
    ensures Next(sys, a).nodes.Keys == sys.nodes.Keys && t.State() == Next(sys, a).nodes[a.s].lua
    ensures forall r :: r in sys.nodes ==> Next(sys, a).nodes[r].log == Received(sys, r, sent)
  {
    hide Answer, Finish, Abort, Resume, StartHandler, CallYields, CallFails, SleepYields, ResumeCaller, NodeOk, Next,
         Enabled;
    Callable(sys, a);
    OwnTables(sys, a);
    StepSends(sys, a);
    sent := None;
    match a
    case Send(_, to, payload) => sent := Some(Message(t.self, to, 0, Request, payload));
    case CallSends(_, to, payload) =>
      var m := t.SendRequest(to, payload);
      sent := Some(m);
    case CallRegisters(_) => t.Register();
    case DispatchRequest(_) => var _ := t.Dispatch(head);
    case DispatchResponse(_) => var _ := t.Dispatch(head);
    case Respond(_, payload) => sent := t.SendResponse(payload);
    case HandlerError(_) => t.Stop(false);
    case Sleep(_) => t.Stop(true);
    case TimerFires(_, c) => t.ResumeSession(c);
  }
}
