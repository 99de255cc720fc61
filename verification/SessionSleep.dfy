/** Sleepers: who falls asleep, who wakes up, and that handlers that are over stay so. */
module SessionSleep {
  import opened Bits
  import opened SessionTables
  import opened SessionProtocol
  import opened SessionSteps
  import opened SessionRuns
  import opened SessionEffects

  function Sleepers(cs: seq<Coroutine>): nat
  {
    if cs == [] then 0 else Sleepers(cs[..|cs| - 1]) + if cs[|cs| - 1].status == Asleep then 1 else 0
  }

  function One(status: Status): nat { if status == Asleep then 1 else 0 }

  lemma {:induction false} OneChanged(cs: seq<Coroutine>, cs': seq<Coroutine>, c: nat)
    requires c < |cs| == |cs'| && forall d :: 0 <= d < |cs| && d != c ==> cs'[d] == cs[d]
    ensures Sleepers(cs') + One(cs[c].status) == Sleepers(cs) + One(cs'[c].status)
  {
    var n := |cs| - 1;
    if c == n {
      assert cs'[..n] == cs[..n];
    } else {
      OneChanged(cs[..n], cs'[..n], c);
    }
  }

  lemma OneMore(cs: seq<Coroutine>, co: Coroutine)
    ensures Sleepers(cs + [co]) == Sleepers(cs) + One(co.status)
  {
    assert (cs + [co])[..|cs|] == cs;
  }

  lemma ChangedStatus(l: Lua, l': Lua, c: nat, status: Status)
    requires OnlyStatus(l, l', c, status)
    ensures Sleepers(l'.coroutines) + One(l.coroutines[c].status) == Sleepers(l.coroutines) + One(status)
  {
    OneChanged(l.coroutines, l'.coroutines, c);
  }

  // ---------- one step ----------

  /** The services other than the acting one, and its tables. */
  lemma TablesOnly(sys: Sys, a: Action, s: nat)
    requires Enabled(sys, a) && s in sys.nodes && s != a.s
    ensures s in Next(sys, a).nodes && Next(sys, a).nodes[s].lua == sys.nodes[s].lua
  {
    OtherTables(sys, a, s);
  }

  /** What a step does to the coroutines of the acting service: it starts one, or changes what one of them is doing, or
      leaves them alone. */
  datatype Change = Nothing | Starts | Changes(c: nat, status: Status)

  function ChangeOf(n: Node, a: Action): Change
  {
    match a
    case Send(_, _, _) => Nothing
    case CallSends(_, _, _) => Nothing
    case CallRegisters(_) =>
      if n.lua.running.None? then Nothing else Changes(n.lua.running.value, InCall(n.lua.sessionId))
    case DispatchRequest(_) => Starts
    case DispatchResponse(_) =>
      if n.taken < |n.log| && n.log[n.taken].session in n.lua.lookup
         && n.lua.lookup[n.log[n.taken].session] < |n.lua.coroutines| then
        Changes(n.lua.lookup[n.log[n.taken].session], Running)
      else Nothing
    case Respond(_, _) => if n.lua.running.None? then Nothing else Changes(n.lua.running.value, Dead)
    case HandlerError(_) => if n.lua.running.None? then Nothing else Changes(n.lua.running.value, Dead)
    case Sleep(_) => if n.lua.running.None? then Nothing else Changes(n.lua.running.value, Asleep)
    case TimerFires(_, c) => Changes(c, Running)
  }

  ghost predicate Changed(l: Lua, l': Lua, ch: Change)
  {
    match ch
    case Nothing => l'.coroutines == l.coroutines
    case Starts => exists m :: l'.coroutines == l.coroutines + [Coroutine(Running, m)]
    case Changes(c, status) => OnlyStatus(l, l', c, status)
  }

  lemma StepChanges(sys: Sys, a: Action)
    requires Enabled(sys, a)
    ensures a.s in Next(sys, a).nodes
    ensures Changed(sys.nodes[a.s].lua, Next(sys, a).nodes[a.s].lua, ChangeOf(sys.nodes[a.s], a))
  {
    hide Next, HasRoom, OnlyStatus;
    match a {
      case Send(s, to, payload) => SendEffect(sys, s, to, payload);
      case CallSends(s, to, payload) => CallSendsEffect(sys, s, to, payload);
      case CallRegisters(s) => CallRegistersEffect(sys, s);
      case DispatchRequest(s) => DispatchRequestEffect(sys, s);
      case DispatchResponse(s) => DispatchResponseEffect(sys, s);
      case Respond(s, payload) => RespondEffect(sys, s, payload);
      case HandlerError(s) => HandlerErrorEffect(sys, s);
      case Sleep(s) => SleepEffect(sys, s);
      case TimerFires(s, c) => TimerEffect(sys, s, c);
    }
  }

  /** A change concerns the running coroutine, a caller waiting for its answer, or the sleeper whose timer fires. */
  lemma ChangedFrom(sys: Sys, a: Action)
    requires Enabled(sys, a) && NodeOk(sys, a.s)
    ensures var n := sys.nodes[a.s];
            match ChangeOf(n, a)
            case Changes(c, status) =>
              && c < |n.lua.coroutines| && n.lua.coroutines[c].status != Dead
              && (n.lua.coroutines[c].status == Asleep <==> a.TimerFires?) && (a.TimerFires? ==> a.c == c)
              && (status == Asleep <==> a.Sleep?)
            case _ => !a.Sleep? && !a.TimerFires?
  {
  }

  /** Each Sleep makes one sleeper more and each timer one fewer; nothing else does either. */
  lemma StepSleepers(sys: Sys, a: Action, s: nat)
    requires Inv(sys) && Enabled(sys, a) && s in sys.nodes
    ensures s in Next(sys, a).nodes
    ensures Sleepers(Next(sys, a).nodes[s].lua.coroutines) + (if a.TimerFires? && a.s == s then 1 else 0)
            == Sleepers(sys.nodes[s].lua.coroutines) + if a.Sleep? && a.s == s then 1 else 0
  {
    hide Next, Inv, NodeOk, OnlyStatus, ChangeOf, Sleepers, Enabled;
    if s != a.s {
      TablesOnly(sys, a, s);
    } else {
      NodeOf(sys, s);
      StepChanges(sys, a);
      ChangedFrom(sys, a);
      var l, l' := sys.nodes[s].lua, Next(sys, a).nodes[s].lua;
      match ChangeOf(sys.nodes[s], a)
      case Nothing =>
      case Starts =>
        var m :| l'.coroutines == l.coroutines + [Coroutine(Running, m)];
        OneMore(l.coroutines, Coroutine(Running, m));
      case Changes(c, status) => ChangedStatus(l, l', c, status);
    }
  }

  predicate Has(sys: Sys, s: nat, c: nat, status: Status)
  {
    s in sys.nodes && c < |sys.nodes[s].lua.coroutines| && sys.nodes[s].lua.coroutines[c].status == status
  }

  /** A sleeper is woken by its own timer and by nothing else, and then it runs. A coroutine that is over stays so. */
  lemma StepStatus(sys: Sys, a: Action, s: nat, c: nat)
    requires Inv(sys) && Enabled(sys, a)
    ensures Has(sys, s, c, Asleep) ==> Has(Next(sys, a), s, c, if a == TimerFires(s, c) then Running else Asleep)
    ensures Has(sys, s, c, Asleep) && a == TimerFires(s, c) ==> Next(sys, a).nodes[s].lua.running == Some(c)
    ensures Has(sys, s, c, Dead) ==> Has(Next(sys, a), s, c, Dead)
  {
    hide Next, Inv, NodeOk, ChangeOf, Enabled;
    if s in sys.nodes {
      if s != a.s {
        TablesOnly(sys, a, s);
      } else {
        NodeOf(sys, s);
        StepChanges(sys, a);
        ChangedFrom(sys, a);
        if a == TimerFires(s, c) {
          TimerEffect(sys, s, c);
        }
      }
    }
  }

  // ---------- over a run ----------

  /** How often service s has gone to sleep, and how often one of its timers has fired. */
  function Count(actions: seq<Action>, i: nat, s: nat): (nat, nat)
    requires i <= |actions|
  {
    if i == 0 then (0, 0)
    else
      var (sleeps, timers) := Count(actions, i - 1, s);
      var a := actions[i - 1];
      (sleeps + if a.Sleep? && a.s == s then 1 else 0, timers + if a.TimerFires? && a.s == s then 1 else 0)
  }

  /** In every state as many coroutines are asleep as have gone to sleep without their timer having fired. */
  lemma {:induction false} SleepersCounted(ids: set<nat>, states: seq<Sys>, actions: seq<Action>, i: nat, s: nat)
    requires Run(ids, states, actions) && i < |states| && s in ids
    ensures s in states[i].nodes
    ensures Sleepers(states[i].nodes[s].lua.coroutines) + Count(actions, i, s).1 == Count(actions, i, s).0
  {
    hide Next, Enabled, Inv, Fits;
    if i > 0 {
      SleepersCounted(ids, states, actions, i - 1, s);
      RunInv(ids, states, actions, i - 1);
      StepSleepers(states[i - 1], actions[i - 1], s);
    }
  }

  /** A sleeper that is no longer asleep has had its own timer fire. */
  lemma {:induction false} WokenByTimer(ids: set<nat>, states: seq<Sys>, actions: seq<Action>, i: nat, j: nat, s: nat,
                                        c: nat) returns (k: nat)
    requires Run(ids, states, actions) && i <= j < |states|
    requires Has(states[i], s, c, Asleep) && !Has(states[j], s, c, Asleep)
    ensures i <= k < j && actions[k] == TimerFires(s, c)
    ensures Has(states[k], s, c, Asleep) && Has(states[k + 1], s, c, Running)
            && states[k + 1].nodes[s].lua.running == Some(c)
    decreases j - i
  {
    hide Next, Enabled, Inv, Fits, Has;
    RunInv(ids, states, actions, i);
    StepStatus(states[i], actions[i], s, c);
    if actions[i] == TimerFires(s, c) {
      k := i;
    } else {
      k := WokenByTimer(ids, states, actions, i + 1, j, s, c);
    }
  }

  /** A handler that has returned or failed never runs again. */
  lemma {:induction false} OverForGood(ids: set<nat>, states: seq<Sys>, actions: seq<Action>, i: nat, j: nat, s: nat,
                                       c: nat)
    requires Run(ids, states, actions) && i <= j < |states| && Has(states[i], s, c, Dead)
    ensures Has(states[j], s, c, Dead)
    decreases j - i
  {
    hide Next, Enabled, Inv, Fits, Has;
    if i < j {
      RunInv(ids, states, actions, i);
      StepStatus(states[i], actions[i], s, c);
      OverForGood(ids, states, actions, i + 1, j, s, c);
    }
  }
}
