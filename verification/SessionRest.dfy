/** When nothing moves any more: no deadlock, for a call that never returns is held up by one that was lost. */
module SessionRest {
  import opened Bits
  import opened SessionTables
  import opened SessionProtocol
  import opened SessionSteps
  import opened SessionRuns

  /** Nothing is left to do but what code outside the coroutines may start. */
  ghost predicate AtRest(sys: Sys)
  {
    forall a :: Enabled(sys, a) ==> a.Send? || a.CallSends?
  }

  // ---------- what each coroutine is doing ----------

  /** Only the running coroutine runs, and each coroutine in a call is registered under that call. */
  ghost predicate Placed(l: Lua)
  {
    forall c :: 0 <= c < |l.coroutines| ==>
      match l.coroutines[c].status
      case Running => l.running == Some(c)
      case InCall(k) => k < l.sessionId && k in l.lookup && l.lookup[k] == c
      case _ => true
  }

  lemma PlacedStep(sys: Sys, a: Action, s: nat)
    requires Enabled(sys, a) && s in sys.nodes && Placed(sys.nodes[s].lua)
    ensures s in Next(sys, a).nodes && Placed(Next(sys, a).nodes[s].lua)
  {
    if s == a.s {
      OwnTables(sys, a);
      hide Next;
    } else {
      OtherTables(sys, a, s);
      hide Next, Enabled;
    }
  }

  // ---------- calls in the order in which they were made ----------

  ghost predicate Precedes(order: seq<Key>, a: Key, b: Key)
  {
    exists i, j :: 0 <= i < j < |order| && order[i] == a && order[j] == b
  }

  /** The call coroutine c is in, the sending half included. */
  function CallOf(n: Node, s: nat, c: nat): Option<Key>
  {
    if n.calling && n.lua.running == Some(c) then Some((s, n.lua.sessionId))
    else if c < |n.lua.coroutines| && n.lua.coroutines[c].status.InCall? then
      Some((s, n.lua.coroutines[c].status.session))
    else None
  }

  /** A handler in a call was handed its own request before it made that call. */
  ghost predicate Ordered(sys: Sys, order: seq<Key>)
  {
    && (forall key :: key in sys.asked <==> key in order)
    && (forall i, j :: 0 <= i < j < |order| ==> order[i] != order[j])
    && forall s, c :: s in sys.nodes && HeldKey(sys.nodes[s].lua, c).Some? && CallOf(sys.nodes[s], s, c).Some? ==>
         Precedes(order, HeldKey(sys.nodes[s].lua, c).value, CallOf(sys.nodes[s], s, c).value)
  }

  function OrderAfter(sys: Sys, order: seq<Key>, a: Action): seq<Key>
    requires Enabled(sys, a)
  {
    if a.CallSends? then order + [(a.s, sys.nodes[a.s].lua.sessionId)] else order
  }

  lemma PrecedesLast(order: seq<Key>, a: Key, b: Key)
    requires a in order
    ensures Precedes(order + [b], a, b)
  {
    var i :| 0 <= i < |order| && order[i] == a;
    assert (order + [b])[i] == a && (order + [b])[|order|] == b;
  }

  lemma PrecedesStays(order: seq<Key>, a: Key, b: Key, more: seq<Key>)
    requires Precedes(order, a, b)
    ensures Precedes(order + more, a, b)
  {
    var i, j :| 0 <= i < j < |order| && order[i] == a && order[j] == b;
    assert (order + more)[i] == a && (order + more)[j] == b;
  }

  /** Whether a service is inside service.call changes with the two halves of a call only. */
  lemma Calling(sys: Sys, a: Action, s: nat)
    requires Enabled(sys, a) && s in sys.nodes
    ensures s in Next(sys, a).nodes
    ensures Next(sys, a).nodes[s].calling
            == if a.s != s then sys.nodes[s].calling else if a.CallSends? then true
               else if a.CallRegisters? then false else sys.nodes[s].calling
  {
    hide Answer, Finish, Abort, Resume, StartHandler, CallYields, CallFails, SleepYields, ResumeCaller;
  }

  lemma OwnHeldAfter(n: Node, n': Node, a: Action, s: nat, c: nat)
    requires a.Respond? || a.HandlerError? || a.Sleep? ==> InHandler(n)
    requires n.lua.running.Some? ==> Busy(n.lua) && n.lua.coroutines[n.lua.running.value].status == Running
    requires a.CallRegisters? ==> n.calling
    requires a.DispatchRequest? || a.DispatchResponse? ==> n.taken < |n.log| && Idle(n)
    requires a.TimerFires? ==> a.c < |n.lua.coroutines| && Idle(n)
    requires n'.lua == TablesAfter(n, a)
    requires n'.calling == if a.CallSends? then true else if a.CallRegisters? then false else n.calling
    ensures HeldKey(n'.lua, c).Some? && CallOf(n', s, c).Some? ==>
              && HeldKey(n'.lua, c) == HeldKey(n.lua, c)
              && (CallOf(n', s, c) == CallOf(n, s, c)
                  || (a.CallSends? && CallOf(n', s, c) == Some((s, n.lua.sessionId))))
  {
  }

  /** A coroutine that is in a call after a step held the same request before, and was in that call already or has just
      sent its request. */
  lemma HeldAfter(sys: Sys, a: Action, s: nat, c: nat)
    requires Enabled(sys, a) && s in sys.nodes && NodeOk(sys, s)
    ensures s in Next(sys, a).nodes
    ensures var n, n' := sys.nodes[s], Next(sys, a).nodes[s];
            HeldKey(n'.lua, c).Some? && CallOf(n', s, c).Some? ==>
              && HeldKey(n'.lua, c) == HeldKey(n.lua, c)
              && (CallOf(n', s, c) == CallOf(n, s, c)
                  || (a.CallSends? && a.s == s && CallOf(n', s, c) == Some((s, n.lua.sessionId))))
  {
    Calling(sys, a, s);
    if s != a.s {
      OtherTables(sys, a, s);
      hide Next, NodeOk, Enabled;
    } else {
      OwnTables(sys, a);
      hide Next, NodeOk;
      OwnHeldAfter(sys.nodes[s], Next(sys, a).nodes[s], a, s, c);
    }
  }

  lemma OrderedStep(sys: Sys, a: Action, order: seq<Key>)
    requires Inv(sys) && Enabled(sys, a) && Ordered(sys, order)
    ensures Ordered(Next(sys, a), OrderAfter(sys, order, a))
  {
    hide Inv, Next, HeldKey, CallOf, KeyAt, Precedes;
    var sys', order' := Next(sys, a), OrderAfter(sys, order, a);
    AskedAfter(sys, a);
    forall s, c | s in sys'.nodes && HeldKey(sys'.nodes[s].lua, c).Some? && CallOf(sys'.nodes[s], s, c).Some?
      ensures Precedes(order', HeldKey(sys'.nodes[s].lua, c).value, CallOf(sys'.nodes[s], s, c).value)
    {
      HeldPrecedes(sys, a, order, s, c);
    }
    if a.CallSends? {
      var key := (a.s, sys.nodes[a.s].lua.sessionId);
      UnusedKey(sys, a.s);
      assert order'[|order|] == key && forall i :: 0 <= i < |order| ==> order'[i] == order[i];
    }
  }

  lemma AskedAfter(sys: Sys, a: Action)
    requires Enabled(sys, a)
    ensures Next(sys, a).nodes.Keys == sys.nodes.Keys
    ensures Next(sys, a).asked.Keys
            == sys.asked.Keys + if a.CallSends? then {(a.s, sys.nodes[a.s].lua.sessionId)} else {}
  {
    hide Answer, Finish, Abort, Resume, StartHandler, CallYields, CallFails, SleepYields, ResumeCaller;
  }

  lemma HeldPrecedes(sys: Sys, a: Action, order: seq<Key>, s: nat, c: nat)
    requires Inv(sys) && Enabled(sys, a) && Ordered(sys, order) && s in sys.nodes && s in Next(sys, a).nodes
    requires HeldKey(Next(sys, a).nodes[s].lua, c).Some? && CallOf(Next(sys, a).nodes[s], s, c).Some?
    ensures Precedes(OrderAfter(sys, order, a), HeldKey(Next(sys, a).nodes[s].lua, c).value,
                     CallOf(Next(sys, a).nodes[s], s, c).value)
  {
    hide Inv, Next, Precedes, Issued, Waiting, PayloadAt, IsAnswer, HeldKey, CallOf;
    NodeOf(sys, s);
    HeldAfter(sys, a, s, c);
    TokenOf(sys, Held(s, c));
    var key := HeldKey(sys.nodes[s].lua, c).value;
    var call := CallOf(Next(sys, a).nodes[s], s, c).value;
    if CallOf(sys.nodes[s], s, c) == Some(call) {
      PrecedesStays(order, key, call, OrderAfter(sys, order, a)[|order|..]);
      assert order + OrderAfter(sys, order, a)[|order|..] == OrderAfter(sys, order, a);
    } else {
      PrecedesLast(order, key, call);
    }
  }

  // ---------- over a run ----------

  lemma {:induction false} RunOrder(ids: set<nat>, states: seq<Sys>, actions: seq<Action>, i: nat)
      returns (order: seq<Key>)
    requires Run(ids, states, actions) && i < |states|
    ensures Ordered(states[i], order) && forall s :: s in states[i].nodes ==> Placed(states[i].nodes[s].lua)
  {
    hide Inv, Next, Enabled, Fits, Ordered, Placed;
    if i == 0 {
      order := [];
      AtStart(ids);
    } else {
      order := RunOrder(ids, states, actions, i - 1);
      RunInv(ids, states, actions, i - 1);
      OrderedStep(states[i - 1], actions[i - 1], order);
      AskedAfter(states[i - 1], actions[i - 1]);
      forall s | s in states[i].nodes ensures Placed(states[i].nodes[s].lua) {
        PlacedStep(states[i - 1], actions[i - 1], s);
      }
      order := OrderAfter(states[i - 1], order, actions[i - 1]);
    }
  }

  lemma AtStart(ids: set<nat>)
    ensures Ordered(Start(ids), []) && forall s :: s in ids ==> Placed(Start(ids).nodes[s].lua)
  {
  }

  // ---------- at rest ----------

  /** The handler of one call is suspended in another. */
  ghost predicate WaitsFor(sys: Sys, key: Key, key': Key)
  {
    exists s, c ::
      s in sys.nodes && HeldKey(sys.nodes[s].lua, c) == Some(key) && CallOf(sys.nodes[s], s, c) == Some(key')
  }

  lemma NothingEnabled(sys: Sys, s: nat)
    requires AtRest(sys) && s in sys.nodes && NodeOk(sys, s)
    ensures var n := sys.nodes[s];
            && Idle(n) && n.taken == |n.log|
            && forall c :: 0 <= c < |n.lua.coroutines| ==> n.lua.coroutines[c].status != Asleep
  {
    var n := sys.nodes[s];
    assert !Enabled(sys, CallRegisters(s)) && !Enabled(sys, Respond(s, 0));
    assert !Enabled(sys, DispatchRequest(s)) && !Enabled(sys, DispatchResponse(s));
    forall c | 0 <= c < |n.lua.coroutines| ensures n.lua.coroutines[c].status != Asleep {
      assert !Enabled(sys, TimerFires(s, c));
    }
  }

  /** A call under way has a handler that is itself suspended in a call not yet answered. */
  lemma HandlerWaits(sys: Sys, p: Place)
    requires Inv(sys) && AtRest(sys) && KeyAt(sys, p).Some? && p.b in sys.nodes && Placed(sys.nodes[p.b].lua)
    ensures p.Held? && KeyAt(sys, p) == HeldKey(sys.nodes[p.b].lua, p.c)
    ensures var call := CallOf(sys.nodes[p.b], p.b, p.c);
            call.Some? && call.value in sys.asked && call.value !in sys.got
  {
    NodeOf(sys, p.b);
    NothingEnabled(sys, p.b);
    hide Inv, AtRest;
  }

  lemma TokenSomewhere(sys: Sys, p: Place)
    requires KeyAt(sys, p).Some?
    ensures p.b in sys.nodes
  {
  }

  /** A call under way when nothing moves any more is held up by a call that was lost: its handler waits for a later
      call, whose handler waits for a later one, and so on to the lost one. */
  lemma {:induction false} HeldUpByLoss(sys: Sys, order: seq<Key>, key: Key, at: nat) returns (chain: seq<Key>)
    requires Inv(sys) && AtRest(sys) && Ordered(sys, order) && forall s :: s in sys.nodes ==> Placed(sys.nodes[s].lua)
    requires Pending(sys, key) && at < |order| && order[at] == key
    ensures |chain| > 1 && chain[0] == key && chain[|chain| - 1] in sys.lost
    ensures forall j :: 0 <= j < |chain| - 1 ==> WaitsFor(sys, chain[j], chain[j + 1])
    decreases |order| - at
  {
    hide Inv, AtRest, KeyAt, HeldKey, CallOf, Placed;
    var p :| KeyAt(sys, p) == Some(key);
    TokenSomewhere(sys, p);
    HandlerWaits(sys, p);
    var call := CallOf(sys.nodes[p.b], p.b, p.c).value;
    assert WaitsFor(sys, key, call);
    assert Precedes(order, key, call);
    if call in sys.lost {
      chain := [key, call];
    } else {
      PartsOfInv(sys);
      var i, j :| 0 <= i < j < |order| && order[i] == key && order[j] == call;
      var rest := HeldUpByLoss(sys, order, call, j);
      chain := [key] + rest;
    }
  }

  /** So when no call has been lost, every run that comes to rest has answered every call. */
  lemma AllAnsweredAtRest(ids: set<nat>, states: seq<Sys>, actions: seq<Action>, i: nat, key: Key)
    requires Run(ids, states, actions) && i < |states| && AtRest(states[i])
    requires key in states[i].asked && states[i].lost == {}
    ensures key in states[i].got
  {
    hide Inv, AtRest, KeyAt, HeldKey, CallOf, Placed;
    CallsAreConserved(ids, states, actions, i, key);
    if Pending(states[i], key) {
      var chain := NoDeadlock(ids, states, actions, i, key);
    }
  }

  lemma NoDeadlock(ids: set<nat>, states: seq<Sys>, actions: seq<Action>, i: nat, key: Key) returns (chain: seq<Key>)
    requires Run(ids, states, actions) && i < |states| && AtRest(states[i]) && Pending(states[i], key)
    ensures |chain| > 1 && chain[0] == key && chain[|chain| - 1] in states[i].lost
    ensures forall j :: 0 <= j < |chain| - 1 ==> WaitsFor(states[i], chain[j], chain[j + 1])
  {
    hide Inv, AtRest, HeldKey, CallOf, Placed, WaitsFor, Run;
    RunInv(ids, states, actions, i);
    var order := RunOrder(ids, states, actions, i);
    var p :| KeyAt(states[i], p) == Some(key);
    TokenOf(states[i], p);
    hide KeyAt;
    var at :| 0 <= at < |order| && order[at] == key;
    chain := HeldUpByLoss(states[i], order, key, at);
  }
}
