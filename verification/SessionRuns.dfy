/** What the protocol guarantees over whole runs. */
module SessionRuns {
  import opened Bits
  import opened SessionTables
  import opened SessionProtocol
  import opened SessionSteps

  /** A run from services that have done nothing yet, however long. */
  ghost predicate AnyRun(ids: set<nat>, states: seq<Sys>, actions: seq<Action>)
  {
    && |states| == |actions| + 1 && states[0] == Start(ids)
    && (forall i :: 0 <= i < |actions| ==>
        Enabled(states[i], actions[i]) && states[i + 1] == Next(states[i], actions[i]))
  }

  /** A run in which every call that gets into an inbox has a session number that fits into its message. */
  ghost predicate Run(ids: set<nat>, states: seq<Sys>, actions: seq<Action>)
  {
    AnyRun(ids, states, actions) && forall i :: 0 <= i < |actions| ==> Fits(states[i], actions[i])
  }

  lemma {:induction false} RunInv(ids: set<nat>, states: seq<Sys>, actions: seq<Action>, i: nat)
    requires Run(ids, states, actions) && i < |states|
    ensures Inv(states[i])
  {
    hide Inv, Next, Enabled, Fits;
    if i == 0 {
      StartInv(ids);
    } else {
      RunInv(ids, states, actions, i - 1);
      StepInv(states[i - 1], actions[i - 1]);
    }
  }

  /** No other run keeps the invariant: it ends with the first call whose number does not fit. */
  lemma RunInvExactly(ids: set<nat>, states: seq<Sys>, actions: seq<Action>)
    requires AnyRun(ids, states, actions)
    ensures (forall i :: 0 <= i < |states| ==> Inv(states[i])) <==> Run(ids, states, actions)
  {
    hide Inv, Next, Enabled, Fits;
    if Run(ids, states, actions) {
      forall i | 0 <= i < |states| ensures Inv(states[i]) {
        RunInv(ids, states, actions, i);
      }
    }
    if forall i :: 0 <= i < |states| ==> Inv(states[i]) {
      forall i | 0 <= i < |actions| ensures Fits(states[i], actions[i]) {
        assert Inv(states[i]) && Inv(states[i + 1]);
        StepInv(states[i], actions[i]);
      }
    }
  }

  // ---------- conservation ----------

  /** A call's request, its handler's debt, and its answer never coexist, and none of them is ever doubled. */
  lemma OneTokenPerCall(ids: set<nat>, states: seq<Sys>, actions: seq<Action>, i: nat, p: Place, q: Place)
    requires Run(ids, states, actions) && i < |states|
    requires KeyAt(states[i], p).Some? && KeyAt(states[i], p) == KeyAt(states[i], q)
    ensures p == q
  {
    RunInv(ids, states, actions, i);
    hide KeyAt, TokenOk, NodeOk, HistoryOk, AccountedFor, Run;
  }

  ghost predicate Pending(sys: Sys, key: Key)
  {
    exists p :: KeyAt(sys, p) == Some(key)
  }

  /** Every call ever made is in exactly one of three states: its answer has arrived, it is lost, or it is under way. */
  lemma CallsAreConserved(ids: set<nat>, states: seq<Sys>, actions: seq<Action>, i: nat, key: Key)
    requires Run(ids, states, actions) && i < |states| && key in states[i].asked
    ensures var sys := states[i];
            && (key in sys.got || key in sys.lost || Pending(sys, key))
            && !(key in sys.got && key in sys.lost) && !(key in sys.got && Pending(sys, key))
            && !(key in sys.lost && Pending(sys, key))
  {
    RunInv(ids, states, actions, i);
    var sys := states[i];
    if Pending(sys, key) {
      var p :| KeyAt(sys, p) == Some(key);
      TokenOf(sys, p);
    }
    hide KeyAt, NodeOk, Unique, Run, Issued, Waiting, IsAnswer, PayloadAt;
  }

  /** Nothing is counted that was not called: tokens and results all belong to calls made. */
  lemma NoStrayTokens(ids: set<nat>, states: seq<Sys>, actions: seq<Action>, i: nat, p: Place)
    requires Run(ids, states, actions) && i < |states| && KeyAt(states[i], p).Some?
    ensures var key := KeyAt(states[i], p).value;
            && key in states[i].asked
            && (IsAnswer(states[i], p) <==> key in states[i].answered)
            && (if IsAnswer(states[i], p) then p.b == key.0 && PayloadAt(states[i], p) == states[i].answered[key]
                else p.b == states[i].asked[key].to && PayloadAt(states[i], p) == states[i].asked[key].payload)
  {
    hide Inv, KeyAt, IsAnswer, PayloadAt, Issued, Waiting;
    RunInv(ids, states, actions, i);
    TokenOf(states[i], p);
    AnswerIsAtCaller(states[i], p);
    hide Run;
  }

  lemma AnswerIsAtCaller(sys: Sys, p: Place)
    requires KeyAt(sys, p).Some?
    ensures IsAnswer(sys, p) ==> p.b == KeyAt(sys, p).value.0
  {
  }

  // ---------- the caller waits for its answer ----------

  /** As long as an answer, or anything that may become one, is under way, the caller is suspended in that very call:
      registered under its session number, or inside service.call just before registering. */
  lemma CallerWaits(ids: set<nat>, states: seq<Sys>, actions: seq<Action>, i: nat, key: Key)
    requires Run(ids, states, actions) && i < |states| && Pending(states[i], key)
    ensures key in states[i].asked && key.0 in states[i].nodes
    ensures var n := states[i].nodes[key.0];
            states[i].asked[key].co.Some? ==>
              || (n.calling && n.lua.sessionId == key.1 && n.lua.running == states[i].asked[key].co)
              || (key.1 in n.lua.lookup && n.lua.lookup[key.1] == states[i].asked[key].co.value
                  && n.lua.lookup[key.1] < |n.lua.coroutines|
                  && n.lua.coroutines[n.lua.lookup[key.1]].status == InCall(key.1))
  {
    RunInv(ids, states, actions, i);
    var p :| KeyAt(states[i], p) == Some(key);
    TokenOf(states[i], p);
    hide KeyAt, NodeOk, Unique, Run, IsAnswer, PayloadAt, Inv;
  }

  /** The branch that frees an answer unseen is taken only for calls made outside any coroutine; every other answer
      resumes the coroutine that asked, with the payload its handler sent. */
  lemma DiscardedExactly(ids: set<nat>, states: seq<Sys>, actions: seq<Action>, i: nat)
    requires Run(ids, states, actions) && i < |actions| && actions[i].DispatchResponse?
    ensures var s := actions[i].s;
            var m := states[i].nodes[s].log[states[i].nodes[s].taken];
            var key := (s, m.session);
            && key in states[i].asked && key in states[i].answered && m.payload == states[i].answered[key]
            && (states[i].asked[key].co.None? <==> key in states[i + 1].lost)
            && (states[i].asked[key].co.Some? <==> key in states[i + 1].got)
            && (states[i].asked[key].co.Some? ==>
                  states[i + 1].nodes[s].lua.running == states[i].asked[key].co
                  && states[i + 1].got[key] == m.payload
                  && m.session in states[i].nodes[s].lua.lookup && m.session !in states[i + 1].nodes[s].lua.lookup)
  {
    hide Inv, Issued, Waiting, Fits, HasMessage;
    RunInv(ids, states, actions, i);
    ResponseFinds(states[i], actions[i].s);
    hide Run;
  }

  /** A service has called itself from outside any coroutine, and is about to start the handler. */
  function CalledOutside(question: Payload): Sys
  {
    Sys(map[0 := Node([Message(0, 0, 1, Request, question)], 0, FRESH.(sessionId := 2), false)],
        map[(0, 1) := Ask(None, 0, question)], map[], map[], {})
  }

  lemma CallsOutside(question: Payload)
    ensures var a, b := CallSends(0, 0, question), CallRegisters(0);
            && Enabled(Start({0}), a) && Fits(Start({0}), a) && Enabled(Next(Start({0}), a), b)
            && Next(Next(Start({0}), a), b) == CalledOutside(question)
  {
    assert Start({0}).nodes == map[0 := Node([], 0, FRESH, false)];
    assert FRESH.lookup - {FRESH.sessionId} == FRESH.lookup;
    assert CallFails(FRESH) == FRESH.(sessionId := 2);
    var s1 := Next(Start({0}), CallSends(0, 0, question));
    var m := Message(0, 0, 1, Request, question);
    assert CallMessage(FRESH, 0, 0, question) == m && Start({0}).nodes[0].log + [m] == [m];
    assert s1.nodes == map[0 := Node([m], 0, FRESH, true)];
    assert s1.asked == map[(0, 1) := Ask(None, 0, question)];
    assert Next(s1, CallRegisters(0)).nodes == CalledOutside(question).nodes;
  }

  lemma AnswersOutside(question: Payload, answer: Payload) returns (sys: Sys)
    ensures var s := CalledOutside(question);
            && Enabled(s, DispatchRequest(0)) && Enabled(Next(s, DispatchRequest(0)), Respond(0, answer))
            && sys == Next(Next(s, DispatchRequest(0)), Respond(0, answer)) && Enabled(sys, DispatchResponse(0))
            && (0, 1) in sys.answered && sys.answered[(0, 1)] == answer && sys.got == map[]
            && (0, 1) in Next(sys, DispatchResponse(0)).lost && Next(sys, DispatchResponse(0)).got == map[]
            && 0 in Next(sys, DispatchResponse(0)).nodes
            && Next(sys, DispatchResponse(0)).nodes[0].lua.running.None?
  {
    var s := CalledOutside(question);
    var s3 := Next(s, DispatchRequest(0));
    assert s3.nodes[0].lua == StartHandler(s.nodes[0].lua, s.nodes[0].log[0]);
    var l := s3.nodes[0].lua;
    assert l.response[0] == 1 && l.address[0] == 0;
    assert Answer(l, 0, answer) == Some(Message(0, 0, 1, Response, answer));
    sys := Next(s3, Respond(0, answer));
  }

  /** A service that calls itself from outside any coroutine: its handler answers, and the answer is discarded. */
  lemma DiscardedRun(question: Payload, answer: Payload) returns (states: seq<Sys>, actions: seq<Action>)
    ensures Run({0}, states, actions) && |actions| == 5 && actions[4] == DispatchResponse(0)
    ensures (0, 1) in states[4].answered && states[4].answered[(0, 1)] == answer
    ensures (0, 1) in states[5].lost && states[5].got == map[]
    ensures 0 in states[5].nodes && states[5].nodes[0].lua.running.None?
  {
    hide Enabled, Next, Start, CalledOutside;
    CallsOutside(question);
    var s4 := AnswersOutside(question, answer);
    var s1 := Next(Start({0}), CallSends(0, 0, question));
    var s2 := Next(s1, CallRegisters(0));
    states := [Start({0}), s1, s2, Next(s2, DispatchRequest(0)), s4, Next(s4, DispatchResponse(0))];
    actions := [CallSends(0, 0, question), CallRegisters(0), DispatchRequest(0), Respond(0, answer),
                DispatchResponse(0)];
  }

  // ---------- one resumption, one answer ----------

  /** What a caller has received is never taken back or replaced, and the same for what a handler has answered. */
  lemma ResultsStay(sys: Sys, a: Action, key: Key)
    requires Inv(sys) && Enabled(sys, a)
    ensures var sys' := Next(sys, a);
            && (key in sys.got ==> key in sys'.got && sys'.got[key] == sys.got[key])
            && (key in sys.answered ==> key in sys'.answered && sys'.answered[key] == sys.answered[key])
            && (key in sys.asked ==> key in sys'.asked && sys'.asked[key] == sys.asked[key])
            && (key in sys.lost ==> key in sys'.lost)
  {
    hide Inv, KeyAt;
    match a
    case DispatchResponse(s) =>
      ResponseFinds(sys, s);
    case Respond(s, payload) =>
      AnswerPaysDebt(sys, s, payload);
      TokenOf(sys, Held(s, sys.nodes[s].lua.running.value));
      HandlerIsNoAnswer(sys, s);
      hide Issued, Waiting, PayloadAt, IsAnswer, Answer, Finish;
    case CallSends(s, to, payload) =>
      UnusedKey(sys, s);
    case _ =>
  }

  lemma HandlerIsNoAnswer(sys: Sys, s: nat)
    requires s in sys.nodes && sys.nodes[s].lua.running.Some?
    ensures !IsAnswer(sys, Held(s, sys.nodes[s].lua.running.value))
  {
  }

  lemma {:induction false} ResultsStayInRun(ids: set<nat>, states: seq<Sys>, actions: seq<Action>, i: nat, j: nat,
                                            key: Key)
    requires Run(ids, states, actions) && i <= j < |states|
    ensures key in states[i].got ==> key in states[j].got && states[j].got[key] == states[i].got[key]
    ensures key in states[i].answered ==>
              key in states[j].answered && states[j].answered[key] == states[i].answered[key]
    ensures key in states[i].asked ==> key in states[j].asked && states[j].asked[key] == states[i].asked[key]
    ensures key in states[i].lost ==> key in states[j].lost
  {
    hide Inv, Next, Enabled;
    if i < j {
      ResultsStayInRun(ids, states, actions, i, j - 1, key);
      RunInv(ids, states, actions, j - 1);
      ResultsStay(states[j - 1], actions[j - 1], key);
    }
  }

  /** The call whose answer this step takes out of an inbox. */
  function DispatchedKey(sys: Sys, a: Action): Option<Key>
    requires Enabled(sys, a)
  {
    match a
    case DispatchResponse(s) => Some((s, sys.nodes[s].log[sys.nodes[s].taken].session))
    case _ => None
  }

  /** The call this step's handler answers. */
  function AnsweredKey(sys: Sys, a: Action): Option<Key>
    requires Enabled(sys, a)
  {
    match a
    case Respond(s, _) => KeyAt(sys, Held(s, sys.nodes[s].lua.running.value))
    case _ => None
  }

  /** No call's answer is dispatched twice: its caller is resumed at most once for it. */
  lemma DispatchedOnce(ids: set<nat>, states: seq<Sys>, actions: seq<Action>, i: nat, j: nat)
    requires Run(ids, states, actions) && i < j < |actions|
    ensures DispatchedKey(states[i], actions[i]).Some? ==>
              DispatchedKey(states[i], actions[i]) != DispatchedKey(states[j], actions[j])
  {
    hide Inv, KeyAt;
    var a, b := actions[i], actions[j];
    if a.DispatchResponse? && b.DispatchResponse? {
      RunInv(ids, states, actions, i);
      RunInv(ids, states, actions, j);
      ResponseFinds(states[i], a.s);
      ResponseFinds(states[j], b.s);
      ResultsStayInRun(ids, states, actions, i + 1, j, DispatchedKey(states[i], a).value);
    }
  }

  /** No call is answered twice. */
  lemma AnsweredOnce(ids: set<nat>, states: seq<Sys>, actions: seq<Action>, i: nat, j: nat)
    requires Run(ids, states, actions) && i < j < |actions|
    ensures AnsweredKey(states[i], actions[i]).Some? ==>
              AnsweredKey(states[i], actions[i]) != AnsweredKey(states[j], actions[j])
  {
    hide Inv, KeyAt, Next;
    var a, b := actions[i], actions[j];
    if a.Respond? && b.Respond? && AnsweredKey(states[i], a).Some? {
      RunInv(ids, states, actions, i);
      RunInv(ids, states, actions, j);
      var key := AnsweredKey(states[i], a).value;
      AnswerRecorded(states[i], a.s, a.payload, key);
      ResultsStayInRun(ids, states, actions, i + 1, j, key);
      OwedUnanswered(states[j], b.s);
    }
  }

  lemma AnswerRecorded(sys: Sys, s: nat, payload: Payload, key: Key)
    requires Inv(sys) && Enabled(sys, Respond(s, payload))
    requires KeyAt(sys, Held(s, sys.nodes[s].lua.running.value)) == Some(key)
    ensures key in Next(sys, Respond(s, payload)).answered && Next(sys, Respond(s, payload)).answered[key] == payload
  {
    hide Inv, KeyAt, Answer, Finish;
    AnswerPaysDebt(sys, s, payload);
  }

  lemma OwedUnanswered(sys: Sys, s: nat)
    requires Inv(sys) && s in sys.nodes && sys.nodes[s].lua.running.Some?
    ensures var held := KeyAt(sys, Held(s, sys.nodes[s].lua.running.value)); held.Some? ==> held.value !in sys.answered
  {
    hide Inv, KeyAt, Issued, Waiting, PayloadAt;
    TokenOf(sys, Held(s, sys.nodes[s].lua.running.value));
    HandlerIsNoAnswer(sys, s);
  }

  /** A coroutine suspended in a call leaves it by one step only: the arrival of the answer to that call, which is what
      the call returns. Neither a timer, nor another answer, nor a new request can wake it. */
  lemma OnlyTheAnswerResumes(sys: Sys, a: Action, s: nat, c: nat, session: nat)
    requires Inv(sys) && Enabled(sys, a) && s in sys.nodes
    requires session in sys.nodes[s].lua.lookup && sys.nodes[s].lua.lookup[session] == c
    requires s in Next(sys, a).nodes
    requires c >= |Next(sys, a).nodes[s].lua.coroutines|
             || Next(sys, a).nodes[s].lua.coroutines[c].status != InCall(session)
    ensures a == DispatchResponse(s) && DispatchedKey(sys, a) == Some((s, session))
    ensures (s, session) in sys.answered
    ensures (s, session) in Next(sys, a).got && Next(sys, a).got[(s, session)] == sys.answered[(s, session)]
    ensures c < |Next(sys, a).nodes[s].lua.coroutines| && Next(sys, a).nodes[s].lua.running == Some(c)
  {
    hide Inv, KeyAt;
    NodeOf(sys, s);
    if a == DispatchResponse(s) {
      ResponseFinds(sys, s);
    } else {
      CallerUntouched(sys, a, s, session);
    }
  }

  lemma CallerUntouched(sys: Sys, a: Action, s: nat, session: nat)
    requires Enabled(sys, a) && s in sys.nodes && NodeOk(sys, s) && session in sys.nodes[s].lua.lookup
    requires a != DispatchResponse(s)
    ensures var c := sys.nodes[s].lua.lookup[session];
            s in Next(sys, a).nodes && c < |Next(sys, a).nodes[s].lua.coroutines|
            && Next(sys, a).nodes[s].lua.coroutines[c].status == InCall(session)
  {
    hide KeyAt;
    OwnTables(sys, a);
    if a.s != s {
      OtherTables(sys, a, s);
    }
    hide Next, Enabled;
  }

  /** The tables of the acting service change by one of the operations on them. */
  lemma OwnTables(sys: Sys, a: Action)
    requires Enabled(sys, a)
    ensures a.s in Next(sys, a).nodes && Next(sys, a).nodes[a.s].lua == TablesAfter(sys.nodes[a.s], a)
  {
    hide KeyAt, Answer, Finish, Abort, Resume, StartHandler, CallYields, CallFails, SleepYields, ResumeCaller;
  }

  function TablesAfter(n: Node, a: Action): Lua
    requires a.Respond? || a.HandlerError? || a.Sleep? ==> InHandler(n)
    requires a.CallRegisters? && n.lua.running.Some? ==> Busy(n.lua)
    requires a.DispatchRequest? || a.DispatchResponse? ==> n.taken < |n.log|
    requires a.TimerFires? ==> a.c < |n.lua.coroutines|
  {
    match a
    case Send(_, _, _) => n.lua
    case CallSends(_, _, _) => n.lua
    case CallRegisters(_) => if n.lua.running.Some? then CallYields(n.lua) else CallFails(n.lua)
    case DispatchRequest(_) => StartHandler(n.lua, n.log[n.taken])
    case DispatchResponse(_) =>
      var session := n.log[n.taken].session;
      if CallerFound(n, session) then ResumeCaller(n.lua, session) else n.lua
    case Respond(_, _) => Finish(n.lua)
    case HandlerError(_) => Abort(n.lua)
    case Sleep(_) => SleepYields(n.lua)
    case TimerFires(_, c) => Resume(n.lua, c)
  }

  lemma OtherTables(sys: Sys, a: Action, s: nat)
    requires Enabled(sys, a) && s in sys.nodes && s != a.s
    ensures s in Next(sys, a).nodes && Next(sys, a).nodes[s].lua == sys.nodes[s].lua
  {
    hide KeyAt, Answer, Finish, Abort, Resume, StartHandler, CallYields, CallFails, SleepYields;
  }
}
