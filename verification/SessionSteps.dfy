/** Every step of the protocol keeps its invariant. */
module SessionSteps {
  import opened Bits
  import opened SessionTables
  import opened SessionProtocol

  /** A call whose request gets into the inbox has a session number that fits into the message. */
  predicate Fits(sys: Sys, a: Action)
    requires Enabled(sys, a)
  {
    a.CallSends? ==> sys.nodes[a.s].lua.sessionId < SESSION_LIMIT || Full(sys.nodes[a.to])
  }

  // ---------- keys after a delivery ----------

  lemma DeliverKeys(sys: Sys, sys': Sys, to: nat, m: Message)
    requires sys'.nodes == Deliver(sys.nodes, to, m) && to in sys.nodes && sys.nodes[to].taken <= |sys.nodes[to].log|
    ensures var last := InInbox(to, |sys.nodes[to].log|);
            forall p :: KeyAt(sys', p) == if p == last && !Full(sys.nodes[to]) then MessageKey(to, m) else KeyAt(sys, p)
    ensures forall p :: KeyAt(sys, p).Some? ==>
              IsAnswer(sys', p) == IsAnswer(sys, p) && PayloadAt(sys', p) == PayloadAt(sys, p)
  {
  }

  /** One token has moved from one place to another, or has appeared or vanished; the others stay. */
  lemma UniqueMoved(sys: Sys, sys': Sys, from: Place, to: Place, key: Option<Key>)
    requires Unique(sys)
    requires forall p :: KeyAt(sys', p) == if p == to then key else if p == from then None else KeyAt(sys, p)
    requires key.Some? ==> forall p :: KeyAt(sys, p) == key ==> p == from
    ensures Unique(sys')
  {
    hide KeyAt;
  }

  lemma UniqueSame(sys: Sys, sys': Sys)
    requires Unique(sys) && forall p :: KeyAt(sys', p) == KeyAt(sys, p)
    ensures Unique(sys')
  {
    hide KeyAt;
  }

  // ---------- steps that move no token ----------

  /** Some coroutine has started or stopped running; who waits for what is as before. */
  ghost predicate Quiet(l: Lua, l': Lua)
  {
    && l'.sessionId == l.sessionId && l'.lookup == l.lookup && l'.address == l.address && l'.response == l.response
    && |l'.coroutines| == |l.coroutines|
    && forall c :: 0 <= c < |l.coroutines| ==>
         l'.coroutines[c].request == l.coroutines[c].request
         && (l'.coroutines[c].status == Dead <==> l.coroutines[c].status == Dead)
         && (l.coroutines[c].status.InCall? ==> l'.coroutines[c].status == l.coroutines[c].status)
  }

  lemma QuietPlaces(sys: Sys, s: nat, l': Lua)
    requires s in sys.nodes && Quiet(sys.nodes[s].lua, l')
    ensures var sys' := SetLua(sys, s, l');
            forall p :: KeyAt(sys', p) == KeyAt(sys, p)
                        && (KeyAt(sys, p).Some? ==>
                            PayloadAt(sys', p) == PayloadAt(sys, p) && IsAnswer(sys', p) == IsAnswer(sys, p))
  {
  }

  lemma QuietToken(sys: Sys, s: nat, l': Lua, p: Place)
    requires s in sys.nodes && Quiet(sys.nodes[s].lua, l') && !sys.nodes[s].calling
    requires TokenOk(sys, p)
    ensures TokenOk(SetLua(sys, s, l'), p)
  {
    QuietPlaces(sys, s, l');
    hide KeyAt, PayloadAt, IsAnswer;
  }

  lemma QuietNode(sys: Sys, s: nat, l': Lua, r: nat)
    requires s in sys.nodes && Quiet(sys.nodes[s].lua, l') && r in sys.nodes && NodeOk(sys, r) && !sys.nodes[s].calling
    requires l'.running.Some? ==> Busy(l') && l'.coroutines[l'.running.value].status == Running
    ensures NodeOk(SetLua(sys, s, l'), r)
  {
  }

  // ---------- putting an invariant together ----------

  lemma AssembleInv(sys: Sys)
    requires Unique(sys) && HistoryOk(sys) && AccountedFor(sys)
    requires forall p :: TokenOk(sys, p)
    requires forall s :: s in sys.nodes ==> NodeOk(sys, s)
    ensures Inv(sys)
  {
    hide Unique, HistoryOk, AccountedFor, TokenOk, NodeOk;
  }

  lemma PartsOfInv(sys: Sys)
    requires Inv(sys)
    ensures Unique(sys) && HistoryOk(sys) && AccountedFor(sys)
  {
    hide Unique, HistoryOk, AccountedFor, TokenOk, NodeOk;
  }

  lemma NodeOf(sys: Sys, s: nat)
    requires Inv(sys) && s in sys.nodes
    ensures NodeOk(sys, s)
  {
    hide Unique, HistoryOk, AccountedFor, TokenOk, NodeOk;
  }

  lemma TokenOf(sys: Sys, p: Place)
    requires Inv(sys)
    ensures TokenOk(sys, p)
  {
    hide Unique, HistoryOk, AccountedFor, TokenOk, NodeOk;
  }

  /** Every key of a token that vanished or is new has to be settled another way. */
  lemma AccountedMoved(sys: Sys, sys': Sys, from: Place, to: Place, key: Option<Key>)
    requires AccountedFor(sys)
    requires forall p :: KeyAt(sys', p) == if p == to then key else if p == from then None else KeyAt(sys, p)
    requires sys.got.Keys <= sys'.got.Keys && sys.lost <= sys'.lost
    requires KeyAt(sys, to).None? || from == to
    requires forall k :: k in sys'.asked && (k !in sys.asked || KeyAt(sys, from) == Some(k)) ==>
               key == Some(k) || k in sys'.got || k in sys'.lost
    ensures AccountedFor(sys')
  {
    hide KeyAt;
    forall k | k in sys'.asked && k !in sys'.got && k !in sys'.lost
      ensures exists p :: KeyAt(sys', p) == Some(k)
    {
      if key == Some(k) {
        assert KeyAt(sys', to) == Some(k);
      } else {
        var p :| KeyAt(sys, p) == Some(k);
        assert KeyAt(sys', p) == Some(k);
      }
    }
  }

  lemma AccountedSame(sys: Sys, sys': Sys)
    requires AccountedFor(sys) && forall p :: KeyAt(sys', p) == KeyAt(sys, p)
    requires sys'.asked == sys.asked && sys'.got == sys.got && sys'.lost == sys.lost
    ensures AccountedFor(sys')
  {
    hide KeyAt;
    forall k | k in sys'.asked && k !in sys'.got && k !in sys'.lost
      ensures exists p :: KeyAt(sys', p) == Some(k)
    {
      var p :| KeyAt(sys, p) == Some(k);
      assert KeyAt(sys', p) == Some(k);
    }
  }

  lemma QuietHistory(sys: Sys, s: nat, l': Lua)
    requires HistoryOk(sys) && s in sys.nodes && Quiet(sys.nodes[s].lua, l')
    ensures HistoryOk(SetLua(sys, s, l'))
  {
  }

  lemma QuietInv(sys: Sys, s: nat, l': Lua)
    requires Inv(sys) && s in sys.nodes && Quiet(sys.nodes[s].lua, l') && !sys.nodes[s].calling
    requires l'.running.Some? ==> Busy(l') && l'.coroutines[l'.running.value].status == Running
    ensures Inv(SetLua(sys, s, l'))
  {
    hide Inv, KeyAt, TokenOk, NodeOk, Unique, AccountedFor, HistoryOk, Quiet, PayloadAt, IsAnswer;
    var sys' := SetLua(sys, s, l');
    PartsOfInv(sys);
    QuietPlaces(sys, s, l');
    UniqueSame(sys, sys');
    AccountedSame(sys, sys');
    QuietHistory(sys, s, l');
    forall p ensures TokenOk(sys', p) {
      TokenOf(sys, p);
      QuietToken(sys, s, l', p);
    }
    forall r | r in sys'.nodes ensures NodeOk(sys', r) {
      NodeOf(sys, r);
      QuietNode(sys, s, l', r);
    }
    AssembleInv(sys');
  }

  lemma SleepInv(sys: Sys, s: nat)
    requires Inv(sys) && Enabled(sys, Sleep(s))
    ensures Inv(Next(sys, Sleep(s)))
  {
    hide Inv;
    NodeOf(sys, s);
    QuietInv(sys, s, SleepYields(sys.nodes[s].lua));
  }

  lemma TimerInv(sys: Sys, s: nat, c: nat)
    requires Inv(sys) && Enabled(sys, TimerFires(s, c))
    ensures Inv(Next(sys, TimerFires(s, c)))
  {
    hide Inv;
    QuietInv(sys, s, Resume(sys.nodes[s].lua, c));
  }

  // ---------- tokens that stay where they are ----------

  /** Nothing new has happened to a call. */
  predicate SameStory(sys: Sys, sys': Sys, key: Key)
  {
    key in sys.asked ==>
      && key in sys'.asked && sys'.asked[key] == sys.asked[key]
      && (key in sys'.answered <==> key in sys.answered)
      && (key in sys.answered ==> sys'.answered[key] == sys.answered[key])
      && (key in sys'.got ==> key in sys.got) && (key in sys'.lost ==> key in sys.lost)
  }

  /** Its caller is still waiting, if it was. */
  predicate StillWaiting(sys: Sys, sys': Sys, key: Key)
  {
    key in sys.asked && key in sys'.asked && Issued(sys, key) && Waiting(sys, key) ==>
      Issued(sys', key) && Waiting(sys', key)
  }

  lemma KeptToken(sys: Sys, sys': Sys, p: Place)
    requires TokenOk(sys, p) && KeyAt(sys, p).Some? && KeyAt(sys', p) == KeyAt(sys, p)
    requires PayloadAt(sys', p) == PayloadAt(sys, p) && IsAnswer(sys', p) == IsAnswer(sys, p)
    requires SameStory(sys, sys', KeyAt(sys, p).value) && StillWaiting(sys, sys', KeyAt(sys, p).value)
    ensures TokenOk(sys', p)
  {
    hide KeyAt, PayloadAt, IsAnswer, Issued, Waiting;
  }

  /** The services' tables are as before; only inboxes differ. */
  predicate SameTables(sys: Sys, sys': Sys)
  {
    sys'.nodes.Keys == sys.nodes.Keys
    && forall r :: r in sys.nodes ==>
         sys'.nodes[r].lua == sys.nodes[r].lua && sys'.nodes[r].calling == sys.nodes[r].calling
  }

  lemma SameTablesWaiting(sys: Sys, sys': Sys, key: Key)
    requires SameTables(sys, sys') && SameStory(sys, sys', key)
    ensures StillWaiting(sys, sys', key)
  {
  }

  // ---------- send ----------

  lemma SendInv(sys: Sys, s: nat, to: nat, payload: Payload)
    requires Inv(sys) && Enabled(sys, Send(s, to, payload))
    ensures Inv(Next(sys, Send(s, to, payload)))
  {
    hide Inv, KeyAt, TokenOk, NodeOk, Unique, AccountedFor, HistoryOk, PayloadAt, IsAnswer, Issued, Waiting;
    var m := Message(s, to, 0, Request, payload);
    var sys' := Next(sys, Send(s, to, payload));
    PartsOfInv(sys);
    SendKeys(sys, sys', to, m);
    UniqueSame(sys, sys');
    AccountedSame(sys, sys');
    DeliveryHistory(sys, sys', to, m);
    forall p ensures TokenOk(sys', p) {
      TokenOf(sys, p);
      if KeyAt(sys, p).Some? {
        SameTablesWaiting(sys, sys', KeyAt(sys, p).value);
        KeptToken(sys, sys', p);
      } else {
        NoToken(sys', p);
      }
    }
    forall r | r in sys'.nodes ensures NodeOk(sys', r) {
      NodeOf(sys, r);
      DeliveryNode(sys, sys', to, m, r);
    }
    AssembleInv(sys');
  }

  lemma NoToken(sys: Sys, p: Place)
    requires KeyAt(sys, p).None?
    ensures TokenOk(sys, p)
  {
  }

  lemma SendKeys(sys: Sys, sys': Sys, to: nat, m: Message)
    requires sys'.nodes == Deliver(sys.nodes, to, m) && to in sys.nodes && m.session == 0 && Inv(sys)
    ensures forall p :: KeyAt(sys', p) == KeyAt(sys, p)
    ensures forall p :: KeyAt(sys, p).Some? ==>
              IsAnswer(sys', p) == IsAnswer(sys, p) && PayloadAt(sys', p) == PayloadAt(sys, p)
  {
    NodeOf(sys, to);
    DeliverKeys(sys, sys', to, m);
    BeyondInbox(sys, to);
  }

  lemma BeyondInbox(sys: Sys, to: nat)
    requires to in sys.nodes
    ensures KeyAt(sys, InInbox(to, |sys.nodes[to].log|)).None?
  {
  }

  lemma DeliveryHistory(sys: Sys, sys': Sys, to: nat, m: Message)
    requires HistoryOk(sys) && sys'.nodes == Deliver(sys.nodes, to, m)
    requires sys' == sys.(nodes := sys'.nodes)
    ensures HistoryOk(sys') && SameTables(sys, sys')
  {
  }

  lemma DeliveryNode(sys: Sys, sys': Sys, to: nat, m: Message, r: nat)
    requires sys'.nodes == Deliver(sys.nodes, to, m) && r in sys.nodes && NodeOk(sys, r)
    requires forall k :: k in sys.asked && k.0 == r ==> k in sys'.asked && sys'.asked[k] == sys.asked[k]
    requires forall k :: k in sys'.got && k.0 == r ==> k in sys.got
    requires m.kind == Response ==> m.session > 0
    ensures r in sys'.nodes && NodeOk(sys', r)
  {
  }

  // ---------- call, first half ----------

  /** The next session number has no history. */
  lemma UnusedKey(sys: Sys, s: nat)
    requires Inv(sys) && s in sys.nodes && !sys.nodes[s].calling
    ensures var key := (s, sys.nodes[s].lua.sessionId);
            key !in sys.asked && key !in sys.answered && key !in sys.got && key !in sys.lost
            && forall p :: KeyAt(sys, p) != Some(key)
  {
    hide KeyAt, NodeOk, Unique, AccountedFor, PayloadAt, IsAnswer, Waiting;
    var key := (s, sys.nodes[s].lua.sessionId);
    forall p ensures KeyAt(sys, p) != Some(key) {
      assert TokenOk(sys, p);
    }
  }

  lemma CallingKeys(sys: Sys, s: nat)
    requires s in sys.nodes
    ensures var sys' := sys.(nodes := sys.nodes[s := sys.nodes[s].(calling := true)]);
            forall p :: KeyAt(sys', p) == KeyAt(sys, p) && PayloadAt(sys', p) == PayloadAt(sys, p)
                        && IsAnswer(sys', p) == IsAnswer(sys, p)
  {
  }

  lemma CallKeys(sys: Sys, s: nat, to: nat, payload: Payload)
    requires Inv(sys) && Enabled(sys, CallSends(s, to, payload)) && Fits(sys, CallSends(s, to, payload))
    ensures var sys' := Next(sys, CallSends(s, to, payload));
            var last := InInbox(to, |sys.nodes[to].log|);
            var key := (s, sys.nodes[s].lua.sessionId);
            && (forall p :: KeyAt(sys', p) == if p == last && !Full(sys.nodes[to]) then Some(key) else KeyAt(sys, p))
            && (forall p :: KeyAt(sys, p).Some? ==>
                  PayloadAt(sys', p) == PayloadAt(sys, p) && IsAnswer(sys', p) == IsAnswer(sys, p))
            && (!Full(sys.nodes[to]) ==> PayloadAt(sys', last) == payload && !IsAnswer(sys', last))
            && KeyAt(sys, last).None?
  {
    var n := sys.nodes[s];
    var sys1 := sys.(nodes := sys.nodes[s := n.(calling := true)]);
    CallingKeys(sys, s);
    NodeOf(sys, to);
    NodeOf(sys, s);
    var m := CallMessage(n.lua, s, to, payload);
    assert !Full(sys.nodes[to]) ==> MessageKey(to, m) == Some((s, n.lua.sessionId));
    DeliverKeys(sys1, Next(sys, CallSends(s, to, payload)), to, m);
    BeyondInbox(sys, to);
    hide KeyAt, Inv;
  }

  lemma CallSendsIssued(sys: Sys, s: nat, to: nat, payload: Payload)
    requires Enabled(sys, CallSends(s, to, payload)) && NodeOk(sys, s)
    ensures var sys' := Next(sys, CallSends(s, to, payload));
            Issued(sys', (s, sys.nodes[s].lua.sessionId)) && forall key :: Issued(sys, key) ==> Issued(sys', key)
  {
  }

  lemma CallSendsHistory(sys: Sys, s: nat, to: nat, payload: Payload)
    requires Inv(sys) && Enabled(sys, CallSends(s, to, payload))
    ensures HistoryOk(Next(sys, CallSends(s, to, payload)))
  {
    hide Inv, NodeOk, Issued, Deliver, KeyAt;
    UnusedKey(sys, s);
    NodeOf(sys, s);
    PartsOfInv(sys);
    CallSendsIssued(sys, s, to, payload);
    hide Unique, AccountedFor;
  }

  /** Every older call of every service is as it was. */
  lemma CallSendsOthers(sys: Sys, s: nat, to: nat, payload: Payload, key: Key)
    requires Enabled(sys, CallSends(s, to, payload)) && key != (s, sys.nodes[s].lua.sessionId)
    ensures var sys' := Next(sys, CallSends(s, to, payload)); SameStory(sys, sys', key) && StillWaiting(sys, sys', key)
  {
  }

  lemma CallSendsNode(sys: Sys, s: nat, to: nat, payload: Payload, r: nat)
    requires Enabled(sys, CallSends(s, to, payload)) && r in sys.nodes && NodeOk(sys, r)
    requires (s, sys.nodes[s].lua.sessionId) !in sys.got
    ensures var sys' := Next(sys, CallSends(s, to, payload)); r in sys'.nodes && NodeOk(sys', r)
  {
    var n := sys.nodes[s];
    var sys1 := sys.(nodes := sys.nodes[s := n.(calling := true)],
                     asked := sys.asked[(s, n.lua.sessionId) := Ask(n.lua.running, to, payload)]);
    var sys' := Next(sys, CallSends(s, to, payload));
    assert NodeOk(sys1, r);
    DeliveryNode(sys1, sys', to, CallMessage(n.lua, s, to, payload), r);
  }

  lemma CallSendsToken(sys: Sys, s: nat, to: nat, payload: Payload)
    requires Inv(sys) && Enabled(sys, CallSends(s, to, payload)) && Fits(sys, CallSends(s, to, payload))
             && !Full(sys.nodes[to])
    ensures TokenOk(Next(sys, CallSends(s, to, payload)), InInbox(to, |sys.nodes[to].log|))
  {
    hide Inv, KeyAt, PayloadAt, IsAnswer, Unique, HistoryOk, AccountedFor;
    UnusedKey(sys, s);
    NodeOf(sys, s);
    CallKeys(sys, s, to, payload);
  }

  lemma CallSendsInv(sys: Sys, s: nat, to: nat, payload: Payload)
    requires Inv(sys) && Enabled(sys, CallSends(s, to, payload)) && Fits(sys, CallSends(s, to, payload))
    ensures Inv(Next(sys, CallSends(s, to, payload)))
  {
    hide Inv, KeyAt, TokenOk, NodeOk, Unique, AccountedFor, HistoryOk, PayloadAt, IsAnswer, Issued, Waiting;
    var sys' := Next(sys, CallSends(s, to, payload));
    var last := InInbox(to, |sys.nodes[to].log|);
    var key := (s, sys.nodes[s].lua.sessionId);
    var added := if Full(sys.nodes[to]) then None else Some(key);
    PartsOfInv(sys);
    CallKeys(sys, s, to, payload);
    UnusedKey(sys, s);
    UniqueMoved(sys, sys', last, last, added);
    AccountedMoved(sys, sys', last, last, added);
    CallSendsHistory(sys, s, to, payload);
    forall p ensures TokenOk(sys', p) {
      TokenOf(sys, p);
      if p == last && !Full(sys.nodes[to]) {
        CallSendsToken(sys, s, to, payload);
      } else if KeyAt(sys, p).Some? {
        CallSendsOthers(sys, s, to, payload, KeyAt(sys, p).value);
        KeptToken(sys, sys', p);
      } else {
        NoToken(sys', p);
      }
    }
    forall r | r in sys'.nodes ensures NodeOk(sys', r) {
      NodeOf(sys, r);
      CallSendsNode(sys, s, to, payload, r);
    }
    AssembleInv(sys');
  }

  /** A number that does not fit leaves the call without request, handler, answer or result. */
  lemma CallSendsStray(sys: Sys, s: nat, to: nat, payload: Payload)
    requires Inv(sys) && Enabled(sys, CallSends(s, to, payload)) && !Fits(sys, CallSends(s, to, payload))
    ensures var sys' := Next(sys, CallSends(s, to, payload));
            var key := (s, sys.nodes[s].lua.sessionId);
            && key in sys'.asked && key !in sys'.got && key !in sys'.lost && (forall p :: KeyAt(sys', p) != Some(key))
            && !Inv(sys')
  {
    hide TokenOk, NodeOk, Unique, HistoryOk, Issued, Waiting;
    var n := sys.nodes[s];
    var m := CallMessage(n.lua, s, to, payload);
    UnusedKey(sys, s);
    CallingKeys(sys, s);
    NodeOf(sys, to);
    TakenBound(sys, to);
    DeliverKeys(sys.(nodes := sys.nodes[s := n.(calling := true)]), Next(sys, CallSends(s, to, payload)), to, m);
    assert MessageKey(to, m) != Some((s, n.lua.sessionId));
    hide KeyAt;
  }

  // ---------- call, second half ----------

  lemma RegistersKeys(sys: Sys, s: nat)
    requires Enabled(sys, CallRegisters(s)) && NodeOk(sys, s)
    ensures var sys' := Next(sys, CallRegisters(s));
            forall p :: KeyAt(sys', p) == KeyAt(sys, p) && PayloadAt(sys', p) == PayloadAt(sys, p)
                        && IsAnswer(sys', p) == IsAnswer(sys, p)
  {
  }

  lemma RegistersWaiting(sys: Sys, s: nat, key: Key)
    requires Enabled(sys, CallRegisters(s)) && NodeOk(sys, s)
    ensures var sys' := Next(sys, CallRegisters(s)); SameStory(sys, sys', key) && StillWaiting(sys, sys', key)
  {
  }

  lemma RegistersHistory(sys: Sys, s: nat)
    requires Enabled(sys, CallRegisters(s)) && HistoryOk(sys)
    ensures HistoryOk(Next(sys, CallRegisters(s)))
  {
  }

  lemma RegistersNode(sys: Sys, s: nat, r: nat)
    requires Enabled(sys, CallRegisters(s)) && NodeOk(sys, s) && r in sys.nodes && NodeOk(sys, r)
    ensures NodeOk(Next(sys, CallRegisters(s)), r)
  {
    hide NodeOk, Next;
    if r == s {
      RegistersOwnNode(sys, s);
    } else {
      RegistersOtherNode(sys, s, r);
    }
  }

  lemma RegistersOwnNode(sys: Sys, s: nat)
    requires Enabled(sys, CallRegisters(s)) && NodeOk(sys, s)
    ensures NodeOk(Next(sys, CallRegisters(s)), s)
  {
  }

  lemma RegistersOtherNode(sys: Sys, s: nat, r: nat)
    requires Enabled(sys, CallRegisters(s)) && r in sys.nodes && NodeOk(sys, r) && r != s
    ensures NodeOk(Next(sys, CallRegisters(s)), r)
  {
    hide CallYields, CallFails;
  }

  lemma CallRegistersInv(sys: Sys, s: nat)
    requires Inv(sys) && Enabled(sys, CallRegisters(s))
    ensures Inv(Next(sys, CallRegisters(s)))
  {
    hide Inv, KeyAt, TokenOk, NodeOk, Unique, AccountedFor, HistoryOk, PayloadAt, IsAnswer, Issued, Waiting;
    var sys' := Next(sys, CallRegisters(s));
    PartsOfInv(sys);
    NodeOf(sys, s);
    RegistersKeys(sys, s);
    UniqueSame(sys, sys');
    AccountedSame(sys, sys');
    RegistersHistory(sys, s);
    forall p ensures TokenOk(sys', p) {
      TokenOf(sys, p);
      if KeyAt(sys, p).Some? {
        RegistersWaiting(sys, s, KeyAt(sys, p).value);
        KeptToken(sys, sys', p);
      } else {
        NoToken(sys', p);
      }
    }
    forall r | r in sys'.nodes ensures NodeOk(sys', r) {
      NodeOf(sys, r);
      RegistersNode(sys, s, r);
    }
    AssembleInv(sys');
  }

  // ---------- dispatching a request ----------

  lemma RequestKeys(sys: Sys, s: nat)
    requires Enabled(sys, DispatchRequest(s)) && NodeOk(sys, s)
    ensures var sys' := Next(sys, DispatchRequest(s));
            var from, to := InInbox(s, sys.nodes[s].taken), Held(s, |sys.nodes[s].lua.coroutines|);
            && (forall p :: KeyAt(sys', p)
                            == if p == to then KeyAt(sys, from) else if p == from then None else KeyAt(sys, p))
            && (forall p :: KeyAt(sys, p).Some? ==>
                  PayloadAt(sys', p) == PayloadAt(sys, p) && IsAnswer(sys', p) == IsAnswer(sys, p))
            && KeyAt(sys, to).None? && !IsAnswer(sys, from) && !IsAnswer(sys', to)
            && PayloadAt(sys', to) == PayloadAt(sys, from)
  {
  }

  lemma RequestWaiting(sys: Sys, s: nat, key: Key)
    requires Enabled(sys, DispatchRequest(s)) && NodeOk(sys, s)
    ensures var sys' := Next(sys, DispatchRequest(s)); SameStory(sys, sys', key) && StillWaiting(sys, sys', key)
  {
  }

  lemma RequestHistory(sys: Sys, s: nat)
    requires Enabled(sys, DispatchRequest(s)) && HistoryOk(sys)
    ensures HistoryOk(Next(sys, DispatchRequest(s)))
  {
  }

  lemma RequestNode(sys: Sys, s: nat, r: nat)
    requires Enabled(sys, DispatchRequest(s)) && NodeOk(sys, s) && r in sys.nodes && NodeOk(sys, r)
    ensures NodeOk(Next(sys, DispatchRequest(s)), r)
  {
    hide NodeOk, Next;
    if r == s {
      RequestOwnNode(sys, s);
    } else {
      RequestOtherNode(sys, s, r);
    }
  }

  lemma RequestOwnNode(sys: Sys, s: nat)
    requires Enabled(sys, DispatchRequest(s)) && NodeOk(sys, s)
    ensures NodeOk(Next(sys, DispatchRequest(s)), s)
  {
  }

  lemma RequestOtherNode(sys: Sys, s: nat, r: nat)
    requires Enabled(sys, DispatchRequest(s)) && r in sys.nodes && NodeOk(sys, r) && r != s
    ensures NodeOk(Next(sys, DispatchRequest(s)), r)
  {
    hide StartHandler;
  }

  /** The handler's token inherits everything from the request's. */
  lemma RequestToken(sys: Sys, s: nat)
    requires Inv(sys) && Enabled(sys, DispatchRequest(s))
    ensures TokenOk(Next(sys, DispatchRequest(s)), Held(s, |sys.nodes[s].lua.coroutines|))
  {
    var sys' := Next(sys, DispatchRequest(s));
    var from, to := InInbox(s, sys.nodes[s].taken), Held(s, |sys.nodes[s].lua.coroutines|);
    NodeOf(sys, s);
    TokenOf(sys, from);
    RequestKeys(sys, s);
    if KeyAt(sys, from).Some? {
      RequestWaiting(sys, s, KeyAt(sys, from).value);
    }
    hide Inv, NodeOk, KeyAt, PayloadAt, IsAnswer, Issued, Waiting;
  }

  lemma DispatchRequestInv(sys: Sys, s: nat)
    requires Inv(sys) && Enabled(sys, DispatchRequest(s))
    ensures Inv(Next(sys, DispatchRequest(s)))
  {
    hide Inv, KeyAt, TokenOk, NodeOk, Unique, AccountedFor, HistoryOk, PayloadAt, IsAnswer, Issued, Waiting;
    var sys' := Next(sys, DispatchRequest(s));
    var from, to := InInbox(s, sys.nodes[s].taken), Held(s, |sys.nodes[s].lua.coroutines|);
    PartsOfInv(sys);
    NodeOf(sys, s);
    RequestKeys(sys, s);
    UniqueOf(sys, from);
    UniqueMoved(sys, sys', from, to, KeyAt(sys, from));
    AccountedMoved(sys, sys', from, to, KeyAt(sys, from));
    RequestHistory(sys, s);
    forall p ensures TokenOk(sys', p) {
      TokenOf(sys, p);
      if p == to {
        RequestToken(sys, s);
      } else if KeyAt(sys', p).Some? {
        RequestWaiting(sys, s, KeyAt(sys, p).value);
        KeptToken(sys, sys', p);
      } else {
        NoToken(sys', p);
      }
    }
    forall r | r in sys'.nodes ensures NodeOk(sys', r) {
      NodeOf(sys, r);
      RequestNode(sys, s, r);
    }
    AssembleInv(sys');
  }

  lemma UniqueOf(sys: Sys, from: Place)
    requires Unique(sys)
    ensures KeyAt(sys, from).Some? ==> forall p :: KeyAt(sys, p) == KeyAt(sys, from) ==> p == from
  {
    hide KeyAt;
  }

  // ---------- dispatching a response ----------

  lemma ResponseKeys(sys: Sys, s: nat)
    requires Enabled(sys, DispatchResponse(s)) && NodeOk(sys, s)
    ensures var sys' := Next(sys, DispatchResponse(s));
            var from := InInbox(s, sys.nodes[s].taken);
            && (forall p :: KeyAt(sys', p) == if p == from then None else KeyAt(sys, p))
            && (forall p :: KeyAt(sys, p).Some? ==>
                  PayloadAt(sys', p) == PayloadAt(sys, p) && IsAnswer(sys', p) == IsAnswer(sys, p))
            && KeyAt(sys, from) == Some((s, sys.nodes[s].log[sys.nodes[s].taken].session)) && IsAnswer(sys, from)
            && PayloadAt(sys, from) == sys.nodes[s].log[sys.nodes[s].taken].payload
  {
    var n := sys.nodes[s];
    var m := n.log[n.taken];
    var l' := if CallerFound(n, m.session) then ResumeCaller(n.lua, m.session) else n.lua;
    ResumeQuiet(n, m.session);
    TakeKeys(sys, Next(sys, DispatchResponse(s)), s, l');
    hide NodeOk, CallerFound, ResumeCaller;
  }

  /** The other handlers' debts and requests do not change when a caller is resumed. */
  ghost predicate SameDebts(l: Lua, l': Lua)
  {
    && l'.address == l.address && l'.response == l.response && |l'.coroutines| == |l.coroutines|
    && forall c :: 0 <= c < |l.coroutines| ==>
         l'.coroutines[c].request == l.coroutines[c].request
         && (l'.coroutines[c].status == Dead <==> l.coroutines[c].status == Dead)
  }

  lemma ResumeQuiet(n: Node, session: nat)
    requires forall k :: k in n.lua.lookup ==>
               CallerFound(n, k) && n.lua.coroutines[n.lua.lookup[k]].status == InCall(k)
    ensures CallerFound(n, session) ==> SameDebts(n.lua, ResumeCaller(n.lua, session))
  {
  }

  lemma TakeKeys(sys: Sys, sys': Sys, s: nat, l': Lua)
    requires s in sys.nodes && sys.nodes[s].taken < |sys.nodes[s].log| && SameDebts(sys.nodes[s].lua, l')
    requires sys'.nodes == sys.nodes[s := sys.nodes[s].(taken := sys.nodes[s].taken + 1, lua := l')]
    ensures forall p :: KeyAt(sys', p) == if p == InInbox(s, sys.nodes[s].taken) then None else KeyAt(sys, p)
    ensures forall p :: KeyAt(sys, p).Some? ==>
              PayloadAt(sys', p) == PayloadAt(sys, p) && IsAnswer(sys', p) == IsAnswer(sys, p)
  {
  }

  /** The answer finds its caller exactly when the call was made from a coroutine. */
  lemma ResponseFinds(sys: Sys, s: nat)
    requires Inv(sys) && Enabled(sys, DispatchResponse(s))
    ensures var m := sys.nodes[s].log[sys.nodes[s].taken];
            && (s, m.session) in sys.asked && (s, m.session) in sys.answered
            && sys.answered[(s, m.session)] == m.payload
            && (s, m.session) !in sys.got && (s, m.session) !in sys.lost
            && (CallerFound(sys.nodes[s], m.session) <==> sys.asked[(s, m.session)].co.Some?)
            && (CallerFound(sys.nodes[s], m.session) ==>
                  sys.asked[(s, m.session)].co == Some(sys.nodes[s].lua.lookup[m.session])
                  && sys.nodes[s].lua.coroutines[sys.nodes[s].lua.lookup[m.session]].status == InCall(m.session))
  {
    hide Inv, KeyAt, PayloadAt, IsAnswer, ResumeCaller, Next;
    NodeOf(sys, s);
    ResponseKeys(sys, s);
    TokenOf(sys, InInbox(s, sys.nodes[s].taken));
  }

  lemma ResponseWaiting(sys: Sys, s: nat, key: Key)
    requires Enabled(sys, DispatchResponse(s)) && NodeOk(sys, s)
    requires key != (s, sys.nodes[s].log[sys.nodes[s].taken].session)
    ensures var sys' := Next(sys, DispatchResponse(s)); SameStory(sys, sys', key) && StillWaiting(sys, sys', key)
  {
  }

  lemma ResponseIssued(sys: Sys, s: nat)
    requires Enabled(sys, DispatchResponse(s))
    ensures forall key :: Issued(sys, key) ==> Issued(Next(sys, DispatchResponse(s)), key)
  {
  }

  lemma ResponseHistory(sys: Sys, s: nat)
    requires Inv(sys) && Enabled(sys, DispatchResponse(s))
    ensures HistoryOk(Next(sys, DispatchResponse(s)))
  {
    hide Inv, NodeOk, Issued, KeyAt;
    PartsOfInv(sys);
    ResponseFinds(sys, s);
    ResponseIssued(sys, s);
    hide Unique, AccountedFor, CallerFound;
  }

  lemma ResponseNode(sys: Sys, s: nat, r: nat)
    requires Enabled(sys, DispatchResponse(s)) && NodeOk(sys, s) && r in sys.nodes && NodeOk(sys, r)
    ensures NodeOk(Next(sys, DispatchResponse(s)), r)
  {
    if r != s {
      ResponseOtherNode(sys, s, r);
    } else if CallerFound(sys.nodes[s], sys.nodes[s].log[sys.nodes[s].taken].session) {
      ResponseOwnNode(sys, s);
    }
  }

  lemma ResponseOtherNode(sys: Sys, s: nat, r: nat)
    requires Enabled(sys, DispatchResponse(s)) && r in sys.nodes && NodeOk(sys, r) && r != s
    ensures NodeOk(Next(sys, DispatchResponse(s)), r)
  {
    hide ResumeCaller;
  }

  lemma ResponseOwnNode(sys: Sys, s: nat)
    requires Enabled(sys, DispatchResponse(s)) && NodeOk(sys, s)
    requires CallerFound(sys.nodes[s], sys.nodes[s].log[sys.nodes[s].taken].session)
    ensures NodeOk(Next(sys, DispatchResponse(s)), s)
  {
    hide Next, ResumeCaller, NodeOk, ResumedFrom;
    var n := sys.nodes[s];
    var m := n.log[n.taken];
    NextResumed(sys, s);
    LookupOf(sys, s);
    CallersLeft(n, m.session);
    ResumedNode(sys, s, m, ResumeCaller(n.lua, m.session));
  }

  lemma LookupOf(sys: Sys, s: nat)
    requires s in sys.nodes && NodeOk(sys, s)
    ensures var n := sys.nodes[s];
            forall k :: k in n.lua.lookup ==> CallerFound(n, k) && n.lua.coroutines[n.lua.lookup[k]].status == InCall(k)
  {
  }

  lemma NextResumed(sys: Sys, s: nat)
    requires Enabled(sys, DispatchResponse(s))
    requires CallerFound(sys.nodes[s], sys.nodes[s].log[sys.nodes[s].taken].session)
    ensures var n := sys.nodes[s];
            var m := n.log[n.taken];
            Next(sys, DispatchResponse(s)) == Resumed(sys, s, m, ResumeCaller(n.lua, m.session))
  {
    hide ResumeCaller;
  }

  function Resumed(sys: Sys, s: nat, m: Message, l': Lua): Sys
    requires s in sys.nodes
  {
    sys.(nodes := sys.nodes[s := sys.nodes[s].(taken := sys.nodes[s].taken + 1, lua := l')],
         got := sys.got[(s, m.session) := m.payload])
  }

  lemma ResumedNode(sys: Sys, s: nat, m: Message, l': Lua)
    requires s in sys.nodes && NodeOk(sys, s) && sys.nodes[s].taken < |sys.nodes[s].log| && !sys.nodes[s].calling
    requires ResumedFrom(sys.nodes[s].lua, l', m.session)
    ensures NodeOk(Resumed(sys, s, m, l'), s)
  {
  }

  /** Of the callers only the one that is now running has left the table. */
  ghost predicate ResumedFrom(l: Lua, l': Lua, session: nat)
  {
    && l'.sessionId == l.sessionId && SameDebts(l, l')
    && Busy(l') && l'.coroutines[l'.running.value].status == Running
    && forall k :: k in l'.lookup ==>
         k in l.lookup && k != session && l'.lookup[k] == l.lookup[k] < |l'.coroutines|
         && l'.coroutines[l'.lookup[k]].status == InCall(k)
  }

  /** The callers that are not resumed. */
  lemma CallersLeft(n: Node, session: nat)
    requires CallerFound(n, session)
    requires forall k :: k in n.lua.lookup ==>
               CallerFound(n, k) && n.lua.coroutines[n.lua.lookup[k]].status == InCall(k)
    ensures ResumedFrom(n.lua, ResumeCaller(n.lua, session), session)
  {
  }

  lemma DispatchResponseInv(sys: Sys, s: nat)
    requires Inv(sys) && Enabled(sys, DispatchResponse(s))
    ensures Inv(Next(sys, DispatchResponse(s)))
  {
    hide Inv, KeyAt, TokenOk, NodeOk, Unique, AccountedFor, HistoryOk, PayloadAt, IsAnswer, Issued, Waiting;
    var sys' := Next(sys, DispatchResponse(s));
    var from := InInbox(s, sys.nodes[s].taken);
    PartsOfInv(sys);
    NodeOf(sys, s);
    ResponseKeys(sys, s);
    UniqueOf(sys, from);
    UniqueMoved(sys, sys', from, from, None);
    AccountedMoved(sys, sys', from, from, None);
    ResponseHistory(sys, s);
    forall p ensures TokenOk(sys', p) {
      TokenOf(sys, p);
      if KeyAt(sys', p).Some? {
        ResponseWaiting(sys, s, KeyAt(sys, p).value);
        KeptToken(sys, sys', p);
      } else {
        NoToken(sys', p);
      }
    }
    forall r | r in sys'.nodes ensures NodeOk(sys', r) {
      NodeOf(sys, r);
      ResponseNode(sys, s, r);
    }
    AssembleInv(sys');
  }

  // ---------- the end of a handler ----------

  /** Either way out of a handler takes away its token and touches nobody else's call. */
  ghost predicate Over(l: Lua, l': Lua)
    requires Busy(l)
  {
    var c := l.running.value;
    && l'.sessionId == l.sessionId && l'.lookup == l.lookup && l'.running.None?
    && l'.coroutines == SetStatus(l, c, Dead)
    && forall d :: d != c ==>
         (d in l'.address <==> d in l.address) && (d in l'.response <==> d in l.response)
         && (d in l.address ==> l'.address[d] == l.address[d]) && (d in l.response ==> l'.response[d] == l.response[d])
  }

  lemma BothOver(l: Lua)
    requires Busy(l)
    ensures Over(l, Finish(l)) && Over(l, Abort(l))
    ensures forall c :: c in Finish(l).response ==> c in l.response
    ensures forall c :: c in Abort(l).response ==> c in l.response
  {
  }

  lemma OverKeys(sys: Sys, s: nat, l': Lua)
    requires s in sys.nodes && InHandler(sys.nodes[s]) && Over(sys.nodes[s].lua, l')
    ensures var sys' := SetLua(sys, s, l');
            var from := Held(s, sys.nodes[s].lua.running.value);
            && (forall p :: KeyAt(sys', p) == if p == from then None else KeyAt(sys, p))
            && (forall p :: KeyAt(sys, p).Some? ==>
                  PayloadAt(sys', p) == PayloadAt(sys, p) && IsAnswer(sys', p) == IsAnswer(sys, p))
  {
  }

  lemma OverWaiting(sys: Sys, sys': Sys, s: nat, l': Lua, key: Key)
    requires s in sys.nodes && InHandler(sys.nodes[s]) && Over(sys.nodes[s].lua, l') && NodeOk(sys, s)
    requires SameTables(SetLua(sys, s, l'), sys') && SameStory(sys, sys', key)
    ensures StillWaiting(sys, sys', key)
  {
  }

  lemma OverIssued(sys: Sys, sys': Sys, s: nat, l': Lua)
    requires s in sys.nodes && InHandler(sys.nodes[s]) && Over(sys.nodes[s].lua, l')
    requires SameTables(SetLua(sys, s, l'), sys')
    ensures forall key :: Issued(sys, key) ==> Issued(sys', key)
  {
  }

  lemma OverNode(sys: Sys, s: nat, l': Lua, r: nat)
    requires s in sys.nodes && InHandler(sys.nodes[s]) && Over(sys.nodes[s].lua, l') && NodeOk(sys, s)
    requires forall c :: c in l'.response ==> c in sys.nodes[s].lua.response
    requires r in sys.nodes && NodeOk(sys, r)
    ensures NodeOk(SetLua(sys, s, l'), r)
  {
    hide NodeOk, Over;
    if r == s {
      OverOwnNode(sys, s, l');
    } else {
      OverOtherNode(sys, s, l', r);
    }
  }

  lemma OverOwnNode(sys: Sys, s: nat, l': Lua)
    requires s in sys.nodes && InHandler(sys.nodes[s]) && Over(sys.nodes[s].lua, l') && NodeOk(sys, s)
    requires forall c :: c in l'.response ==> c in sys.nodes[s].lua.response
    ensures NodeOk(SetLua(sys, s, l'), s)
  {
  }

  lemma OverOtherNode(sys: Sys, s: nat, l': Lua, r: nat)
    requires s in sys.nodes && r in sys.nodes && NodeOk(sys, r) && r != s
    ensures NodeOk(SetLua(sys, s, l'), r)
  {
  }

  // ---------- handler error ----------

  lemma ErrorHistory(sys: Sys, s: nat)
    requires Inv(sys) && Enabled(sys, HandlerError(s))
    ensures HistoryOk(Next(sys, HandlerError(s)))
  {
    hide Inv, NodeOk, Issued, KeyAt, Over, IsAnswer, PayloadAt, Waiting, Abort;
    var l := sys.nodes[s].lua;
    PartsOfInv(sys);
    BothOver(l);
    TokenOf(sys, Held(s, l.running.value));
    HeldIsKey(sys, s);
    OverIssued(sys, Next(sys, HandlerError(s)), s, Abort(l));
    hide Unique, AccountedFor, HeldKey;
  }

  lemma HeldIsKey(sys: Sys, s: nat)
    requires s in sys.nodes && sys.nodes[s].lua.running.Some?
    ensures KeyAt(sys, Held(s, sys.nodes[s].lua.running.value))
            == HeldKey(sys.nodes[s].lua, sys.nodes[s].lua.running.value)
  {
  }

  lemma HandlerErrorInv(sys: Sys, s: nat)
    requires Inv(sys) && Enabled(sys, HandlerError(s))
    ensures Inv(Next(sys, HandlerError(s)))
  {
    hide Inv, KeyAt, HeldKey, TokenOk, NodeOk, Unique, AccountedFor, HistoryOk, PayloadAt, IsAnswer, Issued, Waiting,
         Over, Abort;
    var l := sys.nodes[s].lua;
    var sys' := Next(sys, HandlerError(s));
    var from := Held(s, l.running.value);
    PartsOfInv(sys);
    NodeOf(sys, s);
    BothOver(l);
    HeldIsKey(sys, s);
    ErrorKeys(sys, s);
    UniqueOf(sys, from);
    UniqueMoved(sys, sys', from, from, None);
    AccountedMoved(sys, sys', from, from, None);
    ErrorHistory(sys, s);
    forall p ensures TokenOk(sys', p) {
      TokenOf(sys, p);
      if KeyAt(sys', p).Some? {
        OverWaiting(sys, sys', s, Abort(l), KeyAt(sys, p).value);
        KeptToken(sys, sys', p);
      } else {
        NoToken(sys', p);
      }
    }
    forall r | r in sys'.nodes ensures NodeOk(sys', r) {
      NodeOf(sys, r);
      OverNode(sys, s, Abort(l), r);
      MoreLost(SetLua(sys, s, Abort(l)), sys', r);
    }
    AssembleInv(sys');
  }

  lemma ErrorKeys(sys: Sys, s: nat)
    requires Enabled(sys, HandlerError(s))
    ensures var sys' := Next(sys, HandlerError(s));
            var from := Held(s, sys.nodes[s].lua.running.value);
            && (forall p :: KeyAt(sys', p) == if p == from then None else KeyAt(sys, p))
            && (forall p :: KeyAt(sys, p).Some? ==>
                  PayloadAt(sys', p) == PayloadAt(sys, p) && IsAnswer(sys', p) == IsAnswer(sys, p))
  {
    var l := sys.nodes[s].lua;
    BothOver(l);
    OverKeys(sys, s, Abort(l));
    SameNodesKeys(SetLua(sys, s, Abort(l)), Next(sys, HandlerError(s)));
    hide KeyAt, PayloadAt, IsAnswer, Over;
  }

  lemma SameNodesKeys(sys: Sys, sys': Sys)
    requires sys'.nodes == sys.nodes
    ensures forall p :: KeyAt(sys', p) == KeyAt(sys, p) && PayloadAt(sys', p) == PayloadAt(sys, p)
                        && IsAnswer(sys', p) == IsAnswer(sys, p)
  {
  }

  lemma MoreLost(sys: Sys, sys': Sys, r: nat)
    requires sys'.nodes == sys.nodes && sys'.asked == sys.asked && sys'.got == sys.got
    requires r in sys.nodes && NodeOk(sys, r)
    ensures NodeOk(sys', r)
  {
  }

  // ---------- answering ----------

  /** send_response reads the same two tables that say who is owed. */
  lemma AnswerFromDebt(l: Lua, s: nat, payload: Payload)
    requires Busy(l) && l.coroutines[l.running.value].status == Running
    ensures match HeldKey(l, l.running.value)
            case None => Answer(l, s, payload).None?
            case Some(key) =>
              key.1 < SESSION_LIMIT && Answer(l, s, payload) == Some(Message(s, key.0, key.1, Response, payload))
  {
  }

  /** send_response answers exactly when the handler owes an answer, to the service and session it owes it to. */
  lemma AnswerPaysDebt(sys: Sys, s: nat, payload: Payload)
    requires Inv(sys) && Enabled(sys, Respond(s, payload))
    ensures var l := sys.nodes[s].lua;
            match KeyAt(sys, Held(s, l.running.value))
            case None => Answer(l, s, payload).None?
            case Some(key) => key.0 in sys.nodes && 0 < key.1 < SESSION_LIMIT
                              && Answer(l, s, payload) == Some(Message(s, key.0, key.1, Response, payload))
  {
    hide Inv, KeyAt, HeldKey, Answer, IsAnswer, PayloadAt, Waiting;
    var l := sys.nodes[s].lua;
    NodeOf(sys, s);
    HeldIsKey(sys, s);
    AnswerFromDebt(l, s, payload);
    TokenOf(sys, Held(s, l.running.value));
    hide NodeOk;
  }

  /** A handler that owes nothing ends like any other. */
  lemma RespondSilently(sys: Sys, s: nat, payload: Payload)
    requires Inv(sys) && Enabled(sys, Respond(s, payload))
    requires KeyAt(sys, Held(s, sys.nodes[s].lua.running.value)).None?
    ensures Inv(Next(sys, Respond(s, payload)))
  {
    hide Inv, KeyAt, HeldKey, TokenOk, NodeOk, Unique, AccountedFor, HistoryOk, PayloadAt, IsAnswer, Issued, Waiting,
         Over, Finish, Answer;
    var l := sys.nodes[s].lua;
    var sys' := SetLua(sys, s, Finish(l));
    var from := Held(s, l.running.value);
    PartsOfInv(sys);
    AnswerPaysDebt(sys, s, payload);
    NodeOf(sys, s);
    BothOver(l);
    OverKeys(sys, s, Finish(l));
    UniqueSame(sys, sys');
    AccountedSame(sys, sys');
    OverIssued(sys, sys', s, Finish(l));
    SameHistory(sys, sys');
    forall p ensures TokenOk(sys', p) {
      TokenOf(sys, p);
      if KeyAt(sys', p).Some? {
        OverWaiting(sys, sys', s, Finish(l), KeyAt(sys, p).value);
        KeptToken(sys, sys', p);
      } else {
        NoToken(sys', p);
      }
    }
    forall r | r in sys'.nodes ensures NodeOk(sys', r) {
      NodeOf(sys, r);
      OverNode(sys, s, Finish(l), r);
    }
    AssembleInv(sys');
  }

  lemma SameHistory(sys: Sys, sys': Sys)
    requires HistoryOk(sys) && sys' == sys.(nodes := sys'.nodes)
    requires forall key :: Issued(sys, key) ==> Issued(sys', key)
    ensures HistoryOk(sys')
  {
    hide Issued;
  }

  lemma TakenBound(sys: Sys, s: nat)
    requires s in sys.nodes && NodeOk(sys, s)
    ensures sys.nodes[s].taken <= |sys.nodes[s].log|
  {
  }

  /** Where the answer lands, and that it replaces the handler's token. */
  lemma RespondKeys(sys: Sys, s: nat, payload: Payload, key: Key)
    requires Inv(sys) && Enabled(sys, Respond(s, payload))
    requires KeyAt(sys, Held(s, sys.nodes[s].lua.running.value)) == Some(key)
    ensures key.0 in sys.nodes
    ensures var sys' := Next(sys, Respond(s, payload));
            var from, to := Held(s, sys.nodes[s].lua.running.value), InInbox(key.0, |sys.nodes[key.0].log|);
            && (forall p :: KeyAt(sys', p) == if p == to && !Full(sys.nodes[key.0]) then Some(key)
                                              else if p == from then None else KeyAt(sys, p))
            && (forall p :: KeyAt(sys', p).Some? && p != to ==>
                  PayloadAt(sys', p) == PayloadAt(sys, p) && IsAnswer(sys', p) == IsAnswer(sys, p))
            && (!Full(sys.nodes[key.0]) ==> PayloadAt(sys', to) == payload && IsAnswer(sys', to))
            && KeyAt(sys, to).None?
  {
    hide Inv, Over, Finish, Answer, HeldKey, NodeOk;
    var l := sys.nodes[s].lua;
    var sys1 := SetLua(sys, s, Finish(l));
    AnswerPaysDebt(sys, s, payload);
    var m := Message(s, key.0, key.1, Response, payload);
    BothOver(l);
    OverKeys(sys, s, Finish(l));
    NodeOf(sys, key.0);
    TakenBound(sys, key.0);
    hide KeyAt;
    DeliverKeys(sys1, Next(sys, Respond(s, payload)), key.0, m);
    BeyondInbox(sys, key.0);
    assert MessageKey(key.0, m) == Some(key);
  }

  lemma RespondTables(sys: Sys, s: nat, payload: Payload)
    requires Enabled(sys, Respond(s, payload))
    ensures SameTables(SetLua(sys, s, Finish(sys.nodes[s].lua)), Next(sys, Respond(s, payload)))
  {
    hide Finish, Answer;
  }

  /** An answer is recorded, and lost exactly when the caller's inbox is full. */
  lemma RespondLost(sys: Sys, s: nat, payload: Payload, key: Key)
    requires Inv(sys) && Enabled(sys, Respond(s, payload))
    requires KeyAt(sys, Held(s, sys.nodes[s].lua.running.value)) == Some(key)
    ensures var sys' := Next(sys, Respond(s, payload));
            key.0 in sys.nodes && sys'.got == sys.got && sys'.asked == sys.asked
            && sys'.answered == sys.answered[key := payload]
            && sys'.lost == if Full(sys.nodes[key.0]) then sys.lost + {key} else sys.lost
  {
    hide Inv, KeyAt, Finish, Answer, Deliver;
    AnswerPaysDebt(sys, s, payload);
  }

  lemma RespondHistory(sys: Sys, s: nat, payload: Payload, key: Key)
    requires Inv(sys) && Enabled(sys, Respond(s, payload))
    requires KeyAt(sys, Held(s, sys.nodes[s].lua.running.value)) == Some(key)
    ensures HistoryOk(Next(sys, Respond(s, payload)))
    ensures forall k :: k != key ==> SameStory(sys, Next(sys, Respond(s, payload)), k)
    ensures key in sys.asked && Next(sys, Respond(s, payload)).asked == sys.asked
  {
    hide Inv, NodeOk, Issued, KeyAt, Over, IsAnswer, PayloadAt, Waiting, Finish, Next, Unique, AccountedFor, SameTables,
         Full;
    var l := sys.nodes[s].lua;
    PartsOfInv(sys);
    RespondLost(sys, s, payload, key);
    TokenOf(sys, Held(s, l.running.value));
    BothOver(l);
    RespondTables(sys, s, payload);
    OverIssued(sys, Next(sys, Respond(s, payload)), s, Finish(l));
  }

  lemma RespondToken(sys: Sys, s: nat, payload: Payload, key: Key)
    requires Inv(sys) && Enabled(sys, Respond(s, payload))
    requires KeyAt(sys, Held(s, sys.nodes[s].lua.running.value)) == Some(key)
    requires key.0 in sys.nodes && !Full(sys.nodes[key.0])
    ensures TokenOk(Next(sys, Respond(s, payload)), InInbox(key.0, |sys.nodes[key.0].log|))
  {
    hide Inv, NodeOk, KeyAt, Over, IsAnswer, PayloadAt, Issued, Waiting, Finish, Answer, HeldKey;
    var l := sys.nodes[s].lua;
    AnswerPaysDebt(sys, s, payload);
    TokenOf(sys, Held(s, l.running.value));
    RespondKeys(sys, s, payload, key);
    BothOver(l);
    NodeOf(sys, s);
    RespondTables(sys, s, payload);
    RespondStillWaiting(sys, s, payload, key);
    assert key in Next(sys, Respond(s, payload)).answered;
  }

  /** The call being answered: its caller waits on, whatever is recorded. */
  lemma RespondStillWaiting(sys: Sys, s: nat, payload: Payload, key: Key)
    requires Inv(sys) && Enabled(sys, Respond(s, payload)) && Next(sys, Respond(s, payload)).asked == sys.asked
    ensures StillWaiting(sys, Next(sys, Respond(s, payload)), key)
  {
    var l := sys.nodes[s].lua;
    var sys1 := SetLua(sys, s, Finish(l));
    var sys2 := sys1.(nodes := Next(sys, Respond(s, payload)).nodes);
    NodeOf(sys, s);
    BothOver(l);
    RespondTables(sys, s, payload);
    OverWaiting(sys, sys2, s, Finish(l), key);
    WaitingByNodes(sys2, Next(sys, Respond(s, payload)), key);
    hide Inv, NodeOk, Over, Issued, Waiting, Finish, Answer;
  }

  lemma WaitingByNodes(sys: Sys, sys': Sys, key: Key)
    requires sys'.nodes == sys.nodes && sys'.asked == sys.asked
    ensures StillWaiting(sys, sys', key)
  {
  }

  lemma RespondNode(sys: Sys, s: nat, payload: Payload, r: nat)
    requires Inv(sys) && Enabled(sys, Respond(s, payload)) && r in sys.nodes
    ensures var sys' := Next(sys, Respond(s, payload)); r in sys'.nodes && NodeOk(sys', r)
  {
    hide Inv, NodeOk, KeyAt, Over, Finish, Answer, HeldKey, TokenOk;
    var l := sys.nodes[s].lua;
    var sys1 := SetLua(sys, s, Finish(l));
    var sys' := Next(sys, Respond(s, payload));
    NodeOf(sys, s);
    NodeOf(sys, r);
    BothOver(l);
    OverNode(sys, s, Finish(l), r);
    AnswerPaysDebt(sys, s, payload);
    match Answer(l, s, payload)
    case None =>
    case Some(m) => DeliveryNode(sys1, sys', m.to, m, r);
  }

  lemma RespondTokens(sys: Sys, s: nat, payload: Payload, key: Key, p: Place)
    requires Inv(sys) && Enabled(sys, Respond(s, payload))
    requires KeyAt(sys, Held(s, sys.nodes[s].lua.running.value)) == Some(key)
    ensures TokenOk(Next(sys, Respond(s, payload)), p)
  {
    hide Inv, KeyAt, TokenOk, NodeOk, HistoryOk, PayloadAt, IsAnswer, Next, Full, StillWaiting, SameStory;
    var sys' := Next(sys, Respond(s, payload));
    RespondKeys(sys, s, payload, key);
    TokenOf(sys, p);
    if p == InInbox(key.0, |sys.nodes[key.0].log|) && !Full(sys.nodes[key.0]) {
      RespondToken(sys, s, payload, key);
    } else if KeyAt(sys', p).Some? {
      OnlyHolder(sys, Held(s, sys.nodes[s].lua.running.value), p);
      RespondHistory(sys, s, payload, key);
      RespondStillWaiting(sys, s, payload, KeyAt(sys, p).value);
      KeptToken(sys, sys', p);
    } else {
      NoToken(sys', p);
    }
  }

  lemma OnlyHolder(sys: Sys, from: Place, p: Place)
    requires Inv(sys) && p != from && KeyAt(sys, from).Some?
    ensures KeyAt(sys, p) != KeyAt(sys, from)
  {
    hide KeyAt, TokenOk, NodeOk, HistoryOk, AccountedFor;
  }

  lemma RespondInv(sys: Sys, s: nat, payload: Payload)
    requires Inv(sys) && Enabled(sys, Respond(s, payload))
    ensures Inv(Next(sys, Respond(s, payload)))
  {
    hide Inv, KeyAt, TokenOk, NodeOk, Unique, AccountedFor, HistoryOk, Next, SameStory, Full;
    var sys' := Next(sys, Respond(s, payload));
    var from := Held(s, sys.nodes[s].lua.running.value);
    if KeyAt(sys, from).None? {
      RespondSilently(sys, s, payload);
      return;
    }
    var key := KeyAt(sys, from).value;
    RespondKeys(sys, s, payload, key);
    var full := Full(sys.nodes[key.0]);
    var to := if full then from else InInbox(key.0, |sys.nodes[key.0].log|);
    var moved := if full then None else Some(key);
    PartsOfInv(sys);
    UniqueOf(sys, from);
    UniqueMoved(sys, sys', from, to, moved);
    RespondHistory(sys, s, payload, key);
    RespondLost(sys, s, payload, key);
    AccountedMoved(sys, sys', from, to, moved);
    forall p ensures TokenOk(sys', p) {
      RespondTokens(sys, s, payload, key, p);
    }
    forall r | r in sys'.nodes ensures NodeOk(sys', r) {
      RespondTables(sys, s, payload);
      RespondNode(sys, s, payload, r);
    }
    AssembleInv(sys');
  }

  // ---------- every step ----------

  lemma StepInv(sys: Sys, a: Action)
    requires Inv(sys) && Enabled(sys, a)
    ensures Inv(Next(sys, a)) <==> Fits(sys, a)
  {
    hide Inv, Enabled, Next, Fits;
    if Fits(sys, a) {
      FittingStepInv(sys, a);
    } else if a.CallSends? {
      CallSendsStray(sys, a.s, a.to, a.payload);
    } else {
      OthersFit(sys, a);
    }
  }

  lemma OthersFit(sys: Sys, a: Action)
    requires Enabled(sys, a) && !a.CallSends?
    ensures Fits(sys, a)
  {
  }

  lemma FittingStepInv(sys: Sys, a: Action)
    requires Inv(sys) && Enabled(sys, a) && Fits(sys, a)
    ensures Inv(Next(sys, a))
  {
    hide Inv, Enabled, Next, Fits;
    match a
    case Send(s, to, payload) => SendInv(sys, s, to, payload);
    case CallSends(s, to, payload) => CallSendsInv(sys, s, to, payload);
    case CallRegisters(s) => CallRegistersInv(sys, s);
    case DispatchRequest(s) => DispatchRequestInv(sys, s);
    case DispatchResponse(s) => DispatchResponseInv(sys, s);
    case Respond(s, payload) => RespondInv(sys, s, payload);
    case HandlerError(s) => HandlerErrorInv(sys, s);
    case Sleep(s) => SleepInv(sys, s);
    case TimerFires(s, c) => TimerInv(sys, s, c);
  }
}
