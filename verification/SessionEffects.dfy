/** What each step does to the services, told from the fields alone. */
module SessionEffects {
  import opened Bits
  import opened Ring
  import opened SessionTables
  import opened SessionProtocol
  import opened SessionSteps

  // ---------- inboxes ----------

  /** An inbox takes a message exactly when it is none of 1023 or more that wait. */
  predicate HasRoom(n: Node) { |n.log| - n.taken < 1023 }

  /** Every service is as it was, but for the inbox of `to`, which has taken m if there was room. */
  ghost predicate OnlyDelivers(sys: Sys, sys': Sys, to: nat, m: Message)
  {
    && sys'.nodes.Keys == sys.nodes.Keys
    && forall r :: r in sys.nodes ==>
         && sys'.nodes[r].lua == sys.nodes[r].lua && sys'.nodes[r].calling == sys.nodes[r].calling
         && sys'.nodes[r].taken == sys.nodes[r].taken
         && sys'.nodes[r].log == if r == to && HasRoom(sys.nodes[r]) then sys.nodes[r].log + [m] else sys.nodes[r].log
  }

  /** The other services are as they were. */
  ghost predicate OthersSame(sys: Sys, sys': Sys, s: nat)
  {
    sys'.nodes.Keys == sys.nodes.Keys && forall r :: r in sys.nodes && r != s ==> sys'.nodes[r] == sys.nodes[r]
  }

  ghost predicate SameRecords(sys: Sys, sys': Sys)
  {
    sys'.asked == sys.asked && sys'.answered == sys.answered && sys'.got == sys.got && sys'.lost == sys.lost
  }

  // ---------- sending ----------

  /** service.send: the message goes to `to`, under session 0, with its payload, or nowhere. */
  lemma SendEffect(sys: Sys, s: nat, to: nat, payload: Payload)
    requires Enabled(sys, Send(s, to, payload))
    ensures var sys' := Next(sys, Send(s, to, payload));
            OnlyDelivers(sys, sys', to, Message(s, to, 0, Request, payload)) && SameRecords(sys, sys')
    ensures !HasRoom(sys.nodes[to]) ==> Next(sys, Send(s, to, payload)) == sys
  {
  }

  /** service.call up to its send: the call is recorded under its number, which the message carries modulo 2^32. */
  lemma CallSendsEffect(sys: Sys, s: nat, to: nat, payload: Payload)
    requires Enabled(sys, CallSends(s, to, payload))
    ensures var n, sys' := sys.nodes[s].lua.sessionId, Next(sys, CallSends(s, to, payload));
            var calling := sys.(nodes := sys.nodes[s := sys.nodes[s].(calling := true)]);
            && !sys.nodes[s].calling
            && OnlyDelivers(calling, sys', to, Message(s, to, n % 0x1_0000_0000, Request, payload))
            && sys'.asked == sys.asked[(s, n) := Ask(sys.nodes[s].lua.running, to, payload)]
            && sys'.answered == sys.answered && sys'.got == sys.got
            && sys'.lost == if HasRoom(sys.nodes[to]) then sys.lost else sys.lost + {(s, n)}
  {
    hide Deliver, OnlyDelivers;
    var m := CallMessage(sys.nodes[s].lua, s, to, payload);
    var calling := sys.(nodes := sys.nodes[s := sys.nodes[s].(calling := true)]);
    DeliverDoes(calling, Next(sys, CallSends(s, to, payload)), to, m);
  }

  /** service.call from its send on: the caller is suspended in the call and registered under its number, which is used
      up; outside a coroutine it is used up, and nobody is registered under it. */
  lemma CallRegistersEffect(sys: Sys, s: nat)
    requires Enabled(sys, CallRegisters(s))
    ensures var sys' := Next(sys, CallRegisters(s));
            OthersSame(sys, sys', s) && SameRecords(sys, sys')
            && var n, n' := sys.nodes[s], sys'.nodes[s];
               && !n'.calling && n'.log == n.log && n'.taken == n.taken && n'.lua.sessionId == n.lua.sessionId + 1
               && n'.lua.running == None && n'.lua.address == n.lua.address && n'.lua.response == n.lua.response
               && if n.lua.running.None? then
                    n'.lua.lookup == n.lua.lookup - {n.lua.sessionId} && n'.lua.coroutines == n.lua.coroutines
                  else
                    n'.lua.lookup == n.lua.lookup[n.lua.sessionId := n.lua.running.value]
                    && OnlyStatus(n.lua, n'.lua, n.lua.running.value, InCall(n.lua.sessionId))
  {
  }

  /** Of the coroutines only c has changed, and only in what it is doing. */
  ghost predicate OnlyStatus(l: Lua, l': Lua, c: nat, status: Status)
  {
    && c < |l.coroutines| == |l'.coroutines| && l'.coroutines[c] == Coroutine(status, l.coroutines[c].request)
    && forall d :: 0 <= d < |l.coroutines| && d != c ==> l'.coroutines[d] == l.coroutines[d]
  }

  // ---------- dispatching ----------

  /** A request starts a coroutine of its own, which runs with the request and owes its sender an answer. */
  lemma DispatchRequestEffect(sys: Sys, s: nat)
    requires Enabled(sys, DispatchRequest(s))
    ensures var sys' := Next(sys, DispatchRequest(s));
            OthersSame(sys, sys', s) && SameRecords(sys, sys')
            && var n, n' := sys.nodes[s], sys'.nodes[s];
               var m, c := n.log[n.taken], |n.lua.coroutines|;
               && m.kind == Request && n'.log == n.log && n'.taken == n.taken + 1 && !n'.calling
               && n'.lua.coroutines == n.lua.coroutines + [Coroutine(Running, m)] && n'.lua.running == Some(c)
               && n'.lua.address == n.lua.address[c := m.from] && n'.lua.response == n.lua.response[c := m.session]
               && n'.lua.sessionId == n.lua.sessionId && n'.lua.lookup == n.lua.lookup
  {
  }

  /** An answer resumes the coroutine registered under its number, and no other is resumed or forgotten. */
  lemma DispatchResponseEffect(sys: Sys, s: nat)
    requires Enabled(sys, DispatchResponse(s))
    ensures var sys' := Next(sys, DispatchResponse(s));
            OthersSame(sys, sys', s) && sys'.asked == sys.asked && sys'.answered == sys.answered
            && var n, n' := sys.nodes[s], sys'.nodes[s];
               var m, l, l' := n.log[n.taken], n.lua, n'.lua;
               && m.kind == Response && n'.log == n.log && n'.taken == n.taken + 1 && !n'.calling
               && l'.sessionId == l.sessionId && l'.address == l.address && l'.response == l.response
               && if m.session in l.lookup && l.lookup[m.session] < |l.coroutines| then
                    && l'.running == Some(l.lookup[m.session]) && l'.lookup == l.lookup - {m.session}
                    && OnlyStatus(l, l', l.lookup[m.session], Running)
                    && sys'.got == sys.got[(s, m.session) := m.payload] && sys'.lost == sys.lost
                  else l' == l && sys'.got == sys.got && sys'.lost == sys.lost + {(s, m.session)}
  {
  }

  // ---------- the end of a handler ----------

  /** A handler that returns is over: it owes nothing any more, and has answered if it did. */
  lemma RespondEffect(sys: Sys, s: nat, payload: Payload)
    requires Enabled(sys, Respond(s, payload))
    ensures var l, sys' := sys.nodes[s].lua, Next(sys, Respond(s, payload));
            var c := l.running.value;
            && s in sys'.nodes && sys'.asked == sys.asked && sys'.got == sys.got
            && var l' := sys'.nodes[s].lua;
               && l'.running == None && OnlyStatus(l, l', c, Dead) && l'.sessionId == l.sessionId
               && l'.lookup == l.lookup
               && l'.address == l.address - {c} && l'.response == l.response - {c}
               && var over := sys.(nodes := sys.nodes[s := sys.nodes[s].(lua := l')]);
                  if c in l.response && c in l.address && l.response[c] > 0 then
                    var key := (l.address[c], l.response[c]);
                    && OnlyDelivers(over, sys', key.0, Message(s, key.0, key.1, Response, payload))
                    && sys'.answered == sys.answered[key := payload]
                    && sys'.lost == if key.0 in sys.nodes && HasRoom(sys.nodes[key.0]) then sys.lost
                                    else sys.lost + {key}
                  else sys' == over
  {
    hide Finish, Deliver, OnlyStatus, OnlyDelivers;
    RespondFields(sys, s, payload);
    var l := sys.nodes[s].lua;
    var over := sys.(nodes := sys.nodes[s := sys.nodes[s].(lua := Finish(l))]);
    if Answer(l, s, payload).Some? {
      var m := Answer(l, s, payload).value;
      DeliverDoes(over, Next(sys, Respond(s, payload)), m.to, m);
      DeliveredTables(over, Next(sys, Respond(s, payload)), m.to, m, s);
    }
  }

  lemma DeliverDoes(sys: Sys, sys': Sys, to: nat, m: Message)
    requires sys'.nodes == Deliver(sys.nodes, to, m)
    ensures OnlyDelivers(sys, sys', to, m)
  {
  }

  lemma DeliveredTables(sys: Sys, sys': Sys, to: nat, m: Message, s: nat)
    requires OnlyDelivers(sys, sys', to, m) && s in sys.nodes
    ensures s in sys'.nodes && sys'.nodes[s].lua == sys.nodes[s].lua
  {
  }

  lemma RespondFields(sys: Sys, s: nat, payload: Payload)
    requires Enabled(sys, Respond(s, payload))
    ensures var l, l' := sys.nodes[s].lua, Finish(sys.nodes[s].lua);
            var c := l.running.value;
            && l' == l.(running := None, address := l.address - {c}, response := l.response - {c},
                        coroutines := l'.coroutines)
            && OnlyStatus(l, l', c, Dead)
  {
  }

  /** A handler that fails is over too, but what it owed stays written down, and nobody is told. */
  lemma HandlerErrorEffect(sys: Sys, s: nat)
    requires Enabled(sys, HandlerError(s))
    ensures var l, sys' := sys.nodes[s].lua, Next(sys, HandlerError(s));
            && OthersSame(sys, sys', s) && sys'.asked == sys.asked && sys'.got == sys.got
            && sys'.answered == sys.answered
            && var l' := sys'.nodes[s].lua;
               && sys'.nodes[s] == sys.nodes[s].(lua := l') && l'.running == None
               && OnlyStatus(l, l', l.running.value, Dead)
               && l' == l.(running := None, coroutines := l'.coroutines)
  {
  }

  // ---------- sleeping ----------

  /** service.sleep: the running coroutine is asleep and nothing runs. */
  lemma SleepEffect(sys: Sys, s: nat)
    requires Enabled(sys, Sleep(s))
    ensures var l, sys' := sys.nodes[s].lua, Next(sys, Sleep(s));
            && OthersSame(sys, sys', s) && SameRecords(sys, sys')
            && var l' := sys'.nodes[s].lua;
               && sys'.nodes[s] == sys.nodes[s].(lua := l') && l'.running == None
               && OnlyStatus(l, l', l.running.value, Asleep)
               && l'.sessionId == l.sessionId && l'.lookup == l.lookup && l'.address == l.address
               && l'.response == l.response
  {
  }

  /** The timer: its own sleeper runs again. */
  lemma TimerEffect(sys: Sys, s: nat, c: nat)
    requires Enabled(sys, TimerFires(s, c))
    ensures var l, sys' := sys.nodes[s].lua, Next(sys, TimerFires(s, c));
            && OthersSame(sys, sys', s) && SameRecords(sys, sys')
            && var l' := sys'.nodes[s].lua;
               && sys'.nodes[s] == sys.nodes[s].(lua := l') && l'.running == Some(c)
               && c < |l.coroutines| && l.coroutines[c].status == Asleep && OnlyStatus(l, l', c, Running)
               && l'.sessionId == l.sessionId && l'.lookup == l.lookup && l'.address == l.address
               && l'.response == l.response
  {
  }

  // ---------- the ring behind an inbox ----------

  /** An inbox is full exactly when the ring of 1024 slots that holds its waiting messages is. */
  lemma FullIsRingFull(data: seq<Message>, head: nat, tail: nat, n: Node)
    requires n.taken <= |n.log| && |data| == 1024 && Holds(data, head, tail, n.log[n.taken..])
    ensures Position(tail + 1, 10) == head <==> Full(n)
    ensures Full(n) <==> !HasRoom(n)
  {
    assert Pow2(4) == 16 && Pow2(8) == 256 && Pow2(10) == 1024;
    FullAndEmpty(data, head, tail, n.log[n.taken..], 10);
  }

  /** Delivery is a push into that ring. */
  method PushMessage(q: Queue<Message>, ghost sys: Sys, to: nat, m: Message) returns (full: bool)
    requires q.Valid() && q.k == 10 && to in sys.nodes && sys.nodes[to].taken <= |sys.nodes[to].log|
    requires q.contents == sys.nodes[to].log[sys.nodes[to].taken..]
    modifies q, q.data
    ensures q.Valid() && full == Full(sys.nodes[to])
    ensures q.contents == Deliver(sys.nodes, to, m)[to].log[sys.nodes[to].taken..]
  {
    assert Pow2(4) == 16 && Pow2(8) == 256 && Pow2(10) == 1024;
    full := q.PushPtr(m);
    ghost var n := sys.nodes[to];
    assert (n.log + [m])[n.taken..] == n.log[n.taken..] + [m];
  }
}
