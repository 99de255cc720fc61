/** The coroutine tables of lua/lservice3.lua: one service's session counter, suspended callers, and return
    addresses, and what each entry point does to them. */
module SessionTables {
  import opened Bits

  type Payload = nat

  datatype Kind = Request | Response

  const SESSION_LIMIT := 0x1_0000_0000

  /** Session numbers travel as unsigned 32-bit integers. */
  type Session = n: nat | n < SESSION_LIMIT

  function OnTheWire(number: nat): Session { number % SESSION_LIMIT }

  /** `from` and `to` are service ids; session 0 asks for no answer. */
  datatype Message = Message(from: nat, to: nat, session: Session, kind: Kind, payload: Payload)

  /** What a coroutine is doing: running, waiting for the answer to one call, waiting for its timer, or finished. */
  datatype Status = Running | InCall(session: nat) | Asleep | Dead

  datatype Coroutine = Coroutine(status: Status, request: Message)

  /** session_id, session_coroutine_suspend_lookup, session_coroutine_address, session_coroutine_response and
      running_thread; coroutines are numbered in order of creation. */
  datatype Lua = Lua(
    sessionId: nat,
    lookup: map<nat, nat>,
    address: map<nat, nat>,
    response: map<nat, Session>,
    running: Option<nat>,
    coroutines: seq<Coroutine>)

  const FRESH := Lua(1, map[], map[], map[], None, [])

  predicate Busy(l: Lua) { l.running.Some? && l.running.value < |l.coroutines| }

  function SetStatus(l: Lua, c: nat, s: Status): seq<Coroutine>
    requires c < |l.coroutines|
  {
    l.coroutines[c := l.coroutines[c].(status := s)]
  }

  /** new_session and the first resume. */
  function StartHandler(l: Lua, m: Message): Lua
  {
    var c := |l.coroutines|;
    l.(coroutines := l.coroutines + [Coroutine(Running, m)],
       address := l.address[c := m.from], response := l.response[c := m.session], running := Some(c))
  }

  /** resume_session on a coroutine that had yielded. */
  function Resume(l: Lua, c: nat): Lua
    requires c < |l.coroutines|
  {
    l.(running := Some(c), coroutines := SetStatus(l, c, Running))
  }

  /** The response branch of the dispatch loop, when the caller is found. */
  function ResumeCaller(l: Lua, session: nat): Lua
    requires session in l.lookup && l.lookup[session] < |l.coroutines|
  {
    Resume(l.(lookup := l.lookup - {session}), l.lookup[session])
  }

  /** service.call up to its yield. */
  function CallYields(l: Lua): Lua
    requires Busy(l)
  {
    var c := l.running.value;
    l.(lookup := l.lookup[l.sessionId := c], sessionId := l.sessionId + 1, running := None,
       coroutines := SetStatus(l, c, InCall(l.sessionId)))
  }

  /** service.call outside any coroutine: nothing is registered, and the yield raises an error. */
  function CallFails(l: Lua): Lua
  {
    l.(lookup := l.lookup - {l.sessionId}, sessionId := l.sessionId + 1)
  }

  /** The end of send_response, and of the handler with it. */
  function Finish(l: Lua): Lua
    requires Busy(l)
  {
    var c := l.running.value;
    l.(address := l.address - {c}, response := l.response - {c}, running := None, coroutines := SetStatus(l, c, Dead))
  }

  /** An error in the handler ends in its pcall: the coroutine is over, no answer is sent, and its entries stay. */
  function Abort(l: Lua): Lua
    requires Busy(l)
  {
    l.(running := None, coroutines := SetStatus(l, l.running.value, Dead))
  }

  /** service.sleep up to its yield. */
  function SleepYields(l: Lua): Lua
    requires Busy(l)
  {
    l.(running := None, coroutines := SetStatus(l, l.running.value, Asleep))
  }

  /** The message send_response sends, if its request asked for one. */
  function Answer(l: Lua, self: nat, payload: Payload): Option<Message>
    requires Busy(l)
  {
    var c := l.running.value;
    if c in l.response && c in l.address && l.response[c] > 0 then
      Some(Message(self, l.address[c], OnTheWire(l.response[c]), Response, payload))
    else None
  }

  function CallMessage(l: Lua, self: nat, to: nat, payload: Payload): Message
  {
    Message(self, to, OnTheWire(l.sessionId), Request, payload)
  }

  // ---------- the tables as the service keeps them ----------

  class Sessions {
    const self: nat
    var session_id: nat
    var suspend_lookup: map<nat, nat>
    var address: map<nat, nat>
    var response: map<nat, Session>
    var running_thread: Option<nat>
    var coroutines: seq<Coroutine>

    function State(): Lua
      reads this
    {
      Lua(session_id, suspend_lookup, address, response, running_thread, coroutines)
    }

    constructor (self: nat)
      ensures State() == FRESH && this.self == self
    {
      this.self, session_id := self, 1;
      suspend_lookup, address, response := map[], map[], map[];
      running_thread, coroutines := None, [];
    }

    /** new_session followed by resume_session. */
    method NewSession(m: Message)
      modifies this
      ensures State() == StartHandler(old(State()), m)
    {
      var co := |coroutines|;
      coroutines := coroutines + [Coroutine(Running, m)];
      address := address[co := m.from];
      response := response[co := m.session];
      running_thread := Some(co);
    }

    method SetStatus(co: nat, s: Status)
      requires co < |coroutines|
      modifies this`coroutines
      ensures coroutines == old(coroutines)[co := old(coroutines)[co].(status := s)]
    {
      coroutines := coroutines[co := coroutines[co].(status := s)];
    }

    method ResumeSession(co: nat)
      requires co < |coroutines|
      modifies this
      ensures State() == Resume(old(State()), co)
    {
      running_thread := Some(co);
      SetStatus(co, Running);
    }

    /** One message of the dispatch loop. False is the branch that frees an answer nobody waits for. */
    method Dispatch(m: Message) returns (taken: bool)
      requires m.session in suspend_lookup ==> suspend_lookup[m.session] < |coroutines|
      modifies this
      ensures taken <==> m.kind == Request || m.session in old(suspend_lookup)
      ensures State() == if m.kind == Request then StartHandler(old(State()), m)
                         else if taken then ResumeCaller(old(State()), m.session)
                         else old(State())
    {
      if m.kind == Request {
        NewSession(m);
        return true;
      }
      if m.session !in suspend_lookup {
        return false;
      }
      var co := suspend_lookup[m.session];
      suspend_lookup := suspend_lookup - {m.session};
      ResumeSession(co);
      return true;
    }

    /** service.call up to its send. */
    method SendRequest(to: nat, payload: Payload) returns (m: Message)
      ensures m == CallMessage(State(), self, to, payload)
    {
      m := Message(self, to, OnTheWire(session_id), Request, payload);
    }

    /** service.call from its send to its yield, or to the error it raises outside a coroutine. */
    method Register()
      requires running_thread.Some? ==> running_thread.value < |coroutines|
      modifies this
      ensures State() == if old(running_thread).Some? then CallYields(old(State())) else CallFails(old(State()))
    {
      var session := session_id;
      session_id := session_id + 1;
      if running_thread.None? {
        suspend_lookup := suspend_lookup - {session};
        return;
      }
      suspend_lookup := suspend_lookup[session := running_thread.value];
      SetStatus(running_thread.value, InCall(session));
      running_thread := None;
    }

    /** service.call as a whole, up to its yield. */
    method Call(to: nat, payload: Payload) returns (m: Message)
      requires running_thread.Some? ==> running_thread.value < |coroutines|
      modifies this
      ensures m == CallMessage(old(State()), self, to, payload)
      ensures State() == if old(running_thread).Some? then CallYields(old(State())) else CallFails(old(State()))
    {
      m := SendRequest(to, payload);
      Register();
    }

    /** send_response and the end of the handler. */
    method SendResponse(payload: Payload) returns (m: Option<Message>)
      requires running_thread.Some? && running_thread.value < |coroutines|
      modifies this
      ensures m == Answer(old(State()), self, payload) && State() == Finish(old(State()))
    {
      var co := running_thread.value;
      m := None;
      if co in response && co in address && response[co] > 0 {
        m := Some(Message(self, address[co], OnTheWire(response[co]), Response, payload));
      }
      address := address - {co};
      response := response - {co};
      SetStatus(co, Dead);
      running_thread := None;
    }

    /** A handler error, or service.sleep: the running coroutine stops. */
    method Stop(sleeping: bool)
      requires running_thread.Some? && running_thread.value < |coroutines|
      modifies this
      ensures State() == if sleeping then SleepYields(old(State())) else Abort(old(State()))
    {
      SetStatus(running_thread.value, if sleeping then Asleep else Dead);
      running_thread := None;
    }
  }
}
