/** Aria2Client: JSON-RPC calls over one WebSocket, their ids, timers and promises (section 5 of the
    JSON-RPC 2.0 Specification), under any order of calls, messages, timeouts, closes and stops. */
module Aria2Rpc {
  import opened Text

  // ---------------------------------------------------------------- messages and promises

  /** What JSON.parse and the property reads make of a received frame; id is String(payload.id). */
  datatype Message =
    | NotJson
    | Parsed(hasMethod: bool, id: Option<string>, error: Option<string>, result: string)

  datatype Reason = Remote(error: string) | TimedOut | ConnectionClosed | ClientStopped | SendThrew

  datatype Outcome = Unsettled | Resolved(message: Message) | Rejected(why: Reason)

  /** The requests issued so far, by id. */
  datatype State = State(
    nextId: nat,
    pending: set<nat>,
    promises: map<nat, Outcome>,
    thrown: set<nat>)      // history: ids whose send threw

  function Initial(): State { State(1, {}, map[], {}) }

  /** A promise settles once; settling it again does nothing. */
  function Settle(promises: map<nat, Outcome>, id: nat, outcome: Outcome): map<nat, Outcome>
    requires id in promises
  {
    if promises[id].Unsettled? then promises[id := outcome] else promises
  }

  function SettleAll(promises: map<nat, Outcome>, ids: set<nat>, outcome: Outcome): map<nat, Outcome>
  {
    map k | k in promises :: if k in ids && promises[k].Unsettled? then outcome else promises[k]
  }

  // ---------------------------------------------------------------- steps

  datatype Step =
    | Call(open: bool, throws: bool)
    | Receive(message: Message)
    | Timeout(id: nat)
    | Close                      // onclose of the present socket or of an earlier one
    | Stop

  ghost predicate WellFormed(s: State)
  {
    s.nextId >= 1 && (forall k: nat :: k in s.promises <==> 1 <= k < s.nextId) && s.pending <= s.promises.Keys
  }

  /** The timer of a request runs while it is pending. */
  predicate Enabled(s: State, step: Step) { step.Timeout? ==> step.id in s.pending }

  /** The pending request a message answers: a notification and an unknown id answer none. */
  predicate Answers(message: Message, id: nat) { message.Parsed? && message.id == Some(Decimal(id)) }

  function Addressee(s: State, message: Message): (r: Option<nat>)
    ensures r.Some? ==> r.value in s.pending && Answers(message, r.value)
    ensures r.None? ==> forall k :: k in s.pending ==> !Answers(message, k)
  {
    if exists k :: k in s.pending && Answers(message, k) then
      AtMostOne(s.pending, message);
      var k :| k in s.pending && Answers(message, k);
      Some(k)
    else None
  }

  lemma AtMostOne(ids: set<nat>, message: Message)
    ensures forall j, k :: j in ids && k in ids && Answers(message, j) && Answers(message, k) ==> j == k
  {
    forall j, k | j in ids && k in ids && Answers(message, j) && Answers(message, k)
      ensures j == k
    {
      DecimalInjective(j, k);
    }
  }

  function AnswerOf(message: Message): Outcome
    requires message.Parsed?
  {
    if message.error.Some? then Rejected(Remote(message.error.value)) else Resolved(message)
  }

  function Next(s: State, step: Step): (t: State)
    requires WellFormed(s) && Enabled(s, step)
    ensures WellFormed(t)
  {
    match step
    case Call(open, throws) =>
      if !open then s
      else State(s.nextId + 1, s.pending + {s.nextId}, s.promises[s.nextId := if throws then Rejected(SendThrew) else Unsettled],
                 if throws then s.thrown + {s.nextId} else s.thrown)
    case Receive(message) =>
      (match Addressee(s, message)
       case Some(id) => s.(pending := s.pending - {id}, promises := Settle(s.promises, id, AnswerOf(message)))
       case None => s)
    case Timeout(id) => s.(pending := s.pending - {id}, promises := Settle(s.promises, id, Rejected(TimedOut)))
    case Close => s.(pending := {}, promises := SettleAll(s.promises, s.pending, Rejected(ConnectionClosed)))
    case Stop => s.(pending := {}, promises := SettleAll(s.promises, s.pending, Rejected(ClientStopped)))
  }

  predicate Valid(s: State, run: seq<Step>)
    requires WellFormed(s)
    decreases |run|
  {
    run == [] || (Enabled(s, run[0]) && Valid(Next(s, run[0]), run[1..]))
  }

  function After(s: State, run: seq<Step>): (e: State)
    requires WellFormed(s) && Valid(s, run)
    ensures WellFormed(e)
    decreases |run|
  {
    if run == [] then s else After(Next(s, run[0]), run[1..])
  }

  // ---------------------------------------------------------------- correlation

  predicate Settled(s: State, k: nat)
    requires k in s.promises
  {
    !s.promises[k].Unsettled?
  }

  ghost predicate Correlated(s: State)
  {
    && WellFormed(s)
    && (forall k :: k in s.promises ==> k in s.pending || Settled(s, k))
    && (forall k :: k in s.pending ==> (Settled(s, k) <==> k in s.thrown))
    && (forall k :: k in s.thrown ==> k in s.promises && s.promises[k] == Rejected(SendThrew))
    && (forall k :: k in s.promises && s.promises[k].Resolved? ==> Answers(s.promises[k].message, k))
  }

  /** What happened to a promise is final, and ids are given out in order. */
  predicate Extends(s: State, t: State)
  {
    s.nextId <= t.nextId && forall k :: k in s.promises ==> k in t.promises && (Settled(s, k) ==> t.promises[k] == s.promises[k])
  }

  lemma CorrelatedKept(s: State, step: Step)
    requires Correlated(s) && Enabled(s, step)
    ensures Correlated(Next(s, step)) && Extends(s, Next(s, step))
    ensures step.Close? || step.Stop? ==> Next(s, step).pending == {}
  {
    hide Addressee;
  }

  /** Over any run: every issued id is pending or settled; it is both exactly while its send threw and
      nothing has removed it yet; what a promise settled to never changes; it resolves only with a message
      that carries its own id. */
  lemma {:induction false} CorrelationRun(s: State, run: seq<Step>)
    requires WellFormed(s) && Correlated(s) && Valid(s, run)
    ensures Correlated(After(s, run)) && Extends(s, After(s, run))
    decreases |run|
  {
    hide Next, Enabled, Correlated;
    if run != [] {
      CorrelatedKept(s, run[0]);
      CorrelationRun(Next(s, run[0]), run[1..]);
    }
  }

  /** The issued ids are the disjoint union of the pending and the settled ones exactly when no pending
      request is one whose send threw. */
  lemma DisjointIff(run: seq<Step>)
    requires Valid(Initial(), run)
    ensures var e := After(Initial(), run);
            && (forall k: nat :: k in e.promises <==> 1 <= k < e.nextId)
            && (forall k :: k in e.promises ==> k in e.pending || Settled(e, k))
            && ((forall k :: k in e.promises ==> !(k in e.pending && Settled(e, k))) <==> e.pending !! e.thrown)
  {
    CorrelationRun(Initial(), run);
    hide After, Valid;
  }

  /** After a close or a stop nothing is pending and every request ever made has settled. */
  lemma NothingPendingAfterClose(run: seq<Step>, last: Step)
    requires Valid(Initial(), run) && (last.Close? || last.Stop?)
    ensures var e := Next(After(Initial(), run), last);
            e.pending == {} && forall k: nat :: 1 <= k < e.nextId ==> k in e.promises && Settled(e, k)
  {
    CorrelationRun(Initial(), run);
    hide After, Valid;
    CorrelatedKept(After(Initial(), run), last);
    hide Next;
  }

  /** A request whose send throws is settled and pending at once: the overlap does happen. */
  lemma ThrownStaysPending()
    ensures var run := [Call(true, true)];
            Valid(Initial(), run) && var e := After(Initial(), run); 1 in e.pending && 1 in e.promises && Settled(e, 1)
  {
    var s := Next(Initial(), Call(true, true));
    assert [Call(true, true)][1..] == [];
    assert s.pending == {1} && s.promises == map[1 := Rejected(SendThrew)];
  }

  // ---------------------------------------------------------------- why a promise is what it is

  /** A promise ends this way, unless it was settled before; no other promise changes. */
  ghost predicate EndsAs(before: map<nat, Outcome>, after: map<nat, Outcome>, id: nat, outcome: Outcome)
  {
    && id in before && after.Keys == before.Keys
    && after[id] == (if before[id].Unsettled? then outcome else before[id])
    && forall j :: j in before && j != id ==> after[j] == before[j]
  }

  lemma SettleEnds(promises: map<nat, Outcome>, id: nat, outcome: Outcome)
    requires id in promises
    ensures EndsAs(promises, Settle(promises, id, outcome), id, outcome)
  {
  }

  /** The same for several. */
  ghost predicate AllEndAs(before: map<nat, Outcome>, after: map<nat, Outcome>, ids: set<nat>, outcome: Outcome)
  {
    && after.Keys == before.Keys
    && forall j :: j in before ==> after[j] == if j in ids && before[j].Unsettled? then outcome else before[j]
  }

  lemma AllEnd(promises: map<nat, Outcome>, ids: set<nat>, outcome: Outcome)
    ensures AllEndAs(promises, SettleAll(promises, ids, outcome), ids, outcome)
  {
  }

  /** What a step can settle a promise with. */
  ghost predicate CausedBy(step: Step, id: nat, outcome: Outcome)
  {
    match outcome
    case Unsettled => step == Call(true, false)
    case Resolved(message) => step == Receive(message) && message.Parsed? && message.id == Some(Decimal(id)) && message.error.None?
    case Rejected(Remote(e)) =>
      step.Receive? && step.message.Parsed? && step.message.id == Some(Decimal(id)) && step.message.error == Some(e)
    case Rejected(TimedOut) => step == Timeout(id)
    case Rejected(ConnectionClosed) => step == Close
    case Rejected(ClientStopped) => step == Stop
    case Rejected(SendThrew) => step == Call(true, true)
  }

  lemma ChangeIsCaused(s: State, step: Step, id: nat)
    requires WellFormed(s) && Enabled(s, step) && id in Next(s, step).promises
    requires id !in s.promises || s.promises[id] != Next(s, step).promises[id]
    ensures CausedBy(step, id, Next(s, step).promises[id])
    ensures id in s.promises ==> s.promises[id].Unsettled?
  {
    hide Decimal;
  }

  /** Over any run, what became of a promise was caused by a step of that run: it resolved with a frame that
      carried its id and no error, failed remotely with a frame that carried its id and that error, timed out
      by its own timer, and so on. */
  lemma {:induction false} OutcomesAreCaused(s: State, run: seq<Step>, id: nat)
    requires WellFormed(s) && Valid(s, run) && id in After(s, run).promises
    requires id !in s.promises || s.promises[id] != After(s, run).promises[id]
    ensures exists i :: 0 <= i < |run| && CausedBy(run[i], id, After(s, run).promises[id])
    decreases |run|
  {
    if run != [] {
      var t, e := Next(s, run[0]), After(s, run);
      hide Next, Enabled, CausedBy;
      if id in t.promises && t.promises[id] == e.promises[id] {
        ChangeIsCaused(s, run[0], id);
      } else {
        OutcomesAreCaused(t, run[1..], id);
        var i :| 0 <= i < |run[1..]| && CausedBy(run[1..][i], id, e.promises[id]);
        assert run[i + 1] == run[1..][i];
      }
    }
  }

  lemma SettleOneMore(promises: map<nat, Outcome>, done: set<nat>, k: nat, outcome: Outcome)
    requires k in promises && !outcome.Unsettled?
    ensures Settle(SettleAll(promises, done, outcome), k, outcome) == SettleAll(promises, done + {k}, outcome)
  {
  }

  lemma NoneSettled(promises: map<nat, Outcome>, outcome: Outcome)
    ensures SettleAll(promises, {}, outcome) == promises
  {
  }

  /** The ids of some of the requests. */
  function IdsOf(pending: map<string, nat>, texts: set<string>): set<nat>
  {
    set text | text in texts && text in pending :: pending[text]
  }

  lemma IdsGrow(pending: map<string, nat>, texts: set<string>, text: string)
    requires text in texts && text in pending
    ensures IdsOf(pending, texts) == IdsOf(pending, texts - {text}) + {pending[text]}
  {
  }

  /** The loop of failAllPending: every pending timer is cleared and every pending promise rejected. */
  method RejectEach(pending: map<string, nat>, promises: map<nat, Outcome>, timers: set<string>, why: Reason)
    returns (settled: map<nat, Outcome>, running: set<string>)
    requires forall text :: text in pending ==> pending[text] in promises
    ensures settled == SettleAll(promises, IdsOf(pending, pending.Keys), Rejected(why))
    ensures running == timers - pending.Keys
  {
    hide Settle, SettleAll, IdsOf;
    NoneSettled(promises, Rejected(why));
    settled, running := promises, timers;
    var left := pending.Keys;
    assert pending.Keys - left == {} && IdsOf(pending, {}) == {} by { NoIds(pending); }
    while left != {}
      invariant left <= pending.Keys
      invariant running == timers - (pending.Keys - left)
      invariant settled == SettleAll(promises, IdsOf(pending, pending.Keys - left), Rejected(why))
      invariant settled.Keys == promises.Keys
      decreases |left|
    {
      var text :| text in left;
      assert pending.Keys - (left - {text}) - {text} == pending.Keys - left;
      IdsGrow(pending, pending.Keys - (left - {text}), text);
      SettleOneMore(promises, IdsOf(pending, pending.Keys - left), pending[text], Rejected(why));
      SettleKeys(settled, pending[text], Rejected(why));
      running := running - {text};
      settled := Settle(settled, pending[text], Rejected(why));
      left := left - {text};
    }
    assert pending.Keys - left == pending.Keys;
  }

  lemma NoIds(pending: map<string, nat>)
    ensures IdsOf(pending, {}) == {}
  {
  }

  lemma SettleKeys(promises: map<nat, Outcome>, id: nat, outcome: Outcome)
    requires id in promises
    ensures Settle(promises, id, outcome).Keys == promises.Keys
  {
  }

  lemma AllFailed(s: State, why: Reason)
    requires Correlated(s)
    ensures Correlated(s.(pending := {}, promises := SettleAll(s.promises, s.pending, Rejected(why))))
  {
  }

  /** The map from request ids, as text, to the pending promises. */
  ghost predicate ByText(pending: map<string, nat>, ids: set<nat>)
  {
    && (forall text :: text in pending ==> pending[text] in ids && text == Decimal(pending[text]))
    && (forall k :: k in ids ==> Decimal(k) in pending && pending[Decimal(k)] == k)
  }

  lemma OwnText(ids: set<nat>, id: nat)
    ensures forall k :: k in ids && k != id ==> Decimal(k) != Decimal(id)
  {
    forall k | k in ids && k != id
      ensures Decimal(k) != Decimal(id)
    {
      if Decimal(k) == Decimal(id) { DecimalInjective(k, id); }
    }
  }

  lemma TextRemoved(pending: map<string, nat>, ids: set<nat>, id: nat)
    requires ByText(pending, ids) && id in ids
    ensures ByText(pending - {Decimal(id)}, ids - {id})
  {
    OwnText(ids, id);
    hide Decimal;
  }

  lemma TextAdded(pending: map<string, nat>, ids: set<nat>, id: nat)
    requires ByText(pending, ids) && id !in ids
    ensures Decimal(id) !in pending && ByText(pending[Decimal(id) := id], ids + {id})
  {
    OwnText(ids, id);
    hide Decimal;
  }

  lemma TextFound(pending: map<string, nat>, ids: set<nat>, id: nat)
    requires ByText(pending, ids) && Decimal(id) in pending
    ensures id in ids && pending[Decimal(id)] == id
  {
    DecimalInjective(id, pending[Decimal(id)]);
    hide Decimal;
  }

  /** The request a frame is for, as the map tells it. */
  lemma Addressed(pending: map<string, nat>, ids: set<nat>, message: Message)
    requires ByText(pending, ids) && !message.NotJson? && message.id.Some? && message.id.value in pending
    ensures var k := pending[message.id.value]; k in ids && Answers(message, k) && message.id.value == Decimal(k)
  {
  }

  /** A step that settles one request. */
  lemma SettlesOne(s: State, step: Step, id: nat, outcome: Outcome)
    requires Correlated(s) && id in s.pending
    requires (step == Timeout(id) && outcome == Rejected(TimedOut)) ||
             (step.Receive? && Addressee(s, step.message) == Some(id) && outcome == AnswerOf(step.message))
    ensures Correlated(Next(s, step))
    ensures Next(s, step).nextId == s.nextId && Next(s, step).pending == s.pending - {id}
    ensures Next(s, step).promises == Settle(s.promises, id, outcome)
  {
    CorrelatedKept(s, step);
    hide Correlated, Addressee, AnswerOf;
  }

  lemma IssuesOne(s: State, throws: bool)
    requires Correlated(s)
    ensures var t := Next(s, Step.Call(true, throws));
            && Correlated(t) && t.nextId == s.nextId + 1 && t.pending == s.pending + {s.nextId}
            && t.promises == s.promises[s.nextId := if throws then Rejected(SendThrew) else Unsettled]
  {
    CorrelatedKept(s, Step.Call(true, throws));
    hide Correlated;
  }

  // ---------------------------------------------------------------- src/downloader/aria2.ts

  class Aria2Client {
    var hasSocket: bool
    var connected: bool
    var closed: bool
    var reconnectTimer: bool
    var nextId: nat
    var pending: map<string, nat>  // request id, as text, to its promise
    var timers: set<string>        // running request timers
    var promises: map<nat, Outcome>
    ghost var model: State

    ghost predicate Valid()
      reads this
    {
      && Correlated(model)
      && nextId == model.nextId && promises == model.promises
      && timers == pending.Keys
      && ByText(pending, model.pending)
    }

    constructor ()
      ensures Valid() && model == Initial() && !hasSocket && !connected
    {
      hasSocket, connected, closed, reconnectTimer := false, false, false, false;
      nextId, pending, timers, promises := 1, map[], {}, map[];
      model := Initial();
    }

    method Start()
      requires Valid()
      modifies `hasSocket, `closed, `reconnectTimer
      ensures Valid() && hasSocket && !closed && reconnectTimer
    {
      closed := false;
      hasSocket := true;
      if !reconnectTimer { reconnectTimer := true; }
    }

    /** setInterval: a new socket replaces the one that is not connected, whose events still arrive. */
    method ReconnectTick()
      requires Valid() && reconnectTimer
      modifies `hasSocket
      ensures Valid() && hasSocket == (old(hasSocket) || (!connected && !closed))
    {
      if !connected && !closed { hasSocket := true; }
    }

    method OnOpen()
      requires Valid()
      modifies `connected
      ensures Valid() && connected
    {
      connected := true;
    }

    method FailAllPending(why: Reason)
      requires Valid()
      modifies `pending, `timers, `promises, `model
      ensures Valid() && pending == map[] && timers == {}
      ensures model == old(model).(pending := {}, promises := SettleAll(old(model).promises, old(model).pending, Rejected(why)))
      ensures AllEndAs(old(promises), promises, old(pending).Values, Rejected(why))
    {
      AllEnd(promises, model.pending, Rejected(why));
      assert pending.Values == model.pending;
      AllFailed(model, why);
      assert IdsOf(pending, pending.Keys) == model.pending;
      hide Correlated, SettleAll, IdsOf, AllEndAs;
      promises, timers := RejectEach(pending, promises, timers, why);
      pending := map[];
      model := model.(pending := {}, promises := promises);
    }

    method OnClose()
      requires Valid()
      modifies this
      ensures Valid() && !connected && model == Next(old(model), Close)
      ensures pending == map[] && timers == {}
      ensures AllEndAs(old(promises), promises, old(pending).Values, Rejected(ConnectionClosed))
    {
      connected := false;
      FailAllPending(ConnectionClosed);
    }

    method StopClient()
      requires Valid()
      modifies this
      ensures Valid() && closed && !connected && !hasSocket && !reconnectTimer && model == Next(old(model), Stop)
      ensures pending == map[] && timers == {}
      ensures AllEndAs(old(promises), promises, old(pending).Values, Rejected(ClientStopped))
    {
      closed := true;
      reconnectTimer := false;
      hasSocket := false;
      connected := false;
      FailAllPending(ClientStopped);
    }

    /** A frame arrives; the answer says which request it settled. */
    method HandleMessage(payload: Message) returns (answered: Option<nat>)
      requires Valid()
      modifies this
      ensures Valid() && model == Next(old(model), Receive(payload)) && answered == Addressee(old(model), payload)
      // it answers the pending request of its id; the request fails with the frame's error, or resolves if there is none
      ensures answered.None? <==> payload.NotJson? || payload.id.None? || payload.id.value !in old(pending)
      ensures answered.None? ==> promises == old(promises)
      ensures answered.Some? ==>
              && payload.id == Some(Decimal(answered.value)) && answered.value in old(promises)
              && EndsAs(old(promises), promises, answered.value,
                        if payload.error.Some? then Rejected(Remote(payload.error.value)) else Resolved(payload))
    {
      AtMostOne(model.pending, payload);
      hide Decimal, Settle, SettleAll;
      if payload.NotJson? { return None; }
      if payload.hasMethod && payload.id.None? { return None; }
      if payload.id.None? || payload.id.value !in pending {
        assert forall k :: k in model.pending ==> !Answers(payload, k);
        return None;
      }
      var id := payload.id.value;
      var k := pending[id];
      Addressed(pending, model.pending, payload);
      SettlesOne(model, Receive(payload), k, AnswerOf(payload));
      TextRemoved(pending, model.pending, k);
      assert k in promises && WellFormed(model);
      SettleEnds(promises, k, AnswerOf(payload));
      assert payload.id == Some(Decimal(k));
      hide Next, Correlated, WellFormed, ByText, Answers, EndsAs;
      pending := pending - {id};
      timers := timers - {id};
      promises := Settle(promises, k, AnswerOf(payload));
      model := Next(model, Receive(payload));
      return Some(k);
    }

    /** A request timer fires. */
    method OnTimeout(k: nat)
      requires Valid() && Decimal(k) in timers
      modifies this
      ensures Valid() && k in old(model).pending && model == Next(old(model), Timeout(k))
      ensures EndsAs(old(promises), promises, k, Rejected(TimedOut))
    {
      var id := Decimal(k);
      TextFound(pending, model.pending, k);
      SettlesOne(model, Timeout(k), k, Rejected(TimedOut));
      TextRemoved(pending, model.pending, k);
      SettleEnds(promises, k, Rejected(TimedOut));
      hide Next, Decimal, Correlated, Settle, ByText, EndsAs;
      pending := pending - {id};
      timers := timers - {id};
      promises := Settle(promises, k, Rejected(TimedOut));
      model := Next(model, Timeout(k));
    }

    /** call: no request at all without an open socket. */
    method Call(readyStateOpen: bool, sendThrows: bool) returns (id: Option<string>)
      requires Valid()
      modifies this
      ensures Valid() && model == Next(old(model), Step.Call(hasSocket && readyStateOpen, sendThrows))
      ensures hasSocket == old(hasSocket)
      ensures id == if hasSocket && readyStateOpen then Some(Decimal(old(nextId))) else None
      ensures id.Some? ==> id.value !in old(pending) && id.value in pending
      ensures promises == if id.Some? then old(promises)[old(nextId) := if sendThrows then Rejected(SendThrew) else Unsettled] else old(promises)
    {
      if !hasSocket || !readyStateOpen { return None; }
      IssuesOne(model, sendThrows);
      var k := nextId;
      nextId := nextId + 1;
      TextAdded(pending, model.pending, k);
      hide Next, Decimal, Correlated, ByText;
      timers := timers + {Decimal(k)};
      pending := pending[Decimal(k) := k];
      promises := promises[k := if sendThrows then Rejected(SendThrew) else Unsettled];
      model := Next(model, Step.Call(true, sendThrows));
      return Some(Decimal(k));
    }
  }
}
