/** The page side of the verse cache: `getVerseInfoById` hands out one promise per
    call but keeps a single resolver slot, the worker's replies resolve whatever the
    slot holds, and a five-second timer per call rejects. Timers, worker replies and
    calls are explicit events of a sequential state machine. The timer callback as
    written tests whether ANY resolver is pending; `TimeoutAsWritten` models it and
    `ScenarioNeverSettles` shows a call that can then never settle. `Timeout` is the
    evidently intended callback (reject the call's own promise if it is still pending,
    clear the slot only when it is its own), and the `Client` class uses it. */
module VerseClient {
  import opened Wrappers
  import opened Text
  import opened DataWorker

  /** The state of one call's promise (a promise settles at most once). */
  datatype Settlement = Pending | Resolved(result: Option<Record>) | Rejected(reason: string)

  datatype Call = Call(verseId: int, state: Settlement)

  /** A message the page posts to the worker. */
  datatype ToWorker = InitCommand | QueryCommand(verseId: int)

  /** `worker` set or not, the resolver slot (the index of the call whose `resolve` it
      holds), every call so far, the calls whose timers are still to fire, and the
      messages posted to the worker. */
  datatype State = State(hasWorker: bool, slot: Option<nat>, calls: seq<Call>,
                         armed: set<nat>, posted: seq<ToWorker>)

  const NoWorker: string := "Web Worker is not initialized yet."

  function TimeoutText(verseId: int): string {
    "Timeout waiting for verse data for ID: " + IntToString(verseId)
  }

  /** Indices in the state refer to calls that exist. */
  predicate Wf(s: State) {
    && (s.slot.Some? ==> s.slot.value < |s.calls|)
    && (forall k :: k in s.armed ==> k < |s.calls|)
  }

  /** Before the page has loaded: no worker, nothing pending. */
  function Initial(): (s: State)
    ensures Wf(s)
  {
    State(false, None, [], {}, [])
  }

  /** `DOMContentLoaded`: where `Worker` exists, create it and post `init`. */
  function Start(s: State, supported: bool): (r: State)
    ensures Wf(s) ==> Wf(r)
    ensures supported ==> r.hasWorker && r.posted == s.posted + [InitCommand]
    ensures !supported ==> r == s
  {
    if supported then s.(hasWorker := true, posted := s.posted + [InitCommand]) else s
  }

  /** `getVerseInfoById(verseId)`: a new call; without a worker it is rejected at once,
      otherwise it takes the slot, posts the query and arms its timer. */
  function Request(s: State, verseId: int): (r: State)
    ensures Wf(s) ==> Wf(r)
    ensures |r.calls| == |s.calls| + 1 && r.calls[..|s.calls|] == s.calls
    ensures !s.hasWorker ==> r == s.(calls := s.calls + [Call(verseId, Rejected(NoWorker))])
    ensures s.hasWorker ==>
              && r.slot == Some(|s.calls|) && r.calls[|s.calls|] == Call(verseId, Pending)
              && r.armed == s.armed + {|s.calls|} && r.posted == s.posted + [QueryCommand(verseId)]
              && r.hasWorker
  {
    var k := |s.calls|;
    if !s.hasWorker then s.(calls := s.calls + [Call(verseId, Rejected(NoWorker))])
    else State(true, Some(k), s.calls + [Call(verseId, Pending)], s.armed + {k},
               s.posted + [QueryCommand(verseId)])
  }

  /** Settling call k: only a pending promise changes. */
  function Settle(calls: seq<Call>, k: nat, outcome: Settlement): (r: seq<Call>)
    requires k < |calls|
    ensures |r| == |calls|
    ensures forall j :: 0 <= j < |calls| && j != k ==> r[j] == calls[j]
    ensures r[k] == if calls[k].state.Pending? then calls[k].(state := outcome) else calls[k]
  {
    if calls[k].state.Pending? then calls[k := calls[k].(state := outcome)] else calls
  }

  /** The worker's `onmessage` on the page: a `queryResult` resolves the slot's promise
      and clears the slot; with the slot empty it is dropped, and other statuses are
      ignored. */
  function Deliver(s: State, m: Message): (r: State)
    requires Wf(s)
    ensures Wf(r)
  {
    if m.QueryResult? && s.slot.Some? then
      s.(calls := Settle(s.calls, s.slot.value, Resolved(m.result)), slot := None)
    else s
  }

  /** Call k's timer as written: if the slot holds any resolver, reject call k and
      clear the slot, whoever owns it. */
  function TimeoutAsWritten(s: State, k: nat): (r: State)
    requires Wf(s) && k in s.armed
    ensures Wf(r)
  {
    var fired := s.(armed := s.armed - {k});
    if s.slot.Some? then
      fired.(calls := Settle(s.calls, k, Rejected(TimeoutText(s.calls[k].verseId))), slot := None)
    else fired
  }

  /** Call k's timer as evidently intended: reject call k if it is still pending, and
      clear the slot only when call k holds it. */
  function Timeout(s: State, k: nat): (r: State)
    requires Wf(s) && k in s.armed
    ensures Wf(r)
  {
    s.(armed := s.armed - {k},
       calls := Settle(s.calls, k, Rejected(TimeoutText(s.calls[k].verseId))),
       slot := if s.slot == Some(k) then None else s.slot)
  }

  /** The events of the page, in the order they happen. */
  datatype Event = DomReady(supported: bool) | Lookup(verseId: int) | Reply(m: Message) | Fire(k: nat)

  /** One event under either timer callback; a timer that is not armed does not fire. */
  function Step(s: State, e: Event, asWritten: bool): (r: State)
    requires Wf(s)
    ensures Wf(r)
  {
    match e
    case DomReady(supported) => Start(s, supported)
    case Lookup(verseId) => Request(s, verseId)
    case Reply(m) => Deliver(s, m)
    case Fire(k) =>
      if k !in s.armed then s
      else if asWritten then TimeoutAsWritten(s, k) else Timeout(s, k)
  }

  function Run(s: State, events: seq<Event>, asWritten: bool): (r: State)
    requires Wf(s)
    ensures Wf(r)
    decreases |events|
  {
    if events == [] then s else Run(Step(s, events[0], asWritten), events[1..], asWritten)
  }

  // ---------------------------------------------------------------------------
  // What one call does

  /** Worker messages other than `queryResult` change nothing, and a `queryResult`
      with the slot empty is dropped. */
  lemma DeliverIgnores(s: State, m: Message)
    requires Wf(s) && (!m.QueryResult? || s.slot.None?)
    ensures Deliver(s, m) == s
  {
  }

  /** A `queryResult` with the slot set settles exactly the slot's call (if it is still
      pending) with the result, and empties the slot. */
  lemma DeliverResolvesSlot(s: State, m: Message)
    requires Wf(s) && m.QueryResult? && s.slot.Some? && s.calls[s.slot.value].state.Pending?
    ensures var r := Deliver(s, m);
            && r.slot.None? && r.calls[s.slot.value] == s.calls[s.slot.value].(state := Resolved(m.result))
            && forall j :: 0 <= j < |s.calls| && j != s.slot.value ==> r.calls[j] == s.calls[j]
  {
  }

  // ---------------------------------------------------------------------------
  // The defect of the timer as written

  /** Call b can never settle: it is pending, its timer has fired, and the slot is not
      its. */
  predicate Stuck(s: State, b: nat) {
    b < |s.calls| && s.calls[b].state.Pending? && b !in s.armed && s.slot != Some(b)
  }

  /** Under the timer as written a stuck call stays stuck whatever happens next. */
  lemma StuckStep(s: State, e: Event, b: nat)
    requires Wf(s) && Stuck(s, b)
    ensures Stuck(Step(s, e, true), b)
  {
  }

  lemma {:induction false} StuckForever(s: State, events: seq<Event>, b: nat)
    requires Wf(s) && Stuck(s, b)
    ensures Stuck(Run(s, events, true), b)
    decreases |events|
  {
    if events != [] {
      StuckStep(s, events[0], b);
      StuckForever(Step(s, events[0], true), events[1..], b);
    }
  }

  /** The scenario's events: call A (say, the x lookup of a click) is answered, call B
      (the y lookup) is issued before A's timer fires, B's answer comes after it, and
      then B's own timer fires. */
  function Scenario(a: int, b: int, ra: Option<Record>, rb: Option<Record>): seq<Event> {
    [DomReady(true), Lookup(a), Reply(QueryResult(ra)), Lookup(b), Fire(0),
     Reply(QueryResult(rb)), Fire(1)]
  }

  /** In the scenario, A's timer clears B's slot, B's answer is dropped and B's own
      timer finds the slot empty: A is resolved, B stays pending and is stuck, so B
      never settles whatever events follow. */
  lemma ScenarioNeverSettles(a: int, b: int, ra: Option<Record>, rb: Option<Record>, later: seq<Event>)
    ensures var s := Run(Initial(), Scenario(a, b, ra, rb), true);
            && |s.calls| == 2
            && s.calls[0] == Call(a, Resolved(ra)) && s.calls[1] == Call(b, Pending)
            && Stuck(s, 1)
            && Stuck(Run(s, later, true), 1)
  {
    var s6 := ScenarioTrace(a, b, ra, rb);
    ScenarioFacts(a, b, ra, rb);
    StuckForever(s6, later, 1);
  }

  function ScenarioState(a: int, b: int, ra: Option<Record>, rb: Option<Record>): State {
    var s0 := Start(Initial(), true);
    var s1 := Request(s0, a);
    var s2 := Deliver(s1, QueryResult(ra));
    var s3 := Request(s2, b);
    var s4 := TimeoutAsWritten(s3, 0);
    var s5 := Deliver(s4, QueryResult(rb));
    TimeoutAsWritten(s5, 1)
  }

  lemma ScenarioFacts(a: int, b: int, ra: Option<Record>, rb: Option<Record>)
    ensures var s := ScenarioState(a, b, ra, rb);
            && |s.calls| == 2
            && s.calls[0] == Call(a, Resolved(ra)) && s.calls[1] == Call(b, Pending)
            && Stuck(s, 1)
  {
    var s0 := Start(Initial(), true);
    var s1 := Request(s0, a);
    assert s1.slot == Some(0) && s1.armed == {0} && s1.calls == [Call(a, Pending)];
    var s2 := Deliver(s1, QueryResult(ra));
    assert s2.slot == None && s2.calls == [Call(a, Resolved(ra))];
    var s3 := Request(s2, b);
    assert s3.slot == Some(1) && s3.armed == {0, 1} && s3.calls == [Call(a, Resolved(ra)), Call(b, Pending)];
    var s4 := TimeoutAsWritten(s3, 0);
    assert s4.slot.None? && s4.armed == {1} && s4.calls == s3.calls;
    var s5 := Deliver(s4, QueryResult(rb));
    assert s5 == s4;
    var s6 := TimeoutAsWritten(s5, 1);
    assert s6.calls == s3.calls && s6.armed == {} && s6.slot.None?;
  }

  lemma ScenarioTrace(a: int, b: int, ra: Option<Record>, rb: Option<Record>) returns (s6: State)
    ensures s6 == ScenarioState(a, b, ra, rb) && Wf(s6)
    ensures Run(Initial(), Scenario(a, b, ra, rb), true) == s6
  {
    var events := Scenario(a, b, ra, rb);
    RunSeven(Initial(), events);
    var s0 := Step(Initial(), DomReady(true), true);
    var s1 := Step(s0, Lookup(a), true);
    var s2 := Step(s1, Reply(QueryResult(ra)), true);
    var s3 := Step(s2, Lookup(b), true);
    assert 0 in s3.armed;
    var s4 := Step(s3, Fire(0), true);
    var s5 := Step(s4, Reply(QueryResult(rb)), true);
    assert 1 in s5.armed;
    s6 := Step(s5, Fire(1), true);
  }

  /** Seven events run one after the other. */
  lemma RunSeven(s: State, e: seq<Event>)
    requires Wf(s) && |e| == 7
    ensures Run(s, e, true)
            == Step(Step(Step(Step(Step(Step(Step(s, e[0], true), e[1], true), e[2], true),
                                   e[3], true), e[4], true), e[5], true), e[6], true)
  {
    assert e[0..] == e;
    var t1 := Step(s, e[0], true);
    RunAt(s, e, 0);
    var t2 := Step(t1, e[1], true);
    RunAt(t1, e, 1);
    var t3 := Step(t2, e[2], true);
    RunAt(t2, e, 2);
    var t4 := Step(t3, e[3], true);
    RunAt(t3, e, 3);
    var t5 := Step(t4, e[4], true);
    RunAt(t4, e, 4);
    var t6 := Step(t5, e[5], true);
    RunAt(t5, e, 5);
    RunAt(t6, e, 6);
    assert e[7..] == [];
  }

  /** Running from position k takes event k first. */
  lemma RunAt(t: State, e: seq<Event>, k: nat)
    requires Wf(t) && k < |e|
    ensures Run(t, e[k..], true) == Run(Step(t, e[k], true), e[k + 1..], true)
  {
    assert e[k..][0] == e[k] && e[k..][1..] == e[k + 1..];
  }

  // ---------------------------------------------------------------------------
  // The intended timer

  /** Every pending call has its timer armed, and the slot, when set, holds a pending
      call. */
  predicate Live(s: State) {
    && Wf(s)
    && (forall k :: 0 <= k < |s.calls| && s.calls[k].state.Pending? ==> k in s.armed)
    && (s.slot.Some? ==> s.calls[s.slot.value].state.Pending?)
  }

  lemma LiveStep(s: State, e: Event)
    requires Live(s)
    ensures Live(Step(s, e, false))
  {
  }

  lemma {:induction false} LiveRun(s: State, events: seq<Event>)
    requires Live(s)
    ensures Live(Run(s, events, false))
    decreases |events|
  {
    if events != [] {
      LiveStep(s, events[0]);
      LiveRun(Step(s, events[0], false), events[1..]);
    }
  }

  /** With the intended timer no call is ever stuck: in every reachable state each
      pending call still has its timer to come, and when it fires the call is settled,
      so every call settles. */
  lemma EveryCallSettles(events: seq<Event>, k: nat)
    ensures var s := Run(Initial(), events, false);
            && Live(s)
            && (k < |s.calls| && s.calls[k].state.Pending? ==>
                  k in s.armed && !Step(s, Fire(k), false).calls[k].state.Pending?)
  {
    LiveRun(Initial(), events);
  }

  /** The rejection names the verse id of the call that timed out. */
  lemma TimeoutNamesId(s: State, k: nat)
    requires Wf(s) && k in s.armed && s.calls[k].state.Pending?
    ensures Timeout(s, k).calls[k].state == Rejected(TimeoutText(s.calls[k].verseId))
  {
  }

  /** The page's verse client with the intended timer. */
  class Client {
    var hasWorker: bool
    var slot: Option<nat>           // versePromiseResolver, as the index of its call
    var calls: seq<Call>
    var armed: set<nat>
    var posted: seq<ToWorker>

    function Snapshot(): State
      reads this
    {
      State(hasWorker, slot, calls, armed, posted)
    }

    ghost predicate Valid()
      reads this
    {
      Live(Snapshot())
    }

    constructor ()
      ensures Valid() && Snapshot() == Initial()
    {
      hasWorker := false;
      slot := None;
      calls := [];
      armed := {};
      posted := [];
    }

    /** The `DOMContentLoaded` listener. */
    method OnDomReady(supported: bool)
      requires Valid()
      modifies this
      ensures Valid() && Snapshot() == Start(old(Snapshot()), supported)
    {
      if supported {
        hasWorker := true;
        posted := posted + [InitCommand];
      }
    }

    /** `getVerseInfoById`: the index of the new call's promise. */
    method GetVerseInfoById(verseId: int) returns (k: nat)
      requires Valid()
      modifies this
      ensures Valid() && Snapshot() == Request(old(Snapshot()), verseId)
      ensures k == old(|calls|)
    {
      k := |calls|;
      if !hasWorker {
        calls := calls + [Call(verseId, Rejected(NoWorker))];
        return;
      }
      slot := Some(k);
      calls := calls + [Call(verseId, Pending)];
      posted := posted + [QueryCommand(verseId)];
      armed := armed + {k};
    }

    /** `worker.onmessage`. */
    method OnWorkerMessage(m: Message)
      requires Valid()
      modifies this
      ensures Valid() && Snapshot() == Deliver(old(Snapshot()), m)
    {
      if m.QueryResult? && slot.Some? {
        calls := Settle(calls, slot.value, Resolved(m.result));
        slot := None;
      }
    }

    /** The timer of call k fires. */
    method OnTimeout(k: nat)
      requires Valid() && k in armed
      modifies this
      ensures Valid() && Snapshot() == Timeout(old(Snapshot()), k)
    {
      LiveStep(Snapshot(), Fire(k));
      armed := armed - {k};
      calls := Settle(calls, k, Rejected(TimeoutText(calls[k].verseId)));
      if slot == Some(k) {
        slot := None;
      }
    }
  }
}
