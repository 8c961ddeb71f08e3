/** Pending requests of the ROS2 service bridge: stale ones are evicted lazily,
    guarded by the time of the oldest insertion. Times come from a monotone
    clock, in nanoseconds. */
module ServiceServer {
  import opened Common

  type RequestId = string
  type RmwId = nat

  const MAX_PENDING_REQUESTS: nat := 64
  const SERVICE_RESPONSE_TIMEOUT: nat := 30_000_000_000

  datatype Waiting = Waiting(rmw: RmwId, since: nat)

  type Requests = map<RequestId, Waiting>

  datatype State = State(pending: Requests, oldestInsert: Option<nat>)

  datatype Event =
    | Request(id: RequestId, rmw: RmwId, now: nat)
    | Response(id: RequestId)

  function Fresh(pending: Requests, now: nat): Requests {
    map id | id in pending && now < pending[id].since + SERVICE_RESPONSE_TIMEOUT :: pending[id]
  }

  ghost predicate IsOldest(pending: Requests, oldest: Option<nat>) {
    match oldest
    case None => pending == map[]
    case Some(t) =>
      && (exists id :: id in pending && pending[id].since == t)
      && (forall id :: id in pending ==> t <= pending[id].since)
  }

  lemma {:induction false} OldestExists(pending: Requests) returns (oldest: Option<nat>)
    ensures IsOldest(pending, oldest)
    decreases pending.Keys
  {
    if pending == map[] {
      oldest := None;
    } else {
      var id :| id in pending;
      var others := pending - {id};
      var rest := OldestExists(others);
      oldest := if rest.None? || pending[id].since < rest.value then Some(pending[id].since) else rest;
      assert forall e :: e in pending ==> e == id || (e in others && others[e] == pending[e]);
      if oldest == rest {
        var e :| e in others && others[e].since == rest.value;
        assert e in pending && pending[e].since == oldest.value;
      }
    }
  }

  ghost function Oldest(pending: Requests): (oldest: Option<nat>)
    ensures IsOldest(pending, oldest)
  {
    assert exists o :: IsOldest(pending, o) by { var o := OldestExists(pending); }
    var o :| IsOldest(pending, o); o
  }

  ghost function Evicted(s: State, now: nat): State {
    if s.oldestInsert.Some? && now >= s.oldestInsert.value + SERVICE_RESPONSE_TIMEOUT
    then State(Fresh(s.pending, now), Oldest(Fresh(s.pending, now)))
    else s
  }

  function Admitted(s: State, id: RequestId, rmw: RmwId, now: nat): State {
    if |s.pending| >= MAX_PENDING_REQUESTS then s
    else State(s.pending[id := Waiting(rmw, now)], if s.oldestInsert.None? then Some(now) else s.oldestInsert)
  }

  ghost function Do(s: State, e: Event): State {
    match e
    case Request(id, rmw, now) => Admitted(Evicted(s, now), id, rmw, now)
    case Response(id) => s.(pending := s.pending - {id})
  }

  /** The request a response is sent to, if it is still pending. */
  function Routed(pending: Requests, id: RequestId): Option<RmwId> {
    if id in pending then Some(pending[id].rmw) else None
  }

  /** The reference: look at every pending request on every arrival. */
  function EagerDo(pending: Requests, e: Event): Requests {
    match e
    case Request(id, rmw, now) =>
      var kept := Fresh(pending, now);
      if |kept| >= MAX_PENDING_REQUESTS then kept else kept[id := Waiting(rmw, now)]
    case Response(id) => pending - {id}
  }

  class Server {
    var pendingRequests: Requests
    var oldestInsert: Option<nat>

    function Now(): State reads this { State(pendingRequests, oldestInsert) }

    constructor ()
      ensures Now() == State(map[], None)
    {
      pendingRequests, oldestInsert := map[], None;
    }

    /** The smallest insertion time, in whatever order the map is walked. */
    method ScanOldest() returns (oldest: Option<nat>)
      ensures oldest == Oldest(pendingRequests)
    {
      oldest := None;
      var rest := pendingRequests.Keys;
      while rest != {}
        invariant rest <= pendingRequests.Keys
        invariant oldest.None? ==> rest == pendingRequests.Keys
        invariant oldest.Some? ==> exists id :: id in pendingRequests && pendingRequests[id].since == oldest.value
        invariant oldest.Some? ==> forall id :: id in pendingRequests && id !in rest ==> oldest.value <= pendingRequests[id].since
      {
        var id :| id in rest;
        if oldest.None? || pendingRequests[id].since < oldest.value {
          oldest := Some(pendingRequests[id].since);
        }
        rest := rest - {id};
      }
      OldestUnique(pendingRequests, oldest, Oldest(pendingRequests));
    }

    method HandleRequest(id: RequestId, rmw: RmwId, now: nat)
      modifies this
      ensures Now() == Do(old(Now()), Request(id, rmw, now))
    {
      if oldestInsert.Some? && now >= oldestInsert.value + SERVICE_RESPONSE_TIMEOUT {
        pendingRequests := Fresh(pendingRequests, now);
        oldestInsert := ScanOldest();
      }
      if |pendingRequests| >= MAX_PENDING_REQUESTS {
        return;
      }
      if oldestInsert.None? {
        oldestInsert := Some(now);
      }
      pendingRequests := pendingRequests[id := Waiting(rmw, now)];
    }

    method HandleResponse(id: RequestId) returns (to: Option<RmwId>)
      modifies this
      ensures Now() == Do(old(Now()), Response(id)) && to == Routed(old(pendingRequests), id)
    {
      if id in pendingRequests {
        to := Some(pendingRequests[id].rmw);
        pendingRequests := pendingRequests - {id};
      } else {
        to := None;
      }
      assert pendingRequests == old(pendingRequests) - {id};
    }
  }

  lemma OldestUnique(pending: Requests, a: Option<nat>, b: Option<nat>)
    requires IsOldest(pending, a) && IsOldest(pending, b)
    ensures a == b
  {
  }

  // ---- Lazy eviction refines the full scan ----

  ghost predicate Monotone(events: seq<Event>) {
    forall i, j :: 0 <= i <= j < |events| && events[i].Request? && events[j].Request? ==> events[i].now <= events[j].now
  }

  ghost function Exec(events: seq<Event>): State {
    if events == [] then State(map[], None) else Do(Exec(events[..|events| - 1]), events[|events| - 1])
  }

  function EagerExec(events: seq<Event>): Requests {
    if events == [] then map[] else EagerDo(EagerExec(events[..|events| - 1]), events[|events| - 1])
  }

  /** The guard is a lower bound on every pending insertion time. */
  ghost predicate Inv(s: State) {
    && |s.pending| <= MAX_PENDING_REQUESTS
    && forall id :: id in s.pending ==> s.oldestInsert.Some? && s.oldestInsert.value <= s.pending[id].since
  }

  lemma FreshIsSmaller(pending: Requests, now: nat)
    ensures |Fresh(pending, now)| <= |pending|
  {
    SubsetSize(Fresh(pending, now).Keys, pending.Keys);
  }

  lemma {:induction false} SubsetSize(small: set<RequestId>, large: set<RequestId>)
    requires small <= large
    ensures |small| <= |large|
  {
    if small != {} {
      var x :| x in small;
      SubsetSize(small - {x}, large - {x});
    }
  }

  lemma EvictionExact(s: State, now: nat)
    requires Inv(s)
    ensures Inv(Evicted(s, now)) && Evicted(s, now).pending == Fresh(s.pending, now)
    ensures s.oldestInsert.Some? && now - s.oldestInsert.value >= 30_000_000_000 ==>
      IsOldest(Evicted(s, now).pending, Evicted(s, now).oldestInsert)
    ensures s.oldestInsert.None? || now - s.oldestInsert.value < 30_000_000_000 ==> Evicted(s, now) == s
  {
    FreshIsSmaller(s.pending, now);
    if Evicted(s, now) == s {
      assert Fresh(s.pending, now) == s.pending;
    }
  }

  lemma AdmissionKeeps(s: State, id: RequestId, rmw: RmwId, now: nat)
    requires Inv(s) && (s.oldestInsert.Some? ==> s.oldestInsert.value <= now)
    ensures Inv(Admitted(s, id, rmw, now))
  {
  }

  lemma ResponseKeeps(s: State, id: RequestId)
    requires Inv(s)
    ensures Inv(Do(s, Response(id)))
  {
  }

  lemma StepRefines(s: State, e: Event)
    requires Inv(s) && (e.Request? ==> NotAfter(s, e.now))
    ensures Inv(Do(s, e)) && Do(s, e).pending == EagerDo(s.pending, e)
  {
    match e
    case Request(id, rmw, now) =>
      EvictionExact(s, now);
      assert NotAfter(Evicted(s, now), now);
      hide Evicted, Inv;
      AdmissionKeeps(Evicted(s, now), id, rmw, now);
    case Response(id) => ResponseKeeps(s, id);
  }

  /** No recorded time lies after the last request. */
  ghost predicate NotAfter(s: State, now: nat) {
    && (forall id :: id in s.pending ==> s.pending[id].since <= now)
    && (s.oldestInsert.Some? ==> s.oldestInsert.value <= now)
  }

  lemma {:induction false} TimesInPast(events: seq<Event>, now: nat)
    requires forall i :: 0 <= i < |events| && events[i].Request? ==> events[i].now <= now
    ensures NotAfter(Exec(events), now)
  {
    if events != [] {
      var n := |events| - 1;
      assert forall i :: 0 <= i < n ==> events[..n][i] == events[i];
      TimesInPast(events[..n], now);
      if events[n].Request? {
        var s := Exec(events[..n]);
        var kept := Fresh(s.pending, events[n].now);
        assert IsOldest(kept, Oldest(kept));
      }
    }
  }

  /** For every run: the lazily evicted map is, after every event, the map the
      full scan would keep; so no expired request outlives a scan that was
      skipped. It never holds more than 64 requests. */
  lemma {:induction false} LazyRefinesEager(events: seq<Event>)
    requires Monotone(events)
    ensures Inv(Exec(events)) && Exec(events).pending == EagerExec(events)
  {
    if events != [] {
      var n := |events| - 1;
      assert forall i :: 0 <= i < n ==> events[..n][i] == events[i];
      LazyRefinesEager(events[..n]);
      if events[n].Request? {
        TimesInPast(events[..n], events[n].now);
      }
      StepRefines(Exec(events[..n]), events[n]);
    }
  }

  // ---- What is pending, told from the events ----

  /** Identifiers are random; each is used for one request. */
  ghost predicate FreshIds(events: seq<Event>) {
    forall i, j :: 0 <= i < j < |events| && events[i].Request? && events[j].Request? ==> events[i].id != events[j].id
  }

  function Unexpired(pending: Requests, now: nat): set<RequestId> {
    set id | id in pending && now - pending[id].since < 30_000_000_000
  }

  /** Event `i` is the request, and it finds fewer than 64 others waiting for
      less than 30 s. */
  ghost predicate EntersAt(events: seq<Event>, i: nat, id: RequestId, rmw: RmwId, since: nat)
    requires i < |events|
  {
    events[i] == Request(id, rmw, since) && |Unexpired(Exec(events[..i]).pending, since)| < 64
  }

  /** Neither its response nor a request 30 s later has come since. */
  ghost predicate Remains(events: seq<Event>, i: nat, id: RequestId, since: nat) {
    forall j :: i < j < |events| ==>
      events[j] != Response(id) && (events[j].Request? ==> events[j].now - since < 30_000_000_000)
  }

  ghost predicate WaitsSince(events: seq<Event>, i: nat, id: RequestId, rmw: RmwId, since: nat)
    requires i < |events|
  {
    EntersAt(events, i, id, rmw, since) && Remains(events, i, id, since)
  }

  lemma AfterEvent(s: State, e: Event, id: RequestId, w: Waiting)
    requires Inv(s) && (e.Request? ==> NotAfter(s, e.now)) && (e.Request? && e.id == id ==> id !in s.pending)
    ensures id in Do(s, e).pending && Do(s, e).pending[id] == w <==>
      || (e.Request? && e.id == id && w == Waiting(e.rmw, e.now) && |Unexpired(s.pending, e.now)| < 64)
      || (&& id in s.pending && s.pending[id] == w && e != Response(id)
          && (e.Request? ==> e.now - w.since < 30_000_000_000))
  {
    StepRefines(s, e);
    if e.Request? {
      assert Fresh(s.pending, e.now).Keys == Unexpired(s.pending, e.now);
      assert |Fresh(s.pending, e.now)| == |Fresh(s.pending, e.now).Keys|;
    }
  }

  lemma WaitsInPrefix(events: seq<Event>, i: nat, id: RequestId, rmw: RmwId, since: nat)
    requires i < |events| - 1
    ensures var n := |events| - 1;
      WaitsSince(events, i, id, rmw, since) <==>
        && WaitsSince(events[..n], i, id, rmw, since) && events[n] != Response(id)
        && (events[n].Request? ==> events[n].now - since < 30_000_000_000)
  {
    var before := events[..|events| - 1];
    assert before[..i] == events[..i];
    assert forall j :: 0 <= j < |before| ==> before[j] == events[j];
    hide Exec;
  }

  ghost predicate Waits(events: seq<Event>, id: RequestId, rmw: RmwId, since: nat) {
    exists i :: 0 <= i < |events| && WaitsSince(events, i, id, rmw, since)
  }

  /** The event neither answers the request nor comes 30 s after it. */
  predicate Spares(e: Event, id: RequestId, since: nat) {
    e != Response(id) && (e.Request? ==> e.now - since < 30_000_000_000)
  }

  lemma WaitsLast(events: seq<Event>, id: RequestId, rmw: RmwId, since: nat)
    requires events != []
    ensures var n := |events| - 1;
      Waits(events, id, rmw, since) <==>
        EntersAt(events, n, id, rmw, since) || (Waits(events[..n], id, rmw, since) && Spares(events[n], id, since))
  {
    var n := |events| - 1;
    assert WaitsSince(events, n, id, rmw, since) <==> EntersAt(events, n, id, rmw, since);
    hide WaitsSince, EntersAt;
    forall i | 0 <= i < n
      ensures WaitsSince(events, i, id, rmw, since) <==>
        WaitsSince(events[..n], i, id, rmw, since) && Spares(events[n], id, since)
    {
      WaitsInPrefix(events, i, id, rmw, since);
    }
  }

  lemma {:induction false} CameFromRequest(events: seq<Event>, id: RequestId)
    ensures id in Exec(events).pending ==> exists i :: 0 <= i < |events| && events[i].Request? && events[i].id == id
  {
    if events != [] {
      var n := |events| - 1;
      CameFromRequest(events[..n], id);
      OnlyRequestsEnter(Exec(events[..n]), events[n], id);
      assert forall i :: 0 <= i < n ==> events[..n][i] == events[i];
      hide Do;
    }
  }

  /** In every monotone run a request is pending if and only if it found room
      when it came and neither its response nor a request 30 s later has come
      since. */
  lemma {:induction false} PendingExact(events: seq<Event>, id: RequestId, rmw: RmwId, since: nat)
    requires Monotone(events) && FreshIds(events)
    ensures id in Exec(events).pending && Exec(events).pending[id] == Waiting(rmw, since) <==> Waits(events, id, rmw, since)
  {
    if events != [] {
      var n := |events| - 1;
      var before := events[..n];
      assert forall i :: 0 <= i < n ==> before[i] == events[i];
      PendingExact(before, id, rmw, since);
      LazyRefinesEager(before);
      CameFromRequest(before, id);
      if events[n].Request? {
        TimesInPast(before, events[n].now);
      }
      WaitsLast(events, id, rmw, since);
      hide Do, Inv, Unexpired, Waits, Monotone, NotAfter;
      AfterEvent(Exec(before), events[n], id, Waiting(rmw, since));
    }
  }

  lemma OnlyRequestsEnter(s: State, e: Event, id: RequestId)
    ensures id in Do(s, e).pending ==> id in s.pending || (e.Request? && e.id == id)
  {
  }

  /** A response goes to the caller whose request it answers, and to nobody when
      that request is no longer pending. */
  lemma RoutedExact(events: seq<Event>, id: RequestId, rmw: RmwId)
    requires Monotone(events) && FreshIds(events)
    ensures Routed(Exec(events).pending, id) == Some(rmw) <==> exists since :: Waits(events, id, rmw, since)
  {
    var pending := Exec(events).pending;
    hide Exec, Waits;
    if id in pending {
      PendingExact(events, id, pending[id].rmw, pending[id].since);
    }
    forall since | Waits(events, id, rmw, since) ensures id in pending && pending[id] == Waiting(rmw, since) {
      PendingExact(events, id, rmw, since);
    }
  }
}
