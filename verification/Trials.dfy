/**
 The free-trial claims of the gateway: one row per account and module, inserted when a
 free-plan subscription request arrives and deleted when the billing system answers it
 with anything but 201. Requests overlap freely; every interleaving is a sequence of
 events. The table is shared, the claim of a request is its own.
 */
module Trials {
  import opened Wrappers

  datatype Key = Key(account: string, moduleKey: string)

  /** A plan of the plans file; None for a price whose `Number` is not a number. */
  datatype Offer = Offer(id: string, moduleKey: string, price: Option<real>)

  /** The parts of a proxied request that matter here. */
  datatype Request = Request(verb: string, url: string, hasBody: bool, planName: string, accountId: string)

  function FindOffer(offers: seq<Offer>, id: string): Option<Offer> {
    if offers == [] then None else if offers[0].id == id then Some(offers[0]) else FindOffer(offers[1..], id)
  }

  /** The claim a request has to make: only a subscription to a free plan by a named account has one. */
  function ClaimOf(r: Request, offers: seq<Offer>): Option<Key> {
    if r.verb == "POST" && r.url == "/subscriptions" && r.hasBody then
      var offer := FindOffer(offers, r.planName);
      if offer.Some? && offer.value.price == Some(0.0) && r.accountId != "" then
        Some(Key(r.accountId, offer.value.moduleKey))
      else None
    else None
  }

  // ---------------------------------------------------------------- requests and events

  /** Where a request stands; `claim` is its `trialClaim`. */
  datatype Phase =
    | Blocked(wanted: Key)
    | InFlight(claim: Option<Key>)
    | Answered(status: int, claim: Option<Key>)
    | Broken(claim: Option<Key>)

  type Id = nat

  datatype State = State(rows: set<Key>, requests: map<Id, Phase>)

  /** `dbFails`: the database call of the handler throws. */
  datatype Event =
    | Arrive(id: Id, claim: Option<Key>, dbFails: bool)
    | Respond(id: Id, status: int, dbFails: bool)
    | Break(id: Id)

  predicate Possible(s: State, e: Event) {
    match e
    case Arrive(id, _, _) => id !in s.requests
    case Respond(id, _, _) => id in s.requests && s.requests[id].InFlight?
    case Break(id) => id in s.requests && s.requests[id].InFlight?
  }

  function Next(s: State, e: Event): State
    requires Possible(s, e)
  {
    match e
    case Arrive(id, claim, dbFails) =>
      if claim.None? then s.(requests := s.requests[id := InFlight(None)])
      else if dbFails || claim.value in s.rows then s.(requests := s.requests[id := Blocked(claim.value)])
      else State(s.rows + {claim.value}, s.requests[id := InFlight(claim)])
    case Respond(id, status, dbFails) =>
      var claim := s.requests[id].claim;
      var released := claim.Some? && status != 201 && !dbFails;
      State(if released then s.rows - {claim.value} else s.rows, s.requests[id := Answered(status, claim)])
    case Break(id) =>
      s.(requests := s.requests[id := Broken(s.requests[id].claim)])
  }

  /** The state after a sequence of events; None when one of them is impossible where it stands. */
  function After(s: State, events: seq<Event>): Option<State> {
    if events == [] then Some(s)
    else
      var before := After(s, events[..|events| - 1]);
      var e := events[|events| - 1];
      if before.Some? && Possible(before.value, e) then Some(Next(before.value, e)) else None
  }

  predicate DatabaseWorks(e: Event) {
    e.Break? || !e.dbFails
  }

  // ---------------------------------------------------------------- holders

  /** A request holds a key while it is in flight with it, after a 201, and after a connection error. */
  predicate Holds(s: State, id: Id, key: Key) {
    id in s.requests &&
    match s.requests[id]
    case Blocked(_) => false
    case InFlight(claim) => claim == Some(key)
    case Answered(status, claim) => status == 201 && claim == Some(key)
    case Broken(claim) => claim == Some(key)
  }

  /** A state at which a gateway starts: the rows of earlier days, no requests. */
  predicate Fresh(s: State) {
    s.requests == map[]
  }

  ghost predicate HoldersHaveRows(s: State, earlier: set<Key>) {
    && earlier <= s.rows
    && forall id, key :: Holds(s, id, key) ==> key in s.rows && key !in earlier
  }

  ghost predicate OneHolder(s: State) {
    forall id, other, key :: Holds(s, id, key) && Holds(s, other, key) ==> id == other
  }

  ghost predicate RowsHaveHolders(s: State, earlier: set<Key>) {
    forall key :: key in s.rows && key !in earlier ==> exists id :: Holds(s, id, key)
  }

  lemma HoldsAfter(s: State, e: Event, id: Id, key: Key)
    requires Possible(s, e)
    ensures id != e.id ==> (Holds(Next(s, e), id, key) <==> Holds(s, id, key))
    ensures id == e.id && e.Break? ==> (Holds(Next(s, e), id, key) <==> Holds(s, id, key))
    ensures id == e.id && e.Respond? ==> (Holds(Next(s, e), id, key) <==> Holds(s, id, key) && e.status == 201)
    ensures id == e.id && e.Arrive? ==>
              (Holds(Next(s, e), id, key) <==> e.claim == Some(key) && !e.dbFails && key !in s.rows)
  {
  }

  lemma SafeStep(s: State, e: Event, earlier: set<Key>)
    requires Possible(s, e) && HoldersHaveRows(s, earlier) && OneHolder(s)
    ensures HoldersHaveRows(Next(s, e), earlier) && OneHolder(Next(s, e))
  {
    var t := Next(s, e);
    if e.Respond? && s.requests[e.id].claim.Some? {
      assert Holds(s, e.id, s.requests[e.id].claim.value);
    }
    forall id, key | Holds(t, id, key)
      ensures key in t.rows && key !in earlier
    {
      HoldsAfter(s, e, id, key);
    }
    forall id, other, key | Holds(t, id, key) && Holds(t, other, key)
      ensures id == other
    {
      HoldsAfter(s, e, id, key);
      HoldsAfter(s, e, other, key);
    }
  }

  /** A failed release leaves a row that nobody holds; nothing else does. */
  predicate LosesRelease(s: State, e: Event)
    requires Possible(s, e)
  {
    e.Respond? && e.status != 201 && e.dbFails && s.requests[e.id].claim.Some?
  }

  lemma ExactStepIff(s: State, e: Event, earlier: set<Key>)
    requires Possible(s, e) && HoldersHaveRows(s, earlier) && OneHolder(s) && RowsHaveHolders(s, earlier)
    ensures RowsHaveHolders(Next(s, e), earlier) <==> !LosesRelease(s, e)
  {
    var t := Next(s, e);
    if LosesRelease(s, e) {
      var key := s.requests[e.id].claim.value;
      assert Holds(s, e.id, key);
      forall id
        ensures !Holds(t, id, key)
      {
        HoldsAfter(s, e, id, key);
      }
      assert key in t.rows && key !in earlier;
    } else {
      forall key | key in t.rows && key !in earlier
        ensures exists id :: Holds(t, id, key)
      {
        if key in s.rows {
          var id :| Holds(s, id, key);
          HoldsAfter(s, e, id, key);
          assert Holds(t, id, key);
        } else {
          HoldsAfter(s, e, e.id, key);
          assert Holds(t, e.id, key);
        }
      }
    }
  }

  // ---------------------------------------------------------------- over whole runs

  /** Whatever the interleaving, and even when database calls fail, holders have rows and no key has two holders. */
  lemma {:induction false} AlwaysSafe(start: State, events: seq<Event>)
    requires Fresh(start) && After(start, events).Some?
    ensures HoldersHaveRows(After(start, events).value, start.rows) && OneHolder(After(start, events).value)
    decreases |events|
  {
    if events != [] {
      var front := events[..|events| - 1];
      AlwaysSafe(start, front);
      SafeStep(After(start, front).value, events[|events| - 1], start.rows);
    }
  }

  lemma {:induction false} AlwaysExact(start: State, events: seq<Event>)
    requires Fresh(start) && After(start, events).Some?
    requires forall e :: e in events ==> DatabaseWorks(e)
    ensures RowsHaveHolders(After(start, events).value, start.rows)
    decreases |events|
  {
    if events != [] {
      var front, e := events[..|events| - 1], events[|events| - 1];
      assert e in events && forall x :: x in front ==> x in events;
      AlwaysExact(start, front);
      AlwaysSafe(start, front);
      ExactStepIff(After(start, front).value, e, start.rows);
    }
  }

  /** With a working database a row exists exactly when it is an earlier day's or exactly one request holds it. */
  lemma RowIffHeld(start: State, events: seq<Event>, key: Key)
    requires Fresh(start) && After(start, events).Some?
    requires forall e :: e in events ==> DatabaseWorks(e)
    ensures var s := After(start, events).value;
            && (key in s.rows <==> key in start.rows || exists id :: Holds(s, id, key))
            && (forall id, other :: Holds(s, id, key) && Holds(s, other, key) ==> id == other)
  {
    AlwaysSafe(start, events);
    AlwaysExact(start, events);
  }

  predicate Granted(s: State, id: Id, key: Key) {
    id in s.requests && s.requests[id] == Answered(201, Some(key))
  }

  /** At most one request for an account and module is ever answered 201, and none when the row is an earlier day's. */
  lemma OneTrialEach(start: State, events: seq<Event>, id: Id, other: Id, key: Key)
    requires Fresh(start) && After(start, events).Some?
    ensures var s := After(start, events).value;
            && (Granted(s, id, key) && Granted(s, other, key) ==> id == other)
            && (Granted(s, id, key) ==> key !in start.rows)
  {
    AlwaysSafe(start, events);
    var s := After(start, events).value;
    assert Granted(s, id, key) ==> Holds(s, id, key);
    assert Granted(s, other, key) ==> Holds(s, other, key);
  }

  /** A new free-plan request is turned away exactly when the key's row is an earlier day's or some request holds it. */
  lemma TurnedAwayIff(start: State, events: seq<Event>, id: Id, key: Key)
    requires Fresh(start) && After(start, events).Some?
    requires forall e :: e in events ==> DatabaseWorks(e)
    requires id !in After(start, events).value.requests
    ensures var s := After(start, events).value;
            Next(s, Arrive(id, Some(key), false)).requests[id] ==
            if key in start.rows || exists other :: Holds(s, other, key) then Blocked(key) else InFlight(Some(key))
  {
    RowIffHeld(start, events, key);
  }

  // ---------------------------------------------------------------- what ends a claim and what does not

  /** The request holds its key for good: it was answered 201, or its connection broke. */
  predicate Settled(s: State, id: Id, key: Key) {
    id in s.requests && (s.requests[id] == Answered(201, Some(key)) || s.requests[id] == Broken(Some(key)))
  }

  lemma {:induction false} SettledStays(s: State, events: seq<Event>, id: Id, key: Key, earlier: set<Key>)
    requires Settled(s, id, key) && After(s, events).Some? && HoldersHaveRows(s, earlier) && OneHolder(s)
    ensures var t := After(s, events).value;
            Settled(t, id, key) && t.requests[id] == s.requests[id] && HoldersHaveRows(t, earlier) && OneHolder(t)
    decreases |events|
  {
    if events != [] {
      var front := events[..|events| - 1];
      SettledStays(s, front, id, key, earlier);
      SafeStep(After(s, front).value, events[|events| - 1], earlier);
    }
  }

  /**
   After a connection error the claim is never given back: in every continuation the row stays,
   nobody is answered 201 for the key, and every later request for it is turned away.
   */
  lemma ConnectionErrorUsesUpTrial(start: State, events: seq<Event>, more: seq<Event>, id: Id, key: Key)
    requires Fresh(start) && After(start, events).Some? && After(After(start, events).value, more).Some?
    requires id in After(start, events).value.requests && After(start, events).value.requests[id] == Broken(Some(key))
    ensures var t := After(After(start, events).value, more).value;
            && key in t.rows
            && (forall other :: !Granted(t, other, key))
            && (forall other, dbFails :: other !in t.requests ==>
                  Next(t, Arrive(other, Some(key), dbFails)).requests[other] == Blocked(key))
  {
    var s := After(start, events).value;
    AlwaysSafe(start, events);
    SettledStays(s, more, id, key, start.rows);
    var t := After(s, more).value;
    assert Holds(t, id, key);
    forall other
      ensures !Granted(t, other, key)
    {
      assert Granted(t, other, key) ==> Holds(t, other, key);
    }
  }

  lemma {:induction false} RowStaysAway(s: State, more: seq<Event>, key: Key)
    requires key !in s.rows && After(s, more).Some?
    requires forall e :: e in more && e.Arrive? ==> e.claim != Some(key)
    ensures key !in After(s, more).value.rows
    decreases |more|
  {
    if more != [] {
      var front := more[..|more| - 1];
      assert forall e :: e in front ==> e in more;
      RowStaysAway(s, front, key);
      assert more[|more| - 1] in more;
    }
  }

  /**
   An answer other than 201 gives the claim back for good: whatever else happens
   afterwards, the next request that claims the key gets through.
   */
  lemma RefusalFreesTrial(
      start: State, events: seq<Event>, id: Id, status: int, more: seq<Event>, next: Id, key: Key)
    requires Fresh(start) && After(start, events).Some?
    requires id in After(start, events).value.requests
    requires After(start, events).value.requests[id] == InFlight(Some(key)) && status != 201
    requires After(Next(After(start, events).value, Respond(id, status, false)), more).Some?
    requires forall e :: e in more && e.Arrive? ==> e.claim != Some(key)
    requires next !in After(Next(After(start, events).value, Respond(id, status, false)), more).value.requests
    ensures var t := After(Next(After(start, events).value, Respond(id, status, false)), more).value;
            && key !in t.rows
            && Next(t, Arrive(next, Some(key), false)).requests[next] == InFlight(Some(key))
  {
    RowStaysAway(Next(After(start, events).value, Respond(id, status, false)), more, key);
  }

  // ---------------------------------------------------------------- the handlers

  /** The shared table and the requests, as the handlers change them. */
  class Gateway {
    var rows: set<Key>
    var requests: map<Id, Phase>

    function Abstract(): State
      reads this
    {
      State(rows, requests)
    }

    constructor (earlier: set<Key>)
      ensures Fresh(Abstract()) && rows == earlier
    {
      rows := earlier;
      requests := map[];
    }

    /** `tryClaimTrial`: INSERT OR IGNORE, true when a row was inserted; false when the call throws. */
    method TryClaimTrial(key: Key, dbFails: bool) returns (claimed: bool)
      modifies this`rows
      ensures claimed <==> !dbFails && key !in old(rows)
      ensures rows == if claimed then old(rows) + {key} else old(rows)
    {
      claimed := false;
      if !dbFails {
        var changes := if key in rows then 0 else 1;
        rows := rows + {key};
        claimed := changes == 1;
      }
    }

    /** `releaseTrialClaim` */
    method ReleaseTrialClaim(key: Key, dbFails: bool)
      modifies this`rows
      ensures rows == if dbFails then old(rows) else old(rows) - {key}
    {
      if !dbFails {
        rows := rows - {key};
      }
    }

    /** The `/api/v1` handler up to the proxied call; false when it answers 409 at once. */
    method OnRequest(id: Id, r: Request, offers: seq<Offer>, dbFails: bool) returns (proxied: bool)
      requires id !in requests
      modifies this
      ensures Abstract() == Next(old(Abstract()), Arrive(id, ClaimOf(r, offers), dbFails))
      ensures proxied <==> requests[id].InFlight?
    {
      var trialClaim: Option<Key> := None;
      if r.verb == "POST" && r.url == "/subscriptions" && r.hasBody {
        var plan := FindOffer(offers, r.planName);
        if plan.Some? && plan.value.price == Some(0.0) && r.accountId != "" {
          var key := Key(r.accountId, plan.value.moduleKey);
          var claimed := TryClaimTrial(key, dbFails);
          if !claimed {
            requests := requests[id := Blocked(key)];
            return false;
          }
          trialClaim := Some(key);
        }
      }
      requests := requests[id := InFlight(trialClaim)];
      return true;
    }

    /** The end of the billing system's response. */
    method OnResponse(id: Id, status: int, dbFails: bool)
      requires id in requests && requests[id].InFlight?
      modifies this
      ensures Abstract() == Next(old(Abstract()), Respond(id, status, dbFails))
    {
      var trialClaim := requests[id].claim;
      if trialClaim.Some? && status != 201 {
        ReleaseTrialClaim(trialClaim.value, dbFails);
      }
      requests := requests[id := Answered(status, trialClaim)];
    }

    /** An error of the proxied connection: the handler answers 500 and touches no claim. */
    method OnError(id: Id)
      requires id in requests && requests[id].InFlight?
      modifies this
      ensures Abstract() == Next(old(Abstract()), Break(id))
    {
      requests := requests[id := Broken(requests[id].claim)];
    }
  }
}
