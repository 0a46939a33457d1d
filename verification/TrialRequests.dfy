/**
 The free-trial rule over requests: which requests need a claim, and what that means
 for an account over every interleaving of requests, answers and broken connections.
 The plans file is read anew for every request, so the offers may change in between.
 */
module TrialRequests {
  import opened Wrappers
  import opened Trials

  /** What reaches the gateway: a request, the answer to one, or the end of its connection. */
  datatype Traffic =
    | Ask(id: Id, request: Request, offers: seq<Offer>, dbFails: bool)
    | Reply(id: Id, status: int, dbFails: bool)
    | Drop(id: Id)

  function EventOf(t: Traffic): Event {
    match t
    case Ask(id, request, offers, dbFails) => Arrive(id, ClaimOf(request, offers), dbFails)
    case Reply(id, status, dbFails) => Respond(id, status, dbFails)
    case Drop(id) => Break(id)
  }

  function Events(traffic: seq<Traffic>): seq<Event> {
    seq(|traffic|, i requires 0 <= i < |traffic| => EventOf(traffic[i]))
  }

  /** The offer that counts for a plan: the first one with its id. */
  predicate FirstOf(offers: seq<Offer>, planName: string, k: nat) {
    k < |offers| && offers[k].id == planName && forall j :: 0 <= j < k ==> offers[j].id != planName
  }

  /** A subscription to a plan of price zero of the key's module, by the key's account. */
  ghost predicate AsksForTrial(r: Request, offers: seq<Offer>, key: Key) {
    && r.verb == "POST" && r.url == "/subscriptions" && r.hasBody
    && r.accountId != "" && r.accountId == key.account
    && exists k: nat :: FirstOf(offers, r.planName, k) && offers[k].price == Some(0.0) &&
                        offers[k].moduleKey == key.moduleKey
  }

  lemma {:induction false} OfferIsFirst(offers: seq<Offer>, id: string) returns (k: nat)
    ensures FindOffer(offers, id).Some? ==> FirstOf(offers, id, k) && offers[k] == FindOffer(offers, id).value
    ensures FindOffer(offers, id).None? ==> forall j :: 0 <= j < |offers| ==> offers[j].id != id
  {
    k := 0;
    if offers != [] && offers[0].id != id {
      var n := OfferIsFirst(offers[1..], id);
      k := n + 1;
      assert forall j :: 0 < j < |offers| ==> offers[j] == offers[1..][j - 1];
    }
  }

  lemma OneIsFirst(offers: seq<Offer>, id: string, j: nat, k: nat)
    requires FirstOf(offers, id, j) && FirstOf(offers, id, k)
    ensures j == k
  {
  }

  /** A request has to claim a key exactly when it asks for that trial. */
  lemma ClaimIff(r: Request, offers: seq<Offer>, key: Key)
    ensures ClaimOf(r, offers) == Some(key) <==> AsksForTrial(r, offers, key)
  {
    var k := OfferIsFirst(offers, r.planName);
    if FindOffer(offers, r.planName).Some? {
      forall j: nat | FirstOf(offers, r.planName, j)
        ensures j == k
      {
        OneIsFirst(offers, r.planName, j, k);
      }
    }
  }

  // ---------------------------------------------------------------- requests over a run

  /** The phase belongs to a request that arrived with this claim. */
  predicate CameWith(p: Phase, claim: Option<Key>) {
    match p
    case Blocked(wanted) => claim == Some(wanted)
    case InFlight(c) => c == claim
    case Answered(_, c) => c == claim
    case Broken(c) => c == claim
  }

  lemma {:induction false} ArrivedWith(start: State, events: seq<Event>, i: nat)
    requires After(start, events).Some? && i < |events| && events[i].Arrive?
    ensures var s := After(start, events).value;
            events[i].id in s.requests && CameWith(s.requests[events[i].id], events[i].claim)
    decreases |events|
  {
    var n := |events| - 1;
    var front := events[..n];
    if i < n {
      assert front[i] == events[i];
      ArrivedWith(start, front, i);
    }
  }

  /** No request arrives twice. */
  lemma ArrivesOnce(start: State, events: seq<Event>, i: nat, j: nat)
    requires After(start, events).Some? && i < j < |events| && events[i].Arrive? && events[j].Arrive?
    ensures events[i].id != events[j].id
  {
    PrefixRuns(start, events, j + 1);
    var front := events[..j + 1];
    assert front[..j] == events[..j] && front[j] == events[j] && events[..j][i] == events[i];
    ArrivedWith(start, events[..j], i);
  }

  lemma {:induction false} PrefixRuns(start: State, events: seq<Event>, n: nat)
    requires After(start, events).Some? && n <= |events|
    ensures After(start, events[..n]).Some?
    decreases |events|
  {
    if n < |events| {
      var front := events[..|events| - 1];
      PrefixRuns(start, front, n);
      assert front[..n] == events[..n];
    } else {
      assert events[..n] == events;
    }
  }

  /** Item `i` of the traffic is a request for this trial. */
  ghost predicate TrialAskedAt(traffic: seq<Traffic>, i: nat, key: Key) {
    i < |traffic| && traffic[i].Ask? && AsksForTrial(traffic[i].request, traffic[i].offers, key)
  }

  predicate Created(s: State, id: Id) {
    id in s.requests && s.requests[id].Answered? && s.requests[id].status == 201
  }

  /**
   Over every interleaving an account gets at most one subscription to a plan of
   price zero of a module, and none if the table knew the account and module before.
   */
  lemma OneFreeSubscription(start: State, traffic: seq<Traffic>, i: nat, j: nat, key: Key)
    requires Fresh(start) && After(start, Events(traffic)).Some?
    requires TrialAskedAt(traffic, i, key) && TrialAskedAt(traffic, j, key)
    requires Created(After(start, Events(traffic)).value, traffic[i].id)
    requires Created(After(start, Events(traffic)).value, traffic[j].id)
    ensures i == j && key !in start.rows
  {
    var events := Events(traffic);
    ClaimIff(traffic[i].request, traffic[i].offers, key);
    ClaimIff(traffic[j].request, traffic[j].offers, key);
    ArrivedWith(start, events, i);
    ArrivedWith(start, events, j);
    OneTrialEach(start, events, traffic[i].id, traffic[j].id, key);
    if i < j {
      ArrivesOnce(start, events, i, j);
    } else if j < i {
      ArrivesOnce(start, events, j, i);
    }
  }

  /** A request for a trial is turned away exactly when the table knew the key before or some request holds it. */
  lemma TrialIsTurnedAwayIff(start: State, traffic: seq<Traffic>, id: Id, r: Request, offers: seq<Offer>, key: Key)
    requires Fresh(start) && After(start, Events(traffic)).Some? && AsksForTrial(r, offers, key)
    requires forall i :: 0 <= i < |traffic| ==> traffic[i].Drop? || !traffic[i].dbFails
    requires id !in After(start, Events(traffic)).value.requests
    ensures var s := After(start, Events(traffic)).value;
            Next(s, EventOf(Ask(id, r, offers, false))).requests[id] ==
            if key in start.rows || exists other :: Holds(s, other, key) then Blocked(key) else InFlight(Some(key))
  {
    ClaimIff(r, offers, key);
    TurnedAwayIff(start, Events(traffic), id, key);
  }

  // ---------------------------------------------------------------- every other request

  /** No account, another verb or url, no body, an unknown plan or a plan of another price. */
  ghost predicate AsksForNoTrial(r: Request, offers: seq<Offer>) {
    || r.verb != "POST" || r.url != "/subscriptions" || !r.hasBody || r.accountId == ""
    || (forall k: nat :: FirstOf(offers, r.planName, k) ==> offers[k].price != Some(0.0))
  }

  lemma NoTrialNoClaim(r: Request, offers: seq<Offer>)
    requires AsksForNoTrial(r, offers)
    ensures ClaimOf(r, offers) == None
  {
    var claim := ClaimOf(r, offers);
    if claim.Some? {
      ClaimIff(r, offers, claim.value);
    }
  }

  /** Such a request is passed on at once, whatever the table holds and even when it cannot be read. */
  lemma OthersPass(s: State, id: Id, r: Request, offers: seq<Offer>, dbFails: bool)
    requires AsksForNoTrial(r, offers) && id !in s.requests
    ensures Next(s, EventOf(Ask(id, r, offers, dbFails))) == s.(requests := s.requests[id := InFlight(None)])
  {
    NoTrialNoClaim(r, offers);
  }

  /** And in every run nothing that happens to it later changes a row. */
  lemma OthersChangeNoRow(start: State, traffic: seq<Traffic>, i: nat, t: Traffic)
    requires After(start, Events(traffic)).Some? && i < |traffic| && traffic[i].Ask?
    requires AsksForNoTrial(traffic[i].request, traffic[i].offers)
    requires t.id == traffic[i].id && Possible(After(start, Events(traffic)).value, EventOf(t))
    ensures t.id in After(start, Events(traffic)).value.requests
    ensures !After(start, Events(traffic)).value.requests[t.id].Blocked?
    ensures Next(After(start, Events(traffic)).value, EventOf(t)).rows == After(start, Events(traffic)).value.rows
  {
    NoTrialNoClaim(traffic[i].request, traffic[i].offers);
    ArrivedWith(start, Events(traffic), i);
  }
}
