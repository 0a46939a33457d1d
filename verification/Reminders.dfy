/**
 The daily payment-reminder check: which mails one check sends, and what a subscription
 receives over checks that run exactly one day apart.
 */
module Reminders {
  import opened Wrappers

  /** One day in milliseconds. */
  const DAY := 86400000

  /** `Math.ceil(n / DAY)` */
  function DaysUp(n: int): int {
    -((-n) / DAY)
  }

  // ---------------------------------------------------------------- data

  /** The price of a plan's evergreen phase: absent, null or a number. */
  datatype Price = Undefined | Null | Amount(value: real)

  datatype Subscription = Subscription(
    active: bool, trialPhase: bool, chargedThrough: Option<int>, evergreenPrice: Price, planName: string)

  /** An account with a mail address, or the empty text for none. */
  datatype Account = Account(id: string, email: string)

  type Bundle = seq<Subscription>

  datatype Kind = TrialEnding | PaymentOverdue

  /** Which subscription of which bundle of which account. */
  datatype Place = Place(account: nat, bundle: nat, sub: nat)

  datatype Mail = Mail(kind: Kind, email: string, planName: string, place: Place)

  /** The two clock readings at one subscription: before the trial and before the overdue comparison. */
  datatype Readings = Readings(first: int, second: int)

  type Clock = Place -> Readings

  // ---------------------------------------------------------------- one subscription

  function DaysLeft(charged: int, now: int): int {
    DaysUp(charged - now)
  }

  function DaysOverdue(charged: int, now: int): int {
    DaysUp(now - charged)
  }

  predicate TrialMailDue(sub: Subscription, now: int, threshold: int) {
    sub.active && sub.trialPhase && sub.chargedThrough.Some? && DaysLeft(sub.chargedThrough.value, now) == threshold
  }

  predicate IsFree(sub: Subscription) {
    sub.evergreenPrice == Amount(0.0) || sub.evergreenPrice == Null
  }

  predicate OverdueMailDue(sub: Subscription, now: int) {
    sub.active && sub.chargedThrough.Some? && !IsFree(sub) && 0 < DaysOverdue(sub.chargedThrough.value, now) <= 7
  }

  lemma UniqueDay(n: int, d: int)
    requires (d - 1) * DAY < n <= d * DAY
    ensures d == DaysUp(n)
  {
  }

  /** One day later there is one day less left and one day more overdue. */
  lemma ADayLater(charged: int, start: int, k: nat)
    ensures DaysLeft(charged, start + k * DAY) == DaysLeft(charged, start) - k
    ensures DaysOverdue(charged, start + k * DAY) == DaysOverdue(charged, start) + k
  {
    UniqueDay(charged - start - k * DAY, DaysLeft(charged, start) - k);
    UniqueDay(start + k * DAY - charged, DaysOverdue(charged, start) + k);
  }

  /** At one instant the two day counts add up to zero on a whole number of days and to one otherwise. */
  lemma LeftAndOverdue(charged: int, now: int)
    ensures DaysLeft(charged, now) + DaysOverdue(charged, now) == if (charged - now) % DAY == 0 then 0 else 1
  {
    var n := charged - now;
    var d := DaysUp(n);
    if n % DAY == 0 {
      assert n == (n / DAY) * DAY;
      UniqueDay(n, n / DAY);
      UniqueDay(-n, -(n / DAY));
    } else {
      assert n != d * DAY;
      UniqueDay(-n, 1 - d);
    }
  }

  /** When a trial-ending mail is due, in milliseconds: on the last day that rounds up to the threshold. */
  lemma TrialMailDueIff(sub: Subscription, now: int, threshold: int)
    ensures TrialMailDue(sub, now, threshold) <==>
            && sub.active && sub.trialPhase && sub.chargedThrough.Some?
            && (threshold - 1) * 86400000 < sub.chargedThrough.value - now <= threshold * 86400000
  {
    if sub.chargedThrough.Some? {
      var n := sub.chargedThrough.value - now;
      DaysUpIs(n, threshold);
    }
  }

  lemma DaysUpIs(n: int, d: int)
    ensures DaysUp(n) == d <==> (d - 1) * DAY < n <= d * DAY
  {
    UniqueDay(n, DaysUp(n));
  }

  /** When an overdue mail is due: within a week after the date, unless the evergreen price is zero or null. */
  lemma OverdueMailDueIff(sub: Subscription, now: int)
    ensures OverdueMailDue(sub, now) <==>
            && sub.active && sub.chargedThrough.Some?
            && sub.evergreenPrice != Amount(0.0) && sub.evergreenPrice != Null
            && 0 < now - sub.chargedThrough.value <= 7 * 86400000
  {
  }

  // ---------------------------------------------------------------- both mails at once

  /**
   With a threshold of at least one day, a subscription is sent both mails in one check exactly
   when the threshold is one day and the charged-through instant falls between the two readings
   of the clock.
   */
  lemma BothMailsIff(sub: Subscription, r: Readings, threshold: int)
    requires threshold >= 1 && r.first <= r.second <= r.first + DAY
    ensures TrialMailDue(sub, r.first, threshold) && OverdueMailDue(sub, r.second) <==>
            && sub.active && sub.trialPhase && !IsFree(sub) && threshold == 1
            && sub.chargedThrough.Some? && r.first < sub.chargedThrough.value < r.second
  {
    if sub.chargedThrough.Some? && r.first < sub.chargedThrough.value < r.second {
      UniqueDay(sub.chargedThrough.value - r.first, 1);
      UniqueDay(r.second - sub.chargedThrough.value, 1);
    }
  }

  /** At one instant no subscription is due for both. */
  lemma NeverBothAtOnce(sub: Subscription, now: int, threshold: int)
    requires threshold >= 1
    ensures !(TrialMailDue(sub, now, threshold) && OverdueMailDue(sub, now))
  {
    BothMailsIff(sub, Readings(now, now), threshold);
  }

  /** Both can be due at one instant exactly for the thresholds from minus seven to zero. */
  lemma BothPossibleIff(threshold: int)
    ensures (exists sub, now :: TrialMailDue(sub, now, threshold) && OverdueMailDue(sub, now)) <==>
            -7 <= threshold <= 0
  {
    if -7 <= threshold <= 0 {
      var sub := Subscription(true, true, Some(0), Amount(1.0), "");
      var now := if threshold == 0 then 1 else -threshold * DAY;
      UniqueDay(-now, threshold);
      UniqueDay(now, if threshold == 0 then 1 else -threshold);
      assert TrialMailDue(sub, now, threshold) && OverdueMailDue(sub, now);
    }
    forall sub, now | TrialMailDue(sub, now, threshold) && OverdueMailDue(sub, now)
      ensures -7 <= threshold <= 0
    {
      LeftAndOverdue(sub.chargedThrough.value, now);
    }
  }

  // ---------------------------------------------------------------- checks a day apart

  function TrialMails(sub: Subscription, start: int, threshold: int, checks: nat): nat {
    if checks == 0 then 0
    else TrialMails(sub, start, threshold, checks - 1) +
         if TrialMailDue(sub, start + (checks - 1) * DAY, threshold) then 1 else 0
  }

  function OverdueMails(sub: Subscription, start: int, checks: nat): nat {
    if checks == 0 then 0
    else OverdueMails(sub, start, checks - 1) + if OverdueMailDue(sub, start + (checks - 1) * DAY) then 1 else 0
  }

  function Max(a: int, b: int): int {
    if a >= b then a else b
  }

  function Min(a: int, b: int): int {
    if a <= b then a else b
  }

  /** Over checks a day apart an active trial gets one trial-ending mail if the threshold day is met, else none. */
  lemma {:induction false} TrialMailsExactly(sub: Subscription, start: int, threshold: int, checks: nat)
    ensures TrialMails(sub, start, threshold, checks) ==
            if sub.active && sub.trialPhase && sub.chargedThrough.Some? &&
               0 <= DaysLeft(sub.chargedThrough.value, start) - threshold < checks then 1 else 0
    decreases checks
  {
    if checks > 0 {
      TrialMailsExactly(sub, start, threshold, checks - 1);
      if sub.chargedThrough.Some? {
        ADayLater(sub.chargedThrough.value, start, checks - 1);
      }
    }
  }

  /** Over checks a day apart an active paid subscription gets an overdue mail on each of days one to seven it meets. */
  lemma {:induction false} OverdueMailsExactly(sub: Subscription, start: int, checks: nat)
    ensures OverdueMails(sub, start, checks) ==
            if sub.active && sub.chargedThrough.Some? && !IsFree(sub) then
              var first := DaysOverdue(sub.chargedThrough.value, start);
              Max(0, Min(checks, 8 - first) - Max(0, 1 - first))
            else 0
    decreases checks
  {
    if checks > 0 {
      OverdueMailsExactly(sub, start, checks - 1);
      if sub.chargedThrough.Some? {
        ADayLater(sub.chargedThrough.value, start, checks - 1);
      }
    }
  }

  /** At most one trial-ending mail and at most seven overdue mails; seven exactly when all seven days are met. */
  lemma MailBounds(sub: Subscription, start: int, threshold: int, checks: nat)
    ensures TrialMails(sub, start, threshold, checks) <= 1
    ensures OverdueMails(sub, start, checks) <= 7
    ensures OverdueMails(sub, start, checks) == 7 <==>
            && sub.active && sub.chargedThrough.Some? && !IsFree(sub)
            && DaysOverdue(sub.chargedThrough.value, start) <= 1
            && DaysOverdue(sub.chargedThrough.value, start) + checks > 7
  {
    TrialMailsExactly(sub, start, threshold, checks);
    OverdueMailsExactly(sub, start, checks);
  }

  // ---------------------------------------------------------------- one check

  /** What one check reads: the bundles of each account, the clock at each subscription, the threshold. */
  datatype World = World(bundlesOf: string -> seq<Bundle>, clock: Clock, threshold: int)

  function SubMails(w: World, email: string, sub: Subscription, place: Place): seq<Mail> {
    var r := w.clock(place);
    (if TrialMailDue(sub, r.first, w.threshold) then [Mail(TrialEnding, email, sub.planName, place)] else []) +
    (if OverdueMailDue(sub, r.second) then [Mail(PaymentOverdue, email, sub.planName, place)] else [])
  }

  /** The mails for the first `n` subscriptions of a bundle. */
  function BundleMails(w: World, email: string, bundle: Bundle, a: nat, b: nat, n: nat): seq<Mail>
    requires n <= |bundle|
  {
    if n == 0 then []
    else BundleMails(w, email, bundle, a, b, n - 1) + SubMails(w, email, bundle[n - 1], Place(a, b, n - 1))
  }

  function AccountMails(w: World, email: string, bundles: seq<Bundle>, a: nat, n: nat): seq<Mail>
    requires n <= |bundles|
  {
    if n == 0 then []
    else AccountMails(w, email, bundles, a, n - 1) + BundleMails(w, email, bundles[n - 1], a, n - 1, |bundles[n - 1]|)
  }

  /** The mails for account `a`: none without an address. */
  function MailsOfAccount(w: World, accounts: seq<Account>, a: nat): seq<Mail>
    requires a < |accounts|
  {
    var bundles := w.bundlesOf(accounts[a].id);
    if accounts[a].email == "" then [] else AccountMails(w, accounts[a].email, bundles, a, |bundles|)
  }

  function CheckMails(w: World, accounts: seq<Account>, n: nat): seq<Mail>
    requires n <= |accounts|
  {
    if n == 0 then [] else CheckMails(w, accounts, n - 1) + MailsOfAccount(w, accounts, n - 1)
  }

  function OfKind(mails: seq<Mail>, kind: Kind): nat {
    if mails == [] then 0 else OfKind(mails[..|mails| - 1], kind) + if mails[|mails| - 1].kind == kind then 1 else 0
  }

  datatype Summary = Summary(accountsChecked: nat, trialRemindersSent: nat, overdueRemindersSent: nat)

  /** The summary agrees with the mails sent so far. */
  predicate Tallies(s: Summary, mails: seq<Mail>) {
    s.trialRemindersSent == OfKind(mails, TrialEnding) && s.overdueRemindersSent == OfKind(mails, PaymentOverdue)
  }

  lemma TallyOneMore(s: Summary, mails: seq<Mail>, mail: Mail)
    requires Tallies(s, mails)
    ensures Tallies(if mail.kind == TrialEnding then s.(trialRemindersSent := s.trialRemindersSent + 1)
                    else s.(overdueRemindersSent := s.overdueRemindersSent + 1), mails + [mail])
  {
    assert (mails + [mail])[..|mails|] == mails;
  }

  lemma Regroup(x: seq<Mail>, y: seq<Mail>, z: seq<Mail>)
    ensures x + y + z == x + (y + z)
  {
  }

  lemma SubMailsInParts(w: World, email: string, sub: Subscription, place: Place, sent: seq<Mail>)
    ensures var r := w.clock(place);
            sent + SubMails(w, email, sub, place) ==
            sent + (if TrialMailDue(sub, r.first, w.threshold)
                    then [Mail(TrialEnding, email, sub.planName, place)] else []) +
            if OverdueMailDue(sub, r.second) then [Mail(PaymentOverdue, email, sub.planName, place)] else []
  {
  }

  /** The body of the innermost loop. */
  method CheckSubscription(w: World, email: string, sub: Subscription, place: Place, sent: seq<Mail>, tally: Summary)
    returns (mails: seq<Mail>, summary: Summary)
    requires Tallies(tally, sent)
    ensures mails == sent + SubMails(w, email, sub, place) && Tallies(summary, mails)
    ensures summary.accountsChecked == tally.accountsChecked
  {
    mails, summary := sent, tally;
    var r := w.clock(place);
    SubMailsInParts(w, email, sub, place, sent);
    if !sub.active {
      return;
    }
    if sub.trialPhase && sub.chargedThrough.Some? {
      var daysLeft := DaysLeft(sub.chargedThrough.value, r.first);
      if daysLeft == w.threshold {
        var mail := Mail(TrialEnding, email, sub.planName, place);
        TallyOneMore(summary, mails, mail);
        mails := mails + [mail];
        summary := summary.(trialRemindersSent := summary.trialRemindersSent + 1);
      }
    }
    if sub.chargedThrough.Some? {
      var daysOverdue := DaysOverdue(sub.chargedThrough.value, r.second);
      var isFreePlan := sub.evergreenPrice == Amount(0.0) || sub.evergreenPrice == Null;
      if daysOverdue > 0 && daysOverdue <= 7 && !isFreePlan {
        var mail := Mail(PaymentOverdue, email, sub.planName, place);
        TallyOneMore(summary, mails, mail);
        mails := mails + [mail];
        summary := summary.(overdueRemindersSent := summary.overdueRemindersSent + 1);
      }
    }
  }

  /** The loop over a bundle's subscriptions. */
  method CheckBundle(w: World, email: string, bundle: Bundle, a: nat, b: nat, sent: seq<Mail>, tally: Summary)
    returns (mails: seq<Mail>, summary: Summary)
    requires Tallies(tally, sent)
    ensures mails == sent + BundleMails(w, email, bundle, a, b, |bundle|) && Tallies(summary, mails)
    ensures summary.accountsChecked == tally.accountsChecked
  {
    mails, summary := sent, tally;
    for s := 0 to |bundle|
      invariant mails == sent + BundleMails(w, email, bundle, a, b, s)
      invariant Tallies(summary, mails) && summary.accountsChecked == tally.accountsChecked
    {
      mails, summary := CheckSubscription(w, email, bundle[s], Place(a, b, s), mails, summary);
      Regroup(sent, BundleMails(w, email, bundle, a, b, s), SubMails(w, email, bundle[s], Place(a, b, s)));
    }
  }

  /** The loop over an account's bundles. */
  method CheckAccount(w: World, email: string, bundles: seq<Bundle>, a: nat, sent: seq<Mail>, tally: Summary)
    returns (mails: seq<Mail>, summary: Summary)
    requires Tallies(tally, sent)
    ensures mails == sent + AccountMails(w, email, bundles, a, |bundles|) && Tallies(summary, mails)
    ensures summary.accountsChecked == tally.accountsChecked
  {
    mails, summary := sent, tally;
    for b := 0 to |bundles|
      invariant mails == sent + AccountMails(w, email, bundles, a, b)
      invariant Tallies(summary, mails) && summary.accountsChecked == tally.accountsChecked
    {
      mails, summary := CheckBundle(w, email, bundles[b], a, b, mails, summary);
      Regroup(sent, AccountMails(w, email, bundles, a, b), BundleMails(w, email, bundles[b], a, b, |bundles[b]|));
    }
  }

  lemma OneMoreAccount(w: World, accounts: seq<Account>, a: nat)
    requires a < |accounts|
    ensures var bundles := w.bundlesOf(accounts[a].id);
            CheckMails(w, accounts, a + 1) == CheckMails(w, accounts, a) +
            if accounts[a].email == "" then [] else AccountMails(w, accounts[a].email, bundles, a, |bundles|)
  {
  }

  /** `runPaymentReminderCheck`: the mails of one check in sending order, and its summary. */
  method RunPaymentReminderCheck(w: World, accounts: seq<Account>) returns (mails: seq<Mail>, summary: Summary)
    ensures mails == CheckMails(w, accounts, |accounts|)
    ensures Tallies(summary, mails) && summary.accountsChecked == |accounts|
  {
    mails, summary := [], Summary(|accounts|, 0, 0);
    for a := 0 to |accounts|
      invariant mails == CheckMails(w, accounts, a)
      invariant Tallies(summary, mails) && summary.accountsChecked == |accounts|
    {
      var account := accounts[a];
      OneMoreAccount(w, accounts, a);
      if account.email != "" {
        mails, summary := CheckAccount(w, account.email, w.bundlesOf(account.id), a, mails, summary);
      }
    }
  }

  // ---------------------------------------------------------------- who gets a mail

  /** How many mails of a kind are for a place. */
  function For(mails: seq<Mail>, kind: Kind, place: Place): nat {
    if mails == [] then 0
    else For(mails[1..], kind, place) + if mails[0].kind == kind && mails[0].place == place then 1 else 0
  }

  lemma {:induction false} ForAppend(x: seq<Mail>, y: seq<Mail>, kind: Kind, place: Place)
    ensures For(x + y, kind, place) == For(x, kind, place) + For(y, kind, place)
    decreases |x|
  {
    if x == [] {
      assert x + y == y;
    } else {
      assert (x + y)[0] == x[0] && (x + y)[1..] == x[1..] + y;
      ForAppend(x[1..], y, kind, place);
    }
  }

  predicate Due(w: World, sub: Subscription, place: Place, kind: Kind) {
    match kind
    case TrialEnding => TrialMailDue(sub, w.clock(place).first, w.threshold)
    case PaymentOverdue => OverdueMailDue(sub, w.clock(place).second)
  }

  /** One mail or none. */
  function Count(sent: bool): nat {
    if sent then 1 else 0
  }

  lemma ForSub(w: World, email: string, sub: Subscription, at: Place, kind: Kind, place: Place)
    ensures For(SubMails(w, email, sub, at), kind, place) == Count(place == at && Due(w, sub, at, kind))
  {
    var r := w.clock(at);
    var first := if TrialMailDue(sub, r.first, w.threshold) then [Mail(TrialEnding, email, sub.planName, at)] else [];
    var second := if OverdueMailDue(sub, r.second) then [Mail(PaymentOverdue, email, sub.planName, at)] else [];
    ForAppend(first, second, kind, place);
  }

  /** The place is among the first `n` of the bundle and its subscription is due. */
  predicate DueInBundle(w: World, bundle: Bundle, a: nat, b: nat, n: nat, kind: Kind, place: Place)
    requires n <= |bundle|
  {
    place.account == a && place.bundle == b && place.sub < n && Due(w, bundle[place.sub], place, kind)
  }

  lemma OneMoreSub(w: World, bundle: Bundle, a: nat, b: nat, n: nat, kind: Kind, place: Place)
    requires 0 < n <= |bundle|
    ensures var at := Place(a, b, n - 1);
            Count(DueInBundle(w, bundle, a, b, n, kind, place)) ==
            Count(DueInBundle(w, bundle, a, b, n - 1, kind, place)) +
            Count(place == at && Due(w, bundle[n - 1], at, kind))
  {
  }

  lemma {:induction false} ForBundle(
      w: World, email: string, bundle: Bundle, a: nat, b: nat, n: nat, kind: Kind, place: Place)
    requires n <= |bundle|
    ensures For(BundleMails(w, email, bundle, a, b, n), kind, place) ==
            Count(DueInBundle(w, bundle, a, b, n, kind, place))
    decreases n
  {
    if n > 0 {
      var at := Place(a, b, n - 1);
      ForBundle(w, email, bundle, a, b, n - 1, kind, place);
      ForAppend(BundleMails(w, email, bundle, a, b, n - 1), SubMails(w, email, bundle[n - 1], at), kind, place);
      ForSub(w, email, bundle[n - 1], at, kind, place);
      OneMoreSub(w, bundle, a, b, n, kind, place);
    }
  }

  /** The place is in the first `n` bundles and its subscription is due. */
  predicate DueInBundles(w: World, bundles: seq<Bundle>, a: nat, n: nat, kind: Kind, place: Place)
    requires n <= |bundles|
  {
    && place.account == a && place.bundle < n && place.sub < |bundles[place.bundle]|
    && Due(w, bundles[place.bundle][place.sub], place, kind)
  }

  lemma OneMoreBundle(w: World, bundles: seq<Bundle>, a: nat, n: nat, kind: Kind, place: Place)
    requires 0 < n <= |bundles|
    ensures Count(DueInBundles(w, bundles, a, n, kind, place)) ==
            Count(DueInBundles(w, bundles, a, n - 1, kind, place)) +
            Count(DueInBundle(w, bundles[n - 1], a, n - 1, |bundles[n - 1]|, kind, place))
  {
  }

  lemma {:induction false} ForAccount(
      w: World, email: string, bundles: seq<Bundle>, a: nat, n: nat, kind: Kind, place: Place)
    requires n <= |bundles|
    ensures For(AccountMails(w, email, bundles, a, n), kind, place) ==
            Count(DueInBundles(w, bundles, a, n, kind, place))
    decreases n
  {
    if n > 0 {
      var last := bundles[n - 1];
      ForAccount(w, email, bundles, a, n - 1, kind, place);
      ForAppend(AccountMails(w, email, bundles, a, n - 1), BundleMails(w, email, last, a, n - 1, |last|), kind, place);
      ForBundle(w, email, last, a, n - 1, |last|, kind, place);
      OneMoreBundle(w, bundles, a, n, kind, place);
    }
  }

  /** A place holds a subscription of an account that has an address. */
  predicate Reachable(w: World, accounts: seq<Account>, n: nat, place: Place)
    requires n <= |accounts|
  {
    && place.account < n && accounts[place.account].email != ""
    && place.bundle < |w.bundlesOf(accounts[place.account].id)|
    && place.sub < |w.bundlesOf(accounts[place.account].id)[place.bundle]|
  }

  /** The place is reachable through the first `n` accounts and its subscription is due. */
  predicate DueAt(w: World, accounts: seq<Account>, n: nat, kind: Kind, place: Place)
    requires n <= |accounts|
  {
    Reachable(w, accounts, n, place) &&
    Due(w, w.bundlesOf(accounts[place.account].id)[place.bundle][place.sub], place, kind)
  }

  lemma ForMailsOfAccount(w: World, accounts: seq<Account>, a: nat, kind: Kind, place: Place)
    requires a < |accounts|
    ensures For(MailsOfAccount(w, accounts, a), kind, place) ==
            Count(place.account == a && DueAt(w, accounts, a + 1, kind, place))
  {
    if accounts[a].email != "" {
      var bundles := w.bundlesOf(accounts[a].id);
      ForAccount(w, accounts[a].email, bundles, a, |bundles|, kind, place);
    }
  }

  lemma CountAdds(x: seq<Mail>, y: seq<Mail>, kind: Kind, place: Place, early: bool, late: bool, either: bool)
    requires For(x, kind, place) == Count(early) && For(y, kind, place) == Count(late)
    requires Count(either) == Count(early) + Count(late)
    ensures For(x + y, kind, place) == Count(either)
  {
    ForAppend(x, y, kind, place);
  }

  lemma OneMoreDue(w: World, accounts: seq<Account>, n: nat, kind: Kind, place: Place)
    requires 0 < n <= |accounts|
    ensures Count(DueAt(w, accounts, n, kind, place)) ==
            Count(DueAt(w, accounts, n - 1, kind, place)) +
            Count(place.account == n - 1 && DueAt(w, accounts, n, kind, place))
  {
  }

  /** Each due subscription of an account with an address gets exactly one mail of the kind, and nobody else any. */
  lemma {:induction false} MailsSentExactly(w: World, accounts: seq<Account>, n: nat, kind: Kind, place: Place)
    requires n <= |accounts|
    ensures For(CheckMails(w, accounts, n), kind, place) == Count(DueAt(w, accounts, n, kind, place))
    decreases n
  {
    if n > 0 {
      MailsSentExactly(w, accounts, n - 1, kind, place);
      ForMailsOfAccount(w, accounts, n - 1, kind, place);
      OneMoreDue(w, accounts, n, kind, place);
      CountAdds(CheckMails(w, accounts, n - 1), MailsOfAccount(w, accounts, n - 1), kind, place,
                DueAt(w, accounts, n - 1, kind, place), place.account == n - 1 && DueAt(w, accounts, n, kind, place),
                DueAt(w, accounts, n, kind, place));
    }
  }
  // ---------------------------------------------------------------- what a mail says

  predicate OfBundle(m: Mail, email: string, bundle: Bundle, a: nat, b: nat) {
    && m.place.account == a && m.place.bundle == b && m.place.sub < |bundle|
    && m.email == email && m.planName == bundle[m.place.sub].planName
  }

  lemma {:induction false} BundleMailsSay(w: World, email: string, bundle: Bundle, a: nat, b: nat, n: nat, m: Mail)
    requires n <= |bundle| && m in BundleMails(w, email, bundle, a, b, n)
    ensures OfBundle(m, email, bundle, a, b)
    decreases n
  {
    if n > 0 && m in BundleMails(w, email, bundle, a, b, n - 1) {
      BundleMailsSay(w, email, bundle, a, b, n - 1, m);
    }
  }

  lemma {:induction false} WhichBundle(w: World, email: string, bundles: seq<Bundle>, a: nat, n: nat, m: Mail)
    returns (b: nat)
    requires n <= |bundles| && m in AccountMails(w, email, bundles, a, n)
    ensures b < n && m in BundleMails(w, email, bundles[b], a, b, |bundles[b]|)
    decreases n
  {
    b := n - 1;
    if m in AccountMails(w, email, bundles, a, n - 1) {
      b := WhichBundle(w, email, bundles, a, n - 1, m);
    }
  }

  lemma AccountMailsSay(w: World, email: string, bundles: seq<Bundle>, a: nat, m: Mail)
    requires m in AccountMails(w, email, bundles, a, |bundles|)
    ensures m.place.bundle < |bundles| && OfBundle(m, email, bundles[m.place.bundle], a, m.place.bundle)
  {
    var b := WhichBundle(w, email, bundles, a, |bundles|, m);
    BundleMailsSay(w, email, bundles[b], a, b, |bundles[b]|, m);
  }

  /** Every mail goes to the address of its place's account and names the plan of its place's subscription. */
  lemma {:induction false} MailsAreAddressed(w: World, accounts: seq<Account>, n: nat, m: Mail)
    requires n <= |accounts| && m in CheckMails(w, accounts, n)
    ensures Reachable(w, accounts, n, m.place) && m.email == accounts[m.place.account].email
    ensures m.planName == w.bundlesOf(accounts[m.place.account].id)[m.place.bundle][m.place.sub].planName
    decreases n
  {
    if n > 0 {
      if m in CheckMails(w, accounts, n - 1) {
        MailsAreAddressed(w, accounts, n - 1, m);
      } else {
        OneMoreAccount(w, accounts, n - 1);
        var account := accounts[n - 1];
        var bundles := w.bundlesOf(account.id);
        assert account.email != "" && m in AccountMails(w, account.email, bundles, n - 1, |bundles|);
        AccountMailsSay(w, account.email, bundles, n - 1, m);
      }
    }
  }
}
