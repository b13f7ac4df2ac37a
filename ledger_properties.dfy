/** Properties of the reveal-quota state machine, of a single call and of sequences of calls:
    the ceiling kept over any sequence of calls, free re-views, the exact outcome of a day's run
    of new reveals, and the agreement of the ledger with the counter. */
module LedgerProperties {
  import opened Wrappers
  import opened Ledger
  import Quota

  /** One call of `revealContactDetails`: who is signed in, the contact asked for, and the day. */
  datatype Call = Call(caller: Option<UserId>, contactId: ContactId, today: Day)

  datatype Trace = Trace(outcomes: seq<RevealOutcome>, final: State)

  /** The calls performed one after another, each on the state the previous one left. */
  function Run(s: State, calls: seq<Call>): (t: Trace)
    ensures |t.outcomes| == |calls|
    ensures t.final.contacts == s.contacts
    decreases |calls|
  {
    if calls == [] then Trace([], s)
    else
      var step := Reveal(s, calls[0].caller, calls[0].contactId, calls[0].today);
      var rest := Run(step.after, calls[1..]);
      Trace([step.outcome] + rest.outcomes, rest.final)
  }

  /** Every stored count is within the daily ceiling. */
  ghost predicate WithinLimit(s: State)
  {
    forall u :: u in s.userLimit ==> s.userLimit[u].count <= Quota.DailyLimit
  }

  /** One call keeps every stored count within the ceiling. */
  lemma RevealKeepsCeiling(s: State, caller: Option<UserId>, contactId: ContactId, today: Day)
    requires WithinLimit(s)
    ensures WithinLimit(Reveal(s, caller, contactId, today).after)
  {
  }

  /** Starting from counts within the ceiling, no sequence of calls by any users on any days
      stores a count above it. */
  lemma {:induction false} RunKeepsCeiling(s: State, calls: seq<Call>)
    requires WithinLimit(s)
    ensures WithinLimit(Run(s, calls).final)
    decreases |calls|
  {
    if calls != [] {
      RevealKeepsCeiling(s, calls[0].caller, calls[0].contactId, calls[0].today);
      RunKeepsCeiling(Reveal(s, calls[0].caller, calls[0].contactId, calls[0].today).after, calls[1..]);
    }
  }

  /** Revealing the same contact twice: the second call is the free re-view. It returns the
      same data and the count of the first call, and it writes nothing, so the counter went up
      by exactly one for the pair. */
  lemma RevealTwice(s: State, user: UserId, contactId: ContactId, today: Day)
    requires (user, contactId) !in s.contactReveal
    requires UsageCount(s, user, today) < Quota.DailyLimit
    ensures var first := Reveal(s, Some(user), contactId, today);
      var second := Reveal(first.after, Some(user), contactId, today);
      && first.outcome.Revealed? && !first.outcome.alreadyRevealed
      && second.after == first.after
      && second.outcome == first.outcome.(alreadyRevealed := true)
      && UsageCount(second.after, user, today) == UsageCount(s, user, today) + 1
  {
  }

  /** A contact already revealed is shown for free even when the day's quota is used up. */
  lemma FreeReviewAtLimit(s: State, user: UserId, contactId: ContactId, today: Day)
    requires (user, contactId) in s.contactReveal
    requires UsageCount(s, user, today) >= Quota.DailyLimit
    ensures Reveal(s, Some(user), contactId, today).outcome.Revealed?
    ensures Reveal(s, Some(user), contactId, today).outcome.alreadyRevealed
  {
  }

  /** The first new reveal on a day after the stored one returns count 1, whatever was stored. */
  lemma FirstRevealOfNewDay(s: State, user: UserId, contactId: ContactId, today: Day)
    requires user in s.userLimit && s.userLimit[user].lastViewDay != today
    requires (user, contactId) !in s.contactReveal
    ensures Reveal(s, Some(user), contactId, today).outcome == Revealed(Lookup(s.contacts, contactId), 1, false)
    ensures Reveal(s, Some(user), contactId, today).after.userLimit[user] == Usage(1, today)
  {
  }

  /** After any call, the read path reports the count the call left stored. After a new reveal
      that is the count the call returned. */
  lemma ReadAfterReveal(s: State, user: UserId, contactId: ContactId, today: Day)
    ensures var step := Reveal(s, Some(user), contactId, today);
      && (step.outcome.Revealed? ==> UsageCount(step.after, user, today) == step.outcome.count)
      && (step.outcome.LimitReached? ==> UsageCount(step.after, user, today) >= Quota.DailyLimit)
  {
  }

  /** Exactly-once charging: one call adds one pair to the ledger and one unit to the caller's
      count when it is a new reveal, and adds nothing to either otherwise. */
  lemma LedgerMatchesCounter(s: State, caller: Option<UserId>, contactId: ContactId, today: Day)
    requires caller.Some?
    ensures var step := Reveal(s, caller, contactId, today);
      var granted := step.outcome.Revealed? && !step.outcome.alreadyRevealed;
      && |step.after.contactReveal| == |s.contactReveal| + (if granted then 1 else 0)
      && UsageCount(step.after, caller.value, today) == UsageCount(s, caller.value, today) + (if granted then 1 else 0)
  {
  }

  /** Other users' rows and pairs are never touched by a user's call. */
  lemma RevealFramesOtherUsers(s: State, user: UserId, contactId: ContactId, today: Day, other: UserId, c: ContactId)
    requires other != user
    ensures var after := Reveal(s, Some(user), contactId, today).after;
      && (other in after.userLimit <==> other in s.userLimit)
      && (other in s.userLimit ==> after.userLimit[other] == s.userLimit[other])
      && ((other, c) in after.contactReveal <==> (other, c) in s.contactReveal)
  {
  }

  /** As written, a new reveal of an id that names no contact still consumes a unit of quota
      and records the pair; the call returns no data. */
  lemma MissingContactStillCharged(s: State, user: UserId, contactId: ContactId, today: Day)
    requires contactId !in s.contacts
    requires (user, contactId) !in s.contactReveal
    requires UsageCount(s, user, today) < Quota.DailyLimit
    ensures var step := Reveal(s, Some(user), contactId, today);
      && step.outcome.Revealed? && step.outcome.data == None
      && UsageCount(step.after, user, today) == UsageCount(s, user, today) + 1
      && (user, contactId) in step.after.contactReveal
  {
  }

  /** The calls a signed-in user makes on one day for the given contacts. */
  ghost predicate OneUserOneDay(calls: seq<Call>, user: UserId, today: Day)
  {
    forall i :: 0 <= i < |calls| ==> calls[i].caller == Some(user) && calls[i].today == today
  }

  /** No two calls ask for the same contact, and none was revealed to `user` before. */
  ghost predicate FreshDistinct(s: State, calls: seq<Call>, user: UserId)
  {
    && (forall i, j :: 0 <= i < j < |calls| ==> calls[i].contactId != calls[j].contactId)
    && (forall i :: 0 <= i < |calls| ==> (user, calls[i].contactId) !in s.contactReveal)
  }

  /** One new reveal by a user at effective count k <= 50: it succeeds with k + 1 below the
      ceiling and returns LIMIT_REACHED at it, and the ledger gains only its own pair. */
  lemma NewRevealStep(s: State, user: UserId, contactId: ContactId, today: Day)
    requires (user, contactId) !in s.contactReveal
    requires UsageCount(s, user, today) <= Quota.DailyLimit
    ensures var k := UsageCount(s, user, today);
      var step := Reveal(s, Some(user), contactId, today);
      && step.outcome == (if k < Quota.DailyLimit
                          then Revealed(Lookup(s.contacts, contactId), k + 1, false)
                          else LimitReached)
      && UsageCount(step.after, user, today) == (if k < Quota.DailyLimit then k + 1 else k)
      && step.after.contacts == s.contacts
      && step.after.contactReveal == s.contactReveal + (if k < Quota.DailyLimit then {(user, contactId)} else {})
      && |step.after.contactReveal| == |s.contactReveal| + (if k < Quota.DailyLimit then 1 else 0)
  {
    LedgerMatchesCounter(s, Some(user), contactId, today);
  }

  /** The outcomes a day of new reveals has, for the given contacts, starting at count k. */
  ghost function DayOutcomes(contacts: map<ContactId, ContactDetails>, calls: seq<Call>, k: nat): seq<RevealOutcome>
    decreases |calls|
  {
    if calls == [] then []
    else if k < Quota.DailyLimit then
      [Revealed(Lookup(contacts, calls[0].contactId), k + 1, false)] + DayOutcomes(contacts, calls[1..], k + 1)
    else [LimitReached] + DayOutcomes(contacts, calls[1..], k)
  }

  /** Call i of such a day returns count k + i + 1 while that is within the ceiling, and
      LIMIT_REACHED after it. */
  lemma {:induction false} DayOutcomesAt(contacts: map<ContactId, ContactDetails>, calls: seq<Call>, k: nat, i: nat)
    requires k <= Quota.DailyLimit && i < |calls|
    ensures |DayOutcomes(contacts, calls, k)| == |calls|
    ensures DayOutcomes(contacts, calls, k)[i] ==
              if k + i < Quota.DailyLimit
              then Revealed(Lookup(contacts, calls[i].contactId), k + i + 1, false)
              else LimitReached
    decreases |calls|
  {
    DayOutcomesLength(contacts, calls, k);
    if i > 0 {
      var k' := if k < Quota.DailyLimit then k + 1 else k;
      DayOutcomesAt(contacts, calls[1..], k', i - 1);
      assert calls[1..][i - 1] == calls[i];
    }
  }

  lemma {:induction false} DayOutcomesLength(contacts: map<ContactId, ContactDetails>, calls: seq<Call>, k: nat)
    ensures |DayOutcomes(contacts, calls, k)| == |calls|
    decreases |calls|
  {
    if calls != [] {
      DayOutcomesLength(contacts, calls[1..], if k < Quota.DailyLimit then k + 1 else k);
    }
  }

  /** The pairs a day of new reveals records, starting at count k: those of the calls made
      while the count is below the ceiling. */
  ghost function DayGrants(user: UserId, calls: seq<Call>, k: nat): set<(UserId, ContactId)>
  {
    set i | 0 <= i < |calls| && k + i < Quota.DailyLimit :: (user, calls[i].contactId)
  }

  /** The pairs of a day split into those of its first call and those of the rest. */
  lemma DayGrantsStep(user: UserId, calls: seq<Call>, k: nat)
    requires calls != []
    ensures DayGrants(user, calls, k) ==
              (if k < Quota.DailyLimit then {(user, calls[0].contactId)} else {})
              + DayGrants(user, calls[1..], if k < Quota.DailyLimit then k + 1 else k)
  {
  }

  /** A day's run of new reveals by one user who starts the day at count `k` has the outcomes
      of `DayOutcomes`; it ends at count min(50, k + n), and the ledger gains exactly one pair
      per success. */
  lemma {:induction false} DayRun(s: State, calls: seq<Call>, user: UserId, today: Day)
    requires OneUserOneDay(calls, user, today)
    requires FreshDistinct(s, calls, user)
    requires UsageCount(s, user, today) <= Quota.DailyLimit
    ensures var k := UsageCount(s, user, today);
      var t := Run(s, calls);
      && t.outcomes == DayOutcomes(s.contacts, calls, k)
      && UsageCount(t.final, user, today) == (if k + |calls| < Quota.DailyLimit then k + |calls| else Quota.DailyLimit)
      && |t.final.contactReveal| == |s.contactReveal| + UsageCount(t.final, user, today) - k
    decreases |calls|
  {
    if calls != [] {
      var after := DayRest(s, calls, user, today);
      NewRevealStep(s, user, calls[0].contactId, today);
      DayRun(after, calls[1..], user, today);
    }
  }

  /** The first call of a day of new reveals leaves the rest of the day a day of new reveals,
      run on the state `after` it leaves, with the count one higher below the ceiling and the
      first call's pair recorded exactly then. */
  lemma DayRest(s: State, calls: seq<Call>, user: UserId, today: Day) returns (after: State)
    requires calls != []
    requires OneUserOneDay(calls, user, today)
    requires FreshDistinct(s, calls, user)
    requires UsageCount(s, user, today) <= Quota.DailyLimit
    ensures after == Reveal(s, Some(user), calls[0].contactId, today).after
    ensures Run(s, calls) == Trace([Reveal(s, Some(user), calls[0].contactId, today).outcome] + Run(after, calls[1..]).outcomes,
                                   Run(after, calls[1..]).final)
    ensures OneUserOneDay(calls[1..], user, today)
    ensures FreshDistinct(after, calls[1..], user)
    ensures var k := UsageCount(s, user, today);
      && UsageCount(after, user, today) == (if k < Quota.DailyLimit then k + 1 else k)
      && after.contactReveal == s.contactReveal + (if k < Quota.DailyLimit then {(user, calls[0].contactId)} else {})
  {
    var rest := calls[1..];
    assert calls[0] == Call(Some(user), calls[0].contactId, today);
    after := Reveal(s, Some(user), calls[0].contactId, today).after;
    NewRevealStep(s, user, calls[0].contactId, today);
    forall i | 0 <= i < |rest|
      ensures (user, rest[i].contactId) !in after.contactReveal
    {
      assert rest[i] == calls[i + 1];
    }
  }

  /** A day's run of new reveals records exactly the pairs of the calls made while the count
      is below the ceiling. */
  lemma {:induction false} DayRunLedger(s: State, calls: seq<Call>, user: UserId, today: Day)
    requires OneUserOneDay(calls, user, today)
    requires FreshDistinct(s, calls, user)
    requires UsageCount(s, user, today) <= Quota.DailyLimit
    ensures Run(s, calls).final.contactReveal == s.contactReveal + DayGrants(user, calls, UsageCount(s, user, today))
    decreases |calls|
  {
    if calls != [] {
      var after := DayRest(s, calls, user, today);
      DayRunLedger(after, calls[1..], user, today);
      DayGrantsStep(user, calls, UsageCount(s, user, today));
    }
  }

  /** A day's run of new reveals by one user who starts the day at count `k`: the calls succeed
      with counts k+1, k+2, ... until the ceiling, every later one returns LIMIT_REACHED, and the
      ledger gains exactly the pairs of the calls that succeed. */
  lemma DayOfNewReveals(s: State, calls: seq<Call>, user: UserId, today: Day)
    requires OneUserOneDay(calls, user, today)
    requires FreshDistinct(s, calls, user)
    requires UsageCount(s, user, today) <= Quota.DailyLimit
    ensures var k := UsageCount(s, user, today);
      var t := Run(s, calls);
      && (forall i :: 0 <= i < |calls| ==>
            t.outcomes[i] == (if k + i < Quota.DailyLimit
                              then Revealed(Lookup(s.contacts, calls[i].contactId), k + i + 1, false)
                              else LimitReached))
      && UsageCount(t.final, user, today) == (if k + |calls| < Quota.DailyLimit then k + |calls| else Quota.DailyLimit)
      && |t.final.contactReveal| == |s.contactReveal| + UsageCount(t.final, user, today) - k
      && t.final.contactReveal == s.contactReveal + DayGrants(user, calls, k)
  {
    var k := UsageCount(s, user, today);
    var t := Run(s, calls);
    DayRun(s, calls, user, today);
    DayRunLedger(s, calls, user, today);
    forall i | 0 <= i < |calls|
      ensures t.outcomes[i] ==
                (if k + i < Quota.DailyLimit
                 then Revealed(Lookup(s.contacts, calls[i].contactId), k + i + 1, false)
                 else LimitReached)
    {
      DayOutcomesAt(s.contacts, calls, k, i);
    }
  }
}
