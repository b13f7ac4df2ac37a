/** The reveal-quota state machine of lib/actions.ts, on values: the `UserLimit` table (one usage
    row per user), the `ContactReveal` ledger of (user, contact) pairs and the contact directory,
    with the read path `getUserUsage` and the write path `revealContactDetails` as functions of
    that state.  The class in service.dfy performs the same steps in place and is proved to
    agree with these functions. */
module Ledger {
  import opened Wrappers
  import Quota

  /** The identity provider's user id. The guard `if (!userId)` refuses an empty id exactly as it
      refuses a missing one, so a caller that passes it holds a non-empty id, and `None`
      stands for both. */
  type UserId = u: string | u != "" witness "user"

  /** The directory's opaque contact id. */
  type ContactId = string

  /** A calendar day. Two instants are on the same day exactly when their days are equal. */
  type Day = int

  /** The sensitive fields of a contact; both are nullable columns. */
  datatype ContactDetails = ContactDetails(email: Option<string>, phone: Option<string>)

  /** A `UserLimit` row, and also what `getUserUsage` answers: a count and the day it applies to. */
  datatype Usage = Usage(count: nat, lastViewDay: Day)

  datatype State = State(
    userLimit: map<UserId, Usage>,
    contactReveal: set<(UserId, ContactId)>,
    contacts: map<ContactId, ContactDetails>)

  /** What `revealContactDetails` gives back: the thrown "Unauthorized" error, the
      `LIMIT_REACHED` error, or the contact's data (null when the id names no contact)
      together with the usage count to display. */
  datatype RevealOutcome =
    | Unauthorized
    | LimitReached
    | Revealed(data: Option<ContactDetails>, count: nat, alreadyRevealed: bool)

  datatype Step = Step(outcome: RevealOutcome, after: State)

  /** A row as `userLimit.create` makes it: the schema defaults, count 0 and the current day. */
  function NewRow(today: Day): Usage
  {
    Usage(0, today)
  }

  /** `getUserUsage`: the caller's usage as of `today`, without writing. */
  function UserUsage(s: State, caller: Option<UserId>, today: Day): (r: Option<Usage>)
    ensures caller.None? <==> r.None?
    ensures r.Some? ==> r.value.lastViewDay == today
    ensures r.Some? ==>
              r.value.count == if caller.value in s.userLimit && s.userLimit[caller.value].lastViewDay == today
                               then s.userLimit[caller.value].count else 0
  {
    match caller
    case None => None
    case Some(user) =>
      if user !in s.userLimit then Some(NewRow(today))
      else if s.userLimit[user].lastViewDay != today then Some(Usage(0, today))
      else Some(s.userLimit[user])
  }

  /** The count `getUserUsage` reports for a signed-in user. */
  function UsageCount(s: State, user: UserId, today: Day): nat
  {
    UserUsage(s, Some(user), today).value.count
  }

  /** `revealContactDetails(contactId)` called by `caller` on day `today`. */
  function Reveal(s: State, caller: Option<UserId>, contactId: ContactId, today: Day): (r: Step)
    // the directory is never written
    ensures r.after.contacts == s.contacts
    // no caller: the error, before anything is read or written
    ensures caller.None? ==> r == Step(Unauthorized, s)
    // already revealed: free, nothing written, the count the read path reports
    ensures caller.Some? && (caller.value, contactId) in s.contactReveal ==>
      r == Step(Revealed(Lookup(s.contacts, contactId), UsageCount(s, caller.value, today), true), s)
    // ceiling: a row just created or rolled over holds 0, so a refusal finds today's row at 50
    // or more, and its writes leave every table as it was
    ensures (caller.Some? && (caller.value, contactId) !in s.contactReveal
      && UsageCount(s, caller.value, today) >= Quota.DailyLimit) ==>
      r == Step(LimitReached, s)
    // a new reveal: one more than the rolled-over count, and exactly the one pair added
    ensures (caller.Some? && (caller.value, contactId) !in s.contactReveal
      && UsageCount(s, caller.value, today) < Quota.DailyLimit) ==>
      && r.outcome == Revealed(Lookup(s.contacts, contactId), UsageCount(s, caller.value, today) + 1, false)
      && r.after.contactReveal == s.contactReveal + {(caller.value, contactId)}
      && r.after.userLimit == s.userLimit[caller.value := Usage(UsageCount(s, caller.value, today) + 1, today)]
  {
    match caller
    case None => Step(Unauthorized, s)
    case Some(user) =>
      if (user, contactId) in s.contactReveal then
        var usage := UserUsage(s, caller, today);
        var count := if usage.Some? then usage.value.count else 0;
        Step(Revealed(Lookup(s.contacts, contactId), count, true), s)
      else
        var found := if user in s.userLimit then s.userLimit[user] else NewRow(today);
        var current := if found.lastViewDay != today then Usage(0, today) else found;
        var limits := s.userLimit[user := current];
        if current.count >= Quota.DailyLimit then
          Step(LimitReached, s.(userLimit := limits))
        else
          var updated := current.(count := current.count + 1);
          Step(Revealed(Lookup(s.contacts, contactId), updated.count, false),
               s.(userLimit := limits[user := updated], contactReveal := s.contactReveal + {(user, contactId)}))
  }
}
