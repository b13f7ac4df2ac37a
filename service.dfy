/** The server actions of lib/actions.ts that read and write the quota tables, performed step by
    step on tables held in place: `userLimit` (one usage row per user), `contactReveal` (the
    ledger of revealed (user, contact) pairs) and `contacts` (the directory, only read here).
    Each method is proved to agree with its function in module Ledger, whose properties are
    proved there and in LedgerProperties. */
module Service {
  import opened Wrappers
  import opened Ledger
  import Quota

  class RevealService {
    var userLimit: map<UserId, Usage>
    var contactReveal: set<(UserId, ContactId)>
    var contacts: map<ContactId, ContactDetails>

    /** The tables as one value. */
    function Snapshot(): State
      reads this
    {
      State(userLimit, contactReveal, contacts)
    }

    /** A service over the given directory, with no usage rows and no reveals yet. */
    constructor (directory: map<ContactId, ContactDetails>)
      ensures Snapshot() == State(map[], {}, directory)
    {
      userLimit := map[];
      contactReveal := {};
      contacts := directory;
    }

    /** `getUserUsage`: reads the caller's row and applies the day rollover without writing. */
    method GetUserUsage(caller: Option<UserId>, today: Day) returns (r: Option<Usage>)
      ensures r == UserUsage(Snapshot(), caller, today)
    {
      if caller.None? {
        return None;
      }
      var user := caller.value;
      if user !in userLimit {
        return Some(NewRow(today));
      }
      var row := userLimit[user];
      if row.lastViewDay != today {
        return Some(Usage(0, today));
      }
      r := Some(row);
    }

    /** The ledger's `upsert`: creates the pair when it is absent, and its empty update leaves
        the ledger as it is when the pair is present. */
    method UpsertReveal(user: UserId, contactId: ContactId)
      modifies this`contactReveal
      ensures contactReveal == old(contactReveal) + {(user, contactId)}
    {
      if (user, contactId) !in contactReveal {
        contactReveal := contactReveal + {(user, contactId)};
      }
    }

    /** `revealContactDetails(contactId)` for `caller` on day `today`. */
    method RevealContactDetails(caller: Option<UserId>, contactId: ContactId, today: Day) returns (r: RevealOutcome)
      modifies this
      ensures Step(r, Snapshot()) == Reveal(old(Snapshot()), caller, contactId, today)
    {
      if caller.None? {
        return Unauthorized;
      }
      var user := caller.value;

      // already revealed: return the data without charging
      if (user, contactId) in contactReveal {
        var contact := Lookup(contacts, contactId);
        var usage := GetUserUsage(caller, today);
        var count := if usage.Some? then usage.value.count else 0;
        return Revealed(contact, count, true);
      }

      // 1. find or create the user's row
      var userUsage: Usage;
      if user in userLimit {
        userUsage := userLimit[user];
      } else {
        userUsage := NewRow(today);
        userLimit := userLimit[user := userUsage];
      }

      // 2. a new day resets the counter
      if userUsage.lastViewDay != today {
        userUsage := Usage(0, today);
        userLimit := userLimit[user := userUsage];
      }

      // 3. the ceiling
      if userUsage.count >= Quota.DailyLimit {
        return LimitReached;
      }

      // 4. increment the stored count
      userLimit := userLimit[user := userLimit[user].(count := userLimit[user].count + 1)];
      var updatedUsage := userLimit[user];

      // 5. record the reveal
      UpsertReveal(user, contactId);

      var contact := Lookup(contacts, contactId);
      r := Revealed(contact, updatedUsage.count, false);
    }
  }
}
