/** The listing side of lib/actions.ts: how `getContacts` masks the sensitive fields of the
    contacts on a page, and the page arithmetic shared by `getContacts` and `getAgencies`.
    The rows that match the search and agency filter, in the query's order, are given as a
    sequence; the database's filtering and ordering are not modelled. */
module Listing {
  import opened Wrappers
  import opened Ledger

  /** What an unrevealed field shows. */
  const Masked: string := "****"

  /** What a revealed field shows when it holds no value. */
  const NotAvailable: string := "N/A"

  /** The page count: the total divided by the page size, rounded up. */
  function TotalPages(total: nat, pageSize: nat): (pages: nat)
    requires pageSize >= 1
    ensures pages * pageSize >= total
    ensures pages == 0 || (pages - 1) * pageSize < total
  {
    var q := (total + pageSize - 1) / pageSize;
    assert q * pageSize + (total + pageSize - 1) % pageSize == total + pageSize - 1;
    q
  }

  /** The number of rows the query skips before the page: the rows of all earlier pages. */
  function Skip(page: int, pageSize: nat): (skip: nat)
    requires page >= 1
  {
    (page - 1) * pageSize
  }

  /** The rows a query with `skip: (page - 1) * pageSize` and `take: pageSize` returns. */
  function PageOf<T>(rows: seq<T>, page: int, pageSize: nat): (r: seq<T>)
    requires page >= 1 && pageSize >= 1
    ensures |r| <= pageSize
    ensures Skip(page, pageSize) >= |rows| ==> r == []
    ensures r != [] ==> Skip(page, pageSize) + |r| <= |rows|
    ensures forall i :: 0 <= i < |r| ==> r[i] == rows[Skip(page, pageSize) + i]
    ensures Skip(page, pageSize) < |rows| ==> |r| == pageSize || Skip(page, pageSize) + |r| == |rows|
  {
    var skip := Skip(page, pageSize);
    if skip >= |rows| then []
    else if skip + pageSize <= |rows| then rows[skip .. skip + pageSize]
    else rows[skip ..]
  }

  /** The first `n` pages one after another. */
  ghost function Pages<T>(rows: seq<T>, pageSize: nat, n: nat): seq<T>
    requires pageSize >= 1
  {
    if n == 0 then [] else Pages(rows, pageSize, n - 1) + PageOf(rows, n, pageSize)
  }

  /** The first `n` pages are the first `n * pageSize` rows, or all of them. */
  lemma {:induction false} PagesArePrefix<T>(rows: seq<T>, pageSize: nat, n: nat)
    requires pageSize >= 1
    ensures Pages(rows, pageSize, n) == rows[..if n * pageSize <= |rows| then n * pageSize else |rows|]
  {
    if n > 0 {
      PagesArePrefix(rows, pageSize, n - 1);
      var skip := Skip(n, pageSize);
      assert skip + pageSize == n * pageSize;
      var cur := if skip + pageSize <= |rows| then skip + pageSize else |rows|;
      if skip < |rows| {
        assert PageOf(rows, n, pageSize) == rows[skip .. cur];
        assert rows[..skip] + rows[skip .. cur] == rows[..cur];
      } else {
        assert PageOf(rows, n, pageSize) == [];
      }
    }
  }

  /** Multiplying by a non-negative factor keeps the order. */
  lemma MulMonotonic(a: int, b: int, c: nat)
    requires a <= b
    ensures a * c <= b * c
  {
  }

  /** Pages 1 to `TotalPages` hold every row once, in order. */
  lemma PagesCoverAllRows<T>(rows: seq<T>, pageSize: nat)
    requires pageSize >= 1
    ensures Pages(rows, pageSize, TotalPages(|rows|, pageSize)) == rows
  {
    var n := TotalPages(|rows|, pageSize);
    PagesArePrefix(rows, pageSize, n);
    assert rows[..|rows|] == rows;
  }

  /** Exactly the pages 1 to `TotalPages` are non-empty: a page after the last is empty. */
  lemma NonEmptyPages<T>(rows: seq<T>, pageSize: nat, page: int)
    requires pageSize >= 1 && page >= 1
    ensures page <= TotalPages(|rows|, pageSize) <==> PageOf(rows, page, pageSize) != []
  {
    var n := TotalPages(|rows|, pageSize);
    if page <= n {
      MulMonotonic(page - 1, n - 1, pageSize);
    } else {
      MulMonotonic(n, page - 1, pageSize);
    }
  }

  /** A contact as the listing sends it: its id, its fields as shown, and whether the caller
      has revealed it. */
  datatype ListedContact = ListedContact(id: ContactId, email: string, phone: string, isRevealed: bool)

  /** A revealed field as shown: its value, or "N/A" when it is null or empty (both are
      falsy for the `||` that picks the fallback). */
  function ShowField(field: Option<string>): (shown: string)
    ensures field.Some? && field.value != "" ==> shown == field.value
    ensures field.None? || field.value == "" ==> shown == NotAvailable
  {
    if field.Some? && field.value != "" then field.value else NotAvailable
  }

  /** One listed contact for `user`: the fields are shown only when the pair is in the ledger and
      the contact's details were found. */
  function MaskContact(s: State, user: UserId, id: ContactId): (c: ListedContact)
    ensures c.id == id
    ensures c.isRevealed <==> (user, id) in s.contactReveal
    ensures !c.isRevealed || id !in s.contacts ==> c.email == Masked && c.phone == Masked
    ensures c.isRevealed && id in s.contacts ==>
              c.email == ShowField(s.contacts[id].email) && c.phone == ShowField(s.contacts[id].phone)
  {
    var isRevealed := (user, id) in s.contactReveal;
    var details := Lookup(s.contacts, id);
    if isRevealed && details.Some? then
      ListedContact(id, ShowField(details.value.email), ShowField(details.value.phone), isRevealed)
    else
      ListedContact(id, Masked, Masked, isRevealed)
  }

  datatype ContactsPage = ContactsPage(contacts: seq<ListedContact>, total: nat, totalPages: nat)

  /** `getContacts(page, pageSize, ...)` for `caller`, given the ids of the contacts that match
      the filter, in the query's order. */
  function GetContacts(s: State, caller: Option<UserId>, matching: seq<ContactId>, page: int, pageSize: nat): (r: ContactsPage)
    requires page >= 1 && pageSize >= 1
    ensures caller.None? ==> r == ContactsPage([], 0, 0)
    ensures caller.Some? ==>
              && r.total == |matching|
              && r.totalPages == TotalPages(|matching|, pageSize)
              && |r.contacts| == |PageOf(matching, page, pageSize)|
              && forall i :: 0 <= i < |r.contacts| ==>
                   r.contacts[i] == MaskContact(s, caller.value, matching[Skip(page, pageSize) + i])
  {
    match caller
    case None => ContactsPage([], 0, 0)
    case Some(user) =>
      var rows := PageOf(matching, page, pageSize);
      ContactsPage(seq(|rows|, i requires 0 <= i < |rows| => MaskContact(s, user, rows[i])),
                   |matching|, TotalPages(|matching|, pageSize))
  }

  datatype AgenciesPage<A> = AgenciesPage(agencies: seq<A>, total: nat, totalPages: nat)

  /** `getAgencies(page, pageSize)`, given all agencies in the query's order. It asks for no
      signed-in user. */
  function GetAgencies<A>(all: seq<A>, page: int, pageSize: nat): (r: AgenciesPage<A>)
    requires page >= 1 && pageSize >= 1
    ensures r.total == |all|
    // the page count is the least n whose n pages can hold every agency
    ensures r.totalPages * pageSize >= |all|
    ensures r.totalPages == 0 || (r.totalPages - 1) * pageSize < |all|
    // the page holds the agencies after the earlier pages' rows, at most pageSize of them
    ensures |r.agencies| <= pageSize
    ensures r.agencies != [] ==> Skip(page, pageSize) + |r.agencies| <= |all|
    ensures forall i :: 0 <= i < |r.agencies| ==> r.agencies[i] == all[Skip(page, pageSize) + i]
    ensures Skip(page, pageSize) < |all| ==>
              |r.agencies| == pageSize || Skip(page, pageSize) + |r.agencies| == |all|
    ensures Skip(page, pageSize) >= |all| ==> r.agencies == []
  {
    AgenciesPage(PageOf(all, page, pageSize), |all|, TotalPages(|all|, pageSize))
  }

  /** The agency pages 1 to n, one after another. */
  ghost function AgencyPages<A>(all: seq<A>, pageSize: nat, n: nat): seq<A>
    requires pageSize >= 1
  {
    if n == 0 then [] else AgencyPages(all, pageSize, n - 1) + GetAgencies(all, n, pageSize).agencies
  }

  /** Paging through `getAgencies` from page 1 to the `totalPages` it reports lists every agency
      once, in order, and the page after the last is empty. */
  lemma {:induction false} AgencyPagesCoverAll<A>(all: seq<A>, pageSize: nat)
    requires pageSize >= 1
    ensures var n := GetAgencies(all, 1, pageSize).totalPages;
      && AgencyPages(all, pageSize, n) == all
      && GetAgencies(all, n + 1, pageSize).agencies == []
  {
    var n := TotalPages(|all|, pageSize);
    AgencyPagesArePages(all, pageSize, n);
    PagesCoverAllRows(all, pageSize);
    NonEmptyPages(all, pageSize, n + 1);
  }

  /** The agency pages are the pages of the agency rows. */
  lemma {:induction false} AgencyPagesArePages<A>(all: seq<A>, pageSize: nat, n: nat)
    requires pageSize >= 1
    ensures AgencyPages(all, pageSize, n) == Pages(all, pageSize, n)
  {
    if n > 0 {
      AgencyPagesArePages(all, pageSize, n - 1);
    }
  }

  /** A contact is shown masked to a user until it is revealed, and after any call of
      `revealContactDetails` that returns its data the listing shows that data. */
  lemma RevealUnmasks(s: State, user: UserId, id: ContactId, today: Day)
    ensures (user, id) !in s.contactReveal ==>
              MaskContact(s, user, id).email == Masked && MaskContact(s, user, id).phone == Masked
    ensures var step := Reveal(s, Some(user), id, today);
      step.outcome.Revealed? && step.outcome.data.Some? ==>
        && MaskContact(step.after, user, id).isRevealed
        && MaskContact(step.after, user, id).email == ShowField(step.outcome.data.value.email)
        && MaskContact(step.after, user, id).phone == ShowField(step.outcome.data.value.phone)
  {
  }

  /** A call that does not reveal a new contact leaves every listing as it was. */
  lemma ListingUnchangedUnlessGranted(s: State, user: UserId, id: ContactId, today: Day, viewer: UserId, other: ContactId)
    requires var step := Reveal(s, Some(user), id, today);
      !(step.outcome.Revealed? && !step.outcome.alreadyRevealed)
    ensures MaskContact(Reveal(s, Some(user), id, today).after, viewer, other) == MaskContact(s, viewer, other)
  {
  }
}
