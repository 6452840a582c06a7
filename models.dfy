/** The records of the library catalog and the rules that hang off them:
    loan periods by media type, overdue and fine arithmetic, renewal limits,
    and the per-patron counters.

    Times are whole seconds on one common clock; "now" is always a parameter.
    Money is in whole cents. */
module CatalogModels {

  datatype Option<T> = None | Some(value: T)

  type Time = int
  type PatronId = nat
  type LibrarianId = nat
  type ItemId = nat
  type CheckoutId = nat

  const SecondsPerDay: nat := 86400
  /** The flat late fee, 0.45 a day, in cents; the same for every media type. */
  const FinePerDayCents: nat := 45
  const MaxRenewals: nat := 2

  // ---------------------------------------------------------------------------
  // Status and type choice sets
  // ---------------------------------------------------------------------------

  datatype PatronStatus = Active | Expired | Suspended

  /** The catalog's media types. `Other` is any stored value outside the choice list, which the
      `librarian_add_item` view can store because it saves the posted type unchecked. Its `name`
      is never one of "book", "audiobook", "dvd", "cd" or "magazine": those values are the five
      constructors before it. */
  datatype MediaType = Book | Audiobook | Dvd | Cd | Magazine | Other(name: string)

  datatype ItemStatus = Available | CheckedOut | OnHold | InTransit | Lost

  datatype HoldStatus = Pending | Ready | InTransit | PickedUp | Cancelled | Expired
  {
    /** The statuses the patron-facing pages and the duplicate-hold check treat as a live hold. */
    predicate IsActive() { Pending? || Ready? || InTransit? }
  }

  datatype RequestStatus = Pending | Approved | Rejected

  datatype Action =
    | CheckoutAction | CheckinAction | HoldPlaced | HoldCancelled
    | RequestSubmitted | RequestApproved | PatronCreated | Renewal

  // ---------------------------------------------------------------------------
  // Records
  // ---------------------------------------------------------------------------

  /** A member account. The PIN hash is not modelled. */
  datatype Patron = Patron(
    name: string, email: string, cardNumber: string,
    status: PatronStatus, expiresAt: Option<Time>)

  /** A staff account. The password hash is not modelled. */
  datatype Librarian = Librarian(username: string, email: string)

  /** A lendable unit of the catalog (descriptive fields such as genre or location are not modelled). */
  datatype MediaItem = MediaItem(
    title: string, author: string, mediaType: MediaType,
    barcode: string, status: ItemStatus)

  /** One loan of one item to one patron. It is open while `returnedAt` is `None`. */
  datatype Checkout = Checkout(
    patron: PatronId, item: ItemId, checkedOutAt: Time,
    dueDate: Time, returnedAt: Option<Time>, renewals: nat)

  datatype Hold = Hold(
    patron: PatronId, item: ItemId, placedAt: Time, status: HoldStatus,
    queuePosition: int, pickupBy: Option<Time>, pickupLocation: string)

  /** An acquisition suggestion; `mediaType` is the free choice of the request form. */
  datatype MediaRequest = MediaRequest(
    patron: PatronId, title: string, author: string, mediaType: string,
    reason: string, status: RequestStatus, notifyWhenAvailable: bool,
    requestedAt: Time, reviewedAt: Option<Time>, reviewedBy: Option<LibrarianId>)

  /** A monetary obligation in cents, fixed when it is created. */
  datatype Fine = Fine(
    patron: PatronId, checkout: Option<CheckoutId>, amount: nat,
    createdAt: Time, paid: bool, paidAt: Option<Time>)

  datatype LogEntry = LogEntry(
    action: Action, patron: Option<PatronId>, item: Option<ItemId>,
    librarian: Option<LibrarianId>, createdAt: Time)

  // ---------------------------------------------------------------------------
  // Loan period and fine rate of an item
  // ---------------------------------------------------------------------------

  /** Days an item of the given type may be kept: a week for discs, two for magazines, three otherwise. */
  function LoanPeriodDays(t: MediaType): (days: nat)
    ensures days == 7 <==> t == Dvd || t == Cd
    ensures days == 14 <==> t == Magazine
    ensures days == 21 <==> !(t == Dvd || t == Cd || t == Magazine)
  {
    match t
    case Dvd | Cd => 7
    case Magazine => 14
    case _ => 21
  }

  lemma LoanPeriodBounds(t: MediaType)
    ensures 7 <= LoanPeriodDays(t) <= 21
    ensures LoanPeriodDays(t) % 7 == 0
  {
  }

  /** The rate charged for each whole day late; it ignores the item. */
  function FinePerDay(item: MediaItem): (cents: nat)
    ensures cents == FinePerDayCents
  {
    FinePerDayCents
  }

  // ---------------------------------------------------------------------------
  // Overdue arithmetic
  // ---------------------------------------------------------------------------

  /** The instant lateness is judged at: the return time once returned, otherwise now. */
  function CheckTime(c: Checkout, now: Time): (t: Time)
    ensures c.returnedAt.Some? ==> t == c.returnedAt.value
    ensures c.returnedAt.None? ==> t == now
  {
    match c.returnedAt
    case Some(r) => r
    case None => now
  }

  /** Late at all, even by a second: judged at the return time once returned, otherwise at now. */
  function IsOverdue(c: Checkout, now: Time): (late: bool)
    ensures c.returnedAt.Some? ==> (late <==> c.returnedAt.value > c.dueDate)
    ensures c.returnedAt.None? ==> (late <==> now > c.dueDate)
  {
    CheckTime(c, now) > c.dueDate
  }

  /** Whole days late, fractions dropped; zero when not late at all. */
  function DaysOverdue(c: Checkout, now: Time): (days: nat)
    ensures CheckTime(c, now) <= c.dueDate ==> days == 0
    ensures CheckTime(c, now) > c.dueDate ==>
      days * SecondsPerDay <= CheckTime(c, now) - c.dueDate < (days + 1) * SecondsPerDay
    ensures days > 0 ==> IsOverdue(c, now)
  {
    var t := CheckTime(c, now);
    if t <= c.dueDate then 0 else (t - c.dueDate) / SecondsPerDay
  }

  /** Being late is not the same as owing: under a full day late counts as overdue but as zero days. */
  lemma OverdueWithoutWholeDay(c: Checkout, now: Time)
    requires c.dueDate < CheckTime(c, now) < c.dueDate + SecondsPerDay
    ensures IsOverdue(c, now) && DaysOverdue(c, now) == 0
  {
  }

  /** Whole days left before the due date. The clock is read twice: `t1` for the past-due test and
      then `t2` for the difference, so the result is an `int`. */
  function DaysUntilDue(c: Checkout, t1: Time, t2: Time): (days: int)
    ensures c.returnedAt.Some? || t1 > c.dueDate ==> days == 0
    ensures c.returnedAt.None? && t1 <= c.dueDate ==>
      days * SecondsPerDay <= c.dueDate - t2 < (days + 1) * SecondsPerDay
  {
    if c.returnedAt.Some? then 0
    else if t1 > c.dueDate then 0
    else (c.dueDate - t2) / SecondsPerDay
  }

  /** Read at one instant, the days left are never negative. */
  lemma DaysUntilDueAtOneInstant(c: Checkout, now: Time)
    ensures DaysUntilDue(c, now, now) >= 0
  {
  }

  /** With the second read at most a day after the first, the result is never below -1, and it is -1
      exactly when the due date of an open loan falls between the two reads. */
  lemma DaysUntilDueBetweenReads(c: Checkout, t1: Time, t2: Time)
    requires t1 <= t2 <= t1 + SecondsPerDay
    ensures DaysUntilDue(c, t1, t2) >= -1
    ensures DaysUntilDue(c, t1, t2) == -1 <==> c.returnedAt.None? && t1 <= c.dueDate < t2
  {
  }

  /** The late fee in cents for this loan judged at `now`. */
  function CalculateFine(c: Checkout, item: MediaItem, now: Time): (cents: nat)
    ensures cents == 0 <==> DaysOverdue(c, now) == 0
    ensures cents == DaysOverdue(c, now) * FinePerDayCents
  {
    var days := DaysOverdue(c, now);
    if days <= 0 then 0 else days * FinePerDay(item)
  }

  /** The fee of an open loan never shrinks as time passes. */
  lemma FineGrowsWithLateness(c: Checkout, item: MediaItem, t1: Time, t2: Time)
    requires c.returnedAt.None? && t1 <= t2
    ensures DaysOverdue(c, t1) <= DaysOverdue(c, t2)
    ensures CalculateFine(c, item, t1) <= CalculateFine(c, item, t2)
  {
  }

  /** A week's loan taken out at `t`, due at `t` plus seven days and handed back three days late, costs 1.35. */
  lemma {:induction false} ThreeDaysLateExample(item: MediaItem, t: Time)
    requires LoanPeriodDays(item.mediaType) == 7
    ensures var due := t + LoanPeriodDays(item.mediaType) * SecondsPerDay;
            var c := Checkout(0, 0, t, due, Some(t + 10 * SecondsPerDay), 0);
            DaysOverdue(c, t + 10 * SecondsPerDay) == 3 && CalculateFine(c, item, t + 10 * SecondsPerDay) == 135
  {
    var due := t + 7 * SecondsPerDay;
    var c := Checkout(0, 0, t, due, Some(t + 10 * SecondsPerDay), 0);
    assert CheckTime(c, t + 10 * SecondsPerDay) - c.dueDate == 3 * SecondsPerDay;
    assert DaysOverdue(c, t + 10 * SecondsPerDay) == 3;
  }

  // ---------------------------------------------------------------------------
  // Renewal
  // ---------------------------------------------------------------------------

  /** Never once returned; otherwise exactly while under two renewals and not past due. */
  function CanRenew(c: Checkout, now: Time): (ok: bool)
    ensures c.returnedAt.Some? ==> !ok
    ensures c.returnedAt.None? ==> (ok <==> c.renewals < 2 && now <= c.dueDate)
  {
    if c.returnedAt.Some? then false
    else c.renewals < MaxRenewals && now <= c.dueDate
  }

  /** One renewal attempt at `now` for an item whose loan period is `loanDays`:
      whether it succeeded and the loan afterwards. */
  function TryRenew(c: Checkout, loanDays: nat, now: Time): (r: (bool, Checkout))
    ensures r.0 <==> c.returnedAt.None? && c.renewals < MaxRenewals && now <= c.dueDate
    ensures r.0 ==> r.1.dueDate == now + loanDays * SecondsPerDay && r.1.renewals == c.renewals + 1
    ensures r.0 ==> (r.1.patron == c.patron && r.1.item == c.item &&
                     r.1.checkedOutAt == c.checkedOutAt && r.1.returnedAt == c.returnedAt)
    ensures !r.0 ==> r.1 == c
  {
    if CanRenew(c, now) then
      (true, c.(dueDate := now + loanDays * SecondsPerDay, renewals := c.renewals + 1))
    else
      (false, c)
  }

  /** A run of renewal attempts at the given times: the number that succeeded and the final loan. */
  function RenewAttempts(c: Checkout, loanDays: nat, times: seq<Time>): (r: (nat, Checkout))
    decreases |times|
  {
    if times == [] then (0, c)
    else
      var (ok, c') := TryRenew(c, loanDays, times[0]);
      var (n, last) := RenewAttempts(c', loanDays, times[1..]);
      (if ok then n + 1 else n, last)
  }

  /** However often a patron tries, a loan is renewed at most twice in all. */
  lemma {:induction false} RenewalsBounded(c: Checkout, loanDays: nat, times: seq<Time>)
    requires c.renewals <= MaxRenewals
    ensures var (n, last) := RenewAttempts(c, loanDays, times);
            last.renewals == c.renewals + n && last.renewals <= MaxRenewals
            && n <= MaxRenewals - c.renewals
    decreases |times|
  {
    if times != [] {
      var (ok, c') := TryRenew(c, loanDays, times[0]);
      RenewalsBounded(c', loanDays, times[1..]);
    }
  }

  lemma {:induction false} FreshLoanRenewsAtMostTwice(c: Checkout, loanDays: nat, times: seq<Time>)
    requires c.renewals == 0
    ensures RenewAttempts(c, loanDays, times).0 <= 2
  {
    RenewalsBounded(c, loanDays, times);
  }

  // ---------------------------------------------------------------------------
  // Per-patron counters
  // ---------------------------------------------------------------------------

  /** The number of elements of `s` that `keep` selects. */
  function Count<T>(s: seq<T>, keep: T -> bool): (n: nat)
    ensures n <= |s|
    ensures n == 0 <==> forall i :: 0 <= i < |s| ==> !keep(s[i])
    decreases |s|
  {
    if s == [] then 0
    else (if keep(s[0]) then 1 else 0) + Count(s[1..], keep)
  }

  function Indicator(b: bool): (n: nat) { if b then 1 else 0 }

  lemma {:induction false} CountAppend<T>(s: seq<T>, t: seq<T>, keep: T -> bool)
    ensures Count(s + t, keep) == Count(s, keep) + Count(t, keep)
    decreases |s|
  {
    if s == [] {
      assert s + t == t;
    } else {
      assert (s + t)[1..] == s[1..] + t;
      CountAppend(s[1..], t, keep);
    }
  }

  /** Replacing one element changes the count by what the old and the new element contribute. */
  lemma {:induction false} CountUpdate<T>(s: seq<T>, j: nat, v: T, keep: T -> bool)
    requires j < |s|
    ensures Count(s[j := v], keep) + Indicator(keep(s[j])) == Count(s, keep) + Indicator(keep(v))
    decreases |s|
  {
    if j == 0 {
      assert s[j := v][1..] == s[1..];
    } else {
      assert s[j := v][1..] == s[1..][j - 1 := v];
      CountUpdate(s[1..], j - 1, v, keep);
    }
  }

  function PatronOpenLoan(patron: PatronId): Checkout -> bool {
    (c: Checkout) => c.patron == patron && c.returnedAt.None?
  }

  function ActiveHoldOf(patron: PatronId): Hold -> bool {
    (h: Hold) => h.patron == patron && h.status.IsActive()
  }

  /** The items a patron has out right now. */
  function CheckedOutCount(checkouts: seq<Checkout>, patron: PatronId): (n: nat)
    ensures n <= |checkouts|
    ensures n == 0 <==> forall i :: 0 <= i < |checkouts| ==>
      checkouts[i].patron != patron || checkouts[i].returnedAt.Some?
  {
    Count(checkouts, PatronOpenLoan(patron))
  }

  /** The patron's holds that are pending, ready or in transit. */
  function HoldsCount(holds: seq<Hold>, patron: PatronId): (n: nat)
    ensures n <= |holds|
    ensures n == 0 <==> forall i :: 0 <= i < |holds| ==>
      holds[i].patron != patron || !holds[i].status.IsActive()
  {
    Count(holds, ActiveHoldOf(patron))
  }

  /** What one fine adds to a patron's balance: its amount while unpaid, nothing otherwise. */
  function Owed(f: Fine, patron: PatronId): (cents: nat) {
    if f.patron == patron && !f.paid then f.amount else 0
  }

  /** The sum of the patron's unpaid fines, in cents. */
  function TotalFines(fines: seq<Fine>, patron: PatronId): (cents: nat)
    ensures (forall i :: 0 <= i < |fines| ==> fines[i].paid || fines[i].patron != patron) ==> cents == 0
    ensures forall i :: 0 <= i < |fines| ==> Owed(fines[i], patron) <= cents
    decreases |fines|
  {
    if fines == [] then 0
    else Owed(fines[0], patron) + TotalFines(fines[1..], patron)
  }

  lemma {:induction false} TotalFinesAppend(fines: seq<Fine>, f: Fine, patron: PatronId)
    ensures TotalFines(fines + [f], patron) == TotalFines(fines, patron) + Owed(f, patron)
    decreases |fines|
  {
    if fines == [] {
      assert fines + [f] == [f];
      assert [f][1..] == [];
    } else {
      assert (fines + [f])[1..] == fines[1..] + [f];
      TotalFinesAppend(fines[1..], f, patron);
    }
  }
}
