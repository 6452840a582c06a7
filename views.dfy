/** The state-changing request handlers of the library app (checkout, checkin,
    renewal, hold placement and cancellation, request review), run against an
    in-memory store whose tables are sequences indexed by record id.

    Looking up a missing record (a 404 in the web app) is an error result and
    changes nothing; the signed-in patron or librarian is passed in by id, and
    the current time is a parameter. */
module CatalogViews {
  import opened CatalogModels

  type HoldId = nat
  type RequestId = nat

  datatype Error =
    | PatronNotFound | LibrarianNotFound | ItemNotFound | CheckoutNotFound
    | HoldNotFound | RequestNotFound | AlreadyHeld | CannotRenew | NotCheckedOut

  datatype Outcome = Done | Failed(error: Error)

  datatype Result<T> = Ok(value: T) | Err(error: Error)

  /** One row of the check-in results page. */
  datatype CheckinReport = CheckinReport(
    item: ItemId, patron: PatronId, dueDate: Time,
    isOverdue: bool, daysOverdue: nat, fine: nat)

  // ---------------------------------------------------------------------------
  // Queries the handlers make
  // ---------------------------------------------------------------------------

  /** The first index whose element `keep` selects, if any. */
  function FirstIndex<T>(s: seq<T>, keep: T -> bool): (r: Option<nat>)
    ensures r.Some? ==> r.value < |s| && keep(s[r.value])
    ensures r.Some? ==> forall j :: 0 <= j < r.value ==> !keep(s[j])
    ensures r.None? <==> forall j :: 0 <= j < |s| ==> !keep(s[j])
    decreases |s|
  {
    if s == [] then None
    else if keep(s[0]) then Some(0)
    else match FirstIndex(s[1..], keep)
      case None => None
      case Some(i) => Some(i + 1)
  }

  function HasBarcode(barcode: string): MediaItem -> bool {
    (m: MediaItem) => m.barcode == barcode
  }

  function ItemOpenLoan(item: ItemId): Checkout -> bool {
    (c: Checkout) => c.item == item && c.returnedAt.None?
  }

  function PendingOn(item: ItemId): Hold -> bool {
    (h: Hold) => h.item == item && h.status == HoldStatus.Pending
  }

  /** The item with this barcode. */
  function FindByBarcode(items: seq<MediaItem>, barcode: string): (r: Option<ItemId>)
    ensures r.Some? ==> r.value < |items| && items[r.value].barcode == barcode
    ensures r.None? <==> forall i :: 0 <= i < |items| ==> items[i].barcode != barcode
  {
    FirstIndex(items, HasBarcode(barcode))
  }

  /** The first loan of the item that has not been returned. */
  function FindOpenLoan(checkouts: seq<Checkout>, item: ItemId): (r: Option<CheckoutId>)
    ensures r.Some? ==> r.value < |checkouts| && checkouts[r.value].item == item
                        && checkouts[r.value].returnedAt.None?
    ensures r.Some? ==> forall j :: 0 <= j < r.value ==>
                          checkouts[j].item != item || checkouts[j].returnedAt.Some?
    ensures r.None? <==> forall j :: 0 <= j < |checkouts| ==>
                           checkouts[j].item != item || checkouts[j].returnedAt.Some?
  {
    FirstIndex(checkouts, ItemOpenLoan(item))
  }

  /** Whether the patron already has a pending, ready or in-transit hold on the item. */
  predicate HasActiveHold(holds: seq<Hold>, patron: PatronId, item: ItemId)
    ensures HasActiveHold(holds, patron, item) ==> HoldsCount(holds, patron) > 0
  {
    exists i :: 0 <= i < |holds| && holds[i].patron == patron && holds[i].item == item
                && holds[i].status.IsActive()
  }

  /** The place a new hold on the item is given: one behind the holds on it still pending. */
  function QueuePosition(holds: seq<Hold>, item: ItemId): (pos: int)
    ensures 1 <= pos <= |holds| + 1
    ensures pos == 1 <==> forall i :: 0 <= i < |holds| ==>
                            holds[i].item != item || holds[i].status != HoldStatus.Pending
  {
    Count(holds, PendingOn(item)) + 1
  }

  /** The hold a patron places: pending at the given position, with the record's defaults. */
  function NewHold(patron: PatronId, item: ItemId, now: Time, pos: int): (h: Hold)
    ensures h.patron == patron && h.item == item && h.placedAt == now
    ensures h.status == HoldStatus.Pending && h.status.IsActive() && h.queuePosition == pos
    ensures h.pickupBy.None? && h.pickupLocation == "Main Branch"
  {
    Hold(patron, item, now, HoldStatus.Pending, pos, None, "Main Branch")
  }

  /** Queue positions are handed out once and never repacked, so after a cancellation
      the next hold can be given the same position as one still waiting. */
  lemma QueuePositionsCanRepeat(item: ItemId, a: PatronId, b: PatronId, t: Time)
    ensures var first := NewHold(a, item, t, QueuePosition([], item));
            var second := NewHold(b, item, t, QueuePosition([first], item));
            var afterCancel := [first.(status := Cancelled), second];
            second.queuePosition == 2 && QueuePosition(afterCancel, item) == 2
  {
    var pending := PendingOn(item);
    assert Count([], pending) == 0;
    var first := NewHold(a, item, t, QueuePosition([], item));
    assert [first][1..] == [];
    assert pending(first);
    assert Count([first], pending) == 1;
    var second := NewHold(b, item, t, QueuePosition([first], item));
    assert second.queuePosition == 2;
    var afterCancel := [first.(status := Cancelled), second];
    assert afterCancel[1..] == [second];
    assert [second][1..] == [];
    assert !pending(afterCancel[0]) && pending(second);
    assert Count([second], pending) == 1;
    assert Count(afterCancel, pending) == 1;
  }

  /** The review fields a librarian's decision writes: whatever was there before is overwritten. */
  function Reviewed(r: MediaRequest, verdict: RequestStatus, librarian: LibrarianId, now: Time): (r': MediaRequest)
    ensures r'.status == verdict && r'.reviewedAt == Some(now) && r'.reviewedBy == Some(librarian)
    ensures r'.patron == r.patron && r'.title == r.title && r'.author == r.author
    ensures r'.mediaType == r.mediaType && r'.reason == r.reason
    ensures r'.notifyWhenAvailable == r.notifyWhenAvailable && r'.requestedAt == r.requestedAt
  {
    r.(status := verdict, reviewedAt := Some(now), reviewedBy := Some(librarian))
  }

  /** A second review wins outright: nothing of the first survives. */
  lemma ReviewIsLastWriterWins(r: MediaRequest, v1: RequestStatus, l1: LibrarianId, t1: Time,
                               v2: RequestStatus, l2: LibrarianId, t2: Time)
    ensures Reviewed(Reviewed(r, v1, l1, t1), v2, l2, t2) == Reviewed(r, v2, l2, t2)
  {
  }

  // ---------------------------------------------------------------------------
  // The batch checkout, as sequences
  // ---------------------------------------------------------------------------

  /** How many of the submitted ids the checkout loop gets through: it stops at the first id
      that names no item. */
  function ProcessedCount(ids: seq<ItemId>, itemCount: nat): (k: nat)
    ensures k <= |ids|
    ensures forall j :: 0 <= j < k ==> ids[j] < itemCount
    ensures k < |ids| ==> ids[k] >= itemCount
    decreases |ids|
  {
    if ids == [] || ids[0] >= itemCount then 0
    else 1 + ProcessedCount(ids[1..], itemCount)
  }

  /** Below the stopping point, the loop goes on exactly while the next id names an item. */
  lemma ProcessedCountAt(ids: seq<ItemId>, itemCount: nat, k: nat)
    requires k <= ProcessedCount(ids, itemCount)
    ensures (k < |ids| && ids[k] < itemCount) <==> k < ProcessedCount(ids, itemCount)
  {
  }

  /** The ids, in submission order, that a checkout pass over `ids` lends: an existing item
      that is available when its id comes up. Only lent items change status, so that is an item
      available beforehand and not lent earlier in the pass (a repeated id finds it already out). */
  function Lendable(items: seq<MediaItem>, ids: seq<ItemId>): (lent: seq<ItemId>)
    decreases |ids|
  {
    if ids == [] then []
    else
      var prev := Lendable(items, ids[..|ids| - 1]);
      var x := ids[|ids| - 1];
      if x < |items| && items[x].status == Available && x !in prev then prev + [x] else prev
  }

  /** Only ids that were submitted and name an item available beforehand are lent, and each only once. */
  lemma {:induction false} LendableSound(items: seq<MediaItem>, ids: seq<ItemId>)
    ensures forall a :: 0 <= a < |Lendable(items, ids)| ==>
              var y := Lendable(items, ids)[a]; y in ids && y < |items| && items[y].status == Available
    ensures forall a, b :: 0 <= a < b < |Lendable(items, ids)| ==> Lendable(items, ids)[a] != Lendable(items, ids)[b]
    decreases |ids|
  {
    if ids != [] {
      var init := ids[..|ids| - 1];
      var prev, x := Lendable(items, init), ids[|ids| - 1];
      LendableSound(items, init);
      assert forall y :: y in init ==> y in ids;
      if x < |items| && items[x].status == Available && x !in prev {
        var lent := prev + [x];
        assert forall a :: 0 <= a < |prev| ==> lent[a] == prev[a];
        assert lent[|prev|] == x && x in ids;
        assert Lendable(items, ids) == lent;
        forall a, b | 0 <= a < b < |lent| ensures lent[a] != lent[b] {
          if b == |prev| { assert lent[a] == prev[a] && prev[a] in prev; }
        }
      } else {
        assert Lendable(items, ids) == prev;
      }
    }
  }

  /** Every submitted id that names an item available beforehand is lent. */
  lemma {:induction false} LendableComplete(items: seq<MediaItem>, ids: seq<ItemId>)
    ensures forall j :: 0 <= j < |ids| && ids[j] < |items| && items[ids[j]].status == Available
                        ==> ids[j] in Lendable(items, ids)
    decreases |ids|
  {
    if ids != [] {
      var init := ids[..|ids| - 1];
      LendableComplete(items, init);
      assert forall j :: 0 <= j < |init| ==> init[j] == ids[j];
    }
  }

  /** The loan a checkout creates: due one loan period from now, not returned, never renewed. */
  function NewLoan(item: MediaItem, id: ItemId, patron: PatronId, now: Time): (c: Checkout)
    ensures c.patron == patron && c.item == id && c.checkedOutAt == now
    ensures c.dueDate - now == LoanPeriodDays(item.mediaType) * SecondsPerDay
    ensures c.dueDate - now >= 7 * SecondsPerDay
    ensures c.returnedAt.None? && c.renewals == 0
  {
    Checkout(patron, id, now, now + LoanPeriodDays(item.mediaType) * SecondsPerDay, None, 0)
  }

  /** The loans a checkout pass creates, one per lent item, in order. */
  function NewLoans(items: seq<MediaItem>, patron: PatronId, lent: seq<ItemId>, now: Time): (loans: seq<Checkout>)
    decreases |lent|
  {
    if lent == [] then []
    else
      var id := lent[|lent| - 1];
      NewLoans(items, patron, lent[..|lent| - 1], now)
        + (if id < |items| then [NewLoan(items[id], id, patron, now)] else [])
  }

  /** Loan by loan, a pass creates for each lent item, in lending order, the loan `NewLoan` describes. */
  lemma {:induction false} NewLoansAt(items: seq<MediaItem>, patron: PatronId, lent: seq<ItemId>, now: Time)
    requires forall a :: 0 <= a < |lent| ==> lent[a] < |items|
    ensures |NewLoans(items, patron, lent, now)| == |lent|
    ensures forall a :: 0 <= a < |lent| ==>
              NewLoans(items, patron, lent, now)[a] == NewLoan(items[lent[a]], lent[a], patron, now)
    decreases |lent|
  {
    if lent != [] {
      var init, id := lent[..|lent| - 1], lent[|lent| - 1];
      NewLoansAt(items, patron, init, now);
      assert forall a :: 0 <= a < |init| ==> init[a] == lent[a];
      var prev := NewLoans(items, patron, init, now);
      assert NewLoans(items, patron, lent, now) == prev + [NewLoan(items[id], id, patron, now)];
    }
  }

  /** The log entries a checkout pass writes, one per lent item, in order. */
  function LoanLog(patron: PatronId, librarian: LibrarianId, lent: seq<ItemId>, now: Time): (entries: seq<LogEntry>)
    decreases |lent|
  {
    if lent == [] then []
    else LoanLog(patron, librarian, lent[..|lent| - 1], now)
           + [LogEntry(CheckoutAction, Some(patron), Some(lent[|lent| - 1]), Some(librarian), now)]
  }

  /** The catalog after a checkout pass that lent `lent`: those items checked out, the rest as they were. */
  function MarkLent(items: seq<MediaItem>, lent: seq<ItemId>): (after: seq<MediaItem>)
    ensures |after| == |items|
    decreases |lent|
  {
    if lent == [] then items
    else
      var before := MarkLent(items, lent[..|lent| - 1]);
      var id := lent[|lent| - 1];
      if id < |before| then before[id := before[id].(status := CheckedOut)] else before
  }

  /** Item by item, the catalog after a pass: checked out if lent, otherwise untouched. */
  lemma {:induction false} MarkLentAt(items: seq<MediaItem>, lent: seq<ItemId>, i: nat)
    requires i < |items|
    ensures MarkLent(items, lent)[i] == if i in lent then items[i].(status := CheckedOut) else items[i]
    decreases |lent|
  {
    if lent != [] {
      var init := lent[..|lent| - 1];
      MarkLentAt(items, init, i);
      assert lent == init + [lent[|lent| - 1]];
    }
  }

  /** Extending the submitted ids by one extends the lent ids by that id exactly when it is lendable. */
  lemma LendableStep(items: seq<MediaItem>, ids: seq<ItemId>, k: nat)
    requires k < |ids|
    ensures var prev := Lendable(items, ids[..k]);
            Lendable(items, ids[..k + 1])
              == if ids[k] < |items| && items[ids[k]].status == Available && ids[k] !in prev
                 then prev + [ids[k]] else prev
  {
    assert ids[..k + 1][..k] == ids[..k];
  }

  /** Appending one lent item extends each of the pass's three effects by that item. */
  lemma PassStep(items: seq<MediaItem>, patron: PatronId, librarian: LibrarianId, lent: seq<ItemId>, id: ItemId, now: Time)
    requires id < |items|
    ensures var before := MarkLent(items, lent);
            MarkLent(items, lent + [id]) == before[id := before[id].(status := CheckedOut)]
    ensures NewLoans(items, patron, lent + [id], now) == NewLoans(items, patron, lent, now) + [NewLoan(items[id], id, patron, now)]
    ensures LoanLog(patron, librarian, lent + [id], now)
         == LoanLog(patron, librarian, lent, now) + [LogEntry(CheckoutAction, Some(patron), Some(id), Some(librarian), now)]
  {
    assert (lent + [id])[..|lent|] == lent;
  }

  // ---------------------------------------------------------------------------
  // Store invariants
  // ---------------------------------------------------------------------------

  /** Every loan names an existing patron and item, and has been renewed no more often than
      the renewal rule allows. */
  predicate CheckoutsWellFormed(patrons: seq<Patron>, items: seq<MediaItem>, checkouts: seq<Checkout>) {
    forall i :: 0 <= i < |checkouts| ==>
      checkouts[i].patron < |patrons| && checkouts[i].item < |items| && checkouts[i].renewals <= MaxRenewals
  }

  predicate HoldRefs(patrons: seq<Patron>, items: seq<MediaItem>, holds: seq<Hold>) {
    forall i :: 0 <= i < |holds| ==> holds[i].patron < |patrons| && holds[i].item < |items|
  }

  predicate RequestRefs(patrons: seq<Patron>, librarians: seq<Librarian>, requests: seq<MediaRequest>) {
    forall i :: 0 <= i < |requests| ==>
      requests[i].patron < |patrons| &&
      (requests[i].reviewedBy.Some? ==> requests[i].reviewedBy.value < |librarians|)
  }

  predicate FineRefs(patrons: seq<Patron>, checkouts: seq<Checkout>, fines: seq<Fine>) {
    forall i :: 0 <= i < |fines| ==>
      fines[i].patron < |patrons| && (fines[i].checkout.Some? ==> fines[i].checkout.value < |checkouts|)
  }

  predicate UniqueBarcodes(items: seq<MediaItem>) {
    forall i, j :: 0 <= i < j < |items| ==> items[i].barcode != items[j].barcode
  }

  /** At most one open loan per item, and none for an item marked available. */
  predicate LoansConsistent(items: seq<MediaItem>, checkouts: seq<Checkout>) {
    (forall j, k :: 0 <= j < k < |checkouts| && checkouts[j].returnedAt.None? && checkouts[k].returnedAt.None?
       ==> checkouts[j].item != checkouts[k].item)
    && (forall j :: 0 <= j < |checkouts| && checkouts[j].returnedAt.None? && checkouts[j].item < |items|
          ==> items[checkouts[j].item].status != Available)
  }

  /** The store invariant: every reference of a loan, hold, request or fine in range, renewals
      within the limit, unique barcodes, consistent loans. Log entries are not constrained. */
  predicate StoreInvariant(patrons: seq<Patron>, librarians: seq<Librarian>, items: seq<MediaItem>,
                           checkouts: seq<Checkout>, holds: seq<Hold>, requests: seq<MediaRequest>, fines: seq<Fine>)
  {
    CheckoutsWellFormed(patrons, items, checkouts) && HoldRefs(patrons, items, holds)
    && RequestRefs(patrons, librarians, requests) && FineRefs(patrons, checkouts, fines)
    && UniqueBarcodes(items) && LoansConsistent(items, checkouts)
  }

  /** Closing the one open loan of an item and marking the item available keeps the loans
      consistent, and leaves the item with no open loan at all. */
  lemma CloseLoanConsistent(items: seq<MediaItem>, checkouts: seq<Checkout>, c: CheckoutId, now: Time)
    requires LoansConsistent(items, checkouts)
    requires c < |checkouts| && checkouts[c].returnedAt.None? && checkouts[c].item < |items|
    ensures var i := checkouts[c].item;
            var after := checkouts[c := checkouts[c].(returnedAt := Some(now))];
            LoansConsistent(items[i := items[i].(status := Available)], after)
            && forall j :: 0 <= j < |after| && after[j].item == i ==> after[j].returnedAt.Some?
  {
  }

  /** Closing a loan and changing its item's status keeps every reference in range. */
  lemma CheckinKeepsRefs(patrons: seq<Patron>, items: seq<MediaItem>, checkouts: seq<Checkout>,
                         holds: seq<Hold>, fines: seq<Fine>, c: CheckoutId, now: Time, s: ItemStatus)
    requires CheckoutsWellFormed(patrons, items, checkouts) && HoldRefs(patrons, items, holds)
    requires FineRefs(patrons, checkouts, fines)
    requires c < |checkouts| && checkouts[c].item < |items|
    ensures var i := checkouts[c].item;
            var items' := items[i := items[i].(status := s)];
            var after := checkouts[c := checkouts[c].(returnedAt := Some(now))];
            CheckoutsWellFormed(patrons, items', after) && HoldRefs(patrons, items', holds)
            && FineRefs(patrons, after, fines)
  {
  }

  /** A fine on an existing patron and loan keeps every fine's references in range. */
  lemma FineRefsAppend(patrons: seq<Patron>, checkouts: seq<Checkout>, fines: seq<Fine>, fine: Fine)
    requires FineRefs(patrons, checkouts, fines)
    requires fine.patron < |patrons| && (fine.checkout.Some? ==> fine.checkout.value < |checkouts|)
    ensures FineRefs(patrons, checkouts, fines + [fine])
  {
    assert (fines + [fine])[|fines|] == fine;
  }

  /** Changing an item's status keeps the barcodes unique. */
  lemma SetStatusKeepsBarcodes(items: seq<MediaItem>, i: ItemId, s: ItemStatus)
    requires UniqueBarcodes(items) && i < |items|
    ensures UniqueBarcodes(items[i := items[i].(status := s)])
  {
    var after := items[i := items[i].(status := s)];
    assert forall j :: 0 <= j < |items| ==> after[j].barcode == items[j].barcode;
  }

  // ---------------------------------------------------------------------------
  // The store and its handlers
  // ---------------------------------------------------------------------------

  class Library {
    var patrons: seq<Patron>
    var librarians: seq<Librarian>
    var items: seq<MediaItem>
    var checkouts: seq<Checkout>
    var holds: seq<Hold>
    var requests: seq<MediaRequest>
    var fines: seq<Fine>
    /** The activity log, oldest entry first. */
    var log: seq<LogEntry>

    ghost predicate Valid()
      reads this
    {
      StoreInvariant(patrons, librarians, items, checkouts, holds, requests, fines)
    }

    /** A store holding the given tables and an empty log. */
    constructor (patrons: seq<Patron>, librarians: seq<Librarian>, items: seq<MediaItem>,
                 checkouts: seq<Checkout>, holds: seq<Hold>, requests: seq<MediaRequest>, fines: seq<Fine>)
      requires StoreInvariant(patrons, librarians, items, checkouts, holds, requests, fines)
      ensures Valid()
      ensures this.patrons == patrons && this.librarians == librarians && this.items == items
      ensures this.checkouts == checkouts && this.holds == holds && this.requests == requests
      ensures this.fines == fines && this.log == []
    {
      this.patrons, this.librarians, this.items := patrons, librarians, items;
      this.checkouts, this.holds, this.requests := checkouts, holds, requests;
      this.fines, this.log := fines, [];
    }

    /** Renews one loan if its rules allow, extending it by a loan period counted from now. */
    method Renew(id: CheckoutId, now: Time) returns (ok: bool)
      requires Valid() && id < |checkouts|
      modifies this`checkouts
      ensures Valid()
      ensures ok == CanRenew(old(checkouts[id]), now)
      ensures checkouts == old(checkouts)[id :=
        TryRenew(old(checkouts[id]), LoanPeriodDays(items[old(checkouts[id]).item].mediaType), now).1]
    {
      var c := checkouts[id];
      var r := TryRenew(c, LoanPeriodDays(items[c.item].mediaType), now);
      ok := r.0;
      if ok {
        checkouts := checkouts[id := r.1];
      }
    }

    /** A patron asks to renew one of their own loans. */
    method PatronRenew(patron: PatronId, id: CheckoutId, now: Time) returns (r: Outcome)
      requires Valid()
      modifies this`checkouts, this`log
      ensures Valid()
      ensures patron >= |patrons| ==> r == Failed(PatronNotFound)
      ensures patron < |patrons| && (id >= |old(checkouts)| || old(checkouts[id]).patron != patron)
              ==> r == Failed(CheckoutNotFound)
      ensures patron < |patrons| && id < |old(checkouts)| && old(checkouts[id]).patron == patron
              ==> var c := old(checkouts[id]);
                  var (ok, c') := TryRenew(c, LoanPeriodDays(items[c.item].mediaType), now);
                  checkouts == old(checkouts)[id := c']
                  && r == (if ok then Done else Failed(CannotRenew))
                  && log == old(log) + (if ok then [LogEntry(Renewal, Some(patron), Some(c.item), None, now)] else [])
      ensures r == Failed(PatronNotFound) || r == Failed(CheckoutNotFound) ==>
                checkouts == old(checkouts) && log == old(log)
    {
      if patron >= |patrons| {
        return Failed(PatronNotFound);
      }
      if id >= |checkouts| || checkouts[id].patron != patron {
        return Failed(CheckoutNotFound);
      }
      var item := checkouts[id].item;
      var ok := Renew(id, now);
      if ok {
        log := log + [LogEntry(Renewal, Some(patron), Some(item), None, now)];
        r := Done;
      } else {
        r := Failed(CannotRenew);
      }
    }

    /** Lends one available item: a new loan, the item marked checked out, a log entry. */
    method LendItem(librarian: LibrarianId, patron: PatronId, id: ItemId, now: Time)
      requires Valid() && patron < |patrons| && id < |items| && items[id].status == Available
      modifies this`items, this`checkouts, this`log
      ensures Valid()
      ensures items == old(items)[id := old(items[id]).(status := CheckedOut)]
      ensures checkouts == old(checkouts) + [NewLoan(old(items[id]), id, patron, now)]
      ensures log == old(log) + [LogEntry(CheckoutAction, Some(patron), Some(id), Some(librarian), now)]
    {
      var loan := NewLoan(items[id], id, patron, now);
      checkouts := checkouts + [loan];
      items := items[id := items[id].(status := CheckedOut)];
      log := log + [LogEntry(CheckoutAction, Some(patron), Some(id), Some(librarian), now)];
    }

    /** The tables part-way through a checkout pass that started from `base`, `loans0` and `log0`
        and has lent `lent` so far. */
    ghost predicate PassState(base: seq<MediaItem>, loans0: seq<Checkout>, log0: seq<LogEntry>,
                              patron: PatronId, librarian: LibrarianId, lent: seq<ItemId>, now: Time)
      reads this
    {
      |items| == |base| && items == MarkLent(base, lent)
      && checkouts == loans0 + NewLoans(base, patron, lent, now)
      && log == log0 + LoanLog(patron, librarian, lent, now)
    }

    /** One step of a checkout pass: lends item `id` if it is available. `base`, `loans0` and
        `log0` are the tables before the pass and `lent` what the pass has lent so far. */
    method CheckoutStep(librarian: LibrarianId, patron: PatronId, id: ItemId, now: Time,
                        ghost base: seq<MediaItem>, ghost loans0: seq<Checkout>, ghost log0: seq<LogEntry>,
                        lent: seq<ItemId>)
      returns (lent': seq<ItemId>)
      requires Valid() && patron < |patrons| && id < |base|
      requires PassState(base, loans0, log0, patron, librarian, lent, now)
      modifies this`items, this`checkouts, this`log
      ensures Valid()
      ensures lent' == if base[id].status == Available && id !in lent then lent + [id] else lent
      ensures PassState(base, loans0, log0, patron, librarian, lent', now)
    {
      MarkLentAt(base, lent, id);
      lent' := lent;
      if items[id].status == Available {
        PassStep(base, patron, librarian, lent, id, now);
        LendItem(librarian, patron, id, now);
        lent' := lent + [id];
      }
    }

    /** The loop of a checkout: lends, in order, each listed item that is available when its
        id comes up, and stops at the first id that names no item. */
    method CheckoutPass(librarian: LibrarianId, patron: PatronId, itemIds: seq<ItemId>, now: Time)
      returns (lent: seq<ItemId>, k: nat)
      requires Valid() && patron < |patrons|
      modifies this`items, this`checkouts, this`log
      ensures Valid()
      ensures k == ProcessedCount(itemIds, |old(items)|)
      ensures lent == Lendable(old(items), itemIds[..k])
      ensures PassState(old(items), old(checkouts), old(log), patron, librarian, lent, now)
    {
      ghost var base, loans0, log0 := items, checkouts, log;
      lent, k := [], 0;
      ProcessedCountAt(itemIds, |base|, k);
      while k < |itemIds| && itemIds[k] < |items|
        invariant k <= ProcessedCount(itemIds, |base|)
        invariant Valid()
        invariant lent == Lendable(base, itemIds[..k])
        invariant PassState(base, loans0, log0, patron, librarian, lent, now)
      {
        LendableStep(base, itemIds, k);
        ProcessedCountAt(itemIds, |base|, k);
        lent := CheckoutStep(librarian, patron, itemIds[k], now, base, loans0, log0, lent);
        k := k + 1;
      }
      ProcessedCountAt(itemIds, |base|, k);
      assert base == old(items) && loans0 == old(checkouts) && log0 == old(log);
    }

    /** A librarian checks out a list of items to a patron. Items not available are skipped; an id
        that names no item stops the pass with an error, and what was lent before it stays lent. */
    method LibrarianCheckout(librarian: LibrarianId, patron: PatronId, itemIds: seq<ItemId>, now: Time)
      returns (lent: seq<ItemId>, r: Outcome)
      requires Valid()
      modifies this`items, this`checkouts, this`log
      ensures Valid()
      ensures librarian >= |librarians| ==> r == Failed(LibrarianNotFound) && lent == []
      ensures librarian < |librarians| && patron >= |patrons| ==> r == Failed(PatronNotFound) && lent == []
      ensures librarian < |librarians| && patron < |patrons| ==>
                var k := ProcessedCount(itemIds, |old(items)|);
                lent == Lendable(old(items), itemIds[..k])
                && r == (if k == |itemIds| then Done else Failed(ItemNotFound))
      ensures items == MarkLent(old(items), lent)
      ensures checkouts == old(checkouts) + NewLoans(old(items), patron, lent, now)
      ensures log == old(log) + LoanLog(patron, librarian, lent, now)
    {
      if librarian >= |librarians| {
        return [], Failed(LibrarianNotFound);
      }
      if patron >= |patrons| {
        return [], Failed(PatronNotFound);
      }
      var k;
      lent, k := CheckoutPass(librarian, patron, itemIds, now);
      r := if k == |itemIds| then Done else Failed(ItemNotFound);
    }

    /** Gives loan `c` of item `i` its return time and marks the item available. */
    method ReturnItem(i: ItemId, c: CheckoutId, now: Time)
      requires Valid() && c < |checkouts| && checkouts[c].item == i && checkouts[c].returnedAt.None?
      modifies this`items, this`checkouts
      ensures Valid() && i < |items|
      ensures checkouts == old(checkouts)[c := old(checkouts[c]).(returnedAt := Some(now))]
      ensures items == old(items)[i := old(items[i]).(status := Available)]
      ensures forall j :: 0 <= j < |checkouts| && checkouts[j].item == i ==> checkouts[j].returnedAt.Some?
      ensures CheckedOutCount(checkouts, old(checkouts[c]).patron) + 1 == old(CheckedOutCount(checkouts, checkouts[c].patron))
    {
      var closed := checkouts[c].(returnedAt := Some(now));
      CountUpdate(checkouts, c, closed, PatronOpenLoan(closed.patron));
      CloseLoanConsistent(items, checkouts, c, now);
      SetStatusKeepsBarcodes(items, i, Available);
      CheckinKeepsRefs(patrons, items, checkouts, holds, fines, c, now, Available);
      checkouts := checkouts[c := closed];
      items := items[i := items[i].(status := Available)];
    }

    /** Records a fine of `amount` cents on loan `c`, when the amount is positive. */
    method RecordFine(patron: PatronId, c: CheckoutId, amount: nat, now: Time)
      requires Valid() && patron < |patrons| && c < |checkouts|
      modifies this`fines
      ensures Valid()
      ensures fines == old(fines) + (if amount > 0 then [Fine(patron, Some(c), amount, now, false, None)] else [])
      ensures TotalFines(fines, patron) == old(TotalFines(fines, patron)) + amount
    {
      if amount > 0 {
        var fine := Fine(patron, Some(c), amount, now, false, None);
        TotalFinesAppend(fines, fine, patron);
        FineRefsAppend(patrons, checkouts, fines, fine);
        fines := fines + [fine];
      }
    }

    /** Closes the open loan `c` of item `i` at `now`: the loan gets its return time, the item
        becomes available, a fine of `amount` cents is recorded when it is positive, and the
        checkin is logged. */
    method CloseLoan(librarian: LibrarianId, i: ItemId, c: CheckoutId, now: Time, amount: nat)
      requires Valid() && c < |checkouts| && checkouts[c].item == i && checkouts[c].returnedAt.None?
      modifies this`items, this`checkouts, this`fines, this`log
      ensures Valid()
      ensures i < |old(items)| &&
                var closed := old(checkouts[c]).(returnedAt := Some(now));
                checkouts == old(checkouts)[c := closed]
                && items == old(items)[i := old(items[i]).(status := Available)]
                && fines == old(fines) + (if amount > 0 then [Fine(closed.patron, Some(c), amount, now, false, None)] else [])
                && log == old(log) + [LogEntry(CheckinAction, Some(closed.patron), Some(i), Some(librarian), now)]
      ensures forall j :: 0 <= j < |checkouts| && checkouts[j].item == i ==> checkouts[j].returnedAt.Some?
      ensures TotalFines(fines, old(checkouts[c]).patron) == old(TotalFines(fines, checkouts[c].patron)) + amount
      ensures CheckedOutCount(checkouts, old(checkouts[c]).patron) + 1 == old(CheckedOutCount(checkouts, checkouts[c].patron))
    {
      var patron := checkouts[c].patron;
      ReturnItem(i, c, now);
      RecordFine(patron, c, amount, now);
      log := log + [LogEntry(CheckinAction, Some(patron), Some(i), Some(librarian), now)];
    }

    /** A librarian scans a returned item by barcode and, if it is out, checks it in. */
    method LibrarianCheckin(librarian: LibrarianId, barcode: string, now: Time) returns (r: Result<CheckinReport>)
      requires Valid()
      modifies this`items, this`checkouts, this`fines, this`log
      ensures Valid()
      ensures r.Ok? <==> librarian < |librarians| && FindByBarcode(old(items), barcode).Some?
                         && FindOpenLoan(old(checkouts), FindByBarcode(old(items), barcode).value).Some?
      ensures librarian >= |librarians| ==> r == Err(LibrarianNotFound)
      ensures librarian < |librarians| && FindByBarcode(old(items), barcode).None? ==> r == Err(ItemNotFound)
      ensures librarian < |librarians| && FindByBarcode(old(items), barcode).Some?
              && FindOpenLoan(old(checkouts), FindByBarcode(old(items), barcode).value).None?
              ==> r == Err(NotCheckedOut)
      ensures r.Err? ==> items == old(items) && checkouts == old(checkouts) && fines == old(fines) && log == old(log)
      ensures r.Ok? ==>
                var i := FindByBarcode(old(items), barcode).value;
                var c := FindOpenLoan(old(checkouts), i).value;
                var closed := old(checkouts[c]).(returnedAt := Some(now));
                var amount := CalculateFine(closed, old(items[i]), now);
                checkouts == old(checkouts)[c := closed]
                && items == old(items)[i := old(items[i]).(status := Available)]
                && fines == old(fines) + (if amount > 0 then [Fine(closed.patron, Some(c), amount, now, false, None)] else [])
                && log == old(log) + [LogEntry(CheckinAction, Some(closed.patron), Some(i), Some(librarian), now)]
                && r.value == CheckinReport(i, closed.patron, closed.dueDate, IsOverdue(closed, now),
                                            DaysOverdue(closed, now), amount)
      ensures r.Ok? ==> forall j :: 0 <= j < |checkouts| && checkouts[j].item == r.value.item
                          ==> checkouts[j].returnedAt.Some?
      ensures r.Ok? ==> TotalFines(fines, r.value.patron) == old(TotalFines(fines, r.value.patron)) + r.value.fine
      ensures r.Ok? ==> CheckedOutCount(checkouts, r.value.patron) + 1 == old(CheckedOutCount(checkouts, r.value.patron))
    {
      if librarian >= |librarians| {
        return Err(LibrarianNotFound);
      }
      var found := FindByBarcode(items, barcode);
      if found.None? {
        return Err(ItemNotFound);
      }
      var open := FindOpenLoan(checkouts, found.value);
      if open.None? {
        return Err(NotCheckedOut);
      }
      var i, c := found.value, open.value;
      var closed := checkouts[c].(returnedAt := Some(now));
      var amount := CalculateFine(closed, items[i], now);
      CloseLoan(librarian, i, c, now, amount);
      r := Ok(CheckinReport(i, closed.patron, closed.dueDate, IsOverdue(closed, now), DaysOverdue(closed, now), amount));
    }

    /** A patron places a hold on an item, unless they already hold it. */
    method PlaceHold(patron: PatronId, item: ItemId, now: Time) returns (r: Result<int>)
      requires Valid()
      modifies this`holds, this`log
      ensures Valid()
      ensures r.Ok? <==> patron < |patrons| && item < |items| && !HasActiveHold(old(holds), patron, item)
      ensures patron >= |patrons| ==> r == Err(PatronNotFound)
      ensures patron < |patrons| && item >= |items| ==> r == Err(ItemNotFound)
      ensures patron < |patrons| && item < |items| && HasActiveHold(old(holds), patron, item) ==> r == Err(AlreadyHeld)
      ensures r.Err? ==> holds == old(holds) && log == old(log)
      ensures r.Ok? ==>
                r.value == QueuePosition(old(holds), item)
                && holds == old(holds) + [NewHold(patron, item, now, r.value)]
                && log == old(log) + [LogEntry(HoldPlaced, Some(patron), Some(item), None, now)]
      ensures HoldsCount(holds, patron) == old(HoldsCount(holds, patron)) + (if r.Ok? then 1 else 0)
    {
      if patron >= |patrons| {
        return Err(PatronNotFound);
      }
      if item >= |items| {
        return Err(ItemNotFound);
      }
      if HasActiveHold(holds, patron, item) {
        return Err(AlreadyHeld);
      }
      var pos := QueuePosition(holds, item);
      var hold := NewHold(patron, item, now, pos);
      CountAppend(holds, [hold], ActiveHoldOf(patron));
      assert [hold][1..] == [];
      holds := holds + [hold];
      log := log + [LogEntry(HoldPlaced, Some(patron), Some(item), None, now)];
      r := Ok(pos);
    }

    /** A patron cancels one of their holds, whatever state it is in; no other hold is renumbered. */
    method CancelHold(patron: PatronId, id: HoldId, now: Time) returns (r: Outcome)
      requires Valid()
      modifies this`holds, this`log
      ensures Valid()
      ensures r.Done? <==> patron < |patrons| && id < |old(holds)| && old(holds[id]).patron == patron
      ensures patron >= |patrons| ==> r == Failed(PatronNotFound)
      ensures patron < |patrons| && !(id < |old(holds)| && old(holds[id]).patron == patron) ==> r == Failed(HoldNotFound)
      ensures r.Failed? ==> holds == old(holds) && log == old(log)
      ensures r.Done? ==>
                holds == old(holds)[id := old(holds[id]).(status := Cancelled)]
                && log == old(log) + [LogEntry(HoldCancelled, Some(patron), Some(old(holds[id]).item), None, now)]
      ensures |holds| == |old(holds)|
      ensures forall j :: 0 <= j < |holds| ==> holds[j].queuePosition == old(holds[j].queuePosition)
      ensures r.Done? ==> HoldsCount(holds, patron) + Indicator(old(holds[id]).status.IsActive())
                          == old(HoldsCount(holds, patron))
    {
      if patron >= |patrons| {
        return Failed(PatronNotFound);
      }
      if id >= |holds| || holds[id].patron != patron {
        return Failed(HoldNotFound);
      }
      var cancelled := holds[id].(status := Cancelled);
      CountUpdate(holds, id, cancelled, ActiveHoldOf(patron));
      holds := holds[id := cancelled];
      log := log + [LogEntry(HoldCancelled, Some(patron), Some(cancelled.item), None, now)];
      r := Done;
    }

    /** A librarian approves a request; the review fields are written even if it was reviewed before. */
    method ApproveRequest(librarian: LibrarianId, id: RequestId, now: Time) returns (r: Outcome)
      requires Valid()
      modifies this`requests, this`log
      ensures Valid()
      ensures r.Done? <==> librarian < |librarians| && id < |old(requests)|
      ensures librarian >= |librarians| ==> r == Failed(LibrarianNotFound)
      ensures librarian < |librarians| && id >= |old(requests)| ==> r == Failed(RequestNotFound)
      ensures r.Failed? ==> requests == old(requests) && log == old(log)
      ensures r.Done? ==>
                requests == old(requests)[id := Reviewed(old(requests[id]), Approved, librarian, now)]
                && log == old(log) + [LogEntry(RequestApproved, Some(old(requests[id]).patron), None, Some(librarian), now)]
    {
      if librarian >= |librarians| {
        return Failed(LibrarianNotFound);
      }
      if id >= |requests| {
        return Failed(RequestNotFound);
      }
      var patron := requests[id].patron;
      requests := requests[id := Reviewed(requests[id], Approved, librarian, now)];
      log := log + [LogEntry(RequestApproved, Some(patron), None, Some(librarian), now)];
      r := Done;
    }

    /** A librarian rejects a request; as with approval the review fields are simply overwritten,
        and no log entry is written. */
    method RejectRequest(librarian: LibrarianId, id: RequestId, now: Time) returns (r: Outcome)
      requires Valid()
      modifies this`requests
      ensures Valid()
      ensures r.Done? <==> librarian < |librarians| && id < |old(requests)|
      ensures librarian >= |librarians| ==> r == Failed(LibrarianNotFound)
      ensures librarian < |librarians| && id >= |old(requests)| ==> r == Failed(RequestNotFound)
      ensures r.Failed? ==> requests == old(requests)
      ensures r.Done? ==> requests == old(requests)[id := Reviewed(old(requests[id]), Rejected, librarian, now)]
    {
      if librarian >= |librarians| {
        return Failed(LibrarianNotFound);
      }
      if id >= |requests| {
        return Failed(RequestNotFound);
      }
      requests := requests[id := Reviewed(requests[id], Rejected, librarian, now)];
      r := Done;
    }
  }
}
