/** The marketplace projection: the listing table of fastapi_app/routers/internal.py, the vendor events of
    interface/governance/marketplace_outbox.py delivered to it, and the reconciliation of
    interface/governance/marketplace_reconciliation.py that makes the two agree. */
module Projection {
  import opened Common

  /** Vendor identifiers and table row identifiers. */
  type Id = int

  /** Every field of a listing that an upsert writes. */
  datatype Listing = Listing(
    businessName: string, category: string, description: string, serviceArea: string, tags: string,
    coverImageUrl: Option<string>, averageRating: real, totalReviews: nat, isVerified: bool, searchRankScore: real,
    startingPrice: Option<string>, minPackagePrice: Option<string>, maxPackagePrice: Option<string>,
    currency: Option<string>)

  datatype Row = Row(vendorId: Id, externalId: Option<string>, listing: Listing)

  /** The listing table by row id.  `vendor_id` and `external_id` are unique columns. */
  type Table = map<Id, Row>

  ghost predicate UniqueColumns(t: Table) {
    && (forall a, b | a in t && b in t && t[a].vendorId == t[b].vendorId :: a == b)
    && (forall a, b | a in t && b in t && t[a].externalId.Some? && t[a].externalId == t[b].externalId :: a == b)
  }

  function VendorIds(t: Table): set<Id> {
    set r | r in t :: t[r].vendorId
  }

  /** What a table shows about each vendor. */
  type View = map<Id, Listing>

  ghost predicate Shows(t: Table, view: View) {
    && (forall r | r in t :: t[r].vendorId in view && view[t[r].vendorId] == t[r].listing)
    && (forall v | v in view :: exists r | r in t :: t[r].vendorId == v)
  }

  lemma ShownIds(t: Table, view: View)
    requires Shows(t, view)
    ensures VendorIds(t) == view.Keys
  {
    forall v | v in view
      ensures v in VendorIds(t)
    {
      var r :| r in t && t[r].vendorId == v;
    }
  }

  /** The view determined by a table is unique. */
  lemma ShowsUnique(t: Table, a: View, b: View)
    requires Shows(t, a) && Shows(t, b)
    ensures a == b
  {
    ShownIds(t, a);
    ShownIds(t, b);
    forall v | v in a
      ensures a[v] == b[v]
    {
      var r :| r in t && t[r].vendorId == v;
    }
  }

  /** A validated request body; `approved` is `is_approved` together with an "approved" status. */
  datatype Request = Request(vendorId: Id, externalId: Option<string>, approved: bool, listing: Listing)

  datatype UpsertOutcome = Upserted | NotListed | IntegrityError

  ghost predicate HeldByOther(t: Table, external: Option<string>, v: Id) {
    external.Some? && exists r | r in t :: t[r].externalId == external && t[r].vendorId != v
  }

  /** The row that a request is about: the vendor's own, or else the one that bears its external id. */
  ghost predicate IsAbout(t: Table, p: Request, row: Row) {
    || row.vendorId == p.vendorId
    || (p.externalId.Some? && row.externalId == p.externalId && p.vendorId !in VendorIds(t))
  }

  // ---------------------------------------------------------------- the listing table

  class ListingTable {
    var rows: Table
    ghost var view: View

    /** The unique columns are unique, and `view` is what the rows show. */
    ghost predicate Valid()
      reads this
    {
      UniqueColumns(rows) && Shows(rows, view)
    }

    constructor ()
      ensures Valid() && rows == map[] && view == map[]
    {
      rows, view := map[], map[];
    }

    method FindByVendor(v: Id) returns (found: Option<Id>)
      requires Valid()
      ensures found.Some? <==> v in view
      ensures found.Some? ==> found.value in rows && rows[found.value].vendorId == v
      ensures found.None? ==> forall r | r in rows :: rows[r].vendorId != v
    {
      if r :| r in rows && rows[r].vendorId == v {
        return Some(r);
      }
      return None;
    }

    method FindByExternalId(external: string) returns (found: Option<Id>)
      ensures found.Some? ==> found.value in rows && rows[found.value].externalId == Some(external)
      ensures found.None? ==> forall r | r in rows :: rows[r].externalId != Some(external)
    {
      if r :| r in rows && rows[r].externalId == Some(external) {
        return Some(r);
      }
      return None;
    }

    /** Takes a row out. */
    method RemoveRow(r: Id)
      requires Valid() && r in rows
      modifies this
      ensures Valid() && rows == old(rows) - {r} && view == old(view) - {old(rows)[r].vendorId}
    {
      ghost var v := rows[r].vendorId;
      rows := rows - {r};
      view := view - {v};
      forall x | x in view
        ensures exists q | q in rows :: rows[q].vendorId == x
      {
        var q :| q in old(rows) && old(rows)[q].vendorId == x;
        assert q in rows;
      }
    }

    /** Writes a row, for a vendor without another row. */
    method WriteRow(r: Id, row: Row)
      requires Valid() && forall q | q in rows && q != r :: rows[q].vendorId != row.vendorId
      requires forall q | q in rows && q != r && row.externalId.Some? :: rows[q].externalId != row.externalId
      modifies this
      ensures Valid() && rows == old(rows)[r := row]
      ensures view == (if r in old(rows) then old(view) - {old(rows)[r].vendorId} else old(view))[row.vendorId := row.listing]
    {
      if r in rows {
        RemoveRow(r);
      }
      ghost var kept := rows;
      rows := rows[r := row];
      view := view[row.vendorId := row.listing];
      assert r in rows && rows[r].vendorId == row.vendorId;
      forall x | x in view
        ensures exists q | q in rows :: rows[q].vendorId == x
      {
        if x != row.vendorId {
          var q :| q in kept && kept[q].vendorId == x;
          assert q in rows && rows[q] == kept[q];
        }
      }
    }

    /** `_upsert_listing_payload`; `newRow` is the id a new row would get. */
    method UpsertListing(p: Request, newRow: Id) returns (outcome: UpsertOutcome)
      requires Valid() && newRow !in rows
      modifies this
      ensures Valid()
      // Refused when the vendor has a row of its own while another vendor's row holds the external id.
      ensures outcome.IntegrityError? <==>
                p.approved && p.vendorId in old(view) && HeldByOther(old(rows), p.externalId, p.vendorId)
      ensures outcome.IntegrityError? ==> rows == old(rows) && view == old(view)
      // An approved listing is the vendor's one listing afterwards, and bears the external id.
      ensures outcome.Upserted? ==>
                && p.approved && p.vendorId in view && view[p.vendorId] == p.listing
                && (p.externalId.Some? ==>
                      exists r | r in rows :: rows[r].vendorId == p.vendorId && rows[r].externalId == p.externalId)
      // A listing that is not approved goes away.
      ensures outcome.NotListed? <==> !p.approved
      ensures outcome.NotListed? ==> p.vendorId !in view
      // Every row that the request is not about stays, and no other remains than the one written.
      ensures forall r | r in old(rows) && !IsAbout(old(rows), p, old(rows)[r]) :: r in rows && rows[r] == old(rows)[r]
      ensures !outcome.IntegrityError? ==>
                forall r | r in rows && rows[r].vendorId != p.vendorId ::
                  r in old(rows) && rows[r] == old(rows)[r] && !IsAbout(old(rows), p, rows[r])
      // The row written is the one that the request is about, or a new one; without an external id it keeps its own.
      ensures outcome.Upserted? ==>
                forall r | r in rows && rows[r].vendorId == p.vendorId ::
                  && (r == newRow <==> forall q | q in old(rows) :: !IsAbout(old(rows), p, old(rows)[q]))
                  && (r != newRow ==> r in old(rows) && IsAbout(old(rows), p, old(rows)[r]))
                  && rows[r] == Row(p.vendorId, if p.externalId.Some? || r == newRow then p.externalId else old(rows)[r].externalId,
                                    p.listing)
      // Without an external id the view changes for this vendor only.
      ensures p.externalId.None? ==>
                view == if p.approved then old(view)[p.vendorId := p.listing] else old(view) - {p.vendorId}
    {
      var found := FindByVendor(p.vendorId);
      if found.None? && p.externalId.Some? {
        found := FindByExternalId(p.externalId.value);
      }
      if !p.approved {
        if found.Some? {
          RemoveRow(found.value);
        }
        return NotListed;
      }
      if found.None? {
        WriteRow(newRow, Row(p.vendorId, p.externalId, p.listing));
        assert newRow in rows;
        return Upserted;
      }
      var r := found.value;
      if p.externalId.Some? {
        var holder := FindByExternalId(p.externalId.value);
        if holder.Some? && holder.value != r {
          return IntegrityError;
        }
      }
      WriteRow(r, Row(p.vendorId, if p.externalId.Some? then p.externalId else rows[r].externalId, p.listing));
      assert r in rows;
      return Upserted;
    }

    /** `delete_listing` */
    method DeleteListing(v: Id) returns (deleted: bool)
      requires Valid()
      modifies this
      ensures Valid()
      ensures deleted <==> v in old(view)
      ensures view == old(view) - {v}
      ensures !deleted ==> rows == old(rows)
      ensures forall r | r in rows :: r in old(rows) && rows[r] == old(rows)[r]
    {
      var found := FindByVendor(v);
      if found.None? {
        return false;
      }
      RemoveRow(found.value);
      return true;
    }
  }

  // ---------------------------------------------------------------- vendors and their events

  datatype Pricing = Pricing(starting: Option<string>, min: Option<string>, max: Option<string>, currency: Option<string>)

  datatype Vendor = Vendor(
    id: Id, approved: bool, complete: bool,
    businessName: string, category: string, description: string, serviceArea: string,
    publicCover: Option<string>, pricing: Pricing)

  datatype Event = UpsertVendor(vendorId: Id, listing: Listing) | DeleteVendor(vendorId: Id)

  predicate IsVendorListable(v: Vendor) {
    v.approved && v.complete
  }

  /** The listing an upsert of this vendor leaves: its payload, and defaults where the payload is silent. */
  function ListingFor(v: Vendor): Listing {
    Listing(v.businessName, v.category, v.description, v.serviceArea, "", v.publicCover, 0.0, 0, true, 0.0,
            v.pricing.starting, v.pricing.min, v.pricing.max, v.pricing.currency)
  }

  /** The listing presents this vendor: each field is the vendor's own, the listing is verified, and what the
      payload is silent about is at its default. */
  predicate Presents(listing: Listing, v: Vendor) {
    && listing.businessName == v.businessName && listing.category == v.category
    && listing.description == v.description && listing.serviceArea == v.serviceArea
    && listing.coverImageUrl == v.publicCover && listing.isVerified
    && listing.startingPrice == v.pricing.starting && listing.currency == v.pricing.currency
    && listing.minPackagePrice == v.pricing.min && listing.maxPackagePrice == v.pricing.max
    && listing.tags == "" && listing.averageRating == listing.searchRankScore == 0.0 && listing.totalReviews == 0
  }

  /** `_projection_event_for_vendor` */
  function ProjectionEventFor(v: Vendor): Event {
    if IsVendorListable(v) then UpsertVendor(v.id, ListingFor(v)) else DeleteVendor(v.id)
  }

  function Deliver(view: View, e: Event): View {
    match e
    case UpsertVendor(v, listing) => view[v := listing]
    case DeleteVendor(v) => view - {v}
  }

  function DeliverAll(view: View, log: seq<Event>): View {
    if log == [] then view else Deliver(DeliverAll(view, log[..|log| - 1]), log[|log| - 1])
  }

  /** The last event of a log about a vendor. */
  function LastEvent(log: seq<Event>, v: Id): Option<Event> {
    if log == [] then None
    else if log[|log| - 1].vendorId == v then Some(log[|log| - 1])
    else LastEvent(log[..|log| - 1], v)
  }

  function Entry(view: View, v: Id): Option<Listing> {
    if v in view then Some(view[v]) else None
  }

  /** Delivering a log leaves every vendor as its last event says, and a vendor without events alone. */
  lemma {:induction false} LastEventWins(view: View, log: seq<Event>, v: Id)
    ensures Entry(DeliverAll(view, log), v) ==
            match LastEvent(log, v)
            case None => Entry(view, v)
            case Some(UpsertVendor(_, listing)) => Some(listing)
            case Some(DeleteVendor(_)) => None
    decreases |log|
  {
    if log != [] {
      LastEventWins(view, log[..|log| - 1], v);
    }
  }

  /** Delivering an event again, while no newer event for its vendor has been delivered, changes nothing. */
  lemma RedeliveryChangesNothing(view: View, log: seq<Event>, e: Event)
    requires LastEvent(log, e.vendorId) == Some(e)
    ensures DeliverAll(view, log + [e]) == DeliverAll(view, log)
  {
    assert (log + [e])[..|log|] == log;
    LastEventWins(view, log, e.vendorId);
  }

  // ---------------------------------------------------------------- reconciliation

  /** `_approved_complete_vendors` */
  function ApprovedComplete(vendors: seq<Vendor>): seq<Vendor> {
    if vendors == [] then []
    else ApprovedComplete(vendors[..|vendors| - 1])
         + if IsVendorListable(vendors[|vendors| - 1]) then [vendors[|vendors| - 1]] else []
  }

  function EventsFor(vendors: seq<Vendor>): seq<Event> {
    if vendors == [] then []
    else EventsFor(vendors[..|vendors| - 1]) + [ProjectionEventFor(vendors[|vendors| - 1])]
  }

  function IdsOf(vendors: seq<Vendor>): set<Id> {
    set v | v in vendors :: v.id
  }

  ghost predicate DistinctIds(vendors: seq<Vendor>) {
    forall v, w | v in vendors && w in vendors && v.id == w.id :: v == w
  }

  /** What the marketplace should show: the approved and complete vendors and no other, each as it presents itself. */
  ghost predicate IsCurrent(view: View, vendors: seq<Vendor>) {
    && (forall v | v in vendors && v.approved && v.complete :: v.id in view && Presents(view[v.id], v))
    && (forall id | id in view :: exists v | v in vendors :: v.id == id && v.approved && v.complete)
  }

  lemma {:induction false} ApprovedCompleteIs(vendors: seq<Vendor>)
    ensures forall v :: v in ApprovedComplete(vendors) <==> v in vendors && IsVendorListable(v)
    decreases |vendors|
  {
    if vendors != [] {
      ApprovedCompleteIs(vendors[..|vendors| - 1]);
      assert vendors == vendors[..|vendors| - 1] + [vendors[|vendors| - 1]];
    }
  }

  lemma {:induction false} EventsForIs(vendors: seq<Vendor>)
    ensures forall e :: e in EventsFor(vendors) <==> exists v | v in vendors :: e == ProjectionEventFor(v)
    decreases |vendors|
  {
    if vendors != [] {
      EventsForIs(vendors[..|vendors| - 1]);
      assert vendors == vendors[..|vendors| - 1] + [vendors[|vendors| - 1]];
    }
  }

  /** The vendors that a reconciliation removes. */
  function Stale(view: View, vendors: seq<Vendor>): set<Id> {
    view.Keys - IdsOf(ApprovedComplete(vendors))
  }

  /** What a reconciliation sets going: its upserts, and the deletions of the stale vendors. */
  ghost predicate IsReconciling(e: Event, view: View, vendors: seq<Vendor>) {
    e in EventsFor(ApprovedComplete(vendors)) || (e.DeleteVendor? && e.vendorId in Stale(view, vendors))
  }

  /** All of it has been done, each part at least once, in any order and with any repetitions. */
  ghost predicate Completes(log: seq<Event>, view: View, vendors: seq<Vendor>) {
    && (forall e | e in log :: IsReconciling(e, view, vendors))
    && (forall e | e in EventsFor(ApprovedComplete(vendors)) :: e in log)
    && (forall v | v in Stale(view, vendors) :: DeleteVendor(v) in log)
  }

  lemma {:induction false} LastEventIsInLog(log: seq<Event>, v: Id)
    ensures LastEvent(log, v).None? <==> forall e | e in log :: e.vendorId != v
    ensures LastEvent(log, v).Some? ==> LastEvent(log, v).value in log && LastEvent(log, v).value.vendorId == v
    decreases |log|
  {
    if log != [] {
      LastEventIsInLog(log[..|log| - 1], v);
      assert log == log[..|log| - 1] + [log[|log| - 1]];
    }
  }

  lemma ReconcilingEvent(e: Event, view: View, vendors: seq<Vendor>)
    requires IsReconciling(e, view, vendors)
    ensures if e.vendorId in IdsOf(ApprovedComplete(vendors))
            then exists v | v in ApprovedComplete(vendors) :: e == UpsertVendor(v.id, ListingFor(v))
            else e.DeleteVendor? && e.vendorId in Stale(view, vendors)
  {
    var approved := ApprovedComplete(vendors);
    ApprovedCompleteIs(vendors);
    EventsForIs(approved);
    if e in EventsFor(approved) {
      var v :| v in approved && e == ProjectionEventFor(v);
      assert v.id in IdsOf(approved);
    }
  }

  /** What the last event about a vendor must be. */
  lemma LastReconcilingEvent(log: seq<Event>, view: View, vendors: seq<Vendor>, id: Id)
    requires forall e | e in log :: IsReconciling(e, view, vendors)
    ensures var last := LastEvent(log, id);
            last.Some? ==>
              && last.value in log && last.value.vendorId == id
              && (if id in IdsOf(ApprovedComplete(vendors))
                  then exists v | v in ApprovedComplete(vendors) :: last.value == UpsertVendor(v.id, ListingFor(v))
                  else last.value.DeleteVendor? && id in Stale(view, vendors))
  {
    LastEventIsInLog(log, id);
    if LastEvent(log, id).Some? {
      ReconcilingEvent(LastEvent(log, id).value, view, vendors);
    }
  }

  lemma ApprovedIsShown(log: seq<Event>, view: View, vendors: seq<Vendor>, v: Vendor)
    requires DistinctIds(vendors) && Completes(log, view, vendors) && v in vendors && IsVendorListable(v)
    ensures Entry(DeliverAll(view, log), v.id) == Some(ListingFor(v))
  {
    var approved := ApprovedComplete(vendors);
    ApprovedCompleteIs(vendors);
    EventsForIs(approved);
    assert v in approved && ProjectionEventFor(v) in log && v.id in IdsOf(approved);
    LastEventIsInLog(log, v.id);
    LastReconcilingEvent(log, view, vendors, v.id);
    var w :| w in approved && LastEvent(log, v.id).value == UpsertVendor(w.id, ListingFor(w));
    assert w in vendors && w == v;
    LastEventWins(view, log, v.id);
  }

  lemma OtherIsHidden(log: seq<Event>, view: View, vendors: seq<Vendor>, id: Id)
    requires Completes(log, view, vendors) && id !in IdsOf(ApprovedComplete(vendors))
    ensures id !in DeliverAll(view, log)
  {
    LastEventIsInLog(log, id);
    LastReconcilingEvent(log, view, vendors, id);
    LastEventWins(view, log, id);
    if id in view {
      assert DeleteVendor(id) in log;
    }
  }

  /** From every projection state, however the deletions of the stale vendors and the deliveries of the enqueued
      events interleave: once all are done the marketplace shows exactly the approved and complete vendors with
      their current listings. */
  lemma ReconciliationConverges(view: View, vendors: seq<Vendor>, log: seq<Event>)
    requires DistinctIds(vendors) && Completes(log, view, vendors)
    ensures IsCurrent(DeliverAll(view, log), vendors)
  {
    var after := DeliverAll(view, log);
    forall v | v in vendors && v.approved && v.complete
      ensures v.id in after && Presents(after[v.id], v)
    {
      ApprovedIsShown(log, view, vendors, v);
    }
    forall id | id in after
      ensures exists v | v in vendors :: v.id == id && v.approved && v.complete
    {
      if id !in IdsOf(ApprovedComplete(vendors)) {
        OtherIsHidden(log, view, vendors, id);
      } else {
        ApprovedCompleteIs(vendors);
        var v :| v in ApprovedComplete(vendors) && v.id == id;
        assert v in vendors;
      }
    }
  }

  /** Meanwhile, at every point in between, a vendor that should be hidden is shown only if it is a stale one
      that has not been deleted yet. */
  lemma NothingStaleMeanwhile(view: View, vendors: seq<Vendor>, log: seq<Event>, id: Id)
    requires forall e | e in log :: IsReconciling(e, view, vendors)
    requires id !in IdsOf(ApprovedComplete(vendors))
    ensures id in DeliverAll(view, log) <==> id in Stale(view, vendors) && DeleteVendor(id) !in log
  {
    LastEventIsInLog(log, id);
    LastReconcilingEvent(log, view, vendors, id);
    LastEventWins(view, log, id);
  }

  /** Some member: the order in which stale vendors are deleted does not matter. */
  method Pick<T>(members: set<T>) returns (member: T)
    requires members != {}
    ensures member in members
  {
    member :| member in members;
  }

  datatype Reconciliation = Reconciliation(
    approvedComplete: nat, projected: nat, stale: nat, deletedStale: nat, upsertsEnqueued: nat)

  class Governance {
    const vendors: seq<Vendor>
    const projection: ListingTable
    var outbox: seq<Event>

    constructor (vendors: seq<Vendor>, projection: ListingTable)
      ensures this.vendors == vendors && this.projection == projection && outbox == []
    {
      this.vendors, this.projection, outbox := vendors, projection, [];
    }

    /** `enqueue_vendor_projection` */
    method EnqueueVendorProjection(v: Vendor)
      modifies this`outbox
      ensures outbox == old(outbox) + [ProjectionEventFor(v)]
      // Once delivered, the event shows the vendor as it presents itself or hides it, and touches no other vendor.
      ensures forall view: View, id | id != v.id :: Entry(Deliver(view, outbox[|old(outbox)|]), id) == Entry(view, id)
      ensures forall view: View ::
                var shown := Entry(Deliver(view, outbox[|old(outbox)|]), v.id);
                && (shown.Some? <==> v.approved && v.complete)
                && (shown.Some? ==> Presents(shown.value, v))
    {
      var event := if v.approved && v.complete then UpsertVendor(v.id, ListingFor(v)) else DeleteVendor(v.id);
      outbox := outbox + [event];
    }

    /** `_deliver_event` to an available marketplace. */
    method DeliverEvent(e: Event, newRow: Id)
      requires projection.Valid() && newRow !in projection.rows
      modifies projection
      ensures projection.Valid() && projection.view == Deliver(old(projection.view), e)
    {
      match e
      case DeleteVendor(v) =>
        var _ := projection.DeleteListing(v);
      case UpsertVendor(v, listing) =>
        var _ := projection.UpsertListing(Request(v, None, true, listing), newRow);
    }

    /** The first loop of the reconciliation. */
    method EnqueueAll(approved: seq<Vendor>) returns (enqueued: nat)
      modifies this`outbox
      ensures outbox == old(outbox) + EventsFor(approved) && enqueued == |approved|
    {
      enqueued := 0;
      for i := 0 to |approved|
        invariant outbox == old(outbox) + EventsFor(approved[..i]) && enqueued == i
      {
        EnqueueVendorProjection(approved[i]);
        enqueued := enqueued + 1;
        assert approved[..i + 1][..i] == approved[..i];
      }
      assert approved[..|approved|] == approved;
    }

    /** The second loop of the reconciliation: the deletion at position `failsAt`, if there is one, raises. */
    method DeleteStale(stale: set<Id>, failsAt: nat) returns (deleted: nat, raised: bool, ghost gone: set<Id>)
      requires projection.Valid()
      modifies projection
      ensures projection.Valid() && projection.view == old(projection.view) - gone
      ensures gone <= stale && |gone| == deleted == if raised then failsAt else |stale|
      ensures (raised <==> failsAt < |stale|) && (!raised ==> gone == stale)
    {
      var left := stale;
      deleted, gone := 0, {};
      while left != {}
        invariant projection.Valid() && projection.view == old(projection.view) - gone
        invariant gone <= stale && left == stale - gone && |gone| == deleted && deleted + |left| == |stale|
        invariant deleted <= failsAt
        decreases |left|
      {
        if deleted == failsAt {
          return deleted, true, gone;
        }
        var v := Pick(left);
        var _ := projection.DeleteListing(v);
        left, gone := left - {v}, gone + {v};
        deleted := deleted + 1;
      }
      raised := false;
    }

    /** The vendors that should be listed, those that are, and those that should not be. */
    method Compare() returns (approved: seq<Vendor>, projectedIds: set<Id>, stale: set<Id>)
      requires projection.Valid()
      ensures approved == ApprovedComplete(vendors) && projectedIds == projection.view.Keys
      ensures stale == Stale(projection.view, vendors)
    {
      approved := ApprovedComplete(vendors);
      projectedIds := VendorIds(projection.rows);
      ShownIds(projection.rows, projection.view);
      stale := projectedIds - IdsOf(approved);
    }

    /** `reconcile_marketplace_projection`; no result when a deletion raises, with the upserts enqueued and
        some of the stale vendors gone. */
    method Reconcile(dryRun: bool, failsAt: nat) returns (result: Option<Reconciliation>, ghost gone: set<Id>)
      requires projection.Valid()
      modifies this`outbox, projection
      ensures projection.Valid() && projection.view == old(projection.view) - gone
      ensures outbox == old(outbox) + (if dryRun then [] else EventsFor(ApprovedComplete(vendors)))
      ensures var stale := Stale(old(projection.view), vendors);
              && gone <= stale && |gone| == (if dryRun then 0 else if failsAt < |stale| then failsAt else |stale|)
              && (result.None? <==> !dryRun && failsAt < |stale|)
              && (result.Some? && !dryRun ==> gone == stale)
      ensures var stale := Stale(old(projection.view), vendors);
              var approved := |ApprovedComplete(vendors)|;
              result.Some? ==>
                result.value == Reconciliation(approved, |old(projection.view).Keys|, |stale|,
                                               if dryRun then 0 else |stale|, if dryRun then 0 else approved)
    {
      var approved, projectedIds, stale := Compare();
      gone := {};
      if dryRun {
        assert outbox == outbox + [];
        result := Some(Reconciliation(|approved|, |projectedIds|, |stale|, 0, 0));
        return;
      }
      var enqueued := EnqueueAll(approved);
      var deleted, raised;
      deleted, raised, gone := DeleteStale(stale, failsAt);
      result := if raised then None else Some(Reconciliation(|approved|, |projectedIds|, |stale|, deleted, enqueued));
    }
  }

}
