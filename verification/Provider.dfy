/** The serving side of snapshot catch-up. */
module SnapshotProvider {
  import opened RaftTypes
  import opened SnapshotProtocol

  /** A snapshot the state machine took for a request it met in the log. */
  datatype Pending<Item> = Pending(request: SnapshotRequest, position: Cursor, snapshot: seq<Item>)

  datatype Offer = Offer(recipient: PeerId, anchor: Cursor, itemsCount: nat)

  predicate Stale<Item>(p: Pending<Item>, local: PeerId, expired: SnapshotRequest -> bool) {
    p.request.requestedBy == local || expired(p.request)
  }

  /** The snapshots kept after serving the pending requests: the first one of a position stays. */
  function Kept<Item>(available: map<Cursor, seq<Item>>, pending: seq<Pending<Item>>, local: PeerId, expired: SnapshotRequest -> bool)
    : map<Cursor, seq<Item>>
  {
    if pending == [] then available
    else
      var before := Kept(available, pending[..|pending| - 1], local, expired);
      var p := pending[|pending| - 1];
      if Stale(p, local, expired) || p.position in before then before else before[p.position := p.snapshot]
  }

  function OffersFor<Item>(pending: seq<Pending<Item>>, local: PeerId, expired: SnapshotRequest -> bool): seq<Offer> {
    if pending == [] then []
    else
      var p := pending[|pending| - 1];
      OffersFor(pending[..|pending| - 1], local, expired)
      + if Stale(p, local, expired) then [] else [Offer(p.request.requestedBy, p.position, |p.snapshot|)]
  }

  /** Every snapshot held under an anchor is the one that anchor names. */
  ghost predicate HonestStore<Item>(truth: Cursor -> seq<Item>, available: map<Cursor, seq<Item>>) {
    forall a :: a in available ==> available[a] == truth(a)
  }

  ghost predicate HonestPending<Item>(truth: Cursor -> seq<Item>, pending: seq<Pending<Item>>) {
    forall i :: 0 <= i < |pending| ==> pending[i].snapshot == truth(pending[i].position)
  }

  ghost predicate HonestOffers<Item>(truth: Cursor -> seq<Item>, offers: seq<Offer>) {
    forall i :: 0 <= i < |offers| ==> HonestOffer(truth, offers[i].anchor, offers[i].itemsCount)
  }

  lemma {:induction false} ServingStaysHonest<Item>(truth: Cursor -> seq<Item>, available: map<Cursor, seq<Item>>,
                                                   pending: seq<Pending<Item>>, local: PeerId, expired: SnapshotRequest -> bool)
    requires HonestStore(truth, available) && HonestPending(truth, pending)
    ensures HonestStore(truth, Kept(available, pending, local, expired))
    ensures HonestOffers(truth, OffersFor(pending, local, expired))
  {
    if pending != [] {
      var n := |pending| - 1;
      ServingStaysHonest(truth, available, pending[..n], local, expired);
      assert pending[n].snapshot == truth(pending[n].position);
    }
  }

  /** Another peer's request that has not expired. */
  predicate Live<Item>(p: Pending<Item>, local: PeerId, expired: SnapshotRequest -> bool) {
    p.request.requestedBy != local && !expired(p.request)
  }

  /** Exactly the live requests are offered, each to who made it, with the position and size of its snapshot. */
  lemma {:induction false} LiveRequestsAreOffered<Item>(pending: seq<Pending<Item>>, local: PeerId, expired: SnapshotRequest -> bool, o: Offer)
    ensures o in OffersFor(pending, local, expired) <==>
            exists i :: 0 <= i < |pending| && Live(pending[i], local, expired)
                        && o == Offer(pending[i].request.requestedBy, pending[i].position, |pending[i].snapshot|)
  {
    if pending != [] {
      var n := |pending| - 1;
      LiveRequestsAreOffered(pending[..n], local, expired, o);
      assert forall i :: 0 <= i < n ==> pending[..n][i] == pending[i];
    }
  }

  /** Request `i` is the first live one of position `a`. */
  ghost predicate FirstOf<Item>(pending: seq<Pending<Item>>, local: PeerId, expired: SnapshotRequest -> bool, a: Cursor, i: int) {
    && 0 <= i < |pending| && pending[i].position == a && Live(pending[i], local, expired)
    && forall j :: 0 <= j < i ==> !(pending[j].position == a && Live(pending[j], local, expired))
  }

  /** A held snapshot stays; a new position gets the snapshot of its first live request, and none else is added. */
  lemma {:induction false} FirstSnapshotStays<Item>(available: map<Cursor, seq<Item>>, pending: seq<Pending<Item>>, local: PeerId,
                                                   expired: SnapshotRequest -> bool, a: Cursor)
    ensures var kept := Kept(available, pending, local, expired);
            && (a in available ==> a in kept && kept[a] == available[a])
            && (a !in available && a in kept ==> exists i :: FirstOf(pending, local, expired, a, i) && kept[a] == pending[i].snapshot)
            && (a !in kept ==> forall i :: 0 <= i < |pending| ==> !(pending[i].position == a && Live(pending[i], local, expired)))
  {
    if pending != [] {
      var n := |pending| - 1;
      var front := pending[..n];
      FirstSnapshotStays(available, front, local, expired, a);
      var before := Kept(available, front, local, expired);
      if a !in available && a in before {
        var i :| FirstOf(front, local, expired, a, i) && before[a] == front[i].snapshot;
        assert FirstOf(pending, local, expired, a, i);
      } else if a !in available && a in Kept(available, pending, local, expired) {
        assert FirstOf(pending, local, expired, a, n);
      }
    }
  }

  // ---------------------------------------------------------------- everything a provider ever does

  /** One piece of a provider's work: serving what the state machine handed over, or dropping expired snapshots. */
  datatype Duty<Item> =
    | Serve(pending: seq<Pending<Item>>, local: PeerId, expired: SnapshotRequest -> bool)
    | Expire(anchors: set<Cursor>)

  function StoreAfter<Item>(duties: seq<Duty<Item>>): map<Cursor, seq<Item>> {
    if duties == [] then map[]
    else
      var before := StoreAfter(duties[..|duties| - 1]);
      match duties[|duties| - 1]
      case Serve(pending, local, expired) => Kept(before, pending, local, expired)
      case Expire(anchors) => before - anchors
  }

  /** Everything handed over is the snapshot its position names. */
  ghost predicate HonestDuties<Item>(truth: Cursor -> seq<Item>, duties: seq<Duty<Item>>) {
    forall d :: 0 <= d < |duties| && duties[d].Serve? ==> HonestPending(truth, duties[d].pending)
  }

  /** The provider offered this with its `d`-th duty. */
  ghost predicate Offers<Item>(duties: seq<Duty<Item>>, d: nat, anchor: Cursor, itemsCount: nat) {
    && d < |duties| && duties[d].Serve?
    && var offers := OffersFor(duties[d].pending, duties[d].local, duties[d].expired);
       exists i :: 0 <= i < |offers| && offers[i].anchor == anchor && offers[i].itemsCount == itemsCount
  }

  /** The provider answered this from what it held after `d` duties. */
  ghost predicate Answered<Item>(duties: seq<Duty<Item>>, d: nat, anchor: Cursor, offset: nat, items: seq<Item>) {
    && d <= |duties| && anchor in StoreAfter(duties[..d])
    && var whole := StoreAfter(duties[..d])[anchor];
       offset + |items| <= |whole| && items == whole[offset..offset + |items|]
  }

  lemma {:induction false} StoreStaysHonest<Item>(truth: Cursor -> seq<Item>, duties: seq<Duty<Item>>)
    requires HonestDuties(truth, duties)
    ensures HonestStore(truth, StoreAfter(duties))
  {
    if duties != [] {
      var n := |duties| - 1;
      StoreStaysHonest(truth, duties[..n]);
      match duties[n]
      case Serve(pending, local, expired) =>
        assert HonestPending(truth, pending);
        ServingStaysHonest(truth, StoreAfter(duties[..n]), pending, local, expired);
      case Expire(_) =>
    }
  }

  /** Whatever a provider of true snapshots ever offers or answers is true. */
  lemma ProvidersTellTheTruth<Item>(truth: Cursor -> seq<Item>, duties: seq<Duty<Item>>, d: nat, anchor: Cursor, itemsCount: nat, offset: nat, items: seq<Item>)
    requires HonestDuties(truth, duties)
    ensures Offers(duties, d, anchor, itemsCount) ==> HonestOffer(truth, anchor, itemsCount)
    ensures Answered(duties, d, anchor, offset, items) ==> HonestItems(truth, anchor, offset, items)
  {
    if Offers(duties, d, anchor, itemsCount) {
      assert HonestPending(truth, duties[d].pending);
      ServingStaysHonest(truth, map[], duties[d].pending, duties[d].local, duties[d].expired);
      var offers := OffersFor(duties[d].pending, duties[d].local, duties[d].expired);
      assert HonestOffers(truth, offers);
    }
    if Answered(duties, d, anchor, offset, items) {
      assert HonestDuties(truth, duties[..d]);
      StoreStaysHonest(truth, duties[..d]);
    }
  }

  /** An offer is of a snapshot that was handed over. */
  lemma {:induction false} OfferedWasPending<Item>(pending: seq<Pending<Item>>, local: PeerId, expired: SnapshotRequest -> bool, i: nat)
    requires i < |OffersFor(pending, local, expired)|
    ensures exists j :: 0 <= j < |pending| && pending[j].position == OffersFor(pending, local, expired)[i].anchor
  {
    var n := |pending| - 1;
    var before := OffersFor(pending[..n], local, expired);
    if i < |before| {
      OfferedWasPending(pending[..n], local, expired, i);
      var j :| 0 <= j < n && pending[..n][j].position == before[i].anchor;
      assert pending[j].position == before[i].anchor;
    } else {
      assert pending[n].position == OffersFor(pending, local, expired)[i].anchor;
    }
  }

  class SnapshotSyncProvider<Item(==)> {
    const localId: PeerId
    const fetchBatchSize: nat
    var available: map<Cursor, seq<Item>>

    constructor (localId: PeerId, fetchBatchSize: nat)
      ensures this.localId == localId && this.fetchBatchSize == fetchBatchSize && available == map[]
    {
      this.localId, this.fetchBatchSize, available := localId, fetchBatchSize, map[];
    }

    method PollPendingRequests(pending: seq<Pending<Item>>, expired: SnapshotRequest -> bool) returns (offers: seq<Offer>)
      modifies this`available
      ensures available == Kept(old(available), pending, localId, expired)
      ensures offers == OffersFor(pending, localId, expired)
    {
      offers := [];
      for i := 0 to |pending|
        invariant available == Kept(old(available), pending[..i], localId, expired)
        invariant offers == OffersFor(pending[..i], localId, expired)
      {
        assert pending[..i + 1][..i] == pending[..i];
        var p := pending[i];
        if !(p.request.requestedBy == localId || expired(p.request)) {
          if p.position !in available {
            available := available[p.position := p.snapshot];
          }
          offers := offers + [Offer(p.request.requestedBy, p.position, |p.snapshot|)];
        }
      }
      assert pending[..|pending|] == pending;
    }

    method PruneExpiredSnapshots(expired: set<Cursor>)
      modifies this`available
      ensures available == old(available) - expired
      ensures forall truth :: old(HonestStore(truth, available)) ==> HonestStore(truth, available)
    {
      available := available - expired;
    }

    /**
     * Answers a fetch from the snapshot it names, at most one batch at a time, and not at all when the snapshot is
     * gone, the range is empty or it reaches past the end. From an honest store the answer is honest.
     */
    method OnFetchDataRequest(anchor: Cursor, range: Range) returns (reply: Option<Message<Item>>)
      ensures reply.Some? <==>
              && anchor in available && range.start < range.end && fetchBatchSize > 0
              && Min(range.end, range.start + fetchBatchSize) <= |available[anchor]|
      ensures reply.Some? ==>
              && reply.value.FetchDataResponse? && reply.value.anchor == anchor && reply.value.offset == range.start
              && |reply.value.items| == Min(range.end - range.start, fetchBatchSize)
              && forall truth: Cursor -> seq<Item> :: HonestStore(truth, available) ==>
                   HonestItems(truth, anchor, range.start, reply.value.items)
    {
      if anchor !in available {
        return None;
      }
      var end := Min(range.end, range.start + fetchBatchSize);
      if end <= range.start {
        return None;
      }
      var items := IterRange(available[anchor], Range(range.start, end));
      if items.None? {
        return None;
      }
      reply := Some(FetchDataResponse(anchor, range.start, items.value));
    }
  }
}
