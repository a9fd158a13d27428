/** The messages of snapshot catch-up and the reading of a snapshot in ranges. */
module SnapshotProtocol {
  import opened RaftTypes

  datatype SnapshotRequest = SnapshotRequest(requestedBy: PeerId, requestedAt: nat)

  /** The half-open range of item offsets from `start` to `end`. */
  datatype Range = Range(start: nat, end: nat)

  datatype Message<+Item> =
    | RequestSnapshot
    | SnapshotOffer(anchor: Cursor, itemsCount: nat)
    | FetchDataRequest(anchor: Cursor, range: Range)
    | FetchDataResponse(anchor: Cursor, offset: nat, items: seq<Item>)

  /** The items of a snapshot in its iteration order, or nothing when the range reaches past the end. */
  function IterRange<Item>(items: seq<Item>, range: Range): (r: Option<seq<Item>>)
    requires range.start <= range.end
    ensures r.Some? <==> range.end <= |items|
    ensures r.Some? ==> |r.value| == range.end - range.start && items == items[..range.start] + r.value + items[range.end..]
  {
    if range.end > |items| then None else Some(items[range.start..range.end])
  }

  /** What an honest peer says of the snapshot at an anchor, `truth(anchor)` being its items in iteration order. */
  predicate HonestOffer<Item>(truth: Cursor -> seq<Item>, anchor: Cursor, itemsCount: nat) {
    itemsCount == |truth(anchor)|
  }

  predicate HonestItems<Item(==)>(truth: Cursor -> seq<Item>, anchor: Cursor, offset: nat, items: seq<Item>) {
    var whole := truth(anchor);
    offset + |items| <= |whole| && items == whole[offset..offset + |items|]
  }
}
