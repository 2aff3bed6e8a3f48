/** The tow registry's entries and the pure views of it that the handlers use. */
module Registry {
  import opened Common
  import opened Geo

  /** One entry of the tow table: the tow's connection, its last reported location (none until the
      first report) and the info it sent, if any. */
  datatype Tow = Tow(socketId: SocketId, location: Option<Location>, info: Option<Info>)

  /** No id occurs twice in `ids`. */
  predicate Distinct(ids: seq<SocketId>)
  {
    forall i, j :: 0 <= i < j < |ids| ==> ids[i] != ids[j]
  }

  /** No two tows in `ts` share a connection. */
  predicate DistinctSockets(ts: seq<Tow>)
  {
    forall i, j :: 0 <= i < j < |ts| ==> ts[i].socketId != ts[j].socketId
  }

  /** The table's values in its iteration order, `order` being the keys in insertion order. */
  function InOrder(order: seq<SocketId>, tows: map<SocketId, Tow>): (ts: seq<Tow>)
    requires forall k :: k in order ==> k in tows
    ensures |ts| == |order|
    ensures forall i :: 0 <= i < |order| ==> ts[i] == tows[order[i]]
  {
    if order == [] then [] else InOrder(order[..|order| - 1], tows) + [tows[order[|order| - 1]]]
  }

  /** `ids` with every occurrence of `k` dropped, the rest kept in order: the iteration order of
      a Map after `delete(k)`. */
  function Without(ids: seq<SocketId>, k: SocketId): (r: seq<SocketId>)
    ensures forall x :: x in r <==> x in ids && x != k
    ensures Distinct(ids) ==> Distinct(r)
    ensures k !in ids ==> r == ids
  {
    if ids == [] then []
    else
      var rest := Without(ids[1..], k);
      if ids[0] == k then rest
      else
        assert Distinct(ids) ==> ids[0] !in ids[1..];
        [ids[0]] + rest
  }

  /** Deleting a key that sits at position `p` of a duplicate-free order closes the gap and keeps
      every other key where it was relative to the rest. */
  lemma {:induction false} WithoutKeepsOrder(ids: seq<SocketId>, p: nat, k: SocketId)
    requires Distinct(ids) && p < |ids| && ids[p] == k
    ensures Without(ids, k) == ids[..p] + ids[p + 1..]
  {
    if p == 0 {
      assert k !in ids[1..];
      assert ids[1..] == ids[p + 1..];
    } else {
      assert Distinct(ids[1..]);
      WithoutKeepsOrder(ids[1..], p - 1, k);
      assert ids[1..][..p - 1] == ids[1..p];
      assert ids[1..][p..] == ids[p + 1..];
      assert ids[..p] == [ids[0]] + ids[1..p];
    }
  }
}
