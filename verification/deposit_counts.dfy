/**
 * The deposit-backed product listing: for each catalogue product, the
 * count available to order is the sum of the counts of the member's
 * deposit entries with that id whose points are not yet issued.
 */
module DepositProductListing {
  import opened DepositTypes
  import ProductCatalog

  /** `availableProducts.filter((depP) => depP.id == product.id)` */
  function Matching(entries: seq<DepositProduct>, productId: int): (r: seq<DepositProduct>)
    ensures forall p :: p in r <==> p in entries && p.id == productId
    ensures |r| <= |entries|
  {
    if entries == [] then []
    else if entries[0].id == productId then [entries[0]] + Matching(entries[1..], productId)
    else Matching(entries[1..], productId)
  }

  /** `.reduce((val, item) => (!item.points ? (val += item?.count) : val), 0)`, folded from the left. */
  function SumUnpointed(entries: seq<DepositProduct>): (r: int)
    ensures (forall e | e in entries :: e.points) ==> r == 0
    ensures (forall e | e in entries :: e.count >= 0) ==> r >= 0
  {
    if entries == [] then 0
    else
      var last := entries[|entries| - 1];
      SumUnpointed(entries[..|entries| - 1]) + (if !last.points then last.count else 0)
  }

  /** `availableCount` for one catalogue product (`|| 0` never changes an integer sum). */
  function AvailableCount(entries: seq<DepositProduct>, productId: int): (r: int)
    ensures (forall e | e in entries && e.id == productId :: e.count >= 0) ==> r >= 0
    ensures (forall e | e in entries && e.id == productId :: e.points) ==> r == 0
  {
    SumUnpointed(Matching(entries, productId))
  }

  /** What one entry contributes to a product's available count. */
  function Contribution(e: DepositProduct, productId: int): int
  {
    if e.id == productId && !e.points then e.count else 0
  }

  lemma {:induction false} SumUnpointedConcat(a: seq<DepositProduct>, b: seq<DepositProduct>)
    ensures SumUnpointed(a + b) == SumUnpointed(a) + SumUnpointed(b)
  {
    if b == [] {
      assert a + b == a;
    } else {
      assert (a + b)[..|a + b| - 1] == a + b[..|b| - 1];
      SumUnpointedConcat(a, b[..|b| - 1]);
    }
  }

  lemma {:induction false} MatchingConcat(a: seq<DepositProduct>, b: seq<DepositProduct>, productId: int)
    ensures Matching(a + b, productId) == Matching(a, productId) + Matching(b, productId)
  {
    if a == [] {
      assert a + b == b;
    } else {
      assert (a + b)[1..] == a[1..] + b;
      MatchingConcat(a[1..], b, productId);
    }
  }

  /** The available count of a concatenation is the sum of the two counts. */
  lemma AvailableCountConcat(a: seq<DepositProduct>, b: seq<DepositProduct>, productId: int)
    ensures AvailableCount(a + b, productId) == AvailableCount(a, productId) + AvailableCount(b, productId)
  {
    MatchingConcat(a, b, productId);
    SumUnpointedConcat(Matching(a, productId), Matching(b, productId));
  }

  /**
   * One more entry changes the count by exactly its contribution: its count
   * when it carries the product id and its points are not issued, else 0.
   * So entries with points issued and entries of other products never
   * affect a product's count.
   */
  lemma AvailableCountAppend(entries: seq<DepositProduct>, e: DepositProduct, productId: int)
    ensures AvailableCount(entries + [e], productId) == AvailableCount(entries, productId) + Contribution(e, productId)
  {
    AvailableCountConcat(entries, [e], productId);
    assert Matching([e], productId) == if e.id == productId then [e] else [];
    if e.id == productId {
      assert SumUnpointed([e]) == SumUnpointed([e][..0]) + (if !e.points then e.count else 0);
    }
  }

  /** With no entry of the product whose points are pending, the available count is 0. */
  lemma {:induction false} AvailableCountNoMatch(entries: seq<DepositProduct>, productId: int)
    requires forall i :: 0 <= i < |entries| ==> entries[i].id != productId || entries[i].points
    ensures AvailableCount(entries, productId) == 0
  {
    if entries != [] {
      var init := entries[..|entries| - 1];
      AvailableCountNoMatch(init, productId);
      AvailableCountAppend(init, entries[|entries| - 1], productId);
      assert init + [entries[|entries| - 1]] == entries;
    }
  }

  /** The counts a product card receives from the listing. */
  datatype CardCounts = CardCounts(depositCount: int, selectedCount: int)

  /** The listing passes the available count as both the deposit count and the selected count. */
  function ListingCard(product: ProductCatalog.Product, entries: seq<DepositProduct>): (r: CardCounts)
    ensures r.depositCount == r.selectedCount == AvailableCount(entries, product.id)
  {
    var available := AvailableCount(entries, product.id);
    CardCounts(available, available)
  }
}

/**
 * The postponed-points listing: for each catalogue product, the deposit
 * count is the count of the FIRST deposit entry with that id, whatever its
 * points flag, and 0 when there is none.
 */
module DepositPoints {
  import opened Options
  import opened DepositTypes
  import ProductCatalog
  import DepositProductListing

  /** `k` is the position of the first entry with the id. */
  predicate IsFirstMatch(entries: seq<DepositProduct>, productId: int, k: int)
  {
    0 <= k < |entries| && entries[k].id == productId
    && forall j :: 0 <= j < k ==> entries[j].id != productId
  }

  /** The index of the first entry with the id: the position `find` stops at. */
  function FindIndex(entries: seq<DepositProduct>, productId: int): (r: Option<int>)
    ensures r.None? <==> forall i :: 0 <= i < |entries| ==> entries[i].id != productId
    ensures r.Some? ==> 0 <= r.value < |entries| && entries[r.value].id == productId
    ensures r.Some? ==> forall j :: 0 <= j < r.value ==> entries[j].id != productId
  {
    if entries == [] then None
    else if entries[0].id == productId then Some(0)
    else
      match FindIndex(entries[1..], productId)
      case None => None
      case Some(k) => Some(k + 1)
  }

  /** `depositProducts.find((depP) => depP.id == product.id)` */
  function Find(entries: seq<DepositProduct>, productId: int): (r: Option<DepositProduct>)
    ensures r.None? <==> forall i :: 0 <= i < |entries| ==> entries[i].id != productId
    ensures forall k :: IsFirstMatch(entries, productId, k) ==> r == Some(entries[k])
  {
    match FindIndex(entries, productId)
    case None => None
    case Some(k) => Some(entries[k])
  }

  /** `...?.count || 0`: the first match's count, or 0 without a match. */
  function DepositCount(entries: seq<DepositProduct>, productId: int): (r: int)
    ensures (forall i :: 0 <= i < |entries| ==> entries[i].id != productId) ==> r == 0
    ensures forall k :: IsFirstMatch(entries, productId, k) ==> r == entries[k].count
  {
    match Find(entries, productId)
    case None => 0
    case Some(e) => e.count
  }

  /** Entries after the first match are ignored. */
  lemma DepositCountIgnoresLater(a: seq<DepositProduct>, b: seq<DepositProduct>, productId: int)
    requires exists i :: 0 <= i < |a| && a[i].id == productId
    ensures DepositCount(a + b, productId) == DepositCount(a, productId)
  {
    var k := FindIndex(a, productId).value;
    assert (a + b)[k] == a[k];
    assert forall j :: 0 <= j < k ==> (a + b)[j] == a[j];
  }

  /** Two lists that differ at most in the points flags give the same count: the flag is not consulted. */
  lemma DepositCountIgnoresPoints(a: seq<DepositProduct>, b: seq<DepositProduct>, productId: int)
    requires |a| == |b|
    requires forall i :: 0 <= i < |a| ==> a[i].(points := b[i].points) == b[i]
    ensures DepositCount(a, productId) == DepositCount(b, productId)
  {
    if exists i :: 0 <= i < |a| && a[i].id == productId {
      var k := FindIndex(a, productId).value;
      assert b[k].id == productId && b[k].count == a[k].count;
      assert forall j :: 0 <= j < k ==> b[j].id == a[j].id;
    } else {
      assert forall j :: 0 <= j < |b| ==> b[j].id == a[j].id;
    }
  }

  /**
   * The two listings disagree as soon as a product has two deposit entries
   * with pending points: the first-match rule sees only the first.
   */
  lemma RulesDisagreeOnRepeatedEntries(e1: DepositProduct, e2: DepositProduct)
    requires e1.id == e2.id && !e1.points && !e2.points && e2.count != 0
    ensures DepositCount([e1, e2], e1.id) == e1.count
    ensures DepositProductListing.AvailableCount([e1, e2], e1.id) == e1.count + e2.count
  {
    assert IsFirstMatch([e1, e2], e1.id, 0);
    var id := e1.id;
    DepositProductListing.AvailableCountNoMatch([], id);
    DepositProductListing.AvailableCountAppend([], e1, id);
    assert [] + [e1] == [e1];
    DepositProductListing.AvailableCountAppend([e1], e2, id);
    assert [e1] + [e2] == [e1, e2];
  }

  /** The postponed-points listing passes the first-match count and the catalogue product's own count. */
  function PointsCard(product: ProductCatalog.Product, entries: seq<DepositProduct>): (r: DepositProductListing.CardCounts)
    ensures r.depositCount == DepositCount(entries, product.id)
    ensures r.selectedCount == product.count
  {
    DepositProductListing.CardCounts(DepositCount(entries, product.id), product.count)
  }
}
