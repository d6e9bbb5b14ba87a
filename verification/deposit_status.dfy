/**
 * The member's deposit screen: the status label of an entry and the list
 * transformations of "mark as received" (one entry, or every entry that
 * is not yet received), together with the list sent to the backend.
 */
module DepositStatus {
  import opened Options
  import opened DepositTypes

  datatype StatusLabel = StatusLabel(text: string, color: string)

  const PendingLabel: StatusLabel := StatusLabel("طلب معلّق", "gray")
  const NotReceivedLabel: StatusLabel := StatusLabel("لم تُستَلَم", "red")
  const PostponedLabel: StatusLabel := StatusLabel("نقاط مؤجلة", "orange")

  /** `getStatusLabel`: pending when `received` is undefined, not received when false, postponed points when true. */
  function GetStatusLabel(p: DepositProduct): (r: StatusLabel)
    ensures r == PendingLabel <==> p.received == None
    ensures r == NotReceivedLabel <==> p.received == Some(false)
    ensures r == PostponedLabel <==> p.received == Some(true)
  {
    match p.received
    case None => PendingLabel
    case Some(received) => if !received then NotReceivedLabel else PostponedLabel
  }

  /** Marking by index: `products.map((prod, i) => i === index ? { ...prod, received: true } : prod)`. */
  function MarkAt(products: seq<DepositProduct>, index: int): (r: seq<DepositProduct>)
    ensures |r| == |products|
    ensures forall i :: 0 <= i < |r| && i != index ==> r[i] == products[i]
    ensures 0 <= index < |r| ==>
      r[index].received == Some(true) && r[index].(received := products[index].received) == products[index]
  {
    seq(|products|, i requires 0 <= i < |products| =>
      if i == index then products[i].(received := Some(true)) else products[i])
  }

  /** The callback of the mark-all `map`: an entry received as `false` becomes `true`. */
  function MarkIfUnreceived(p: DepositProduct): DepositProduct
  {
    if p.received == None || p.received.value then p else p.(received := Some(true))
  }

  /** The mark-all `map`, whose callback never yields `undefined`. */
  function MarkAllMapped(products: seq<DepositProduct>): (r: seq<Option<DepositProduct>>)
    ensures |r| == |products|
    ensures forall i :: 0 <= i < |r| ==> r[i] == Some(MarkIfUnreceived(products[i]))
  {
    seq(|products|, i requires 0 <= i < |products| => Some(MarkIfUnreceived(products[i])))
  }

  /** `.filter((p) => p !== undefined)` */
  function DropUndefined(xs: seq<Option<DepositProduct>>): (r: seq<DepositProduct>)
    ensures |r| <= |xs|
  {
    if xs == [] then []
    else if xs[0] == None then DropUndefined(xs[1..])
    else [xs[0].value] + DropUndefined(xs[1..])
  }

  /** The `undefined` filter removes nothing from a list with no `undefined` entry. */
  lemma {:induction false} DropUndefinedKeepsAll(xs: seq<Option<DepositProduct>>)
    requires forall i :: 0 <= i < |xs| ==> xs[i].Some?
    ensures |DropUndefined(xs)| == |xs|
    ensures forall i :: 0 <= i < |xs| ==> DropUndefined(xs)[i] == xs[i].value
  {
    if xs != [] {
      DropUndefinedKeepsAll(xs[1..]);
    }
  }

  /**
   * Mark all: every entry received as `false` becomes `true`; undefined and
   * true entries, the order and the length stay as they were.
   */
  function MarkAll(products: seq<DepositProduct>): (r: seq<DepositProduct>)
    ensures |r| == |products|
    ensures forall i :: 0 <= i < |r| ==>
      && r[i].(received := products[i].received) == products[i]
      && r[i].received == (if products[i].received == Some(false) then Some(true) else products[i].received)
  {
    DropUndefinedKeepsAll(MarkAllMapped(products));
    DropUndefined(MarkAllMapped(products))
  }

  /** After mark-all no entry is left with `received === false`. */
  lemma NoUnreceivedAfterMarkAll(products: seq<DepositProduct>, i: int)
    requires 0 <= i < |products|
    ensures MarkAll(products)[i].received != Some(false)
  {
  }

  /** Mark-all is idempotent. */
  lemma MarkAllIdempotent(products: seq<DepositProduct>)
    ensures MarkAll(MarkAll(products)) == MarkAll(products)
  {
    var once := MarkAll(products);
    var twice := MarkAll(once);
    assert forall i :: 0 <= i < |once| ==> twice[i] == once[i];
  }

  /**
   * The filter before `markProductsAsReceived`: `p?.received != undefined && (p.received || !p.received)`.
   * Its second conjunct is always true, so it only asks that `received` be defined.
   */
  predicate SentToBackend(p: DepositProduct)
    ensures SentToBackend(p) <==> p.received.Some?
  {
    p.received != None && (p.received.value || !p.received.value)
  }

  function ToSend(products: seq<DepositProduct>): (r: seq<DepositProduct>)
    ensures forall p :: p in r <==> p in products && p.received.Some?
    ensures |r| <= |products|
  {
    if products == [] then []
    else if SentToBackend(products[0]) then [products[0]] + ToSend(products[1..])
    else ToSend(products[1..])
  }

  /** The send filter keeps the original order: it distributes over concatenation. */
  lemma {:induction false} ToSendConcat(a: seq<DepositProduct>, b: seq<DepositProduct>)
    ensures ToSend(a + b) == ToSend(a) + ToSend(b)
  {
    if a != [] {
      assert (a + b)[1..] == a[1..] + b;
      ToSendConcat(a[1..], b);
    } else {
      assert a + b == b;
    }
  }

  /** With every entry defined, the whole list is sent. */
  lemma {:induction false} ToSendAllDefined(products: seq<DepositProduct>)
    requires forall i :: 0 <= i < |products| ==> products[i].received.Some?
    ensures ToSend(products) == products
  {
    if products != [] {
      ToSendAllDefined(products[1..]);
    }
  }

  /** `handleMarkAsReceived`: the new list shown, and the list sent to the backend. */
  function HandleMarkAsReceived(products: seq<DepositProduct>, index: Option<int>): (r: (seq<DepositProduct>, seq<DepositProduct>))
    ensures r.0 == (if index.Some? then MarkAt(products, index.value) else MarkAll(products))
    ensures r.1 == ToSend(r.0)
    ensures forall p :: p in r.1 <==> p in r.0 && p.received.Some?
    ensures index.None? ==> forall p :: p in r.1 ==> p.received == Some(true)
  {
    var updated := if index.Some? then MarkAt(products, index.value) else MarkAll(products);
    (updated, ToSend(updated))
  }
}
