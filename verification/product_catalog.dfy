/**
 * The product catalogue context: the comparator that orders products
 * ("special" products first, then by tag), the in-place sort built on it,
 * the 24-hour product cache, and the provider that chooses between freshly
 * fetched products, the cached copy and the built-in fallback list.
 */
module ProductCatalog {
  import opened Options

  datatype Title = Title(ar: string, tr: string)

  /** A catalogue product; `tag` and `special` are optional fields. */
  datatype Product = Product(
    id: int,
    tag: Option<int>,
    count: int,
    special: Option<int>,
    price: int,
    title: Title)

  /** `a.special ?? 0` */
  function SpecialOf(p: Product): (s: int)
    ensures p.special.None? ==> s == 0
    ensures p.special.Some? ==> s == p.special.value
  {
    p.special.GetOr(0)
  }

  /** `a.tag ?? 0` */
  function TagOf(p: Product): (t: int)
    ensures p.tag.None? ==> t == 0
    ensures p.tag.Some? ==> t == p.tag.value
  {
    p.tag.GetOr(0)
  }

  predicate IsSpecial(s: int) { s == 1 || s == 2 }

  /**
   * The comparator handed to `Array.prototype.sort`. Products with equal
   * keys compare equal, and on well-formed products it orders by key.
   */
  function Compare(a: Product, b: Product): (r: int)
    ensures Key(a) == Key(b) ==> r == 0
    ensures WellFormed(a) && WellFormed(b) ==> (r <= 0 <==> KeyLe(a, b))
  {
    var aSpecial := SpecialOf(a);
    var bSpecial := SpecialOf(b);
    if IsSpecial(aSpecial) && bSpecial == 0 then -1
    else if IsSpecial(bSpecial) && aSpecial == 0 then 1
    else TagOf(a) - TagOf(b)
  }

  /** A product whose `special` is undefined, 0, 1 or 2: the values the comparator knows. */
  predicate WellFormed(p: Product)
  {
    SpecialOf(p) == 0 || IsSpecial(SpecialOf(p))
  }

  predicate AllWellFormed(s: seq<Product>)
  {
    forall p | p in s :: WellFormed(p)
  }

  /** 0 for the special group, 1 for the regular group. */
  function Group(p: Product): int
  {
    if IsSpecial(SpecialOf(p)) then 0 else 1
  }

  /** The order the comparator induces on well-formed products: by group, then by tag. */
  predicate KeyLe(a: Product, b: Product)
  {
    Group(a) < Group(b) || (Group(a) == Group(b) && TagOf(a) <= TagOf(b))
  }

  predicate Sorted(s: seq<Product>)
  {
    forall i, j :: 0 <= i < j < |s| ==> KeyLe(s[i], s[j])
  }

  /** The key the comparator orders well-formed products by: group, then tag. */
  function Key(p: Product): (int, int)
  {
    (Group(p), TagOf(p))
  }

  /** The products of `s` whose key is `k`, in their order in `s`. */
  function WithKey(s: seq<Product>, k: (int, int)): (r: seq<Product>)
    ensures forall x :: x in r <==> x in s && Key(x) == k
    ensures |r| <= |s|
  {
    if s == [] then []
    else (if Key(s[0]) == k then [s[0]] else []) + WithKey(s[1..], k)
  }

  /** `r` lists the products of each key exactly as `s` does: a stable rearrangement. */
  ghost predicate SameKeyOrder(r: seq<Product>, s: seq<Product>)
  {
    forall k :: WithKey(r, k) == WithKey(s, k)
  }

  /**
   * `r` is what sorting `s` yields: a permutation that keeps products with
   * equal keys in their original order, ordered whenever the comparator is
   * consistent.
   */
  ghost predicate SortedPermutationOf(r: seq<Product>, s: seq<Product>)
  {
    multiset(r) == multiset(s) && SameKeyOrder(r, s) && (AllWellFormed(s) ==> Sorted(r))
  }

  /** A special product (1 or 2) compares before a regular one (0), in both argument orders. */
  lemma SpecialBeforeRegular(a: Product, b: Product)
    requires IsSpecial(SpecialOf(a)) && SpecialOf(b) == 0
    ensures Compare(a, b) < 0 && Compare(b, a) > 0
  {
  }

  /** The comparator is antisymmetric in sign for every pair of products. */
  lemma CompareAntisymmetric(a: Product, b: Product)
    ensures Compare(a, b) < 0 <==> Compare(b, a) > 0
    ensures Compare(a, b) == 0 <==> Compare(b, a) == 0
  {
  }

  /**
   * In a sorted list of well-formed products every special product comes
   * before every regular one, and each group is ordered by ascending tag.
   */
  lemma SortedGroupsSpecialFirst(s: seq<Product>, i: int, j: int)
    requires Sorted(s) && AllWellFormed(s)
    requires 0 <= i < j < |s|
    ensures IsSpecial(SpecialOf(s[j])) ==> IsSpecial(SpecialOf(s[i]))
    ensures SpecialOf(s[i]) == 0 ==> SpecialOf(s[j]) == 0
    ensures Group(s[i]) == Group(s[j]) ==> TagOf(s[i]) <= TagOf(s[j])
  {
    assert s[i] in s && s[j] in s;
  }

  predicate SortedPrefix(s: seq<Product>, n: int)
  {
    forall k, l :: 0 <= k < l < n && l < |s| ==> KeyLe(s[k], s[l])
  }

  /**
   * `sortProducts`: sorts the array in place with the comparator. The result
   * is always a permutation; when every `special` is one the comparator
   * knows, it is ordered special-first and then by tag. Adjacent swaps only
   * happen on a strict inversion, so products with equal keys keep their
   * order: the sort is stable, as the engine's is.
   */
  method SortProducts(a: array<Product>)
    modifies a
    ensures SortedPermutationOf(a[..], old(a[..]))
  {
    ghost var wf := AllWellFormed(a[..]);
    if a.Length == 0 {
      return;
    }
    var i := 1;
    while i < a.Length
      invariant 1 <= i <= a.Length
      invariant multiset(a[..]) == multiset(old(a[..]))
      invariant SameKeyOrder(a[..], old(a[..]))
      invariant wf ==> AllWellFormed(a[..]) && SortedPrefix(a[..], i)
    {
      ghost var before := a[..];
      InsertAt(a, i, wf);
      SameKeyOrderTrans(a[..], before, old(a[..]));
      i := i + 1;
    }
  }

  /**
   * The state of one insertion step on `s`: the element being inserted sits
   * at `j`; the others in `s[..i+1]` are in order, and everything to the
   * right of `j` compares strictly after it.
   */
  predicate Inserting(s: seq<Product>, i: int, j: int)
  {
    && 0 <= j <= i < |s|
    && (forall k, l :: 0 <= k < l <= i && k != j && l != j ==> KeyLe(s[k], s[l]))
    && (forall l :: j < l <= i ==> !KeyLe(s[l], s[j]))
  }

  lemma InsertingStart(s: seq<Product>, i: int)
    requires 0 <= i < |s| && SortedPrefix(s, i)
    ensures Inserting(s, i, i)
  {
  }

  /** Swapping the inserted element with a strictly larger left neighbour keeps the step's state. */
  lemma InsertingSwap(s: seq<Product>, i: int, j: int)
    requires Inserting(s, i, j) && j > 0
    requires !KeyLe(s[j - 1], s[j])
    ensures Inserting(s[j - 1 := s[j]][j := s[j - 1]], i, j - 1)
  {
  }

  /** When the left neighbour is not larger, the step is done: the prefix up to `i` is sorted. */
  lemma InsertingDone(s: seq<Product>, i: int, j: int)
    requires Inserting(s, i, j)
    requires j > 0 ==> KeyLe(s[j - 1], s[j])
    ensures SortedPrefix(s, i + 1)
  {
    forall k, l | 0 <= k < l <= i
      ensures KeyLe(s[k], s[l])
    {
      if l == j && k < j - 1 {
        assert KeyLe(s[k], s[j - 1]);
      }
    }
  }

  lemma {:induction false} WithKeyConcat(s: seq<Product>, t: seq<Product>, k: (int, int))
    ensures WithKey(s + t, k) == WithKey(s, k) + WithKey(t, k)
  {
    if s == [] {
      assert s + t == t;
    } else {
      assert (s + t)[1..] == s[1..] + t;
      WithKeyConcat(s[1..], t, k);
    }
  }

  lemma SameKeyOrderTrans(r: seq<Product>, s: seq<Product>, t: seq<Product>)
    requires SameKeyOrder(r, s) && SameKeyOrder(s, t)
    ensures SameKeyOrder(r, t)
  {
    forall k
      ensures WithKey(r, k) == WithKey(t, k)
    {
      assert WithKey(r, k) == WithKey(s, k);
    }
  }

  /** Swapping two neighbours with different keys leaves every key's products in order. */
  lemma SwapKeepsKeyOrder(s: seq<Product>, j: int)
    requires 0 < j < |s| && Key(s[j - 1]) != Key(s[j])
    ensures SameKeyOrder(s[j - 1 := s[j]][j := s[j - 1]], s)
  {
    var x, y := s[j - 1], s[j];
    var front, back := s[..j - 1], s[j + 1..];
    var t := s[j - 1 := y][j := x];
    assert s == front + [x, y] + back;
    assert t == front + [y, x] + back;
    forall k
      ensures WithKey(t, k) == WithKey(s, k)
    {
      WithKeyConcat(front + [x, y], back, k);
      WithKeyConcat(front, [x, y], k);
      WithKeyConcat(front + [y, x], back, k);
      WithKeyConcat(front, [y, x], k);
      assert [x, y][1..] == [y] && [y, x][1..] == [x];
      assert WithKey([x, y], k) == WithKey([y, x], k);
    }
  }

  method Swap(a: array<Product>, j: int)
    requires 0 < j < a.Length
    modifies a
    ensures a[..] == old(a[..])[j - 1 := old(a[j])][j := old(a[j - 1])]
    ensures multiset(a[..]) == multiset(old(a[..]))
  {
    a[j - 1], a[j] := a[j], a[j - 1];
  }

  /** One insertion step: moves `a[i]` left past every element that compares after it. */
  method InsertAt(a: array<Product>, i: int, ghost wf: bool)
    requires 1 <= i < a.Length
    requires wf ==> AllWellFormed(a[..]) && SortedPrefix(a[..], i)
    modifies a
    ensures multiset(a[..]) == multiset(old(a[..]))
    ensures SameKeyOrder(a[..], old(a[..]))
    ensures wf ==> AllWellFormed(a[..]) && SortedPrefix(a[..], i + 1)
  {
    if wf {
      InsertingStart(a[..], i);
    }
    var j := i;
    while j > 0 && Compare(a[j - 1], a[j]) > 0
      invariant 0 <= j <= i
      invariant multiset(a[..]) == multiset(old(a[..]))
      invariant SameKeyOrder(a[..], old(a[..]))
      invariant wf ==> AllWellFormed(a[..]) && Inserting(a[..], i, j)
    {
      if wf {
        assert a[j - 1] in a[..] && a[j] in a[..];
        InsertingSwap(a[..], i, j);
      }
      ghost var before := a[..];
      SwapKeepsKeyOrder(before, j);
      Swap(a, j);
      SameKeyOrderTrans(a[..], before, old(a[..]));
      j := j - 1;
    }
    if wf {
      if j > 0 {
        assert a[j - 1] in a[..] && a[j] in a[..];
      }
      InsertingDone(a[..], i, j);
    }
  }

  /** Sorting a copy of a list: what `sortProducts` does to a freshly obtained array. */
  method SortedCopy(s: seq<Product>) returns (r: seq<Product>)
    ensures SortedPermutationOf(r, s)
  {
    var a := new Product[|s|](i requires 0 <= i < |s| => s[i]);
    assert a[..] == s;
    SortProducts(a);
    r := a[..];
  }

  // ---------------------------------------------------------------------
  // Uniqueness of the sorted order when keys are distinct

  predicate DistinctKeys(s: seq<Product>)
  {
    forall i, j :: 0 <= i < j < |s| ==> Key(s[i]) != Key(s[j])
  }

  /** The first elements of two sorted permutations with distinct keys coincide. */
  lemma SortedPermutationHeads(s: seq<Product>, t: seq<Product>)
    requires multiset(s) == multiset(t) && s != []
    requires Sorted(s) && Sorted(t) && DistinctKeys(s)
    ensures t != [] && s[0] == t[0]
  {
    assert |t| == |multiset(t)| == |multiset(s)| == |s|;
    assert s[0] in multiset(t);
    var k :| 0 <= k < |t| && t[k] == s[0];
    assert t[0] in multiset(s);
    var m :| 0 <= m < |s| && s[m] == t[0];
    assert KeyLe(s[0], s[m]) by { if m > 0 { } }
    assert KeyLe(t[0], t[k]) by { if k > 0 { } }
    assert m == 0;
  }

  lemma SortedTail(s: seq<Product>)
    requires s != [] && Sorted(s) && DistinctKeys(s)
    ensures Sorted(s[1..]) && DistinctKeys(s[1..])
  {
  }

  lemma MultisetTail(s: seq<Product>)
    requires s != []
    ensures multiset(s[1..]) == multiset(s) - multiset{s[0]}
  {
    assert s == [s[0]] + s[1..];
  }

  /** Two sorted permutations of one list whose keys are distinct are the same list. */
  lemma {:induction false} SortedPermutationUnique(s: seq<Product>, t: seq<Product>)
    requires multiset(s) == multiset(t)
    requires Sorted(s) && Sorted(t) && DistinctKeys(s)
    ensures s == t
  {
    if s == [] {
      assert |multiset(t)| == 0;
    } else {
      SortedPermutationHeads(s, t);
      MultisetTail(s);
      MultisetTail(t);
      SortedTail(s);
      assert Sorted(t[1..]);
      SortedPermutationUnique(s[1..], t[1..]);
      assert s == [s[0]] + s[1..] && t == [t[0]] + t[1..];
    }
  }

  lemma WithKeyOfHead(t: seq<Product>)
    requires t != []
    ensures WithKey(t, Key(t[0])) != []
  {
    assert t[0] in WithKey(t, Key(t[0]));
  }

  /** Only the empty list lists the products of every key as the empty list does. */
  lemma SameKeyOrderEmpty(r: seq<Product>, t: seq<Product>)
    requires SameKeyOrder(r, t) && r == []
    ensures t == []
  {
    if t != [] {
      WithKeyOfHead(t);
    }
  }

  /** Two nonempty sorted lists with the same per-key order start with the same product. */
  lemma SortedSameKeyOrderHeads(r: seq<Product>, t: seq<Product>)
    requires r != [] && t != []
    requires Sorted(r) && Sorted(t) && SameKeyOrder(r, t)
    ensures r[0] == t[0]
  {
    var k := Key(r[0]);
    assert r[0] in WithKey(r, k);
    assert r[0] in WithKey(t, k);
    var m :| 0 <= m < |t| && t[m] == r[0];
    assert KeyLe(t[0], t[m]) by { if m > 0 { } }
    assert t[0] in WithKey(t, Key(t[0]));
    assert t[0] in WithKey(r, Key(t[0]));
    var n :| 0 <= n < |r| && r[n] == t[0];
    assert KeyLe(r[0], r[n]) by { if n > 0 { } }
    assert Key(t[0]) == k;
    assert WithKey(r, k) == [r[0]] + WithKey(r[1..], k);
    assert WithKey(t, k) == [t[0]] + WithKey(t[1..], k);
    assert WithKey(r, k)[0] == WithKey(t, k)[0];
  }

  /** Removing a common first product keeps the per-key order equal. */
  lemma SameKeyOrderTail(r: seq<Product>, t: seq<Product>)
    requires r != [] && t != [] && r[0] == t[0] && SameKeyOrder(r, t)
    ensures SameKeyOrder(r[1..], t[1..])
  {
    forall k
      ensures WithKey(r[1..], k) == WithKey(t[1..], k)
    {
      var head := if Key(r[0]) == k then [r[0]] else [];
      assert WithKey(r, k) == head + WithKey(r[1..], k);
      assert WithKey(t, k) == head + WithKey(t[1..], k);
      assert WithKey(r[1..], k) == WithKey(r, k)[|head|..];
      assert WithKey(t[1..], k) == WithKey(t, k)[|head|..];
    }
  }

  /**
   * Two sorted lists that list the products of every key in the same order
   * are the same list.
   */
  lemma {:induction false} SortedSameKeyOrderUnique(r: seq<Product>, t: seq<Product>)
    requires Sorted(r) && Sorted(t) && SameKeyOrder(r, t)
    ensures r == t
  {
    if r == [] {
      SameKeyOrderEmpty(r, t);
    } else if t == [] {
      assert SameKeyOrder(t, r);
      SameKeyOrderEmpty(t, r);
    } else {
      SortedSameKeyOrderHeads(r, t);
      SameKeyOrderTail(r, t);
      assert Sorted(r[1..]) && Sorted(t[1..]);
      SortedSameKeyOrderUnique(r[1..], t[1..]);
      assert r == [r[0]] + r[1..] && t == [t[0]] + t[1..];
    }
  }

  /**
   * Sorting a list of well-formed products has exactly one possible result,
   * so the order shown is fully determined by the list fetched.
   */
  lemma SortResultUnique(r: seq<Product>, t: seq<Product>, s: seq<Product>)
    requires AllWellFormed(s)
    requires SortedPermutationOf(r, s) && SortedPermutationOf(t, s)
    ensures r == t
  {
    forall k
      ensures WithKey(r, k) == WithKey(t, k)
    {
      assert WithKey(r, k) == WithKey(s, k);
    }
    SortedSameKeyOrderUnique(r, t);
  }

  // ---------------------------------------------------------------------
  // Fallback list and cache

  const FallbackProducts: seq<Product> := [
    Product(1, Some(1), 10, Some(1), 150, Title("قهوة لينجزي السوداء", "Siyah Lingzhi Kahvesi")),
    Product(2, Some(2), 5, Some(0), 80, Title("شاي الريشي", "Reishi Çayı")),
    Product(3, Some(3), 8, Some(2), 200, Title("سبيرولينا عضوية", "Organik Spirulina")),
    Product(4, Some(4), 15, Some(0), 50, Title("صابون الجانوديرما", "Ganoderma Sabunu"))
  ]

  function Ids(s: seq<Product>): (r: seq<int>)
    ensures |r| == |s| && forall i :: 0 <= i < |s| ==> r[i] == s[i].id
  {
    seq(|s|, i requires 0 <= i < |s| => s[i].id)
  }

  /** Any sorted permutation of the fallback list lists the products with ids 1, 3, 2, 4. */
  lemma FallbackSortedOrder(r: seq<Product>)
    requires SortedPermutationOf(r, FallbackProducts)
    ensures Ids(r) == [1, 3, 2, 4]
  {
    var f := FallbackProducts;
    var expected := [f[0], f[2], f[1], f[3]];
    assert AllWellFormed(f);
    assert multiset(expected) == multiset(f);
    assert Sorted(expected);
    assert DistinctKeys(expected);
    SortedPermutationUnique(expected, r);
  }

  /** The cache entry is valid for 24 hours, in milliseconds. */
  const CacheExpiry: int := 24 * 60 * 60 * 1000

  const CacheKey: string := "cached_products"

  /** What AsyncStorage holds under `CacheKey`: nothing, text that does not parse, or a timestamped list. */
  datatype CacheSlot = Empty | Corrupt | Stored(data: seq<Product>, timestamp: int)

  /** `loadCachedProducts`: the cached list if it is younger than `CacheExpiry` at time `now`. */
  function LoadCachedProducts(slot: CacheSlot, now: int): (r: Option<seq<Product>>)
    ensures r.Some? <==> slot.Stored? && now - slot.timestamp < 86400000
    ensures r.Some? ==> r.value == slot.data
  {
    match slot
    case Stored(data, timestamp) =>
      if now - timestamp < CacheExpiry then Some(data) else None
    case _ => None
  }

  const FetchFailedMessage: string := "Failed to load products. Please try again."
  const NoConnectionMessage: string := "No internet connection. Showing fallback data."

  /** What the two remote reads of `fetchProducts` return; `None` when either fails. */
  type FetchResponse = Option<(seq<Product>, int)>

  /**
   * The product provider's state: the product list, the dollar price, the
   * loading flag and the error message, plus the AsyncStorage cache slot.
   */
  class ProductProvider {
    var products: seq<Product>
    var dollarPrice: int
    var loading: bool
    var error: Option<string>
    var cache: CacheSlot

    constructor (cache: CacheSlot)
      ensures products == [] && dollarPrice == 0 && loading && error == None
      ensures this.cache == cache
    {
      products := [];
      dollarPrice := 0;
      loading := true;
      error := None;
      this.cache := cache;
    }

    /** The part of `fetchProducts` that runs before its first `await`. */
    method BeginFetch()
      modifies this
      ensures loading && error == None
      ensures products == old(products) && dollarPrice == old(dollarPrice) && cache == old(cache)
    {
      loading := true;
      error := None;
    }

    /**
     * The rest of `fetchProducts`: on success the sorted fetched list and the
     * price are shown and the list is cached with time `now`; on failure the
     * sorted fresh cache is shown, else the sorted fallback list. Either way
     * loading ends.
     */
    method CompleteFetch(response: FetchResponse, now: int)
      modifies this
      ensures !loading
      ensures response.Some? ==>
        && SortedPermutationOf(products, response.value.0)
        && dollarPrice == response.value.1
        && error == old(error)
        && cache == Stored(products, now)
      ensures response.None? ==>
        && error == Some(FetchFailedMessage)
        && dollarPrice == old(dollarPrice)
        && cache == old(cache)
        && match LoadCachedProducts(old(cache), now)
           case Some(data) => SortedPermutationOf(products, data)
           case None => SortedPermutationOf(products, FallbackProducts)
    {
      match response {
        case Some(fetched) =>
          var sorted := SortedCopy(fetched.0);
          products := sorted;
          dollarPrice := fetched.1;
          cache := Stored(sorted, now);
        case None =>
          error := Some(FetchFailedMessage);
          var cached := LoadCachedProducts(cache, now);
          if cached.Some? {
            var sorted := SortedCopy(cached.value);
            products := sorted;
          } else {
            var sorted := SortedCopy(FallbackProducts);
            products := sorted;
          }
      }
      loading := false;
    }

    /** `fetchProducts` run to completion. */
    method FetchProducts(response: FetchResponse, now: int)
      modifies this
      ensures !loading
      ensures response.Some? ==>
        && SortedPermutationOf(products, response.value.0)
        && dollarPrice == response.value.1
        && error == None
        && cache == Stored(products, now)
      ensures response.None? ==>
        && error == Some(FetchFailedMessage)
        && dollarPrice == old(dollarPrice)
        && cache == old(cache)
        && match LoadCachedProducts(old(cache), now)
           case Some(data) => SortedPermutationOf(products, data)
           case None => SortedPermutationOf(products, FallbackProducts)
    {
      BeginFetch();
      CompleteFetch(response, now);
    }

    /**
     * The mount effect up to the point where the background refresh is
     * waiting on the network: the sorted fresh cache or the sorted fallback
     * list is shown, and then the refresh (`BeginFetch`) sets loading again
     * and clears the "no connection" message. The refresh completes with a
     * later `CompleteFetch`.
     */
    method Initialize(now: int)
      modifies this
      ensures loading && error == None
      ensures dollarPrice == old(dollarPrice) && cache == old(cache)
      ensures match LoadCachedProducts(old(cache), now)
              case Some(data) => SortedPermutationOf(products, data)
              case None => SortedPermutationOf(products, FallbackProducts)
    {
      var cached := LoadCachedProducts(cache, now);
      if cached.Some? {
        var sorted := SortedCopy(cached.value);
        products := sorted;
        loading := false;
      } else {
        var sorted := SortedCopy(FallbackProducts);
        products := sorted;
        error := Some(NoConnectionMessage);
        loading := false;
      }
      BeginFetch();
    }
  }
}
