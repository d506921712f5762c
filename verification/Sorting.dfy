/** The order in which a service call visits its items: a stable sort by SKU
    (src/domain/services/inventory-service.ts:43 and :89). */
module Sorting {
  import opened Inventory

  ghost predicate Sorted(items: seq<Item>) {
    forall i, j :: 0 <= i < j < |items| ==> items[i].sku <= items[j].sku
  }

  ghost predicate StrictlySorted(items: seq<Item>) {
    forall i, j :: 0 <= i < j < |items| ==> items[i].sku < items[j].sku
  }

  ghost predicate DistinctSkus(items: seq<Item>) {
    forall i, j :: 0 <= i < j < |items| ==> items[i].sku != items[j].sku
  }

  /** The SKUs of the items. */
  function Skus(items: seq<Item>): set<Sku> {
    set i | 0 <= i < |items| :: items[i].sku
  }

  /** The quantity the items ask for of one SKU. */
  function Quantity(items: seq<Item>, sku: Sku): nat {
    if items == [] then 0
    else
      var last := items[|items| - 1];
      Quantity(items[..|items| - 1], sku) + if last.sku == sku then last.quantity else 0
  }

  /** Insert after every item whose SKU is not greater, so equal SKUs keep their order. */
  function InsertBySku(items: seq<Item>, x: Item): (r: seq<Item>)
    ensures |r| == |items| + 1
  {
    if items == [] || items[|items| - 1].sku <= x.sku then items + [x]
    else InsertBySku(items[..|items| - 1], x) + [items[|items| - 1]]
  }

  function SortBySku(items: seq<Item>): (r: seq<Item>)
    ensures |r| == |items|
  {
    if items == [] then []
    else InsertBySku(SortBySku(items[..|items| - 1]), items[|items| - 1])
  }

  lemma {:induction false} InsertPermutes(items: seq<Item>, x: Item)
    ensures multiset(InsertBySku(items, x)) == multiset(items) + multiset{x}
  {
    if items == [] || items[|items| - 1].sku <= x.sku {
    } else {
      var init, last := items[..|items| - 1], items[|items| - 1];
      assert items == init + [last];
      InsertPermutes(init, x);
    }
  }

  lemma {:induction false} InsertAddsQuantity(items: seq<Item>, x: Item, sku: Sku)
    ensures Quantity(InsertBySku(items, x), sku)
         == Quantity(items, sku) + if x.sku == sku then x.quantity else 0
  {
    if items == [] || items[|items| - 1].sku <= x.sku {
      assert (items + [x])[..|items|] == items;
    } else {
      var init, last := items[..|items| - 1], items[|items| - 1];
      InsertAddsQuantity(init, x, sku);
      var rest := InsertBySku(init, x);
      assert (rest + [last])[..|rest|] == rest;
    }
  }

  lemma {:induction false} InsertSorts(items: seq<Item>, x: Item)
    requires Sorted(items)
    ensures Sorted(InsertBySku(items, x))
  {
    if items == [] || items[|items| - 1].sku <= x.sku {
    } else {
      var init, last := items[..|items| - 1], items[|items| - 1];
      InsertSorts(init, x);
      var rest := InsertBySku(init, x);
      InsertPermutes(init, x);
      forall i | 0 <= i < |rest| ensures rest[i].sku <= last.sku {
        assert rest[i] in multiset(rest);
        assert rest[i] in init || rest[i] == x;
      }
    }
  }

  /** The sort orders the items and loses, adds and changes none of them. */
  lemma {:induction false} SortIsPermutation(items: seq<Item>)
    ensures Sorted(SortBySku(items))
    ensures multiset(SortBySku(items)) == multiset(items)
    ensures forall sku :: Quantity(SortBySku(items), sku) == Quantity(items, sku)
  {
    if items != [] {
      var init, last := items[..|items| - 1], items[|items| - 1];
      SortIsPermutation(init);
      var sortedInit := SortBySku(init);
      InsertSorts(sortedInit, last);
      InsertPermutes(sortedInit, last);
      forall sku { InsertAddsQuantity(sortedInit, last, sku); }
      assert items == init + [last];
    }
  }

  /** A prefix asks for no more of a SKU than the whole list. */
  lemma {:induction false} QuantityOfPrefix(items: seq<Item>, k: nat, sku: Sku)
    requires k <= |items|
    ensures Quantity(items[..k], sku) <= Quantity(items, sku)
    ensures k < |items| && items[k].sku == sku ==>
      Quantity(items[..k], sku) + items[k].quantity <= Quantity(items, sku)
    decreases |items|
  {
    if k == |items| {
      assert items[..k] == items;
    } else {
      var init := items[..|items| - 1];
      assert init[..k] == items[..k];
      QuantityOfPrefix(init, k, sku);
      if k == |init| {
      } else {
        assert init[k] == items[k];
      }
    }
  }
}
