/**
 * The stock-transfer draft of `TransferForm`: a source, a destination, an ordered
 * list of lines `{productId, quantity}` and a search term for the product picker.
 */
module TransferForm {
  import opened Wrappers
  import opened Seqs
  import opened Text

  /** A product the picker can offer (the component's catalogue rows). */
  datatype CatalogProduct = CatalogProduct(id: string, name: string, sku: string, available: int)

  /** One line of the draft. */
  datatype TransferItem = TransferItem(productId: string, quantity: int)

  /** The validation failures of "Create Transfer", in the order they are checked. */
  datatype TransferError = MissingSource | MissingDestination | SameLocation | NoItems

  /** The message reported for each failure. */
  function Message(e: TransferError): (m: string)
    ensures |m| > 0
  {
    match e
    case MissingSource => "Please select a source location"
    case MissingDestination => "Please select a destination location"
    case SameLocation => "Source and destination cannot be the same"
    case NoItems => "Please add at least one product to transfer"
  }

  /** `totalItems`: the quantities summed from the first line to the last. */
  function TotalItems(items: seq<TransferItem>): int
  {
    if items == [] then 0 else TotalItems(items[..|items| - 1]) + items[|items| - 1].quantity
  }

  /** The total of two drafts laid end to end is the sum of their totals. */
  lemma {:induction false} TotalItemsAppend(a: seq<TransferItem>, b: seq<TransferItem>)
    ensures TotalItems(a + b) == TotalItems(a) + TotalItems(b)
  {
    if b == [] {
      assert a + b == a;
    } else {
      TotalItemsAppend(a, b[..|b| - 1]);
      assert (a + b)[..|a + b| - 1] == a + b[..|b| - 1];
    }
  }

  /** The total of a single line is its quantity. */
  lemma TotalItemsSingle(x: TransferItem)
    ensures TotalItems([x]) == x.quantity
  {
    assert [x][..0] == [];
  }

  /** When every line holds at least one unit, the total is at least the number of lines. */
  lemma {:induction false} TotalItemsAtLeastLines(items: seq<TransferItem>)
    requires forall i :: 0 <= i < |items| ==> items[i].quantity >= 1
    ensures TotalItems(items) >= |items|
  {
    if items != [] {
      TotalItemsAtLeastLines(items[..|items| - 1]);
    }
  }

  /** Replacing one line changes the total by the difference of the two quantities. */
  lemma TotalItemsUpdate(items: seq<TransferItem>, index: nat, x: TransferItem)
    requires index < |items|
    ensures TotalItems(items[index := x]) == TotalItems(items) - items[index].quantity + x.quantity
  {
    var pre, post := items[..index], items[index + 1..];
    assert items == pre + [items[index]] + post;
    assert items[index := x] == pre + [x] + post;
    TotalItemsAppend(pre + [items[index]], post);
    TotalItemsAppend(pre + [x], post);
    TotalItemsAppend(pre, [items[index]]);
    TotalItemsAppend(pre, [x]);
    TotalItemsSingle(items[index]);
    TotalItemsSingle(x);
  }

  /** Removing one line lowers the total by that line's quantity. */
  lemma TotalItemsRemove(items: seq<TransferItem>, index: nat)
    requires index < |items|
    ensures TotalItems(items[..index] + items[index + 1..]) == TotalItems(items) - items[index].quantity
  {
    var pre, x, post := items[..index], items[index], items[index + 1..];
    var upTo := pre + [x];
    assert items == upTo + post;
    calc {
      TotalItems(items);
      { TotalItemsAppend(upTo, post); }
      TotalItems(upTo) + TotalItems(post);
      { TotalItemsAppend(pre, [x]); TotalItemsSingle(x); }
      TotalItems(pre) + x.quantity + TotalItems(post);
      { TotalItemsAppend(pre, post); }
      TotalItems(pre + post) + x.quantity;
    }
  }

  /** `transferItems.some(item => item.productId === id)`. */
  predicate InDraft(items: seq<TransferItem>, id: string) {
    exists i | 0 <= i < |items| :: items[i].productId == id
  }

  /** No product id occurs on two lines. */
  predicate DistinctIds(items: seq<TransferItem>) {
    forall i, j :: 0 <= i < j < |items| ==> items[i].productId != items[j].productId
  }

  /** The picker's first filter: keep the products that have no line in the draft. */
  function NotInDraft(items: seq<TransferItem>): CatalogProduct -> bool {
    (p: CatalogProduct) => !InDraft(items, p.id)
  }

  /** `availableProducts`: the catalogue products whose id is not yet in the draft, in catalogue order. */
  function AvailableProducts(catalog: seq<CatalogProduct>, items: seq<TransferItem>): (r: seq<CatalogProduct>)
    ensures forall p :: p in r <==> p in catalog && !InDraft(items, p.id)
    ensures forall p :: multiset(r)[p] == if !InDraft(items, p.id) then multiset(catalog)[p] else 0
    ensures IsSubsequence(r, catalog)
  {
    FilterIsSubsequence(catalog, NotInDraft(items));
    Filter(catalog, NotInDraft(items))
  }

  /** The picker's search: the lower-cased term occurs in the lower-cased name or SKU. */
  function MatchesTerm(term: string): CatalogProduct -> bool {
    (p: CatalogProduct) => Includes(Lower(p.name), Lower(term)) || Includes(Lower(p.sku), Lower(term))
  }

  /** `filteredProducts`: the available products the search term matches, in order; an empty term keeps all. */
  function FilteredProducts(available: seq<CatalogProduct>, term: string): (r: seq<CatalogProduct>)
    ensures forall p :: p in r <==>
      p in available && (Includes(Lower(p.name), Lower(term)) || Includes(Lower(p.sku), Lower(term)))
    ensures forall p :: multiset(r)[p] == (if MatchesTerm(term)(p) then multiset(available)[p] else 0)
    ensures IsSubsequence(r, available)
    ensures term == "" ==> r == available
  {
    FilterIsSubsequence(available, MatchesTerm(term));
    if term == "" then
      forall p | p in available ensures MatchesTerm(term)(p) {
        IncludesEmpty(Lower(p.name));
      }
      FilterKeepsAllIff(available, MatchesTerm(term));
      Filter(available, MatchesTerm(term))
    else
      Filter(available, MatchesTerm(term))
  }

  /** Adding a product picked from the list keeps the draft free of duplicate ids. */
  lemma PickedProductKeepsIdsDistinct(catalog: seq<CatalogProduct>, items: seq<TransferItem>, term: string, k: nat)
    requires DistinctIds(items)
    requires k < |FilteredProducts(AvailableProducts(catalog, items), term)|
    ensures DistinctIds(items + [TransferItem(FilteredProducts(AvailableProducts(catalog, items), term)[k].id, 1)])
  {
    var picked := FilteredProducts(AvailableProducts(catalog, items), term)[k];
    assert picked in AvailableProducts(catalog, items);
    assert !InDraft(items, picked.id);
  }

  /** `handleAddItem` itself does not look for duplicates: adding an id already present gives two lines for it. */
  lemma AddItemAcceptsDuplicate(items: seq<TransferItem>, id: string)
    requires InDraft(items, id)
    ensures !DistinctIds(items + [TransferItem(id, 1)])
  {
    var i :| 0 <= i < |items| && items[i].productId == id;
    var after := items + [TransferItem(id, 1)];
    assert after[i].productId == after[|items|].productId;
  }

  /** The quantity the number input hands on: `parseInt(value) || 1`, where `None` is NaN. */
  function QuantityFromInput(parsed: Option<int>): (q: int)
    ensures q != 0
    ensures parsed.Some? && parsed.value != 0 ==> q == parsed.value
    ensures parsed.None? || parsed == Some(0) ==> q == 1
  {
    match parsed
    case None => 1
    case Some(n) => if n == 0 then 1 else n
  }

  /** `getProductById`: the first catalogue product with the id, if any. */
  function FindProduct(catalog: seq<CatalogProduct>, id: string): (r: Option<CatalogProduct>)
    ensures r.None? <==> forall p :: p in catalog ==> p.id != id
    ensures r.Some? ==> r.value in catalog && r.value.id == id
  {
    if catalog == [] then None
    else if catalog[0].id == id then Some(catalog[0])
    else
      assert forall p :: p in catalog ==> p == catalog[0] || p in catalog[1..];
      FindProduct(catalog[1..], id)
  }

  /** Of several products with the same id, the one listed first is found. */
  lemma {:induction false} FindProductIsFirst(catalog: seq<CatalogProduct>, id: string, i: nat)
    requires i < |catalog| && catalog[i].id == id
    requires forall j :: 0 <= j < i ==> catalog[j].id != id
    ensures FindProduct(catalog, id) == Some(catalog[i])
  {
    if i > 0 {
      FindProductIsFirst(catalog[1..], id, i - 1);
    }
  }

  /** The input's `max`: the product's available stock, or 999 when the product is unknown or has none. */
  function MaxQuantity(catalog: seq<CatalogProduct>, id: string): (m: int)
    ensures m != 0
    ensures m == 999 || exists p :: p in catalog && p.id == id && p.available == m
    ensures FindProduct(catalog, id).None? ==> m == 999
    ensures FindProduct(catalog, id).Some? ==>
      m == if FindProduct(catalog, id).value.available != 0 then FindProduct(catalog, id).value.available else 999
  {
    match FindProduct(catalog, id)
    case None => 999
    case Some(p) => if p.available == 0 then 999 else p.available
  }

  /** The checks of "Create Transfer", in order; the first that fails is reported, `None` means it may go ahead. */
  function SubmitCheck(from: string, to: string, items: seq<TransferItem>): (r: Option<TransferError>)
    ensures r == None <==> from != "" && to != "" && from != to && items != []
    ensures r == Some(MissingSource) <==> from == ""
    ensures r == Some(MissingDestination) <==> from != "" && to == ""
    ensures r == Some(SameLocation) <==> from != "" && to != "" && from == to
    ensures r == Some(NoItems) <==> from != "" && to != "" && from != to && items == []
  {
    if from == "" then Some(MissingSource)
    else if to == "" then Some(MissingDestination)
    else if from == to then Some(SameLocation)
    else if |items| == 0 then Some(NoItems)
    else None
  }

  /**
   * The "Create Transfer" button is disabled unless both locations and a line are present; it
   * never blocks a draft that would pass every check.
   */
  predicate SubmitEnabled(from: string, to: string, items: seq<TransferItem>): (enabled: bool)
    ensures SubmitCheck(from, to, items) == None ==> enabled
    ensures enabled ==> SubmitCheck(from, to, items) in {None, Some(SameLocation)}
  {
    !(|items| == 0 || from == "" || to == "")
  }

  /** With the button enabled, the only check that can still fail is "same location". */
  lemma EnabledSubmitFailsOnlyOnSameLocation(from: string, to: string, items: seq<TransferItem>)
    requires SubmitEnabled(from, to, items)
    ensures SubmitCheck(from, to, items) == None || SubmitCheck(from, to, items) == Some(SameLocation)
    ensures SubmitCheck(from, to, items) == Some(SameLocation) <==> from == to
  {
  }

  /** The live state of one transfer form. */
  class TransferDraft {
    const catalog: seq<CatalogProduct>
    var fromLocation: string
    var toLocation: string
    var transferItems: seq<TransferItem>
    var isAddingProduct: bool
    var searchTerm: string

    /** A fresh form: no locations, no lines, picker closed, empty search. */
    constructor (catalog: seq<CatalogProduct>)
      ensures this.catalog == catalog
      ensures fromLocation == "" && toLocation == "" && transferItems == []
      ensures !isAddingProduct && searchTerm == ""
    {
      this.catalog := catalog;
      fromLocation, toLocation := "", "";
      transferItems := [];
      isAddingProduct, searchTerm := false, "";
    }

    /** The rows the picker currently lists. */
    function PickerList(): (r: seq<CatalogProduct>)
      reads this
      ensures forall p :: p in r ==> p in catalog && !InDraft(transferItems, p.id)
    {
      FilteredProducts(AvailableProducts(catalog, transferItems), searchTerm)
    }

    /** `handleAddItem`: append `{productId, quantity: 1}`, close the picker and clear the search. */
    method AddItem(productId: string)
      modifies this
      ensures transferItems == old(transferItems) + [TransferItem(productId, 1)]
      ensures !isAddingProduct && searchTerm == ""
      ensures fromLocation == old(fromLocation) && toLocation == old(toLocation)
      ensures TotalItems(transferItems) == old(TotalItems(transferItems)) + 1
    {
      var newItem := TransferItem(productId, 1);
      TotalItemsAppend(transferItems, [newItem]);
      TotalItemsSingle(newItem);
      transferItems := transferItems + [newItem];
      isAddingProduct := false;
      searchTerm := "";
    }

    /** A click on row `k` of the picker adds that product; ids stay distinct. */
    method SelectProduct(k: nat)
      requires k < |PickerList()|
      modifies this
      ensures transferItems == old(transferItems) + [TransferItem(old(PickerList())[k].id, 1)]
      ensures DistinctIds(old(transferItems)) ==> DistinctIds(transferItems)
      ensures !isAddingProduct && searchTerm == ""
      ensures fromLocation == old(fromLocation) && toLocation == old(toLocation)
    {
      var picked := PickerList()[k];
      if DistinctIds(transferItems) {
        PickedProductKeepsIdsDistinct(catalog, transferItems, searchTerm, k);
      }
      AddItem(picked.id);
    }

    /** `handleUpdateQuantity`: only the quantity of line `index` changes. */
    method UpdateQuantity(index: nat, quantity: int)
      requires index < |transferItems|
      modifies this`transferItems
      ensures |transferItems| == |old(transferItems)|
      ensures transferItems[index] == TransferItem(old(transferItems)[index].productId, quantity)
      ensures forall i :: 0 <= i < |transferItems| && i != index ==> transferItems[i] == old(transferItems)[i]
      ensures forall i :: 0 <= i < |transferItems| ==> transferItems[i].productId == old(transferItems)[i].productId
      ensures TotalItems(transferItems) == old(TotalItems(transferItems)) - old(transferItems)[index].quantity + quantity
    {
      var newItems := transferItems;
      TotalItemsUpdate(newItems, index, newItems[index].(quantity := quantity));
      newItems := newItems[index := newItems[index].(quantity := quantity)];
      transferItems := newItems;
    }

    /** The quantity input's change handler: a 0 or unparsable entry becomes 1. */
    method EnterQuantity(index: nat, parsed: Option<int>)
      requires index < |transferItems|
      modifies this`transferItems
      ensures transferItems == old(transferItems)[index := TransferItem(old(transferItems)[index].productId, QuantityFromInput(parsed))]
      ensures transferItems[index].quantity != 0
    {
      UpdateQuantity(index, QuantityFromInput(parsed));
    }

    /** `handleRemoveItem`: `splice(index, 1)`; an index past the end removes nothing. */
    method RemoveItem(index: nat)
      modifies this`transferItems
      ensures index < |old(transferItems)| ==>
        transferItems == old(transferItems)[..index] + old(transferItems)[index + 1..]
      ensures index >= |old(transferItems)| ==> transferItems == old(transferItems)
      ensures index < |old(transferItems)| ==>
        TotalItems(transferItems) == old(TotalItems(transferItems)) - old(transferItems)[index].quantity
    {
      var newItems := transferItems;
      if index < |newItems| {
        TotalItemsRemove(newItems, index);
        newItems := newItems[..index] + newItems[index + 1..];
      }
      transferItems := newItems;
    }

    /** `handleCreateTransfer`: report the first failing check and change nothing, or reset the draft. */
    method CreateTransfer() returns (outcome: Option<TransferError>)
      modifies this`fromLocation, this`toLocation, this`transferItems
      ensures outcome == SubmitCheck(old(fromLocation), old(toLocation), old(transferItems))
      ensures outcome.Some? ==> fromLocation == old(fromLocation) && toLocation == old(toLocation) &&
                                transferItems == old(transferItems)
      ensures outcome.None? ==> fromLocation == "" && toLocation == "" && transferItems == []
    {
      if fromLocation == "" {
        return Some(MissingSource);
      }
      if toLocation == "" {
        return Some(MissingDestination);
      }
      if fromLocation == toLocation {
        return Some(SameLocation);
      }
      if |transferItems| == 0 {
        return Some(NoItems);
      }
      fromLocation := "";
      toLocation := "";
      transferItems := [];
      outcome := None;
    }
  }
}
