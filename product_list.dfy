/**
 * The product list (`ProductList`): a case-insensitive search over name, SKU and
 * category, delete-by-id, and the stock colour of each row.
 */
module ProductList {
  import opened Seqs
  import opened Text
  import opened Wrappers
  import ProductRow

  /** A product row of the list. */
  datatype ListedProduct = ListedProduct(
    id: string, name: string, sku: string, category: string, price: real, cost: real,
    inStock: int, supplier: string, variants: seq<string>)

  /** The search predicate: the lower-cased term occurs in the lower-cased name, SKU or category. */
  function MatchesSearch(term: string): ListedProduct -> bool {
    (p: ListedProduct) =>
      Includes(Lower(p.name), Lower(term)) || Includes(Lower(p.sku), Lower(term)) ||
      Includes(Lower(p.category), Lower(term))
  }

  /** `filteredProducts`: the products the term matches, in their original order; an empty term keeps all. */
  function FilterProducts(products: seq<ListedProduct>, term: string): (r: seq<ListedProduct>)
    ensures forall p :: p in r <==> (p in products &&
      (Includes(Lower(p.name), Lower(term)) || Includes(Lower(p.sku), Lower(term)) ||
       Includes(Lower(p.category), Lower(term))))
    ensures forall p :: multiset(r)[p] == (if MatchesSearch(term)(p) then multiset(products)[p] else 0)
    ensures IsSubsequence(r, products)
    ensures term == "" ==> r == products
  {
    FilterIsSubsequence(products, MatchesSearch(term));
    if term == "" then
      forall p | p in products ensures MatchesSearch(term)(p) {
        IncludesEmpty(Lower(p.name));
      }
      FilterKeepsAllIff(products, MatchesSearch(term));
      Filter(products, MatchesSearch(term))
    else
      Filter(products, MatchesSearch(term))
  }

  /** The search ignores the case of the term: searching for its lower-cased form gives the same list. */
  lemma SearchIgnoresTermCase(products: seq<ListedProduct>, term: string)
    ensures FilterProducts(products, Lower(term)) == FilterProducts(products, term)
  {
    LowerIdempotent(term);
    FilterAgreeing(products, MatchesSearch(Lower(term)), MatchesSearch(term));
  }

  /** Typing more characters only narrows the list: the longer term keeps a subsequence of what the shorter kept. */
  lemma LongerTermNarrows(products: seq<ListedProduct>, term: string, more: string)
    ensures IsSubsequence(FilterProducts(products, term + more), FilterProducts(products, term))
  {
    LowerAppend(term, more);
    forall p | p in products && MatchesSearch(term + more)(p) ensures MatchesSearch(term)(p) {
      if Includes(Lower(p.name), Lower(term) + Lower(more)) {
        IncludesPrefixOfTerm(Lower(p.name), Lower(term), Lower(more));
      } else if Includes(Lower(p.sku), Lower(term) + Lower(more)) {
        IncludesPrefixOfTerm(Lower(p.sku), Lower(term), Lower(more));
      } else {
        IncludesPrefixOfTerm(Lower(p.category), Lower(term), Lower(more));
      }
    }
    FilterWeakerIsSupersequence(products, MatchesSearch(term + more), MatchesSearch(term));
  }

  /** The delete predicate: keep every product whose id differs. */
  function KeepOthers(id: string): ListedProduct -> bool {
    (p: ListedProduct) => p.id != id
  }

  /** `products.filter(product => product.id !== id)`: every product with the id goes, all others stay, in order. */
  function DeleteById(products: seq<ListedProduct>, id: string): (r: seq<ListedProduct>)
    ensures forall p :: p in r <==> p in products && p.id != id
    ensures forall p :: multiset(r)[p] == if p.id != id then multiset(products)[p] else 0
    ensures IsSubsequence(r, products)
  {
    FilterIsSubsequence(products, KeepOthers(id));
    Filter(products, KeepOthers(id))
  }

  /** Deleting an id that no product has leaves the list as it was, and only then. */
  lemma DeleteAbsentIsIdentity(products: seq<ListedProduct>, id: string)
    ensures DeleteById(products, id) == products <==> forall p :: p in products ==> p.id != id
  {
    FilterKeepsAllIff(products, KeepOthers(id));
  }

  /** Deleting the same id twice is deleting it once. */
  lemma DeleteIdempotent(products: seq<ListedProduct>, id: string)
    ensures DeleteById(DeleteById(products, id), id) == DeleteById(products, id)
  {
    FilterIdempotent(products, KeepOthers(id));
  }

  /** Deleting and searching may be done in either order. */
  lemma DeleteCommutesWithSearch(products: seq<ListedProduct>, id: string, term: string)
    ensures FilterProducts(DeleteById(products, id), term) == DeleteById(FilterProducts(products, term), id)
  {
    FilterCommutes(products, KeepOthers(id), MatchesSearch(term));
  }

  /** The stock figure's colour in the list: red below 30, amber below 50, green otherwise. */
  function StockCellColour(p: ListedProduct): (c: ProductRow.StockColour)
    ensures c == ProductRow.Red <==> p.inStock < 30
    ensures c == ProductRow.Amber <==> 30 <= p.inStock < 50
    ensures c == ProductRow.Green <==> p.inStock >= 50
  {
    ProductRow.StockColourOf(Some(p.inStock))
  }

  /** The list's state: its products and the search term. */
  class ProductListState {
    var products: seq<ListedProduct>
    var searchTerm: string

    constructor (initial: seq<ListedProduct>)
      ensures products == initial && searchTerm == ""
    {
      products, searchTerm := initial, "";
    }

    /** The rows on screen. */
    function Visible(): (r: seq<ListedProduct>)
      reads this
      ensures IsSubsequence(r, products)
    {
      FilterProducts(products, searchTerm)
    }

    /** The search box's change handler. */
    method SetSearchTerm(term: string)
      modifies this`searchTerm
      ensures searchTerm == term
      ensures Visible() == FilterProducts(products, term)
    {
      searchTerm := term;
    }

    /** `handleDeleteProduct`: drop every product with the id; the rows on screen lose exactly those too. */
    method DeleteProduct(id: string)
      modifies this`products
      ensures products == DeleteById(old(products), id)
      ensures Visible() == DeleteById(old(Visible()), id)
    {
      DeleteCommutesWithSearch(products, id, searchTerm);
      products := DeleteById(products, id);
    }
  }
}
