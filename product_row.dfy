/**
 * One row of the products table (`ProductRow`): the stock colour, the attribute
 * badges and whether the supplier line is shown.
 */
module ProductRow {
  import opened Wrappers

  /**
   * A product as the table receives it: the catalogue columns, an optional stock figure
   * and an optional attribute map, given as its entries in enumeration order.
   */
  datatype Product = Product(
    id: string, name: string, sku: string, category: string, price: real, cost: real,
    supplier: Option<string>, inStock: Option<int>, attributes: Option<seq<(string, string)>>)

  /** The three colours of the stock figure. */
  datatype StockColour = Red | Amber | Green

  /** The class name behind each colour. */
  function ColourClass(c: StockColour): (name: string)
    ensures "text-" <= name
  {
    match c
    case Red => "text-red-500"
    case Amber => "text-amber-500"
    case Green => "text-green-500"
  }

  /** Distinct colours have distinct class names. */
  lemma ColourClassInjective(a: StockColour, b: StockColour)
    ensures ColourClass(a) == ColourClass(b) ==> a == b
  {
  }

  /**
   * `in_stock < 30 ? red : in_stock < 50 ? amber : green`. An absent figure compares
   * false with both bounds and so falls through to green.
   */
  function StockColourOf(inStock: Option<int>): (c: StockColour)
    ensures c == Red <==> inStock.Some? && inStock.value < 30
    ensures c == Amber <==> inStock.Some? && 30 <= inStock.value < 50
    ensures c == Green <==> inStock.None? || inStock.value >= 50
  {
    match inStock
    case None => Green
    case Some(n) => if n < 30 then Red else if n < 50 then Amber else Green
  }

  /** How healthy a colour reads: red, then amber, then green. */
  function Level(c: StockColour): nat {
    match c
    case Red => 0
    case Amber => 1
    case Green => 2
  }

  /** More stock never shows a worse colour. */
  lemma StockColourMonotone(a: int, b: int)
    requires a <= b
    ensures Level(StockColourOf(Some(a))) <= Level(StockColourOf(Some(b)))
  {
  }

  /** `attributeEntries`: the first two attribute entries, in order; none without an attribute map. */
  function AttributeEntries(attributes: Option<seq<(string, string)>>): (r: seq<(string, string)>)
    ensures |r| <= 2
    ensures attributes.None? ==> r == []
    ensures attributes.Some? ==> r <= attributes.value && |r| == if |attributes.value| < 2 then |attributes.value| else 2
  {
    match attributes
    case None => []
    case Some(entries) => if |entries| <= 2 then entries else entries[..2]
  }

  /** The badge row is rendered only when there is at least one entry to show. */
  predicate ShowsBadges(p: Product) {
    |AttributeEntries(p.attributes)| > 0
  }

  /** Badges appear exactly when the product has a non-empty attribute map. */
  lemma ShowsBadgesIff(p: Product)
    ensures ShowsBadges(p) <==> p.attributes.Some? && |p.attributes.value| > 0
  {
  }

  /** The supplier line is rendered only for a truthy supplier: present and non-empty. */
  function ShowsSupplier(p: Product): (shown: bool)
    ensures shown <==> p.supplier.Some? && |p.supplier.value| > 0
  {
    match p.supplier
    case None => false
    case Some(s) => s != ""
  }
}
