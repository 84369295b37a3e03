/**
 * The field rules of the new-product form (`productSchema`) and its default values.
 * Every failing field is reported, in the order the schema lists the fields,
 * with the message its rule carries.
 */
module ProductForm {
  import opened Wrappers
  import opened Seqs

  /** The form's values; price and cost are the numbers the inputs coerce to. */
  datatype ProductFormValues = ProductFormValues(
    name: string, sku: string, category: string, price: real, cost: real, supplier: Option<string>)

  /** The fields that carry a rule. */
  datatype Field = Name | Sku | Category | Price | Cost

  /** The fields in the order the schema declares them. */
  const SchemaOrder: seq<Field> := [Name, Sku, Category, Price, Cost]

  /** The form's starting values. */
  const DefaultValues: ProductFormValues := ProductFormValues("", "", "", 0.0, 0.0, Some(""))

  /** The message each field's rule reports. */
  function IssueMessage(f: Field): (m: string)
    ensures |m| > 0
  {
    match f
    case Name => "Name must be at least 2 characters"
    case Sku => "SKU must be at least 2 characters"
    case Category => "Category is required"
    case Price => "Price must be positive"
    case Cost => "Cost must be positive"
  }

  /** Each message names one field: no two fields share a message. */
  lemma IssueMessageInjective(f: Field, g: Field)
    requires f != g
    ensures IssueMessage(f) != IssueMessage(g)
  {
    assert |IssueMessage(f)| != |IssueMessage(g)|;
  }

  /** The rule of one field: at least two characters for the texts, strictly positive for the amounts. */
  predicate FieldValid(v: ProductFormValues, f: Field) {
    match f
    case Name => |v.name| >= 2
    case Sku => |v.sku| >= 2
    case Category => |v.category| >= 2
    case Price => v.price > 0.0
    case Cost => v.cost > 0.0
  }

  /** Keep the fields whose rule fails on `v`. */
  function FailsOn(v: ProductFormValues): Field -> bool {
    (f: Field) => !FieldValid(v, f)
  }

  /** One field's check: the field if its rule fails, nothing otherwise. */
  function Check(v: ProductFormValues, f: Field): seq<Field> {
    if FieldValid(v, f) then [] else [f]
  }

  /** Parsing the form with the schema: every field is checked, in the order the schema lists them,
    * and the failing ones are reported. */
  function Validate(v: ProductFormValues): (failing: seq<Field>)
    ensures forall f :: f in failing <==> !FieldValid(v, f)
    ensures failing == [] <==> forall f :: FieldValid(v, f)
  {
    CollectedFields(v);
    Collected(v)
  }

  /** The checks of all five fields, concatenated in schema order. */
  function Collected(v: ProductFormValues): seq<Field> {
    Check(v, Name) + (Check(v, Sku) + (Check(v, Category) + (Check(v, Price) + Check(v, Cost))))
  }

  /** The concatenated checks hold exactly the failing fields. */
  lemma CollectedFields(v: ProductFormValues)
    ensures forall f :: f in Collected(v) <==> !FieldValid(v, f)
  {
    forall f ensures f in Collected(v) <==> !FieldValid(v, f) {
      match f
      case Name =>
      case Sku =>
      case Category =>
      case Price =>
      case Cost =>
    }
  }

  /** The failing fields are the schema's fields filtered by their rules: each is reported once,
    * in schema order. */
  lemma ValidateInSchemaOrder(v: ProductFormValues)
    ensures Validate(v) == Filter(SchemaOrder, FailsOn(v))
    ensures IsSubsequence(Validate(v), SchemaOrder)
  {
    var keep := FailsOn(v);
    assert forall f :: Keep1(f, keep) == Check(v, f);
    FilterOfFive(Name, Sku, Category, Price, Cost, keep);
    FilterIsSubsequence(SchemaOrder, keep);
  }

  /** A field's verdict depends on that field alone. */
  lemma FieldRuleIsLocal(v: ProductFormValues, w: ProductFormValues, f: Field)
    requires f == Name ==> v.name == w.name
    requires f == Sku ==> v.sku == w.sku
    requires f == Category ==> v.category == w.category
    requires f == Price ==> v.price == w.price
    requires f == Cost ==> v.cost == w.cost
    ensures f in Validate(v) <==> f in Validate(w)
  {
  }

  /** The supplier is never checked: any value, or none, gives the same verdict. */
  lemma SupplierIsFree(v: ProductFormValues, s: Option<string>)
    ensures Validate(v.(supplier := s)) == Validate(v)
  {
    var w := v.(supplier := s);
    assert forall f :: Check(w, f) == Check(v, f);
  }

  /** Zero is not positive: a price or cost of 0 is rejected. */
  lemma ZeroAmountRejected(v: ProductFormValues)
    requires v.price == 0.0 || v.cost == 0.0
    ensures v.price == 0.0 ==> Price in Validate(v)
    ensures v.cost == 0.0 ==> Cost in Validate(v)
  {
    assert v.price == 0.0 ==> !FieldValid(v, Price);
    assert v.cost == 0.0 ==> !FieldValid(v, Cost);
  }

  /** The untouched form fails on every ruled field: all five, in schema order. */
  lemma DefaultValuesRejected()
    ensures Validate(DefaultValues) == SchemaOrder
  {
    assert forall f :: Check(DefaultValues, f) == [f];
  }
}
