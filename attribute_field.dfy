/**
 * One product-attribute input of the product form: the label, the placeholder, the
 * string encoding of boolean attributes, the option list of select attributes, and the
 * dispatch on the attribute's type.
 */
module AttributeField {
  import opened Wrappers
  import opened Text

  /** An attribute definition. `kind` is the stored `type` column, kept as a string so
    * that a value outside the four known types can be represented. */
  datatype Attribute = Attribute(
    id: string, name: string, code: string, kind: string,
    isRequired: bool, isFilterable: bool, isVariant: bool, displayOrder: int)

  /** One choice of a select attribute. */
  datatype AttributeOption = AttributeOption(id: string, attributeId: string, value: string, displayOrder: int)

  /** How the options query ended: still loading, failed, or answered with rows that may be missing. */
  datatype FetchOutcome = Loading | Failed | Answered(rows: Option<seq<AttributeOption>>)

  /** What the field renders. */
  datatype Rendered =
    | TextInput(caption: string, placeholder: string)
    | NumberInput(caption: string, placeholder: string)
    | CheckboxInput(caption: string, checked: bool)
    | SelectInput(caption: string, placeholder: string, choices: seq<string>)
    | Nothing

  /** The checkbox's reading of a stored value: checked exactly on the string "true". */
  predicate DecodeBool(value: string) {
    value == "true"
  }

  /** What toggling the checkbox stores. */
  function EncodeBool(checked: bool): (value: string)
    ensures value == "true" || value == "false"
  {
    if checked then "true" else "false"
  }

  /** Storing a toggle and reading it back gives the toggle. */
  lemma DecodeEncode(b: bool)
    ensures DecodeBool(EncodeBool(b)) == b
  {
  }

  /** A stored value survives a read and a re-write exactly when it is one of the two encodings;
    * anything else (the empty string, "TRUE", "1") reads as unchecked and is re-written as "false". */
  lemma EncodeDecode(value: string)
    ensures EncodeBool(DecodeBool(value)) == value <==> value == "true" || value == "false"
    ensures value != "true" ==> !DecodeBool(value) && EncodeBool(DecodeBool(value)) == "false"
  {
  }

  /** The label: the attribute's name, followed by " *" exactly when the attribute is required. */
  function Label(attr: Attribute): (caption: string)
    ensures attr.name <= caption
    ensures |caption| == |attr.name| + (if attr.isRequired then 2 else 0)
    ensures attr.isRequired ==> caption[|attr.name|..] == " *"
  {
    attr.name + (if attr.isRequired then " *" else "")
  }

  /** Two attributes with the same name and different required flags get different labels,
    * and the name can be read back off the label. */
  lemma LabelDistinguishesRequired(a: Attribute, b: Attribute)
    requires a.name == b.name && a.isRequired != b.isRequired
    ensures Label(a) != Label(b)
    ensures Label(a)[..|a.name|] == a.name
  {
  }

  /** The placeholder of the input: "Enter " with the lower-cased name for text and number
    * attributes, "Select " with it for select attributes, none for the others. */
  function Placeholder(kind: string, name: string): (p: Option<string>)
    ensures p.Some? <==> kind == "text" || kind == "number" || kind == "select"
    ensures kind == "select" ==> p == Some("Select " + Lower(name))
    ensures kind == "text" || kind == "number" ==> p == Some("Enter " + Lower(name))
  {
    if kind == "text" || kind == "number" then Some("Enter " + Lower(name))
    else if kind == "select" then Some("Select " + Lower(name))
    else None
  }

  /** The placeholder ignores the case of the name. */
  lemma PlaceholderIgnoresCase(kind: string, name: string)
    ensures Placeholder(kind, Lower(name)) == Placeholder(kind, name)
  {
    LowerIdempotent(name);
  }

  /** The query only runs for select attributes; its result defaults to an empty list
    * while loading, after an error, and when the answer carries no rows. */
  function Options(attr: Attribute, outcome: FetchOutcome): (opts: seq<AttributeOption>)
    ensures attr.kind != "select" ==> opts == []
    ensures outcome.Loading? || outcome.Failed? ==> opts == []
    ensures opts != [] ==> attr.kind == "select" && outcome == Answered(Some(opts))
    ensures attr.kind == "select" && outcome.Answered? ==> opts == outcome.rows.GetOr([])
  {
    if attr.kind != "select" then []
    else match outcome
      case Loading => []
      case Failed => []
      case Answered(rows) => rows.GetOr([])
  }

  /** The option values, in the order the query returned them. */
  function Choices(opts: seq<AttributeOption>): (vs: seq<string>)
    ensures |vs| == |opts|
    ensures forall i :: 0 <= i < |opts| ==> vs[i] == opts[i].value
  {
    if opts == [] then [] else [opts[0].value] + Choices(opts[1..])
  }

  /** The input the field renders for the attribute's type, the stored value and the options query. */
  function Render(attr: Attribute, value: string, outcome: FetchOutcome): (r: Rendered)
    ensures r.Nothing? <==> Placeholder(attr.kind, attr.name).None? && attr.kind != "boolean"
    ensures !r.Nothing? ==> r.caption == Label(attr)
    ensures r.TextInput? || r.NumberInput? || r.SelectInput? ==> Some(r.placeholder) == Placeholder(attr.kind, attr.name)
    ensures r.TextInput? <==> attr.kind == "text"
    ensures r.NumberInput? <==> attr.kind == "number"
    ensures r.CheckboxInput? <==> attr.kind == "boolean"
    ensures r.CheckboxInput? ==> r.checked == DecodeBool(value)
    ensures r.SelectInput? <==> attr.kind == "select"
    ensures r.SelectInput? ==> r.choices == Choices(Options(attr, outcome))
  {
    var caption := Label(attr);
    var hint := Lower(attr.name);
    if attr.kind == "text" then TextInput(caption, "Enter " + hint)
    else if attr.kind == "number" then NumberInput(caption, "Enter " + hint)
    else if attr.kind == "boolean" then CheckboxInput(caption, DecodeBool(value))
    else if attr.kind == "select" then SelectInput(caption, "Select " + hint, Choices(Options(attr, outcome)))
    else Nothing
  }

  /** Only the four known types render an input. */
  lemma UnknownTypeRendersNothing(attr: Attribute, value: string, outcome: FetchOutcome)
    ensures Render(attr, value, outcome).Nothing? <==> attr.kind !in {"text", "number", "boolean", "select"}
  {
  }

  /** Toggling a boolean attribute and rendering again shows the checkbox in the toggled state. */
  lemma ToggleRoundTrip(attr: Attribute, value: string, outcome: FetchOutcome, checked: bool)
    requires attr.kind == "boolean"
    ensures Render(attr, EncodeBool(checked), outcome) == CheckboxInput(Label(attr), checked)
  {
    DecodeEncode(checked);
  }

  /** Only a select attribute ever shows choices, whatever the query answered. */
  lemma ChoicesOnlyForSelect(attr: Attribute, value: string, outcome: FetchOutcome)
    requires attr.kind != "select"
    ensures Choices(Options(attr, outcome)) == []
    ensures !Render(attr, value, outcome).SelectInput?
  {
  }
}
