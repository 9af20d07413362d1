/** The "Add Material" form: its schema, its defaults, and what submitting sends.
    The form has inputs for every field except the reorder level, which keeps its
    default of 10. */
module AddMaterialDialog {
  import opened Wrappers
  import opened Parsing
  import opened Entities
  import opened FieldRules

  datatype MaterialForm = MaterialForm(
    name: string,
    sku: string,
    category: string,
    unitOfMeasure: string,
    currentStock: Option<real>,
    costPerUnit: Option<real>,
    reorderLevel: Option<real>)

  /** The material schema: a name of at least two characters, a non-empty
      category, any SKU and unit, and non-negative stock, cost and reorder level. */
  predicate ValidMaterial(f: MaterialForm) {
    && MinLength(f.name, 2)
    && MinLength(f.category, 1)
    && NumberAtLeast(f.currentStock, 0.0)
    && NumberAtLeast(f.costPerUnit, 0.0)
    && NumberAtLeast(f.reorderLevel, 0.0)
  }

  const Defaults: MaterialForm := MaterialForm("", "", "Metal", "grams", Some(0.0), Some(0.0), Some(10.0))

  /** The defaults are rejected only for the missing name; the SKU may stay empty. */
  lemma DefaultsNeedOnlyName(name: string, sku: string)
    ensures !ValidMaterial(Defaults)
    ensures ValidMaterial(Defaults.(name := name, sku := sku)) <==> |name| >= 2
  {
  }

  /** Typing into the stock field stores `parseFloat` of the text. */
  function EnterCurrentStock(f: MaterialForm, text: string): (r: MaterialForm)
    ensures r.currentStock == ParseFloat(text)
    ensures r.(currentStock := f.currentStock) == f
  {
    f.(currentStock := ParseFloat(text))
  }

  /** Typing into the cost field stores `parseFloat` of the text. */
  function EnterCostPerUnit(f: MaterialForm, text: string): (r: MaterialForm)
    ensures r.costPerUnit == ParseFloat(text)
    ensures r.(costPerUnit := f.costPerUnit) == f
  {
    f.(costPerUnit := ParseFloat(text))
  }

  /** Every form reachable from the defaults through the numeric inputs keeps the
      reorder level at 10, so that field never fails validation. */
  lemma ReorderLevelStaysDefault(f: MaterialForm, text: string)
    requires f.reorderLevel == Some(10.0)
    ensures EnterCurrentStock(f, text).reorderLevel == Some(10.0)
    ensures EnterCostPerUnit(f, text).reorderLevel == Some(10.0)
    ensures NumberAtLeast(EnterCostPerUnit(EnterCurrentStock(f, text), text).reorderLevel, 0.0)
  {
  }

  /** A numeric entry is accepted exactly when it parses to a non-negative number. */
  lemma StockEntryValidity(f: MaterialForm, text: string)
    ensures ValidMaterial(EnterCurrentStock(f, text)) <==>
      ValidMaterial(f.(currentStock := Some(0.0))) && ParseFloat(text).Some? && ParseFloat(text).value >= 0.0
  {
  }

  datatype CreateMaterialRequest = CreateMaterialRequest(
    name: string,
    sku: Option<string>,
    category: string,
    unitOfMeasure: string,
    currentStock: real,
    costPerUnit: real,
    reorderLevel: real)

  /** What submitting sent, if anything, the form afterwards and whether the
      dialog is still open. */
  datatype SubmitStep = SubmitStep(request: Option<CreateMaterialRequest>, form: MaterialForm, open: bool)

  /** Submitting: an invalid form sends nothing. A valid one sends its values with
      an empty SKU replaced by none. On success the dialog closes and the form
      resets; a failed call is not caught, so nothing after it runs. */
  function Submit(f: MaterialForm, open: bool, outcome: SubmitOutcome): (r: SubmitStep)
    ensures !ValidMaterial(f) ==> r == SubmitStep(None, f, open)
    ensures ValidMaterial(f) ==> (
      && r.request.Some?
      && r.request.value.name == f.name
      && r.request.value.category == f.category
      && r.request.value.unitOfMeasure == f.unitOfMeasure
      && Some(r.request.value.currentStock) == f.currentStock
      && Some(r.request.value.costPerUnit) == f.costPerUnit
      && Some(r.request.value.reorderLevel) == f.reorderLevel)
    ensures ValidMaterial(f) ==> (r.request.value.sku.None? <==> f.sku == "")
    ensures ValidMaterial(f) && f.sku != "" ==> r.request.value.sku == Some(f.sku)
    ensures ValidMaterial(f) && outcome == Succeeded ==> r.form == Defaults && !r.open
    ensures outcome == Failed ==> r.form == f && r.open == open
  {
    if !ValidMaterial(f) then SubmitStep(None, f, open)
    else
      var sku := if f.sku == "" then None else Some(f.sku);
      var request := CreateMaterialRequest(f.name, sku, f.category, f.unitOfMeasure,
                                           f.currentStock.value, f.costPerUnit.value, f.reorderLevel.value);
      match outcome
      case Succeeded => SubmitStep(Some(request), Defaults, false)
      case Failed => SubmitStep(Some(request), f, open)
  }

  /** Every request this form sends describes a material the inventory can hold:
      a two-character name, non-negative quantities, and either no SKU or a
      non-empty one. */
  lemma SentMaterialsAreWellFormed(f: MaterialForm, open: bool, outcome: SubmitOutcome)
    requires Submit(f, open, outcome).request.Some?
    ensures var q := Submit(f, open, outcome).request.value;
      |q.name| >= 2 && q.currentStock >= 0.0 && q.costPerUnit >= 0.0 && q.reorderLevel >= 0.0
      && (q.sku.None? || q.sku.value != "")
  {
  }
}
