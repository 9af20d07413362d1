/** The "Edit Material" form. It starts from the material's own values, offers
    inputs for the stock, the unit cost and the reorder level, and validates the
    name it carries along with them. */
module EditMaterialDialog {
  import opened Wrappers
  import opened Parsing
  import opened Entities
  import opened FieldRules
  import AddMaterialDialog

  datatype UpdateForm = UpdateForm(
    name: string,
    currentStock: Option<real>,
    costPerUnit: Option<real>,
    reorderLevel: Option<real>)

  /** The update schema: non-negative stock, cost and reorder level, and a
      non-empty name. */
  predicate ValidUpdate(f: UpdateForm) {
    && NumberAtLeast(f.currentStock, 0.0)
    && NumberAtLeast(f.costPerUnit, 0.0)
    && NumberAtLeast(f.reorderLevel, 0.0)
    && MinLength(f.name, 1)
  }

  /** The form as opened on a material. */
  function DefaultsFrom(m: Material): (r: UpdateForm)
    ensures r.name == m.name
    ensures r.currentStock == Some(m.currentStock) && r.costPerUnit == Some(m.costPerUnit)
    ensures r.reorderLevel == Some(m.reorderLevel)
  {
    UpdateForm(m.name, Some(m.currentStock), Some(m.costPerUnit), Some(m.reorderLevel))
  }

  /** The three inputs; each stores `parseFloat` of its text. */
  datatype Input = StockInput | CostInput | ReorderInput

  function Enter(f: UpdateForm, input: Input, text: string): (r: UpdateForm)
    ensures r.name == f.name
    ensures input == StockInput ==> r == f.(currentStock := ParseFloat(text))
    ensures input == CostInput ==> r == f.(costPerUnit := ParseFloat(text))
    ensures input == ReorderInput ==> r == f.(reorderLevel := ParseFloat(text))
  {
    match input
    case StockInput => f.(currentStock := ParseFloat(text))
    case CostInput => f.(costPerUnit := ParseFloat(text))
    case ReorderInput => f.(reorderLevel := ParseFloat(text))
  }

  /** The form after a sequence of edits. */
  function EnterAll(f: UpdateForm, edits: seq<(Input, string)>): UpdateForm
    decreases |edits|
  {
    if |edits| == 0 then f
    else EnterAll(Enter(f, edits[0].0, edits[0].1), edits[1..])
  }

  /** No input reaches the name, so whatever is typed the name is the
      material's: a material with an empty name can never be updated here. */
  lemma {:induction false} NameIsNeverEdited(m: Material, edits: seq<(Input, string)>)
    ensures EnterAll(DefaultsFrom(m), edits).name == m.name
    ensures m.name == "" ==> !ValidUpdate(EnterAll(DefaultsFrom(m), edits))
  {
    NameSurvives(DefaultsFrom(m), edits);
  }

  lemma {:induction false} NameSurvives(f: UpdateForm, edits: seq<(Input, string)>)
    ensures EnterAll(f, edits).name == f.name
    decreases |edits|
  {
    if |edits| > 0 {
      NameSurvives(Enter(f, edits[0].0, edits[0].1), edits[1..]);
    }
  }

  /** Opening the form on a material whose values already meet the schema gives
      a valid form, and conversely. */
  lemma UneditedValidity(m: Material)
    ensures ValidUpdate(DefaultsFrom(m)) <==>
      m.name != "" && m.currentStock >= 0.0 && m.costPerUnit >= 0.0 && m.reorderLevel >= 0.0
  {
  }

  /** The update schema is looser than the creation schema on the name: a
      one-character name passes an update but could never have been created
      through the "Add Material" form. */
  lemma OneCharacterName(m: Material, c: char, create: AddMaterialDialog.MaterialForm)
    requires m.currentStock >= 0.0 && m.costPerUnit >= 0.0 && m.reorderLevel >= 0.0
    ensures ValidUpdate(DefaultsFrom(m).(name := [c]))
    ensures !AddMaterialDialog.ValidMaterial(create.(name := [c]))
  {
  }

  datatype UpdateRequest = UpdateRequest(
    id: int,
    name: string,
    currentStock: real,
    costPerUnit: real,
    reorderLevel: real)

  /** What submitting sent, if anything, and whether the dialog is still open. */
  datatype SubmitStep = SubmitStep(request: Option<UpdateRequest>, open: bool)

  /** Submitting: an invalid form sends nothing. A valid one sends the material's
      id with the form's values and, once the call succeeds, closes the dialog; a
      failed call is not caught, so the dialog stays open. */
  function Submit(m: Material, f: UpdateForm, open: bool, outcome: SubmitOutcome): (r: SubmitStep)
    ensures !ValidUpdate(f) ==> r == SubmitStep(None, open)
    ensures ValidUpdate(f) ==> (
      && r.request.Some?
      && r.request.value.id == m.id
      && r.request.value.name == f.name
      && Some(r.request.value.currentStock) == f.currentStock
      && Some(r.request.value.costPerUnit) == f.costPerUnit
      && Some(r.request.value.reorderLevel) == f.reorderLevel)
    ensures ValidUpdate(f) && outcome == Succeeded ==> !r.open
    ensures outcome == Failed ==> r.open == open
  {
    if !ValidUpdate(f) then SubmitStep(None, open)
    else
      var request := UpdateRequest(m.id, f.name, f.currentStock.value, f.costPerUnit.value, f.reorderLevel.value);
      match outcome
      case Succeeded => SubmitStep(Some(request), false)
      case Failed => SubmitStep(Some(request), open)
  }

  /** Applying an update request to the material it names changes only the four
      edited fields: id, SKU, category and unit are kept. */
  function ApplyUpdate(m: Material, q: UpdateRequest): (r: Material)
    requires q.id == m.id
    ensures r.id == m.id && r.sku == m.sku && r.category == m.category && r.unitOfMeasure == m.unitOfMeasure
    ensures r.name == q.name && r.currentStock == q.currentStock
    ensures r.costPerUnit == q.costPerUnit && r.reorderLevel == q.reorderLevel
  {
    m.(name := q.name, currentStock := q.currentStock, costPerUnit := q.costPerUnit, reorderLevel := q.reorderLevel)
  }

  /** Submitting the unedited form sends back exactly the material's values, so
      applying it is a no-op. */
  lemma UneditedSubmitIsIdentity(m: Material, open: bool, outcome: SubmitOutcome)
    requires ValidUpdate(DefaultsFrom(m))
    ensures Submit(m, DefaultsFrom(m), open, outcome).request.Some?
    ensures ApplyUpdate(m, Submit(m, DefaultsFrom(m), open, outcome).request.value) == m
  {
  }
}
