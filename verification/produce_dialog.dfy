/** Recording production of a product: the integer quantity field, the confirm
    guard, the per-material consumption shown before confirming, and what a
    confirmed production does to the dialog. */
module ProduceDialog {
  import opened Wrappers
  import opened Parsing
  import opened Entities

  /** The quantity field and whether the dialog is open (the parent owns `open`;
      the dialog only asks to close it). */
  datatype ProduceForm = ProduceForm(quantity: int, open: bool)

  /** The dialog as opened: quantity 1. */
  const Opened: ProduceForm := ProduceForm(1, true)

  /** Typing into the quantity field: `parseInt(text) || 0`. */
  function EnterQuantity(f: ProduceForm, text: string): (r: ProduceForm)
    ensures ParseInt(text).None? ==> r.quantity == 0
    ensures ParseInt(text).Some? ==> r.quantity == ParseInt(text).value
    ensures r.open == f.open
  {
    f.(quantity := ParseInt(text).GetOr(0))
  }

  /** "Confirm Production" is enabled only for a quantity of at least 1 while no
      request is in flight. */
  predicate ConfirmEnabled(f: ProduceForm, pending: bool) {
    !pending && f.quantity >= 1
  }

  /** Unparseable or empty input leaves confirm disabled. */
  lemma GarbageDisablesConfirm(f: ProduceForm, text: string, pending: bool)
    requires ParseInt(text).None? || ParseInt(text) == Some(0)
    ensures !ConfirmEnabled(EnterQuantity(f, text), pending)
  {
  }

  /** The quantity of each material the run will use, in recipe order. */
  function Consumption(recipe: seq<RecipeComponent>, quantity: int): (r: seq<real>)
    ensures |r| == |recipe|
    ensures forall i :: 0 <= i < |recipe| ==> r[i] == recipe[i].quantityUsed * quantity as real
  {
    seq(|recipe|, i requires 0 <= i < |recipe| => recipe[i].quantityUsed * quantity as real)
  }

  /** Producing n units consumes n times what one unit consumes, and producing a
      positive number of units with non-negative usage consumes nothing negative. */
  lemma ConsumptionScales(recipe: seq<RecipeComponent>, n: int)
    ensures forall i :: 0 <= i < |recipe| ==>
      Consumption(recipe, n)[i] == n as real * Consumption(recipe, 1)[i]
    ensures n >= 1 && (forall i :: 0 <= i < |recipe| ==> recipe[i].quantityUsed >= 0.0) ==>
      forall i :: 0 <= i < |recipe| ==> Consumption(recipe, n)[i] >= 0.0
  {
  }

  datatype ProduceRequest = ProduceRequest(productId: int, quantity: int)

  /** What confirming sent, and the dialog once the call settled. */
  datatype ProduceStep = ProduceStep(request: ProduceRequest, form: ProduceForm)

  /** `handleProduce`: the request carries the current quantity (the handler has
      no guard of its own; the disabled button is the guard). A success closes the
      dialog and resets the quantity to 1; a failure is caught and changes nothing. */
  function HandleProduce(productId: int, f: ProduceForm, outcome: SubmitOutcome): (r: ProduceStep)
    ensures r.request == ProduceRequest(productId, f.quantity)
    ensures outcome == Succeeded ==> !r.form.open && r.form.quantity == 1
    ensures outcome == Failed ==> r.form == f
  {
    var request := ProduceRequest(productId, f.quantity);
    match outcome
    case Succeeded => ProduceStep(request, ProduceForm(1, false))
    case Failed => ProduceStep(request, f)
  }

  /** Through the enabled button, every production request is for at least one unit. */
  lemma EnabledRequestsArePositive(productId: int, f: ProduceForm, pending: bool, outcome: SubmitOutcome)
    requires ConfirmEnabled(f, pending)
    ensures HandleProduce(productId, f, outcome).request.quantity >= 1
  {
  }
}
