/** The recipe builder: the guard on adding a material to a product's recipe, the
    request it sends, and the recipe's total cost. */
module RecipeDialog {
  import opened Wrappers
  import opened Entities

  /** The dialog's inputs: the chosen material (the select's value is the id's
      decimal text, `""` when none) and the entered quantity. */
  datatype RecipeForm = RecipeForm(selectedMaterial: Option<int>, quantity: real)

  /** No material chosen and a quantity of 0. */
  const InitialForm: RecipeForm := RecipeForm(None, 0.0)

  datatype AddComponentRequest = AddComponentRequest(productId: int, materialId: int, quantity: real)

  /** What "Add" sent, if anything, and the form once the call settled. */
  datatype AddStep = AddStep(request: Option<AddComponentRequest>, form: RecipeForm)

  /** The "Add" button: nothing happens without a material or with a quantity that
      is not positive. Otherwise the component is requested and, once the call
      succeeds, the quantity goes back to 0 while the material stays chosen. */
  function HandleAdd(productId: int, f: RecipeForm, outcome: SubmitOutcome): (r: AddStep)
    ensures f.selectedMaterial.None? || f.quantity <= 0.0 ==> r == AddStep(None, f)
    ensures f.selectedMaterial.Some? && f.quantity > 0.0 ==>
      r.request == Some(AddComponentRequest(productId, f.selectedMaterial.value, f.quantity))
    ensures r.request.Some? ==> r.request.value.quantity > 0.0
    ensures r.form.selectedMaterial == f.selectedMaterial
    ensures r.request.Some? && outcome == Succeeded ==> r.form.quantity == 0.0
    ensures outcome == Failed ==> r.form == f
  {
    if f.selectedMaterial.None? || f.quantity <= 0.0 then AddStep(None, f)
    else
      var request := AddComponentRequest(productId, f.selectedMaterial.value, f.quantity);
      match outcome
      case Succeeded => AddStep(Some(request), f.(quantity := 0.0))
      case Failed => AddStep(Some(request), f)
  }

  /** From the opened dialog, and again right after a successful add, pressing
      "Add" sends nothing until a positive quantity is entered. */
  lemma NoAddBeforeQuantity(productId: int, material: Option<int>, outcome: SubmitOutcome, o: SubmitOutcome)
    ensures HandleAdd(productId, InitialForm, outcome).request.None?
    ensures var after := HandleAdd(productId, RecipeForm(material, 1.0), outcome);
      outcome == Succeeded && material.Some? ==> HandleAdd(productId, after.form, o).request.None?
  {
  }

  function SumCosts(components: seq<RecipeComponent>): real {
    if |components| == 0 then 0.0
    else components[0].costAtTimeOfCalculation + SumCosts(components[1..])
  }

  lemma {:induction false} SumCostsAppend(a: seq<RecipeComponent>, b: seq<RecipeComponent>)
    ensures SumCosts(a + b) == SumCosts(a) + SumCosts(b)
  {
    if |a| == 0 {
      assert a + b == b;
    } else {
      assert (a + b)[1..] == a[1..] + b;
      SumCostsAppend(a[1..], b);
    }
  }

  /** `totalRecipeCost`: the components' costs summed, 0 while the recipe has not
      loaded (the `|| 0` fallback also turns a zero sum into 0, the same value). */
  function TotalRecipeCost(components: Option<seq<RecipeComponent>>): (r: real)
    ensures components.None? ==> r == 0.0
    ensures components.Some? ==> r == SumCosts(components.value)
  {
    match components
    case None => 0.0
    case Some(cs) => SumCosts(cs)
  }

  /** Adding a component adds exactly its cost to the recipe total, and a recipe
      still loading costs what an empty one does: nothing. */
  lemma AddedComponentCost(cs: seq<RecipeComponent>, c: RecipeComponent)
    ensures TotalRecipeCost(Some(cs + [c])) == TotalRecipeCost(Some(cs)) + c.costAtTimeOfCalculation
    ensures TotalRecipeCost(None) == TotalRecipeCost(Some([])) == 0.0
  {
    SumCostsAppend(cs, [c]);
  }

  /** Components with non-negative costs give a non-negative total. */
  lemma {:induction false} TotalRecipeCostNonNegative(cs: seq<RecipeComponent>)
    requires forall i :: 0 <= i < |cs| ==> cs[i].costAtTimeOfCalculation >= 0.0
    ensures TotalRecipeCost(Some(cs)) >= 0.0
  {
    if |cs| > 0 {
      TotalRecipeCostNonNegative(cs[1..]);
    }
  }
}
