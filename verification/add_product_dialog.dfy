/** The "Add Product" form: its schema as a predicate, its default values, and
    what submitting does. */
module AddProductDialog {
  import opened Wrappers
  import opened Parsing
  import opened Entities
  import opened FieldRules

  datatype ProductForm = ProductForm(
    name: string,
    sku: string,
    category: string,
    retailPrice: Option<real>,
    manufactureCost: Option<real>,
    stockQuantity: Option<real>)

  /** The product schema: a name of at least two characters, a non-empty SKU and
      category, non-negative price and cost, and a whole, non-negative stock. */
  predicate ValidProduct(f: ProductForm) {
    && MinLength(f.name, 2)
    && MinLength(f.sku, 1)
    && MinLength(f.category, 1)
    && NumberAtLeast(f.retailPrice, 0.0)
    && NumberAtLeast(f.manufactureCost, 0.0)
    && IntegerAtLeast(f.stockQuantity, 0.0)
  }

  const Defaults: ProductForm := ProductForm("", "", "Ring", Some(0.0), Some(0.0), Some(1.0))

  /** The defaults are rejected only for the missing name and SKU: filling those
      in is exactly what it takes to make them valid. */
  lemma DefaultsNeedOnlyNameAndSku(name: string, sku: string)
    ensures !ValidProduct(Defaults)
    ensures ValidProduct(Defaults.(name := name, sku := sku)) <==> |name| >= 2 && |sku| >= 1
  {
    assert IsInteger(1.0);
  }

  /** Typing into the price field stores `parseFloat` of the text. */
  function EnterRetailPrice(f: ProductForm, text: string): (r: ProductForm)
    ensures r.retailPrice == ParseFloat(text)
    ensures r.(retailPrice := f.retailPrice) == f
  {
    f.(retailPrice := ParseFloat(text))
  }

  /** Typing into the cost field stores `parseFloat` of the text. */
  function EnterManufactureCost(f: ProductForm, text: string): (r: ProductForm)
    ensures r.manufactureCost == ParseFloat(text)
    ensures r.(manufactureCost := f.manufactureCost) == f
  {
    f.(manufactureCost := ParseFloat(text))
  }

  /** Typing into the stock field stores `parseInt` of the text, so whatever it
      stores is whole. */
  function EnterStockQuantity(f: ProductForm, text: string): (r: ProductForm)
    ensures ParseInt(text).None? <==> r.stockQuantity.None?
    ensures ParseInt(text).Some? ==> r.stockQuantity == Some(ParseInt(text).value as real)
    ensures r.(stockQuantity := f.stockQuantity) == f
  {
    match ParseInt(text)
    case None => f.(stockQuantity := None)
    case Some(n) => f.(stockQuantity := Some(n as real))
  }

  /** Through the stock field only the sign can make the stock invalid: the form
      is valid exactly when its other fields are and the text parses to a
      non-negative integer. */
  lemma StockEntryValidity(f: ProductForm, text: string)
    ensures ValidProduct(EnterStockQuantity(f, text)) <==>
      ValidProduct(f.(stockQuantity := Some(0.0))) && ParseInt(text).Some? && ParseInt(text).value >= 0
  {
    assert IsInteger(0.0);
    if ParseInt(text).Some? {
      var n := ParseInt(text).value;
      assert IsInteger(n as real) by {
        assert (n as real).Floor == n;
      }
    }
  }

  /** An unparseable price or cost makes the form invalid. */
  lemma UnparseableNumbersRejected(f: ProductForm, text: string)
    requires ParseFloat(text).None?
    ensures !ValidProduct(EnterRetailPrice(f, text))
    ensures !ValidProduct(EnterManufactureCost(f, text))
  {
  }

  /** Clearing a price or cost field, or typing only a sign or a point into it,
      makes the form invalid until a number is typed again. */
  lemma ClearedNumbersRejected(f: ProductForm)
    ensures !ValidProduct(EnterRetailPrice(f, ""))
    ensures !ValidProduct(EnterManufactureCost(f, "-"))
    ensures !ValidProduct(EnterRetailPrice(f, "."))
  {
    ParseFloatOfEmpty();
  }

  /** The schema's whole-number rule on the stock is never what rejects typed
      input: the stock field stores only whole numbers, so a fractional stock
      such as 2.5 cannot be entered and "2.5" is stored as 2. */
  lemma StockFieldStoresWholeNumbers(f: ProductForm, text: string)
    ensures EnterStockQuantity(f, text).stockQuantity.Some? ==>
      IsInteger(EnterStockQuantity(f, text).stockQuantity.value)
    ensures !ValidProduct(f.(stockQuantity := Some(2.5)))
    ensures EnterStockQuantity(f, "2.5").stockQuantity == Some(2.0)
  {
    if ParseInt(text).Some? {
      var n := ParseInt(text).value;
      assert (n as real).Floor == n;
    }
    assert !IsInteger(2.5) by {
      assert (2.5).Floor == 2;
    }
    ParseIntOfIntText(2, ".5");
    assert NatToDigits(2) + ".5" == "2.5";
  }

  datatype CreateProductRequest = CreateProductRequest(
    sku: string,
    name: string,
    category: string,
    retailPrice: real,
    manufactureCost: real,
    stockQuantity: int)

  /** What submitting sent, if anything, the form afterwards and whether the
      dialog is still open. */
  datatype SubmitStep = SubmitStep(request: Option<CreateProductRequest>, form: ProductForm, open: bool)

  /** Submitting: an invalid form sends nothing. A valid one sends its values as
      they are; on success the dialog closes and the form resets to its defaults,
      and a failure is caught and leaves both as they were. */
  function Submit(f: ProductForm, open: bool, outcome: SubmitOutcome): (r: SubmitStep)
    ensures !ValidProduct(f) ==> r == SubmitStep(None, f, open)
    ensures ValidProduct(f) ==> (
      && r.request.Some?
      && r.request.value.name == f.name && r.request.value.sku == f.sku
      && r.request.value.category == f.category
      && r.request.value.retailPrice == f.retailPrice.value >= 0.0
      && r.request.value.manufactureCost == f.manufactureCost.value >= 0.0
      && r.request.value.stockQuantity as real == f.stockQuantity.value
      && r.request.value.stockQuantity >= 0)
    ensures ValidProduct(f) && outcome == Succeeded ==> r.form == Defaults && !r.open
    ensures outcome == Failed ==> r.form == f && r.open == open
  {
    if !ValidProduct(f) then SubmitStep(None, f, open)
    else
      var request := CreateProductRequest(f.sku, f.name, f.category, f.retailPrice.value,
                                          f.manufactureCost.value, f.stockQuantity.value.Floor);
      match outcome
      case Succeeded => SubmitStep(Some(request), Defaults, false)
      case Failed => SubmitStep(Some(request), f, open)
  }
}
