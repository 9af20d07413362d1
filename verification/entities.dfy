/** The records the screens read from the data service, and the shared vocabulary
    of the trading and inventory screens. Money and quantities are `real`. */
module Entities {
  import opened Wrappers

  /** A raw material held in stock. `sku` may be null. `last_updated` is a display
      timestamp and is left out. */
  datatype Material = Material(
    id: int,
    name: string,
    sku: Option<string>,
    category: string,
    currentStock: real,
    unitOfMeasure: string,
    costPerUnit: real,
    reorderLevel: real)

  /** A finished good. `description` and `image_url` are display-only and left out. */
  datatype Product = Product(
    id: int,
    sku: string,
    name: string,
    category: string,
    retailPrice: real,
    manufactureCost: real,
    stockQuantity: real)

  /** One material line of a product's recipe, with the cost the service computed. */
  datatype RecipeComponent = RecipeComponent(
    id: int,
    materialName: string,
    quantityUsed: real,
    costAtTimeOfCalculation: real)

  /** Whether a transaction is a retail sale of products or a material trade. */
  datatype Mode = Retail | Trade

  datatype TxnStatus = Completed | Pending

  /** A recorded transaction in the ledger. `created_at` is display-only and left out. */
  datatype Transaction = Transaction(
    id: int,
    customerName: string,
    transactionType: Mode,
    totalAmount: real,
    balanceDue: real,
    status: TxnStatus)

  /** One row of an audit submission. */
  datatype AuditItem = AuditItem(materialId: int, countedQuantity: real)

  /** How an awaited call to the data service ends. */
  datatype SubmitOutcome = Succeeded | Failed

  const WalkIn: string := "Walk-in"

  /** The customer name used when none was entered: an empty name is falsy, so
      `name || "Walk-in"` falls back to the walk-in label. */
  function CustomerOrWalkIn(name: string): (r: string)
    ensures r != ""
    ensures name != "" ==> r == name
    ensures name == "" ==> r == WalkIn
  {
    if name == "" then WalkIn else name
  }
}
