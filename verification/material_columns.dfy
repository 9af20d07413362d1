/** The materials table: the SKU cell, the low-stock highlight and the stock
    value column. */
module MaterialColumns {
  import opened Wrappers
  import opened Entities

  /** The placeholder shown for a missing SKU: an em dash. */
  const NoSku: string := "\U{2014}"

  /** A null or empty SKU is falsy and shows the placeholder. */
  function SkuLabel(m: Material): (r: string)
    ensures r != ""
    ensures m.sku.None? || m.sku.value == "" ==> r == NoSku
    ensures m.sku.Some? && m.sku.value != "" ==> r == m.sku.value
  {
    match m.sku
    case None => NoSku
    case Some(s) => if s == "" then NoSku else s
  }

  /** Stock at or below the reorder level is highlighted; the boundary counts as low. */
  predicate IsLow(m: Material) {
    m.currentStock <= m.reorderLevel
  }

  /** Restocking above the reorder level clears the highlight, and a material at
      exactly its reorder level is flagged. */
  lemma LowStockBoundary(m: Material, stock: real)
    ensures IsLow(m.(currentStock := m.reorderLevel))
    ensures IsLow(m.(currentStock := stock)) <==> stock <= m.reorderLevel
    ensures stock <= m.currentStock && IsLow(m) ==> IsLow(m.(currentStock := stock))
  {
  }

  /** What the stock on hand is worth at the material's unit cost. */
  function TotalValue(m: Material): real {
    m.currentStock * m.costPerUnit
  }

  /** Non-negative stock and cost, as the material form enforces, have a
      non-negative value, and more stock is never worth less. */
  lemma TotalValueNonNegative(m: Material, more: real)
    requires m.currentStock >= 0.0 && m.costPerUnit >= 0.0
    ensures TotalValue(m) >= 0.0
    ensures more >= 0.0 ==> TotalValue(m.(currentStock := m.currentStock + more)) >= TotalValue(m)
  {
    if more >= 0.0 {
      assert TotalValue(m.(currentStock := m.currentStock + more)) == TotalValue(m) + more * m.costPerUnit;
    }
  }
}
