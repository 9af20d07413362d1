/** The transaction ledger: the receipt's figures, the customer cell, the status
    badge, the "Mark as Paid" action and the debt-only filter. */
module TradeHistory {
  import opened Wrappers
  import opened Entities

  /** The three figures a receipt prints. */
  datatype Receipt = Receipt(total: real, paid: real, balanceDue: real)

  /** The receipt derives what was paid from the total and the balance still due. */
  function ReceiptOf(t: Transaction): (r: Receipt)
    ensures r.total == t.totalAmount && r.balanceDue == t.balanceDue
    ensures r.paid + r.balanceDue == r.total
  {
    Receipt(t.totalAmount, t.totalAmount - t.balanceDue, t.balanceDue)
  }

  /** When the balance due lies between nothing and the whole total, so does the
      paid figure, and the receipt shows fully paid exactly when nothing is due. */
  lemma ReceiptFigures(t: Transaction)
    requires 0.0 <= t.balanceDue <= t.totalAmount
    ensures 0.0 <= ReceiptOf(t).paid <= ReceiptOf(t).total
    ensures ReceiptOf(t).paid == ReceiptOf(t).total <==> t.balanceDue == 0.0
  {
  }

  /** A transaction recorded with the desk's balance (total minus paid) prints
      back the amount that was paid. */
  lemma ReceiptRecoversPayment(t: Transaction, paid: real)
    requires t.balanceDue == t.totalAmount - paid
    ensures ReceiptOf(t).paid == paid
  {
  }

  /** The customer column falls back to "Walk-in", as checkout does. */
  function CustomerCell(t: Transaction): (r: string)
    ensures r != ""
    ensures t.customerName != "" ==> r == t.customerName
    ensures t.customerName == "" ==> r == WalkIn
  {
    CustomerOrWalkIn(t.customerName)
  }

  datatype StatusBadge = Unpaid(balance: real) | Paid

  /** A pending transaction shows "Unpaid" with its balance; any other shows "Paid". */
  function Badge(t: Transaction): (r: StatusBadge)
    ensures r.Unpaid? <==> t.status == Pending
    ensures r.Unpaid? ==> r.balance == t.balanceDue
    ensures t.status == Completed ==> r == Paid
  {
    if t.status == Pending then Unpaid(t.balanceDue) else Paid
  }

  /** The row's "Mark as Paid" action: the id to settle, offered only for a
      pending transaction. */
  function MarkPaidAction(t: Transaction): (r: Option<int>)
    ensures r.Some? <==> t.status == Pending
    ensures r.Some? ==> r.value == t.id
  {
    if t.status == Pending then Some(t.id) else None
  }

  /** A row offers "Mark as Paid", for its own id, exactly when its badge says
      "Unpaid" with the row's balance; a settled row shows "Paid" and offers
      nothing. */
  lemma MarkPaidMatchesBadge(t: Transaction)
    ensures MarkPaidAction(t) == Some(t.id) <==> Badge(t) == Unpaid(t.balanceDue)
    ensures MarkPaidAction(t).None? <==> Badge(t) == Paid
    ensures MarkPaidAction(t.(status := Completed)).None? && Badge(t.(status := Completed)) == Paid
  {
  }

  /** Whether a transaction satisfies a requested status filter. */
  predicate Matches(filter: Option<TxnStatus>, t: Transaction) {
    filter.None? || t.status == filter.value
  }

  /** The status filter the ledger asks for: with the toggle on it admits exactly
      the pending transactions, and with it off every transaction. */
  function DebtFilter(showDebtOnly: bool): (r: Option<TxnStatus>)
    ensures r.Some? <==> showDebtOnly
    ensures forall t: Transaction :: Matches(r, t) <==> !showDebtOnly || t.status == Pending
  {
    if showDebtOnly then Some(Pending) else None
  }

  /** If the service returns only rows that meet the requested filter, every row
      of the debt-only view shows "Unpaid" with its balance and offers
      "Mark as Paid". */
  lemma DebtViewIsActionable(rows: seq<Transaction>, showDebtOnly: bool)
    requires forall i :: 0 <= i < |rows| ==> Matches(DebtFilter(showDebtOnly), rows[i])
    ensures showDebtOnly ==> forall i :: 0 <= i < |rows| ==>
      Badge(rows[i]) == Unpaid(rows[i].balanceDue) && MarkPaidAction(rows[i]) == Some(rows[i].id)
  {
  }
}
