/** The trading desk: a cart of signed lines for one transaction in progress, its
    total, the amount-paid field that follows the total, the debt/change
    classification of the balance, and the checkout payload.

    The screen's state `(mode, cart, customer, amountPaid, selectedItem, qty,
    tradeAction)` is the immutable record `Desk`; every event handler is a
    function from the desk before to the desk after. */
module TradeDesk {
  import opened Wrappers
  import opened Parsing
  import opened Entities

  datatype TradeAction = Buy | Sell

  datatype ItemKind = ProductItem | MaterialItem

  /** One cart line. `quantity` carries the stock direction and `price` the cash
      direction; `quantity * price` is the line's cash effect for the business. */
  datatype CartItem = CartItem(
    id: string,
    targetId: int,
    name: string,
    kind: ItemKind,
    quantity: real,
    price: real)

  /** The amount-paid text box. `Synced(t)` is the text the desk writes itself
      (`t.toString()`, which parses back to `t`); `Typed(s)` is text the user entered. */
  datatype PaidField = Synced(amount: real) | Typed(text: string)

  /** The selection is the chosen catalogue id (the select's value is that id's
      decimal text, and `""` when nothing is chosen). */
  datatype Desk = Desk(
    mode: Mode,
    cart: seq<CartItem>,
    customer: string,
    amountPaid: PaidField,
    selected: Option<int>,
    qty: real,
    action: TradeAction)

  /** Balances within a cent of zero count as settled. */
  const Tolerance: real := 0.01

  /** The desk after its first render: retail mode, an empty cart, quantity 1,
      action BUY, and the amount-paid effect having written the zero total. */
  const Opened: Desk := Desk(Retail, [], "", Synced(0.0), None, 1.0, Buy)

  function Contribution(item: CartItem): real {
    item.quantity * item.price
  }

  /** The "Total Due": every line's `quantity * price`, whatever its sign. */
  function Total(cart: seq<CartItem>): real {
    if |cart| == 0 then 0.0 else Contribution(cart[0]) + Total(cart[1..])
  }

  lemma {:induction false} TotalAppend(a: seq<CartItem>, b: seq<CartItem>)
    ensures Total(a + b) == Total(a) + Total(b)
  {
    if |a| == 0 {
      assert a + b == b;
    } else {
      assert (a + b)[1..] == a[1..] + b;
      TotalAppend(a[1..], b);
    }
  }

  /** The running `reduce` the screen performs, left to right from 0. */
  method ReduceTotal(cart: seq<CartItem>) returns (sum: real)
    ensures sum == Total(cart)
    ensures |cart| == 0 ==> sum == 0.0
  {
    sum := 0.0;
    var i := 0;
    while i < |cart|
      invariant 0 <= i <= |cart|
      invariant sum == Total(cart[..i])
    {
      TotalAppend(cart[..i], [cart[i]]);
      assert cart[..i + 1] == cart[..i] + [cart[i]];
      sum := sum + Contribution(cart[i]);
      i := i + 1;
    }
    assert cart[..i] == cart;
  }

  lemma TotalRemoveAt(b: seq<CartItem>, k: nat)
    requires k < |b|
    ensures Total(b) == Contribution(b[k]) + Total(b[..k] + b[k + 1..])
  {
    assert b == b[..k] + b[k..];
    assert b[k..] == [b[k]] + b[k + 1..];
    TotalAppend(b[..k], b[k..]);
    TotalAppend([b[k]], b[k + 1..]);
    TotalAppend(b[..k], b[k + 1..]);
  }

  lemma MultisetRemoveAt(b: seq<CartItem>, k: nat)
    requires k < |b|
    ensures multiset(b[..k] + b[k + 1..]) == multiset(b) - multiset{b[k]}
  {
    assert b == b[..k] + [b[k]] + b[k + 1..];
  }

  /** Where the first line of `a` sits in a permutation `b` of it, and what is
      left of both once it is removed. */
  lemma MatchFirst(a: seq<CartItem>, b: seq<CartItem>) returns (k: nat)
    requires multiset(a) == multiset(b) && |a| > 0
    ensures k < |b| && b[k] == a[0]
    ensures multiset(a[1..]) == multiset(b[..k] + b[k + 1..])
  {
    assert exists i :: 0 <= i < |b| && b[i] == a[0] by {
      assert a[0] in multiset(b);
      assert a[0] in b;
    }
    k :| 0 <= k < |b| && b[k] == a[0];
    assert multiset(b[..k] + b[k + 1..]) == multiset(b) - multiset{a[0]} by {
      MultisetRemoveAt(b, k);
    }
    assert multiset(a[1..]) == multiset(a) - multiset{a[0]} by {
      assert a == [a[0]] + a[1..];
    }
  }

  /** The total does not depend on the order of the lines. */
  lemma {:induction false} TotalPermutation(a: seq<CartItem>, b: seq<CartItem>)
    requires multiset(a) == multiset(b)
    ensures Total(a) == Total(b)
  {
    if |a| == 0 {
      assert |b| == |multiset(b)| == 0;
    } else {
      var k := MatchFirst(a, b);
      var rest := b[..k] + b[k + 1..];
      TotalPermutation(a[1..], rest);
      TotalRemoveAt(b, k);
    }
  }

  /** The value `parseFloat(amountPaid) || 0` the desk reads from the field. */
  function PaidValue(field: PaidField): (v: real)
    ensures field.Synced? ==> v == field.amount
    ensures field.Typed? && ParseFloat(field.text).None? ==> v == 0.0
    ensures field.Typed? && ParseFloat(field.text).Some? ==> v == ParseFloat(field.text).value
  {
    match field
    case Synced(t) => t
    case Typed(s) => ParseFloat(s).GetOr(0.0)
  }

  function Balance(d: Desk): real {
    Total(d.cart) - PaidValue(d.amountPaid)
  }

  /** The customer still owes the business. */
  predicate IsDebt(d: Desk) {
    Balance(d) > Tolerance
  }

  /** The business owes the customer change. */
  predicate IsChange(d: Desk) {
    Balance(d) < -Tolerance
  }

  /** At most one of debt and change is shown, and neither within the tolerance. */
  lemma DebtChangeExclusive(d: Desk)
    ensures !(IsDebt(d) && IsChange(d))
    ensures -Tolerance <= Balance(d) <= Tolerance <==> !IsDebt(d) && !IsChange(d)
  {
  }

  /** The worked settlement examples: a total of 100 against payments typed as
      "60", "150" and "100". */
  lemma SettlementExamples(d: Desk)
    requires Total(d.cart) == 100.0
    ensures var paid60 := d.(amountPaid := Typed("60"));
      Balance(paid60) == 40.0 && IsDebt(paid60)
    ensures var paid150 := d.(amountPaid := Typed("150"));
      Balance(paid150) == -50.0 && IsChange(paid150)
    ensures var paid100 := d.(amountPaid := Typed("100"));
      Balance(paid100) == 0.0 && !IsDebt(paid100) && !IsChange(paid100)
  {
    ExampleTexts();
    TypedWholeAmount(60, "60");
    TypedWholeAmount(150, "150");
    TypedWholeAmount(100, "100");
  }

  lemma ExampleTexts()
    ensures NatToDigits(60) == "60" && NatToDigits(150) == "150" && NatToDigits(100) == "100"
  {
    assert NatToDigits(15) == "15";
    assert NatToDigits(10) == "10";
  }

  lemma TypedDecimalAmount(w: nat, f: string, text: string)
    requires AllDigits(f) && |f| > 0
    requires NatToDigits(w) + ("." + (f + "")) == text
    ensures PaidValue(Typed(text)) == w as real + FractionValue(f)
  {
    ParseFloatOfDecimalText(w, f, "");
  }

  lemma TypedWholeAmount(n: nat, text: string)
    requires NatToDigits(n) == text
    ensures PaidValue(Typed(text)) == n as real
  {
    ParseFloatOfIntText(n);
  }

  /** A typed amount with a fractional part counts at its decimal value: 99.5
      against a total of 100 leaves half a unit owing. */
  lemma FractionalSettlement(d: Desk)
    requires Total(d.cart) == 100.0
    ensures PaidValue(Typed("99.5")) == 99.5
    ensures Balance(d.(amountPaid := Typed("99.5"))) == 0.5
    ensures IsDebt(d.(amountPaid := Typed("99.5")))
  {
    assert FractionValue("5") == 0.5 by {
      assert "5"[1..] == "";
    }
    assert NatToDigits(99) + ("." + ("5" + "")) == "99.5" by {
      assert NatToDigits(99) == "99";
    }
    TypedDecimalAmount(99, "5", "99.5");
  }

  /** The effect on `[total]`: whenever an event changed the total, the amount
      paid is overwritten with the new total, discarding any typed amount. */
  function Resync(before: seq<CartItem>, d: Desk): (r: Desk)
    ensures r.(amountPaid := d.amountPaid) == d
    ensures Total(d.cart) == Total(before) ==> r.amountPaid == d.amountPaid
    ensures Total(d.cart) != Total(before) ==> PaidValue(r.amountPaid) == Total(r.cart)
  {
    if Total(d.cart) != Total(before) then d.(amountPaid := Synced(Total(d.cart))) else d
  }

  /** After an event that changed the total, the balance is zero, so the desk
      shows neither debt nor change. */
  lemma ResyncSettles(before: seq<CartItem>, d: Desk)
    requires Total(d.cart) != Total(before)
    ensures Balance(Resync(before, d)) == 0.0
    ensures !IsDebt(Resync(before, d)) && !IsChange(Resync(before, d))
  {
  }

  /** Position of the first element with the given id. */
  function FirstIndexOf<T>(xs: seq<T>, id: int, idOf: T -> int): (r: Option<nat>)
    ensures r.None? <==> forall i :: 0 <= i < |xs| ==> idOf(xs[i]) != id
    ensures r.Some? ==> r.value < |xs| && idOf(xs[r.value]) == id
    ensures r.Some? ==> forall j :: 0 <= j < r.value ==> idOf(xs[j]) != id
  {
    if |xs| == 0 then None
    else if idOf(xs[0]) == id then Some(0)
    else
      match FirstIndexOf(xs[1..], id, idOf)
      case None => None
      case Some(k) => Some(k + 1)
  }

  /** The first element with the given id, as `Array.prototype.find` returns it. */
  function FindById<T>(xs: seq<T>, id: int, idOf: T -> int): (r: Option<T>)
    ensures r.None? <==> forall x :: x in xs ==> idOf(x) != id
    ensures r.Some? ==> r.value in xs && idOf(r.value) == id
    ensures r.Some? ==> exists k :: (0 <= k < |xs| && xs[k] == r.value && idOf(xs[k]) == id
      && forall j :: 0 <= j < k ==> idOf(xs[j]) != id)
  {
    match FirstIndexOf(xs, id, idOf)
    case None => None
    case Some(k) =>
      assert xs[k] == xs[k];
      Some(xs[k])
  }

  function ProductId(p: Product): int { p.id }

  function MaterialId(m: Material): int { m.id }

  /** Products the retail select offers: those with stock left, in catalogue order. */
  function SelectableProducts(products: seq<Product>): (r: seq<Product>)
    ensures forall p :: p in r <==> p in products && p.stockQuantity > 0.0
    ensures |r| <= |products|
  {
    if |products| == 0 then []
    else
      var rest := SelectableProducts(products[1..]);
      assert forall p :: p in products <==> p == products[0] || p in products[1..];
      if products[0].stockQuantity > 0.0 then [products[0]] + rest else rest
  }

  /** A retail sale line: the entered quantity at the product's retail price. */
  function RetailLine(p: Product, qty: real, lineId: string): (line: CartItem)
    ensures line.id == lineId && line.kind == ProductItem && line.targetId == p.id
    ensures line.quantity == qty && line.price == p.retailPrice
    ensures Contribution(line) == qty * p.retailPrice
  {
    CartItem(lineId, p.id, p.name, ProductItem, qty, p.retailPrice)
  }

  /** A trade line. Both directions carry the negated unit cost as price; a BUY
      keeps the quantity positive (stock in, cash out) and a SELL negates it
      (stock out, cash in), so `quantity * price` is the cash effect either way. */
  function TradeLine(m: Material, qty: real, action: TradeAction, lineId: string): (line: CartItem)
    ensures line.id == lineId && line.kind == MaterialItem && line.targetId == m.id
    ensures line.price == -m.costPerUnit
    ensures action == Buy ==> line.quantity == qty && Contribution(line) == -(qty * m.costPerUnit)
    ensures action == Sell ==> line.quantity == -qty && Contribution(line) == qty * m.costPerUnit
  {
    var prefix := if action == Buy then "BUY (In) " else "SELL (Out) ";
    CartItem(lineId, m.id, prefix + m.name, MaterialItem,
             if action == Buy then qty else -qty, -m.costPerUnit)
  }

  /** For a positive quantity and a positive cost, buying is a cash outflow and
      selling a cash inflow of the same size. */
  lemma TradeSignRule(m: Material, qty: real, lineId: string)
    requires qty > 0.0 && m.costPerUnit > 0.0
    ensures Contribution(TradeLine(m, qty, Buy, lineId)) < 0.0
    ensures Contribution(TradeLine(m, qty, Sell, lineId)) > 0.0
    ensures Contribution(TradeLine(m, qty, Buy, lineId)) == -Contribution(TradeLine(m, qty, Sell, lineId))
  {
  }

  /** The selection names an entry of the catalogue the current mode uses. */
  predicate Resolves(d: Desk, products: seq<Product>, materials: seq<Material>) {
    d.selected.Some? &&
    (d.mode == Retail ==> exists p :: p in products && p.id == d.selected.value) &&
    (d.mode == Trade ==> exists m :: m in materials && m.id == d.selected.value)
  }

  /** Appends a line, clears the selection and resets the quantity to 1. */
  function Appended(d: Desk, line: CartItem): (r: Desk)
    ensures r.cart == d.cart + [line]
    ensures r.selected.None? && r.qty == 1.0
    ensures r.mode == d.mode && r.customer == d.customer && r.action == d.action
  {
    Resync(d.cart, d.(cart := d.cart + [line], selected := None, qty := 1.0))
  }

  /** The "Add" button. The quantity is taken as entered: nothing rejects zero or
      negative quantities. `lineId` is the fresh line identity. */
  function AddToCart(d: Desk, products: seq<Product>, materials: seq<Material>, lineId: string): (r: Desk)
    ensures !Resolves(d, products, materials) ==> r == d
    ensures Resolves(d, products, materials) ==>
      |r.cart| == |d.cart| + 1 && r.cart[..|d.cart|] == d.cart && r.cart[|d.cart|].id == lineId
      && r.cart[|d.cart|].targetId == d.selected.value
      && r.selected.None? && r.qty == 1.0
      && r.mode == d.mode && r.customer == d.customer && r.action == d.action
    ensures Resolves(d, products, materials) && d.mode == Retail ==>
      var line := r.cart[|d.cart|];
      line.kind == ProductItem && line.quantity == d.qty
      && line == RetailLine(FindById(products, d.selected.value, ProductId).value, d.qty, lineId)
      && exists k :: (0 <= k < |products| && products[k].id == d.selected.value
        && (forall j :: 0 <= j < k ==> products[j].id != d.selected.value)
        && line.price == products[k].retailPrice)
    ensures Resolves(d, products, materials) && d.mode == Trade ==>
      var line := r.cart[|d.cart|];
      line.kind == MaterialItem
      && line.quantity == (if d.action == Buy then d.qty else -d.qty)
      && line == TradeLine(FindById(materials, d.selected.value, MaterialId).value, d.qty, d.action, lineId)
      && exists k :: (0 <= k < |materials| && materials[k].id == d.selected.value
        && (forall j :: 0 <= j < k ==> materials[j].id != d.selected.value)
        && line.price == -materials[k].costPerUnit)
  {
    if d.selected.None? then d
    else
      match d.mode
      case Retail =>
        (match FindById(products, d.selected.value, ProductId)
         case None => d
         case Some(p) => Appended(d, RetailLine(p, d.qty, lineId)))
      case Trade =>
        (match FindById(materials, d.selected.value, MaterialId)
         case None => d
         case Some(m) => Appended(d, TradeLine(m, d.qty, d.action, lineId)))
  }

  /** A successful add moves the total by exactly the new line's contribution, and
      when that moves the total the amount paid follows it. */
  lemma AddToCartTotal(d: Desk, products: seq<Product>, materials: seq<Material>, lineId: string)
    requires Resolves(d, products, materials)
    ensures var r := AddToCart(d, products, materials, lineId);
      Total(r.cart) == Total(d.cart) + Contribution(r.cart[|d.cart|])
    ensures var r := AddToCart(d, products, materials, lineId);
      Total(r.cart) != Total(d.cart) ==> PaidValue(r.amountPaid) == Total(r.cart) && Balance(r) == 0.0
  {
    var r := AddToCart(d, products, materials, lineId);
    assert r.cart == d.cart + [r.cart[|d.cart|]];
    TotalAppend(d.cart, [r.cart[|d.cart|]]);
  }

  /** A typed amount survives only until the next change of total. */
  lemma TypedAmountOverwritten(d: Desk, text: string, products: seq<Product>, materials: seq<Material>, lineId: string)
    requires Resolves(d, products, materials)
    ensures var r := AddToCart(EnterAmountPaid(d, text), products, materials, lineId);
      Total(r.cart) != Total(d.cart) ==> r.amountPaid == Synced(Total(r.cart))
    ensures var r := AddToCart(EnterAmountPaid(d, text), products, materials, lineId);
      Total(r.cart) == Total(d.cart) ==> r.amountPaid == Typed(text)
  {
    var e := EnterAmountPaid(d, text);
    assert Resolves(e, products, materials);
  }

  /** The cart without the lines carrying `id`, the rest in their order. */
  function Without(cart: seq<CartItem>, id: string): (r: seq<CartItem>)
    ensures forall x :: x in r <==> x in cart && x.id != id
    ensures |r| <= |cart|
    ensures (forall i :: 0 <= i < |cart| ==> cart[i].id != id) ==> r == cart
  {
    if |cart| == 0 then []
    else
      var rest := Without(cart[1..], id);
      assert forall x :: x in cart <==> x == cart[0] || x in cart[1..];
      if cart[0].id == id then rest
      else
        assert cart == [cart[0]] + cart[1..];
        [cart[0]] + rest
  }

  /** Removal distributes over concatenation, so surviving lines keep their order. */
  lemma {:induction false} WithoutAppend(a: seq<CartItem>, b: seq<CartItem>, id: string)
    ensures Without(a + b, id) == Without(a, id) + Without(b, id)
  {
    if |a| == 0 {
      assert a + b == b;
    } else {
      assert (a + b)[1..] == a[1..] + b;
      WithoutAppend(a[1..], b, id);
    }
  }

  /** The trash button on a line. */
  function RemoveFromCart(d: Desk, id: string): (r: Desk)
    ensures forall x :: x in r.cart <==> x in d.cart && x.id != id
    ensures (forall i :: 0 <= i < |d.cart| ==> d.cart[i].id != id) ==> r == d
    ensures r.mode == d.mode && r.customer == d.customer && r.selected == d.selected
      && r.qty == d.qty && r.action == d.action
    ensures Total(r.cart) != Total(d.cart) ==> PaidValue(r.amountPaid) == Total(r.cart)
  {
    Resync(d.cart, d.(cart := Without(d.cart, id)))
  }

  /** Either mode button: sets the mode and empties the cart, even when the mode
      does not change. The selection and quantity are kept. */
  function SwitchMode(d: Desk, mode: Mode): (r: Desk)
    ensures r.mode == mode && r.cart == []
    ensures r.customer == d.customer && r.selected == d.selected && r.qty == d.qty && r.action == d.action
    ensures Total(d.cart) != 0.0 ==> PaidValue(r.amountPaid) == 0.0
    ensures Total(d.cart) == 0.0 ==> r.amountPaid == d.amountPaid
  {
    Resync(d.cart, d.(mode := mode, cart := []))
  }

  /** Typing into the amount-paid box. */
  function EnterAmountPaid(d: Desk, text: string): (r: Desk)
    ensures r.cart == d.cart && r.amountPaid == Typed(text)
    ensures PaidValue(r.amountPaid) == ParseFloat(text).GetOr(0.0)
    ensures Balance(r) == Total(d.cart) - ParseFloat(text).GetOr(0.0)
  {
    d.(amountPaid := Typed(text))
  }

  /** One line of the transaction payload; exactly one of the two ids is set. */
  datatype TxnLine = TxnLine(productId: Option<int>, materialId: Option<int>, quantity: real, unitPrice: real)

  datatype TxnPayload = TxnPayload(txnType: Mode, customerName: string, amountPaid: real, items: seq<TxnLine>)

  /** What checkout sent, if anything, and the desk once the submit settled. */
  datatype CheckoutStep = CheckoutStep(request: Option<TxnPayload>, desk: Desk)

  function PayloadLine(item: CartItem): (l: TxnLine)
    ensures l.productId.Some? != l.materialId.Some?
    ensures item.kind == ProductItem ==> l.productId == Some(item.targetId)
    ensures item.kind == MaterialItem ==> l.materialId == Some(item.targetId)
    ensures l.quantity * l.unitPrice == Contribution(item)
  {
    TxnLine(
      if item.kind == ProductItem then Some(item.targetId) else None,
      if item.kind == MaterialItem then Some(item.targetId) else None,
      item.quantity,
      item.price)
  }

  function PayloadLines(cart: seq<CartItem>): (ls: seq<TxnLine>)
    ensures |ls| == |cart|
    ensures forall i :: 0 <= i < |cart| ==> ls[i] == PayloadLine(cart[i])
  {
    seq(|cart|, i requires 0 <= i < |cart| => PayloadLine(cart[i]))
  }

  function PayloadTotal(items: seq<TxnLine>): real {
    if |items| == 0 then 0.0 else items[0].quantity * items[0].unitPrice + PayloadTotal(items[1..])
  }

  /** The service is sent lines whose amounts add up to the desk's total. */
  lemma {:induction false} PayloadTotalIsTotal(cart: seq<CartItem>)
    ensures PayloadTotal(PayloadLines(cart)) == Total(cart)
  {
    if |cart| > 0 {
      assert PayloadLines(cart)[1..] == PayloadLines(cart[1..]);
      PayloadTotalIsTotal(cart[1..]);
    }
  }

  /** "Confirm Transaction" on desk `d`. Nothing is sent for an empty cart.
      Otherwise the payload is built from `d` and sent; `later` is the desk as it
      stands when the submit settles, after whatever was done while it was in
      flight. Only a successful submit clears the cart, the customer and the
      amount paid, and it clears them on `later`; a failed submit leaves `later`
      as it was, for a retry. */
  function Checkout(d: Desk, later: Desk, outcome: SubmitOutcome): (r: CheckoutStep)
    ensures r.request.None? <==> |d.cart| == 0
    ensures r.request.None? ==> r.desk == d
    ensures r.request.Some? ==>
      var p := r.request.value;
      p.txnType == d.mode && p.customerName == CustomerOrWalkIn(d.customer)
      && p.amountPaid == PaidValue(d.amountPaid) && |p.items| == |d.cart|
      && forall i :: 0 <= i < |d.cart| ==>
        p.items[i].quantity == d.cart[i].quantity && p.items[i].unitPrice == d.cart[i].price
        && p.items[i].productId.Some? != p.items[i].materialId.Some?
        && (d.cart[i].kind == ProductItem ==> p.items[i].productId == Some(d.cart[i].targetId))
        && (d.cart[i].kind == MaterialItem ==> p.items[i].materialId == Some(d.cart[i].targetId))
    ensures r.request.Some? && outcome == Succeeded ==>
      r.desk.cart == [] && r.desk.customer == "" && PaidValue(r.desk.amountPaid) == 0.0
      && r.desk.mode == later.mode && r.desk.selected == later.selected
      && r.desk.qty == later.qty && r.desk.action == later.action
    ensures r.request.Some? && outcome == Failed ==> r.desk == later
  {
    if |d.cart| == 0 then CheckoutStep(None, d)
    else
      var payload := TxnPayload(d.mode, CustomerOrWalkIn(d.customer), PaidValue(d.amountPaid), PayloadLines(d.cart));
      match outcome
      case Succeeded =>
        CheckoutStep(Some(payload), Resync(later.cart, later.(cart := [], customer := "", amountPaid := Typed(""))))
      case Failed => CheckoutStep(Some(payload), later)
  }

  /** Lines added while a checkout is in flight are not in the payload, and a
      successful checkout then discards them: they are never sent. */
  lemma {:induction false} InFlightLinesDiscarded(d: Desk, extra: seq<CartItem>, outcome: SubmitOutcome)
    requires |d.cart| > 0
    ensures var later := d.(cart := d.cart + extra);
      var r := Checkout(d, later, outcome);
      |r.request.value.items| == |d.cart|
      && PayloadTotal(r.request.value.items) == Total(d.cart)
      && (outcome == Succeeded ==> r.desk.cart == [])
      && (outcome == Failed ==> r.desk.cart == d.cart + extra)
  {
    PayloadTotalIsTotal(d.cart);
  }

  /** The confirm button is enabled for a non-empty cart while no submit is in
      flight, and pressing it then always sends a payload. */
  predicate ConfirmEnabled(d: Desk, pending: bool) {
    |d.cart| > 0 && !pending
  }

  lemma ConfirmSends(d: Desk, later: Desk, pending: bool, outcome: SubmitOutcome)
    requires ConfirmEnabled(d, pending)
    ensures Checkout(d, later, outcome).request.Some?
    ensures PayloadTotal(Checkout(d, later, outcome).request.value.items) == Total(d.cart)
  {
    PayloadTotalIsTotal(d.cart);
  }
}
