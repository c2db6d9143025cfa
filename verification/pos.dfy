/**
 * The point-of-sale screen: a cart built line by line from the inventory
 * snapshot, and the sale that commits it together with one stock decrement
 * per line in a single atomic batch.
 */
module PointOfSale {
  import opened Results
  import opened Records
  import opened Store

  /** The alerts the screen raises while the cart is edited. */
  datatype Notice = OutOfStock | OnlyInStock(available: int)

  /** A cart handler's effect: the next cart and the alert it raised, if any. */
  datatype CartStep = CartStep(cart: Cart, notice: Option<Notice>)

  /** Reading the stock of a drug that vanished from the inventory throws. */
  datatype CartError = DrugMissing(id: DocId)

  datatype SaleError = NoSession | EmptyCart | CommitFailed

  /** The committed sale as handed to the receipt, with its store-assigned id. */
  datatype Receipt = Receipt(id: DocId, sale: Sale)

  /** What a sale attempt leaves behind: the cart, the store and the result. */
  datatype SaleStep = SaleStep(cart: Cart, db: Db, outcome: Result<Receipt, SaleError>)

  // ---------------------------------------------------------------------
  // Cart editing
  // ---------------------------------------------------------------------

  /** The position of the first line for `id`, as `Array.prototype.find` picks it. */
  function FindLine(cart: Cart, id: DocId): (r: Option<nat>)
    ensures r.None? <==> !InCart(cart, id)
    ensures r.Some? ==> r.value < |cart| && cart[r.value].id == id
    ensures r.Some? ==> forall j :: 0 <= j < r.value ==> cart[j].id != id
    decreases |cart|
  {
    if |cart| == 0 then None
    else if cart[0].id == id then Some(0)
    else
      match FindLine(cart[1..], id)
      case None => None
      case Some(k) => Some(k + 1)
  }

  /** Every line for `id` with its quantity replaced by `q`; all other lines as they were. */
  function SetQuantity(cart: Cart, id: DocId, q: int): (r: Cart)
    ensures |r| == |cart|
  {
    seq(|cart|, i requires 0 <= i < |cart| =>
      if cart[i].id == id then cart[i].(quantity := q) else cart[i])
  }

  /** Every line for `id` with its quantity raised by one; all other lines as they were. */
  function Increment(cart: Cart, id: DocId): (r: Cart)
    ensures |r| == |cart|
  {
    seq(|cart|, i requires 0 <= i < |cart| =>
      if cart[i].id == id then cart[i].(quantity := cart[i].quantity + 1) else cart[i])
  }

  /** The cart without any line for `id`, the other lines kept in order. */
  function RemoveLines(cart: Cart, id: DocId): (r: Cart)
    ensures forall l :: l in r <==> l in cart && l.id != id
    ensures |r| <= |cart|
    decreases |cart|
  {
    if |cart| == 0 then []
    else if cart[0].id == id then RemoveLines(cart[1..], id)
    else [cart[0]] + RemoveLines(cart[1..], id)
  }

  /**
   * Removal works piecewise, so it keeps the remaining lines in their cart
   * order and drops none of them.
   */
  lemma {:induction false} RemoveLinesAppend(a: Cart, b: Cart, id: DocId)
    ensures RemoveLines(a + b, id) == RemoveLines(a, id) + RemoveLines(b, id)
    decreases |a|
  {
    if |a| == 0 {
      assert a + b == b;
    } else {
      assert (a + b)[0] == a[0];
      assert (a + b)[1..] == a[1..] + b;
      RemoveLinesAppend(a[1..], b, id);
    }
  }

  /** A line for `id` is either the head line or a line of the tail. */
  lemma InCartSplit(cart: Cart, id: DocId)
    requires |cart| > 0
    ensures InCart(cart, id) <==> cart[0].id == id || InCart(cart[1..], id)
  {
    if InCart(cart, id) && cart[0].id != id {
      var i :| 0 <= i < |cart| && cart[i].id == id;
      assert cart[1..][i - 1] == cart[i];
    }
    if InCart(cart[1..], id) {
      var i :| 0 <= i < |cart| - 1 && cart[1..][i].id == id;
      assert cart[i + 1] == cart[1..][i];
    }
  }

  /** Removing a drug that has no line leaves the cart as it was. */
  lemma {:induction false} RemoveAbsentIsIdentity(cart: Cart, id: DocId)
    requires !InCart(cart, id)
    ensures RemoveLines(cart, id) == cart
    decreases |cart|
  {
    if |cart| > 0 {
      InCartSplit(cart, id);
      RemoveAbsentIsIdentity(cart[1..], id);
      assert cart == [cart[0]] + cart[1..];
    }
  }

  /** Removing lines keeps the remaining ids unique. */
  lemma {:induction false} RemoveKeepsIdsUnique(cart: Cart, id: DocId)
    requires UniqueIds(cart)
    ensures UniqueIds(RemoveLines(cart, id))
    decreases |cart|
  {
    if |cart| > 0 {
      var rest := cart[1..];
      assert UniqueIds(rest);
      RemoveKeepsIdsUnique(rest, id);
      if cart[0].id != id {
        var r := RemoveLines(rest, id);
        forall l | l in r ensures l.id != cart[0].id {
          var i :| 0 <= i < |rest| && rest[i] == l;
          assert cart[i + 1] == l;
        }
        assert RemoveLines(cart, id) == [cart[0]] + r;
      }
    }
  }

  /** With unique ids, removing a drug that has a line drops exactly that one line. */
  lemma {:induction false} RemoveDropsOneLine(cart: Cart, id: DocId)
    requires UniqueIds(cart)
    requires InCart(cart, id)
    ensures |RemoveLines(cart, id)| == |cart| - 1
    decreases |cart|
  {
    var rest := cart[1..];
    InCartSplit(cart, id);
    assert UniqueIds(rest);
    if cart[0].id == id {
      assert !InCart(rest, id);
      RemoveAbsentIsIdentity(rest, id);
    } else {
      RemoveDropsOneLine(rest, id);
    }
  }

  /**
   * `addToCart(drug)`: refuses a drug with no stock; raises an existing line
   * by one while that stays within the drug's stock as shown now; otherwise
   * appends a line with quantity 1 that copies the drug record.
   */
  function AddToCart(cart: Cart, id: DocId, drug: Drug): (r: CartStep)
    ensures drug.quantityInStock <= 0 ==> r == CartStep(cart, Some(OutOfStock))
    ensures drug.quantityInStock > 0 && !InCart(cart, id) ==>
      r == CartStep(cart + [CartLine(id, drug, 1)], None)
    ensures drug.quantityInStock > 0 && InCart(cart, id) ==>
      var first := cart[FindLine(cart, id).value];
      if first.quantity + 1 > drug.quantityInStock then
        r == CartStep(cart, Some(OnlyInStock(drug.quantityInStock)))
      else
        && r.notice == None
        && |r.cart| == |cart|
        && forall i :: 0 <= i < |cart| ==>
             && r.cart[i].id == cart[i].id
             && r.cart[i].item == cart[i].item
             && r.cart[i].quantity == cart[i].quantity + (if cart[i].id == id then 1 else 0)
    ensures UniqueIds(cart) ==> UniqueIds(r.cart)
  {
    if drug.quantityInStock <= 0 then CartStep(cart, Some(OutOfStock))
    else
      match FindLine(cart, id)
      case Some(k) =>
        if cart[k].quantity + 1 > drug.quantityInStock then
          CartStep(cart, Some(OnlyInStock(drug.quantityInStock)))
        else CartStep(Increment(cart, id), None)
      case None => CartStep(cart + [CartLine(id, drug, 1)], None)
  }

  /**
   * `updateCartQuantity(drugId, newQuantity)`: a quantity of zero or less
   * removes the drug's lines; a quantity above the drug's current stock is
   * clamped to that stock with an alert; any other quantity is taken as is.
   */
  function UpdateCartQuantity(cart: Cart, id: DocId, newQuantity: int, inventory: Inventory)
    : (r: Result<CartStep, CartError>)
    ensures newQuantity <= 0 ==> r == Success(CartStep(RemoveLines(cart, id), None))
    ensures newQuantity > 0 && id !in inventory ==> r == Failure(DrugMissing(id))
    ensures newQuantity > 0 && id in inventory ==>
      var stock := inventory[id].quantityInStock;
      && r.Success?
      && |r.value.cart| == |cart|
      && (r.value.notice == if newQuantity > stock then Some(OnlyInStock(stock)) else None)
      && forall i :: 0 <= i < |cart| ==>
           && r.value.cart[i].id == cart[i].id
           && r.value.cart[i].item == cart[i].item
           && (cart[i].id != id ==> r.value.cart[i] == cart[i])
           && (cart[i].id == id ==> r.value.cart[i].quantity <= stock)
           && (cart[i].id == id && newQuantity <= stock ==> r.value.cart[i].quantity == newQuantity)
           && (cart[i].id == id && newQuantity > stock ==> r.value.cart[i].quantity == stock)
  {
    if newQuantity <= 0 then Success(CartStep(RemoveLines(cart, id), None))
    else if id !in inventory then Failure(DrugMissing(id))
    else if newQuantity > inventory[id].quantityInStock then
      Success(CartStep(SetQuantity(cart, id, inventory[id].quantityInStock),
                       Some(OnlyInStock(inventory[id].quantityInStock))))
    else Success(CartStep(SetQuantity(cart, id, newQuantity), None))
  }

  /** A successful quantity change keeps the cart's ids, so it keeps them unique. */
  lemma UpdateKeepsIdsUnique(cart: Cart, id: DocId, newQuantity: int, inventory: Inventory)
    requires UniqueIds(cart)
    requires UpdateCartQuantity(cart, id, newQuantity, inventory).Success?
    ensures UniqueIds(UpdateCartQuantity(cart, id, newQuantity, inventory).value.cart)
  {
    if newQuantity <= 0 {
      RemoveKeepsIdsUnique(cart, id);
    }
  }

  // ---------------------------------------------------------------------
  // Totals and the sale record
  // ---------------------------------------------------------------------

  /** The value of a cart: the sum of unit price times quantity over its lines. */
  function CartTotal(cart: Cart): int
    decreases |cart|
  {
    if |cart| == 0 then 0
    else CartTotal(cart[..|cart| - 1]) + cart[|cart| - 1].item.unitPrice * cart[|cart| - 1].quantity
  }

  /** The cart total: the sum of unit price times quantity over the lines, added up in cart order. */
  method TotalAmount(cart: Cart) returns (total: int)
    ensures total == CartTotal(cart)
  {
    total := 0;
    var i := 0;
    while i < |cart|
      invariant 0 <= i <= |cart|
      invariant total == CartTotal(cart[..i])
    {
      assert cart[..i + 1][..i] == cart[..i];
      total := total + cart[i].item.unitPrice * cart[i].quantity;
      i := i + 1;
    }
    assert cart[..i] == cart;
  }

  /** The denormalised snapshot of one cart line stored in the sale. */
  function SaleItemOf(line: CartLine): SaleItem {
    SaleItem(line.id, line.item.name, line.quantity, line.item.unitPrice,
             line.quantity * line.item.unitPrice)
  }

  function SaleItems(cart: Cart): (items: seq<SaleItem>)
    ensures |items| == |cart|
  {
    seq(|cart|, i requires 0 <= i < |cart| => SaleItemOf(cart[i]))
  }

  /** The sum of the line totals recorded in a sale. */
  function SumLineTotals(items: seq<SaleItem>): int
    decreases |items|
  {
    if |items| == 0 then 0
    else SumLineTotals(items[..|items| - 1]) + items[|items| - 1].totalPrice
  }

  function SaleRecord(cart: Cart, now: int): Sale {
    Sale(now, SaleItems(cart), CartTotal(cart))
  }

  /** The sale's total equals the sum of its recorded line totals. */
  lemma {:induction false} TotalIsSumOfLineTotals(cart: Cart)
    ensures CartTotal(cart) == SumLineTotals(SaleItems(cart))
    decreases |cart|
  {
    if |cart| > 0 {
      var p := cart[..|cart| - 1];
      assert SaleItems(cart)[..|cart| - 1] == SaleItems(p);
      TotalIsSumOfLineTotals(p);
    }
  }

  /**
   * The recorded sale lists the cart's lines in order, each with the drug's
   * id, name and price, the quantity and their product, and its total is the
   * sum of those products.
   */
  lemma SaleRecordFaithful(cart: Cart, now: int)
    ensures var s := SaleRecord(cart, now);
      && s.timestamp == now
      && |s.items| == |cart|
      && (forall i :: 0 <= i < |cart| ==>
            && s.items[i].drugId == cart[i].id
            && s.items[i].name == cart[i].item.name
            && s.items[i].quantity == cart[i].quantity
            && s.items[i].unitPrice == cart[i].item.unitPrice
            && s.items[i].totalPrice == s.items[i].quantity * s.items[i].unitPrice)
      && s.totalAmount == SumLineTotals(s.items)
  {
    TotalIsSumOfLineTotals(cart);
  }

  // ---------------------------------------------------------------------
  // Committing the sale
  // ---------------------------------------------------------------------

  /**
   * One (drug id, new stock) pair per cart line, computed from the stock
   * copied into the line when it was first added, not from a fresh read.
   */
  function Decrements(cart: Cart): (us: seq<(DocId, int)>)
    ensures |us| == |cart|
  {
    seq(|cart|, i requires 0 <= i < |cart| =>
      (cart[i].id, cart[i].item.quantityInStock - cart[i].quantity))
  }

  /** The sale record first, then exactly one stock update per cart line, in cart order. */
  function SaleBatch(saleId: DocId, sale: Sale, cart: Cart): (ws: seq<Write>)
    ensures |ws| == |cart| + 1 && ws[0] == SetSale(saleId, sale)
    ensures forall i :: 0 <= i < |cart| ==>
      ws[i + 1] == UpdateStock(cart[i].id, cart[i].item.quantityInStock - cart[i].quantity)
  {
    [SetSale(saleId, sale)] + StockUpdates(Decrements(cart))
  }

  /**
   * `processSale()`: without a session or with an empty cart nothing is
   * written; otherwise the sale record and the decrements are committed as
   * one batch, and only a successful commit clears the cart.
   */
  function ProcessSale(userId: string, cart: Cart, db: Db, saleId: DocId, now: int, accepted: bool)
    : (r: SaleStep)
    ensures |userId| == 0 ==> r == SaleStep(cart, db, Failure(NoSession))
    ensures |userId| > 0 && |cart| == 0 ==> r == SaleStep(cart, db, Failure(EmptyCart))
    ensures r.outcome.Failure? ==> r.cart == cart && r.db == db
    ensures r.outcome.Success? ==> r.cart == [] && r.outcome.value == Receipt(saleId, SaleRecord(cart, now))
  {
    if |userId| == 0 then SaleStep(cart, db, Failure(NoSession))
    else if |cart| == 0 then SaleStep(cart, db, Failure(EmptyCart))
    else
      var sale := SaleRecord(cart, now);
      match Commit(db, SaleBatch(saleId, sale, cart), accepted)
      case None => SaleStep(cart, db, Failure(CommitFailed))
      case Some(db') => SaleStep([], db', Success(Receipt(saleId, sale)))
  }

  /** The sale batch writes the sale under its id, no fill, and a stock figure for exactly the cart's drugs. */
  lemma SaleBatchDocuments(saleId: DocId, sale: Sale, cart: Cart)
    ensures forall k :: k in StockWritten(SaleBatch(saleId, sale, cart)) <==> InCart(cart, k)
    ensures SalesWritten(SaleBatch(saleId, sale, cart)) == map[saleId := sale]
    ensures FillsWritten(SaleBatch(saleId, sale, cart)) == map[]
  {
    var us := Decrements(cart);
    StockUpdatesKeys(us);
    StockUpdatesOnlyStock(us);
    WrittenAppend([SetSale(saleId, sale)], StockUpdates(us));
    assert StockWritten([SetSale(saleId, sale)]) == map[];
    assert FillsWritten([SetSale(saleId, sale)]) == map[];
    assert SalesWritten([SetSale(saleId, sale)]) == map[saleId := sale];
    forall k ensures Targets(us, k) <==> InCart(cart, k) {
      if InCart(cart, k) {
        var i :| 0 <= i < |cart| && cart[i].id == k;
        assert us[i].0 == k;
      }
    }
  }

  /** With unique ids, each cart drug is written its cached stock minus the line quantity. */
  lemma SaleBatchStock(saleId: DocId, sale: Sale, cart: Cart, i: int)
    requires UniqueIds(cart) && 0 <= i < |cart|
    ensures cart[i].id in StockWritten(SaleBatch(saleId, sale, cart))
    ensures StockWritten(SaleBatch(saleId, sale, cart))[cart[i].id]
            == cart[i].item.quantityInStock - cart[i].quantity
  {
    var us := Decrements(cart);
    assert LastFor(us, i);
    StockUpdatesLastWins(us, i);
    WrittenAppend([SetSale(saleId, sale)], StockUpdates(us));
    assert StockWritten([SetSale(saleId, sale)]) == map[];
  }

  /** The sale batch can be applied exactly when every cart line's drug still exists. */
  lemma SaleBatchApplicable(db: Db, saleId: DocId, sale: Sale, cart: Cart)
    ensures AllApplicable(db, SaleBatch(saleId, sale, cart))
            <==> forall i :: 0 <= i < |cart| ==> cart[i].id in db.inventory
  {
    var us := Decrements(cart);
    AllApplicableAppend(db, [SetSale(saleId, sale)], StockUpdates(us));
    StockUpdatesApplicable(db, us);
    assert forall i :: 0 <= i < |cart| ==> us[i].0 == cart[i].id;
  }

  /**
   * A sale commits exactly when there is a session, the cart has lines, the
   * store accepts and every line's drug still exists.
   */
  lemma SaleSucceedsWhen(userId: string, cart: Cart, db: Db, saleId: DocId, now: int, accepted: bool)
    ensures ProcessSale(userId, cart, db, saleId, now, accepted).outcome.Success? <==>
      |userId| > 0 && |cart| > 0 && accepted && forall i :: 0 <= i < |cart| ==> cart[i].id in db.inventory
  {
    SaleBatchApplicable(db, saleId, SaleRecord(cart, now), cart);
  }

  /** A committed sale leaves exactly the state its batch describes. */
  lemma SaleResultIsBatch(userId: string, cart: Cart, db: Db, saleId: DocId, now: int, accepted: bool)
    requires ProcessSale(userId, cart, db, saleId, now, accepted).outcome.Success?
    ensures ProcessSale(userId, cart, db, saleId, now, accepted).db
            == Expected(db, SaleBatch(saleId, SaleRecord(cart, now), cart))
  {
  }

  /**
   * A committed sale stores the new sale under its id, sets every drug in
   * the cart to its cached stock minus the line quantity, and changes no
   * other document.
   */
  lemma SaleCommitEffect(userId: string, cart: Cart, db: Db, saleId: DocId, now: int, accepted: bool)
    requires UniqueIds(cart)
    requires ProcessSale(userId, cart, db, saleId, now, accepted).outcome.Success?
    ensures var db' := ProcessSale(userId, cart, db, saleId, now, accepted).db;
      && db'.sales == db.sales[saleId := SaleRecord(cart, now)]
      && db'.prescriptions == db.prescriptions
      && db'.inventory.Keys == db.inventory.Keys
      && (forall k :: k in db.inventory && !InCart(cart, k) ==> db'.inventory[k] == db.inventory[k])
      && (forall i :: 0 <= i < |cart| ==>
            && cart[i].id in db.inventory
            && db'.inventory[cart[i].id]
                 == db.inventory[cart[i].id].(quantityInStock := cart[i].item.quantityInStock - cart[i].quantity))
  {
    var sale := SaleRecord(cart, now);
    var ws := SaleBatch(saleId, sale, cart);
    SaleSucceedsWhen(userId, cart, db, saleId, now, accepted);
    SaleResultIsBatch(userId, cart, db, saleId, now, accepted);
    SaleBatchDocuments(saleId, sale, cart);
    forall i | 0 <= i < |cart|
      ensures cart[i].id in StockWritten(ws)
      ensures StockWritten(ws)[cart[i].id] == cart[i].item.quantityInStock - cart[i].quantity
    {
      SaleBatchStock(saleId, sale, cart, i);
    }
    assert PatchFills(db.prescriptions, map[]) == db.prescriptions;
  }

  // ---------------------------------------------------------------------
  // Worked cases
  // ---------------------------------------------------------------------

  /**
   * Adding a drug that already has a line raises that line by one while the
   * stock shown now allows it; the line keeps the record it copied first.
   */
  lemma AddRaisesSingleLine(cached: Drug, id: DocId, q: int, shown: Drug)
    requires 0 < q + 1 <= shown.quantityInStock
    ensures AddToCart([CartLine(id, cached, q)], id, shown) == CartStep([CartLine(id, cached, q + 1)], None)
  {
    var cart := [CartLine(id, cached, q)];
    assert cart[0].id == id;
    assert InCart(cart, id);
    assert Increment(cart, id) == [CartLine(id, cached, q + 1)];
  }

  /**
   * A drug with 5 in stock at 100 each: three adds give one line of
   * quantity 3, committing it records a total of 300 and leaves 2 in stock.
   */
  lemma ThreeUnitSale()
    ensures
      var d := Drug("Amoxil", "amoxicillin", "", "12345", "2030-01-01", 5, 100);
      var db := Db(map["a" := d], map[], map[]);
      var c3 := AddToCart(AddToCart(AddToCart([], "a", d).cart, "a", d).cart, "a", d).cart;
      var r := ProcessSale("user", c3, db, "s1", 0, true);
      && c3 == [CartLine("a", d, 3)]
      && r.outcome == Success(Receipt("s1", Sale(0, [SaleItem("a", "Amoxil", 3, 100, 300)], 300)))
      && r.db.inventory["a"].quantityInStock == 2
      && r.cart == []
  {
    var d := Drug("Amoxil", "amoxicillin", "", "12345", "2030-01-01", 5, 100);
    var db := Db(map["a" := d], map[], map[]);
    assert AddToCart([], "a", d).cart == [CartLine("a", d, 1)];
    AddRaisesSingleLine(d, "a", 1, d);
    AddRaisesSingleLine(d, "a", 2, d);
    var c3 := [CartLine("a", d, 3)];
    assert SaleItems(c3) == [SaleItem("a", "Amoxil", 3, 100, 300)];
    assert CartTotal(c3) == 300 by {
      assert c3[..0] == [];
    }
    SaleSucceedsWhen("user", c3, db, "s1", 0, true);
    SaleCommitEffect("user", c3, db, "s1", 0, true);
  }

  /** With 5 in stock and a line already at 5, one more add is refused and the cart is kept. */
  lemma AddBeyondStockRefused()
    ensures
      var d := Drug("Amoxil", "amoxicillin", "", "12345", "2030-01-01", 5, 100);
      AddToCart([CartLine("a", d, 5)], "a", d) == CartStep([CartLine("a", d, 5)], Some(OnlyInStock(5)))
  {
    var d := Drug("Amoxil", "amoxicillin", "", "12345", "2030-01-01", 5, 100);
    assert [CartLine("a", d, 5)][0].id == "a";
  }

  /**
   * The decrement uses the stock copied into the line when it was first
   * added. A line added while 1 was in stock, raised to 2 after a restock
   * to 5, commits a stock of 1 - 2 = -1 instead of 5 - 2 = 3.
   */
  lemma StaleStockCanGoNegative()
    ensures
      var before := Drug("Amoxil", "amoxicillin", "", "12345", "2030-01-01", 1, 100);
      var restocked := before.(quantityInStock := 5);
      var db := Db(map["a" := restocked], map[], map[]);
      var cart := AddToCart(AddToCart([], "a", before).cart, "a", restocked).cart;
      var r := ProcessSale("user", cart, db, "s1", 0, true);
      && cart == [CartLine("a", before, 2)]
      && r.outcome.Success?
      && r.db.inventory["a"].quantityInStock == -1
  {
    var before := Drug("Amoxil", "amoxicillin", "", "12345", "2030-01-01", 1, 100);
    var restocked := before.(quantityInStock := 5);
    var db := Db(map["a" := restocked], map[], map[]);
    assert AddToCart([], "a", before).cart == [CartLine("a", before, 1)];
    AddRaisesSingleLine(before, "a", 1, restocked);
    SaleSucceedsWhen("user", [CartLine("a", before, 2)], db, "s1", 0, true);
    SaleCommitEffect("user", [CartLine("a", before, 2)], db, "s1", 0, true);
  }
}
