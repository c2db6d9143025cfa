/**
 * Prescriptions: the logging form (line edits and submission), and filling,
 * which checks every line against the inventory snapshot before one atomic
 * batch decrements stock and marks the prescription filled.
 */
module Prescriptions {
  import opened Results
  import opened Records
  import opened Store
  import opened NumberInput

  // ---------------------------------------------------------------------
  // The logging form
  // ---------------------------------------------------------------------

  /** A line of the form being filled in. */
  datatype FormLine = FormLine(drugId: DocId, dosage: string, quantity: int)

  /** An edit of one field of one line; the quantity arrives as the input's raw text. */
  datatype LineEdit = DrugIdEdit(drugId: DocId) | DosageEdit(dosage: string) | QuantityEdit(raw: string)

  /** The alert raised when a quantity is clamped to the stock. */
  datatype StockNotice = OnlyInStock(available: int, drugName: string)

  datatype FormError = MissingFields

  datatype LineStep = LineStep(lines: seq<FormLine>, notice: Option<StockNotice>)

  /** The quantity typed into a line: the integer `parseInt` reads, with `NaN` and zero replaced by 1. */
  function QuantityInput(raw: string): (q: int)
    ensures q != 0
    ensures ParseInt(raw).None? ==> q == 1
    ensures ParseInt(raw).Some? ==> q == if ParseInt(raw).value == 0 then 1 else ParseInt(raw).value
  {
    match ParseInt(raw)
    case None => 1
    case Some(v) => if v == 0 then 1 else v
  }

  /**
   * The quantity box reads back the whole number it displays, whatever
   * non-numeric text follows it; only 0 is replaced by 1.
   */
  lemma QuantityInputReadsNumber(n: int, rest: string)
    requires -MaxSafeInteger <= n <= MaxSafeInteger
    requires |rest| == 0 || !IsDigit(rest[0])
    ensures QuantityInput(FormatInt(n) + rest) == if n == 0 then 1 else n
  {
    ParseFormatRoundTrip(n, rest);
  }

  /** Text with no digit at all, the empty field included, reads as 1. */
  lemma QuantityInputWithoutDigits(s: string)
    requires forall i :: 0 <= i < |s| ==> !IsDigit(s[i])
    ensures QuantityInput(s) == 1
  {
    NoDigitIsNaN(s);
  }

  /**
   * `handleItemChange(index, field, value)`: a quantity is clamped to the
   * stock of the line's drug when the inventory has it, and otherwise raised
   * to at least 1; the drug and dosage fields take the value as given.
   */
  function HandleItemChange(lines: seq<FormLine>, index: nat, edit: LineEdit, inventory: Inventory)
    : (r: LineStep)
    requires index < |lines|
    ensures |r.lines| == |lines|
    ensures forall j :: 0 <= j < |lines| && j != index ==> r.lines[j] == lines[j]
    ensures edit.DrugIdEdit? ==> r == LineStep(lines[index := lines[index].(drugId := edit.drugId)], None)
    ensures edit.DosageEdit? ==> r == LineStep(lines[index := lines[index].(dosage := edit.dosage)], None)
    ensures edit.QuantityEdit? ==>
      var id := lines[index].drugId;
      var q := QuantityInput(edit.raw);
      var n := r.lines[index].quantity;
      && r.lines[index] == lines[index].(quantity := n)
      && (id in inventory && q > inventory[id].quantityInStock ==>
            n == inventory[id].quantityInStock
            && r.notice == Some(OnlyInStock(inventory[id].quantityInStock, inventory[id].name)))
      && (id in inventory && inventory[id].quantityInStock >= 1 ==> 1 <= n <= inventory[id].quantityInStock)
      && (id !in inventory ==> n >= 1)
      && (1 <= q && (id in inventory ==> q <= inventory[id].quantityInStock) ==> n == q && r.notice == None)
      && (q < 1 && !(id in inventory && q > inventory[id].quantityInStock) ==> n == 1 && r.notice == None)
  {
    var line := lines[index];
    match edit
    case DrugIdEdit(v) => LineStep(lines[index := line.(drugId := v)], None)
    case DosageEdit(v) => LineStep(lines[index := line.(dosage := v)], None)
    case QuantityEdit(raw) =>
      var q := QuantityInput(raw);
      if line.drugId in inventory && q > inventory[line.drugId].quantityInStock then
        var drug := inventory[line.drugId];
        LineStep(lines[index := line.(quantity := drug.quantityInStock)],
                 Some(OnlyInStock(drug.quantityInStock, drug.name)))
      else
        LineStep(lines[index := line.(quantity := if q < 1 then 1 else q)], None)
  }

  /** Typing a whole number within stock into a line's quantity stores exactly that number. */
  lemma TypedQuantityKept(lines: seq<FormLine>, index: nat, n: int, inventory: Inventory)
    requires index < |lines|
    requires 1 <= n <= MaxSafeInteger
    requires lines[index].drugId in inventory ==> n <= inventory[lines[index].drugId].quantityInStock
    ensures HandleItemChange(lines, index, QuantityEdit(FormatInt(n)), inventory).lines[index].quantity == n
  {
    ParseFormatRoundTrip(n, "");
    assert FormatInt(n) + "" == FormatInt(n);
    assert QuantityInput(FormatInt(n)) == n;
  }

  /** An empty quantity field reads as 1 (or the stock when that is below 1). */
  lemma EmptyQuantityIsOne(lines: seq<FormLine>, index: nat, inventory: Inventory)
    requires index < |lines|
    requires lines[index].drugId !in inventory || inventory[lines[index].drugId].quantityInStock >= 1
    ensures HandleItemChange(lines, index, QuantityEdit(""), inventory).lines[index].quantity == 1
  {
    NoDigitIsNaN("");
  }

  /** The name the inventory gives the drug, or "Unknown" when the drug is missing or its name is empty. */
  function DrugNameOf(id: DocId, inventory: Inventory): (name: string)
    ensures |name| > 0
    ensures id in inventory && |inventory[id].name| > 0 ==> name == inventory[id].name
  {
    if id in inventory && |inventory[id].name| > 0 then inventory[id].name else "Unknown"
  }

  /**
   * `handleSubmit`: refuses a form without patient, doctor, or with a line
   * that names no drug; otherwise builds an unfilled prescription whose
   * lines copy the drug names from the inventory.
   */
  function SubmitPrescription(patientId: string, doctorName: string, lines: seq<FormLine>,
                              inventory: Inventory, now: int): (r: Result<Prescription, FormError>)
    ensures r.Success? <==>
      |patientId| > 0 && |doctorName| > 0 && forall i :: 0 <= i < |lines| ==> |lines[i].drugId| > 0
    ensures r.Success? ==>
      var p := r.value;
      && p.patientIdentifier == patientId && p.doctorName == doctorName
      && p.dateIssued == now && !p.isFilled && p.dateFilled == None
      && |p.items| == |lines|
      && forall i :: 0 <= i < |lines| ==>
           && p.items[i].drugId == lines[i].drugId
           && p.items[i].dosage == lines[i].dosage
           && p.items[i].quantity == lines[i].quantity
           && |p.items[i].drugName| > 0
           && p.items[i].drugName == DrugNameOf(lines[i].drugId, inventory)
  {
    if |patientId| == 0 || |doctorName| == 0 || exists i :: 0 <= i < |lines| && |lines[i].drugId| == 0 then
      Failure(MissingFields)
    else
      Success(Prescription(patientId, doctorName, now, false, None,
        seq(|lines|, i requires 0 <= i < |lines| =>
          PrescriptionItem(lines[i].drugId, lines[i].dosage, lines[i].quantity,
                           DrugNameOf(lines[i].drugId, inventory)))))
  }

  datatype LogError = NoSession | WriteFailed

  /**
   * `handleAddPrescription`: a single-document insert under the id the store
   * assigns; no other document changes.
   */
  function AddPrescription(userId: string, db: Db, p: Prescription, newId: DocId, accepted: bool)
    : (r: Result<Db, LogError>)
    ensures r.Success? <==> |userId| > 0 && accepted
    ensures |userId| == 0 ==> r == Failure(NoSession)
    ensures r.Success? ==>
      && r.value.prescriptions == db.prescriptions[newId := p]
      && r.value.inventory == db.inventory
      && r.value.sales == db.sales
  {
    if |userId| == 0 then Failure(NoSession)
    else if !accepted then Failure(WriteFailed)
    else Success(db.(prescriptions := db.prescriptions[newId := p]))
  }

  // ---------------------------------------------------------------------
  // Filling
  // ---------------------------------------------------------------------

  datatype FillError =
    | FillNoSession
    | DrugNotFound(drugId: DocId, drugName: string)
    | InsufficientStock(name: string, required: int, available: int)
    | FillCommitFailed

  /** Whether the snapshot has the line's drug with at least the line's quantity. */
  predicate LineInStock(item: PrescriptionItem, snapshot: Inventory) {
    item.drugId in snapshot && snapshot[item.drugId].quantityInStock >= item.quantity
  }

  predicate AllInStock(items: seq<PrescriptionItem>, snapshot: Inventory) {
    forall i :: 0 <= i < |items| ==> LineInStock(items[i], snapshot)
  }

  /** The error the check reports for a line that fails it. */
  function LineError(item: PrescriptionItem, snapshot: Inventory): FillError
    requires !LineInStock(item, snapshot)
  {
    if item.drugId !in snapshot then DrugNotFound(item.drugId, item.drugName)
    else InsufficientStock(snapshot[item.drugId].name, item.quantity,
                           snapshot[item.drugId].quantityInStock)
  }

  /** The position of the first line the stock check rejects, if any. */
  function FirstFailing(items: seq<PrescriptionItem>, snapshot: Inventory): (r: Option<nat>)
    ensures r.None? <==> AllInStock(items, snapshot)
    ensures r.Some? ==> r.value < |items| && !LineInStock(items[r.value], snapshot)
    ensures r.Some? ==> forall j :: 0 <= j < r.value ==> LineInStock(items[j], snapshot)
    decreases |items|
  {
    if |items| == 0 then None
    else if !LineInStock(items[0], snapshot) then Some(0)
    else
      match FirstFailing(items[1..], snapshot)
      case None => None
      case Some(k) => Some(k + 1)
  }

  /** The stock check, run over the lines in order; it reports the first failing line. */
  function CheckStock(items: seq<PrescriptionItem>, snapshot: Inventory): Option<FillError> {
    match FirstFailing(items, snapshot)
    case None => None
    case Some(k) => Some(LineError(items[k], snapshot))
  }

  /**
   * One (drug id, new stock) pair per line: the snapshot's stock minus the
   * line quantity. Two lines for one drug both start from the same snapshot
   * figure.
   */
  function FillDecrements(items: seq<PrescriptionItem>, snapshot: Inventory): (us: seq<(DocId, int)>)
    requires forall i :: 0 <= i < |items| ==> items[i].drugId in snapshot
    ensures |us| == |items|
  {
    seq(|items|, i requires 0 <= i < |items| =>
      (items[i].drugId, snapshot[items[i].drugId].quantityInStock - items[i].quantity))
  }

  /** Exactly one stock update per line, in line order, then the fill mark. */
  function FillBatch(presId: DocId, items: seq<PrescriptionItem>, snapshot: Inventory, now: int)
    : (ws: seq<Write>)
    requires forall i :: 0 <= i < |items| ==> items[i].drugId in snapshot
    ensures |ws| == |items| + 1 && ws[|items|] == MarkFilled(presId, now)
    ensures forall i :: 0 <= i < |items| ==>
      ws[i] == UpdateStock(items[i].drugId, snapshot[items[i].drugId].quantityInStock - items[i].quantity)
  {
    StockUpdates(FillDecrements(items, snapshot)) + [MarkFilled(presId, now)]
  }

  /**
   * `fillPrescription(p)`: without a session nothing happens; every line is
   * checked against the snapshot first and the first failing line aborts the
   * fill with nothing written; otherwise one batch decrements each drug and
   * marks the prescription filled at `now`.
   */
  function FillPrescription(userId: string, presId: DocId, p: Prescription, snapshot: Inventory,
                            db: Db, now: int, accepted: bool): (r: Result<Db, FillError>)
    ensures |userId| == 0 ==> r == Failure(FillNoSession)
    ensures |userId| > 0 && !AllInStock(p.items, snapshot) ==>
      var k := FirstFailing(p.items, snapshot).value;
      r == Failure(LineError(p.items[k], snapshot))
    ensures r.Success? ==> |userId| > 0 && AllInStock(p.items, snapshot) && accepted
  {
    if |userId| == 0 then Failure(FillNoSession)
    else
      match CheckStock(p.items, snapshot)
      case Some(e) => Failure(e)
      case None =>
        match Commit(db, FillBatch(presId, p.items, snapshot, now), accepted)
        case None => Failure(FillCommitFailed)
        case Some(db') => Success(db')
  }

  /** The fill batch applies exactly when the prescription and every line's drug still exist. */
  lemma FillBatchApplicable(db: Db, presId: DocId, items: seq<PrescriptionItem>, snapshot: Inventory, now: int)
    requires forall i :: 0 <= i < |items| ==> items[i].drugId in snapshot
    ensures AllApplicable(db, FillBatch(presId, items, snapshot, now)) <==>
      presId in db.prescriptions && forall i :: 0 <= i < |items| ==> items[i].drugId in db.inventory
  {
    var us := FillDecrements(items, snapshot);
    AllApplicableAppend(db, StockUpdates(us), [MarkFilled(presId, now)]);
    StockUpdatesApplicable(db, us);
    assert forall i :: 0 <= i < |items| ==> us[i].0 == items[i].drugId;
    assert [MarkFilled(presId, now)][0] == MarkFilled(presId, now);
  }

  /** The fill batch writes a stock figure for exactly the prescribed drugs, fills only this prescription, and writes no sale. */
  lemma FillBatchDocuments(presId: DocId, items: seq<PrescriptionItem>, snapshot: Inventory, now: int)
    requires forall i :: 0 <= i < |items| ==> items[i].drugId in snapshot
    ensures forall k :: k in StockWritten(FillBatch(presId, items, snapshot, now)) <==>
      exists i :: 0 <= i < |items| && items[i].drugId == k
    ensures FillsWritten(FillBatch(presId, items, snapshot, now)) == map[presId := now]
    ensures SalesWritten(FillBatch(presId, items, snapshot, now)) == map[]
  {
    var us := FillDecrements(items, snapshot);
    StockUpdatesKeys(us);
    StockUpdatesOnlyStock(us);
    WrittenAppend(StockUpdates(us), [MarkFilled(presId, now)]);
    assert StockWritten([MarkFilled(presId, now)]) == map[];
    assert SalesWritten([MarkFilled(presId, now)]) == map[];
    assert FillsWritten([MarkFilled(presId, now)]) == map[presId := now];
    forall k ensures Targets(us, k) <==> exists i :: 0 <= i < |items| && items[i].drugId == k {
      if exists i :: 0 <= i < |items| && items[i].drugId == k {
        var i :| 0 <= i < |items| && items[i].drugId == k;
        assert us[i].0 == k;
      }
    }
  }

  /** No later line of the prescription names the same drug as line `i`. */
  predicate LastLineFor(items: seq<PrescriptionItem>, i: int)
    requires 0 <= i < |items|
  {
    forall j :: i < j < |items| ==> items[j].drugId != items[i].drugId
  }

  /** Each drug ends at the snapshot's stock minus the quantity of the last line that names it. */
  lemma FillBatchStock(presId: DocId, items: seq<PrescriptionItem>, snapshot: Inventory, now: int, i: int)
    requires forall i :: 0 <= i < |items| ==> items[i].drugId in snapshot
    requires 0 <= i < |items| && LastLineFor(items, i)
    ensures items[i].drugId in StockWritten(FillBatch(presId, items, snapshot, now))
    ensures StockWritten(FillBatch(presId, items, snapshot, now))[items[i].drugId]
            == snapshot[items[i].drugId].quantityInStock - items[i].quantity
  {
    var us := FillDecrements(items, snapshot);
    assert LastFor(us, i);
    StockUpdatesLastWins(us, i);
    WrittenAppend(StockUpdates(us), [MarkFilled(presId, now)]);
    assert StockWritten([MarkFilled(presId, now)]) == map[];
  }

  /**
   * A fill commits exactly when there is a session, every line passes the
   * check, the store accepts and the prescription and all its drugs still
   * exist.
   */
  lemma FillSucceedsWhen(userId: string, presId: DocId, p: Prescription, snapshot: Inventory,
                         db: Db, now: int, accepted: bool)
    ensures FillPrescription(userId, presId, p, snapshot, db, now, accepted).Success? <==>
      && |userId| > 0 && AllInStock(p.items, snapshot) && accepted
      && presId in db.prescriptions
      && forall i :: 0 <= i < |p.items| ==> p.items[i].drugId in db.inventory
  {
    if |userId| > 0 && AllInStock(p.items, snapshot) {
      FillBatchApplicable(db, presId, p.items, snapshot, now);
    }
  }

  /** A committed fill leaves exactly the state its batch describes. */
  lemma FillResultIsBatch(userId: string, presId: DocId, p: Prescription, snapshot: Inventory,
                          db: Db, now: int, accepted: bool)
    requires FillPrescription(userId, presId, p, snapshot, db, now, accepted).Success?
    ensures AllInStock(p.items, snapshot)
    ensures FillPrescription(userId, presId, p, snapshot, db, now, accepted).value
            == Expected(db, FillBatch(presId, p.items, snapshot, now))
  {
  }

  /**
   * The stock a fill batch leaves: each prescribed drug at the snapshot's
   * stock minus the quantity of the last line naming it, every other drug
   * as it was.
   */
  lemma FillBatchInventory(db: Db, presId: DocId, items: seq<PrescriptionItem>, snapshot: Inventory, now: int)
    requires forall i :: 0 <= i < |items| ==> items[i].drugId in snapshot
    requires forall i :: 0 <= i < |items| ==> items[i].drugId in db.inventory
    ensures var inv := Expected(db, FillBatch(presId, items, snapshot, now)).inventory;
      && inv.Keys == db.inventory.Keys
      && (forall k :: k in db.inventory && (forall i :: 0 <= i < |items| ==> items[i].drugId != k)
            ==> inv[k] == db.inventory[k])
      && (forall i :: 0 <= i < |items| && LastLineFor(items, i) ==>
            inv[items[i].drugId] == db.inventory[items[i].drugId].(quantityInStock :=
              snapshot[items[i].drugId].quantityInStock - items[i].quantity))
  {
    var ws := FillBatch(presId, items, snapshot, now);
    FillBatchDocuments(presId, items, snapshot, now);
    forall i | 0 <= i < |items| && LastLineFor(items, i)
      ensures items[i].drugId in StockWritten(ws)
      ensures StockWritten(ws)[items[i].drugId] == snapshot[items[i].drugId].quantityInStock - items[i].quantity
    {
      FillBatchStock(presId, items, snapshot, now, i);
    }
  }

  /** A fill batch marks only its prescription filled, at `now`, and leaves the sales alone. */
  lemma FillBatchRecords(db: Db, presId: DocId, items: seq<PrescriptionItem>, snapshot: Inventory, now: int)
    requires forall i :: 0 <= i < |items| ==> items[i].drugId in snapshot
    requires presId in db.prescriptions
    ensures var e := Expected(db, FillBatch(presId, items, snapshot, now));
      && e.sales == db.sales
      && e.prescriptions == db.prescriptions[presId :=
           db.prescriptions[presId].(isFilled := true, dateFilled := Some(now))]
  {
    var ws := FillBatch(presId, items, snapshot, now);
    FillBatchDocuments(presId, items, snapshot, now);
    assert db.sales + map[] == db.sales;
    var filled := db.prescriptions[presId := db.prescriptions[presId].(isFilled := true, dateFilled := Some(now))];
    var patched := PatchFills(db.prescriptions, FillsWritten(ws));
    assert patched.Keys == filled.Keys;
    forall k | k in patched ensures patched[k] == filled[k] {
      if k != presId {
        assert k !in FillsWritten(ws);
      }
    }
  }

  /**
   * A committed fill marks the prescription filled at `now`, sets each
   * prescribed drug to the snapshot's stock minus the quantity of the last
   * line naming it, and leaves every other document as it was.
   */
  lemma FillEffect(userId: string, presId: DocId, p: Prescription, snapshot: Inventory,
                   db: Db, now: int, accepted: bool)
    requires FillPrescription(userId, presId, p, snapshot, db, now, accepted).Success?
    ensures var db' := FillPrescription(userId, presId, p, snapshot, db, now, accepted).value;
      && db'.sales == db.sales
      && presId in db.prescriptions
      && db'.prescriptions == db.prescriptions[presId :=
           db.prescriptions[presId].(isFilled := true, dateFilled := Some(now))]
      && db'.inventory.Keys == db.inventory.Keys
      && (forall k :: k in db.inventory && (forall i :: 0 <= i < |p.items| ==> p.items[i].drugId != k)
            ==> db'.inventory[k] == db.inventory[k])
      && (forall i :: 0 <= i < |p.items| && LastLineFor(p.items, i) ==>
            && p.items[i].drugId in db.inventory
            && db'.inventory[p.items[i].drugId] == db.inventory[p.items[i].drugId].(quantityInStock :=
                 snapshot[p.items[i].drugId].quantityInStock - p.items[i].quantity))
  {
    FillResultIsBatch(userId, presId, p, snapshot, db, now, accepted);
    FillSucceedsWhen(userId, presId, p, snapshot, db, now, accepted);
    FillBatchInventory(db, presId, p.items, snapshot, now);
    FillBatchRecords(db, presId, p.items, snapshot, now);
  }

  /** With one line per drug, a committed fill never leaves a prescribed drug with negative stock. */
  lemma DistinctFillKeepsStockNonNegative(userId: string, presId: DocId, p: Prescription,
                                          snapshot: Inventory, db: Db, now: int, accepted: bool)
    requires forall i, j :: 0 <= i < j < |p.items| ==> p.items[i].drugId != p.items[j].drugId
    requires FillPrescription(userId, presId, p, snapshot, db, now, accepted).Success?
    ensures var db' := FillPrescription(userId, presId, p, snapshot, db, now, accepted).value;
      forall i :: 0 <= i < |p.items| ==>
        p.items[i].drugId in db'.inventory && db'.inventory[p.items[i].drugId].quantityInStock >= 0
  {
    FillEffect(userId, presId, p, snapshot, db, now, accepted);
    assert forall i :: 0 <= i < |p.items| ==> LastLineFor(p.items, i);
    assert forall i :: 0 <= i < |p.items| ==> LineInStock(p.items[i], snapshot);
  }

  // ---------------------------------------------------------------------
  // Worked cases
  // ---------------------------------------------------------------------

  /**
   * Drug A has 10 in stock and a line needs 3; drug B has 1 and a line needs
   * 2. The fill fails naming B with 2 required and 1 available, and nothing
   * is written, so A keeps its 10.
   */
  lemma ShortLineAbortsFill(db: Db, now: int)
    ensures
      var a := Drug("Alpha", "", "", "11111", "2030-01-01", 10, 50);
      var b := Drug("Beta", "", "", "22222", "2030-01-01", 1, 70);
      var snapshot := map["A" := a, "B" := b];
      var p := Prescription("patient-1", "Grey", 0, false, None,
        [PrescriptionItem("A", "", 3, "Alpha"), PrescriptionItem("B", "", 2, "Beta")]);
      FillPrescription("user", "p1", p, snapshot, db, now, true) == Failure(InsufficientStock("Beta", 2, 1))
  {
    var a := Drug("Alpha", "", "", "11111", "2030-01-01", 10, 50);
    var b := Drug("Beta", "", "", "22222", "2030-01-01", 1, 70);
    var snapshot := map["A" := a, "B" := b];
    var items := [PrescriptionItem("A", "", 3, "Alpha"), PrescriptionItem("B", "", 2, "Beta")];
    assert LineInStock(items[0], snapshot);
    assert !LineInStock(items[1], snapshot);
    assert FirstFailing(items[1..], snapshot) == Some(0);
  }

  /**
   * Two lines for the same drug are checked and decremented separately from
   * the same snapshot figure: with 10 in stock, lines of 6 and 6 both pass
   * and the drug ends at 10 - 6 = 4, although 12 were dispensed.
   */
  lemma DuplicateLinesLastWriteWins()
    ensures
      var a := Drug("Alpha", "", "", "11111", "2030-01-01", 10, 50);
      var snapshot := map["A" := a];
      var db := Db(snapshot, map[], map["p1" := Prescription("patient-1", "Grey", 0, false, None, [])]);
      var p := Prescription("patient-1", "Grey", 0, false, None,
        [PrescriptionItem("A", "", 6, "Alpha"), PrescriptionItem("A", "", 6, "Alpha")]);
      var r := FillPrescription("user", "p1", p, snapshot, db, 5, true);
      r.Success? && r.value.inventory["A"].quantityInStock == 4
  {
    var a := Drug("Alpha", "", "", "11111", "2030-01-01", 10, 50);
    var snapshot := map["A" := a];
    var db := Db(snapshot, map[], map["p1" := Prescription("patient-1", "Grey", 0, false, None, [])]);
    var items := [PrescriptionItem("A", "", 6, "Alpha"), PrescriptionItem("A", "", 6, "Alpha")];
    var p := Prescription("patient-1", "Grey", 0, false, None, items);
    assert AllInStock(items, snapshot);
    FillSucceedsWhen("user", "p1", p, snapshot, db, 5, true);
    assert LastLineFor(items, 1);
    FillEffect("user", "p1", p, snapshot, db, 5, true);
  }
}
