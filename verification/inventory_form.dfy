/**
 * The add/edit drug form and the single-document writes behind it: field
 * edits (with the digits-only batch number), the checks run on submit, and
 * the insert, full replace and delete of an inventory record.
 */
module InventoryForm {
  import opened Results
  import opened Records
  import opened NumberInput

  /** The batch number may hold at most this many digits. */
  const MaxBatchDigits := 5

  datatype TextField = Name | GenericName | Manufacturer | BatchNumber | ExpiryDate
  datatype NumberField = QuantityInStock | UnitPrice

  /**
   * A change event. Number inputs arrive already read as numbers; `None`
   * stands for `NaN`.
   */
  datatype FormEdit = TextEdit(text: TextField, value: string) | NumberEdit(number: NumberField, parsed: Option<int>)

  datatype FormError = NegativeAmount | MissingRequired

  datatype SaveError = Invalid(reason: FormError) | NoSession | WriteFailed

  /** A batch number the input can hold: only digits, at most five of them. */
  predicate BatchNumberShape(b: string) {
    AllDigits(b) && |b| <= MaxBatchDigits
  }

  /** The batch-number input keeps only the digits and ignores an edit that leaves more than five. */
  function BatchNumberInput(previous: string, value: string): (r: string)
    ensures BatchNumberShape(previous) ==> BatchNumberShape(r)
    ensures r == previous || r == KeepDigits(value)
    ensures r == KeepDigits(value) <==> |KeepDigits(value)| <= MaxBatchDigits || previous == KeepDigits(value)
  {
    var digits := KeepDigits(value);
    if |digits| <= MaxBatchDigits then digits else previous
  }

  /** Typing a non-digit after a well-formed batch number leaves it unchanged. */
  lemma NonDigitKeystrokeIgnored(previous: string, c: char)
    requires BatchNumberShape(previous)
    requires !IsDigit(c)
    ensures BatchNumberInput(previous, previous + [c]) == previous
  {
    KeepDigitsAppend(previous, [c]);
    KeepDigitsOfDigits(previous);
    assert KeepDigits([c]) == KeepDigits([c][1..]);
    assert KeepDigits(previous + [c]) == previous;
  }

  /** Typing a sixth digit after five is ignored; a digit after fewer is appended. */
  lemma DigitKeystroke(previous: string, c: char)
    requires BatchNumberShape(previous)
    requires IsDigit(c)
    ensures BatchNumberInput(previous, previous + [c])
            == if |previous| < MaxBatchDigits then previous + [c] else previous
  {
    KeepDigitsAppend(previous, [c]);
    KeepDigitsOfDigits(previous);
    assert KeepDigits([c]) == [c] + KeepDigits([c][1..]);
    assert KeepDigits(previous + [c]) == previous + [c];
  }

  /** A number field's value: the number read from the input, or 0 when it reads as `NaN`. */
  function NumberOrZero(parsed: Option<int>): (v: int)
    ensures parsed.Some? ==> v == parsed.value
    ensures parsed.None? ==> v == 0
  {
    match parsed
    case None => 0
    case Some(v) => v
  }

  /** `handleChange(e)`: the edited field takes the new value, every other field is kept. */
  function HandleChange(form: Drug, edit: FormEdit): (r: Drug)
    ensures BatchNumberShape(form.batchNumber) ==> BatchNumberShape(r.batchNumber)
    ensures edit.TextEdit? && edit.text == Name ==> r == form.(name := edit.value)
    ensures edit.TextEdit? && edit.text == GenericName ==> r == form.(genericName := edit.value)
    ensures edit.TextEdit? && edit.text == Manufacturer ==> r == form.(manufacturer := edit.value)
    ensures edit.TextEdit? && edit.text == ExpiryDate ==> r == form.(expiryDate := edit.value)
    ensures edit.TextEdit? && edit.text == BatchNumber ==>
      r == form.(batchNumber := BatchNumberInput(form.batchNumber, edit.value))
    ensures edit.NumberEdit? && edit.number == QuantityInStock ==>
      r == form.(quantityInStock := NumberOrZero(edit.parsed))
    ensures edit.NumberEdit? && edit.number == UnitPrice ==>
      r == form.(unitPrice := NumberOrZero(edit.parsed))
  {
    match edit
    case TextEdit(Name, v) => form.(name := v)
    case TextEdit(GenericName, v) => form.(genericName := v)
    case TextEdit(Manufacturer, v) => form.(manufacturer := v)
    case TextEdit(ExpiryDate, v) => form.(expiryDate := v)
    case TextEdit(BatchNumber, v) => form.(batchNumber := BatchNumberInput(form.batchNumber, v))
    case NumberEdit(QuantityInStock, p) => form.(quantityInStock := NumberOrZero(p))
    case NumberEdit(UnitPrice, p) => form.(unitPrice := NumberOrZero(p))
  }

  /** The checks `handleSubmit` runs before anything is written. */
  predicate Valid(form: Drug) {
    && form.quantityInStock >= 0 && form.unitPrice >= 0
    && |form.name| > 0 && |form.batchNumber| > 0 && |form.expiryDate| > 0
  }

  /**
   * `handleSubmit`: a negative quantity or price is reported first, then a
   * missing name, batch number or expiry date; a form that passes is
   * submitted as it stands.
   */
  function HandleSubmit(form: Drug): (r: Result<Drug, FormError>)
    ensures r.Success? <==> Valid(form)
    ensures r.Success? ==> r.value == form
    ensures r == Failure(NegativeAmount) <==> form.quantityInStock < 0 || form.unitPrice < 0
  {
    if form.quantityInStock < 0 || form.unitPrice < 0 then Failure(NegativeAmount)
    else if |form.name| == 0 || |form.batchNumber| == 0 || |form.expiryDate| == 0 then Failure(MissingRequired)
    else Success(form)
  }

  /** `handleAddDrug`: inserts the record under the id the store assigns. */
  function AddDrug(userId: string, db: Db, drug: Drug, newId: DocId, accepted: bool): (r: Result<Db, SaveError>)
    ensures r.Success? <==> |userId| > 0 && accepted
    ensures r.Success? ==> r.value == db.(inventory := db.inventory[newId := drug])
  {
    if |userId| == 0 then Failure(NoSession)
    else if !accepted then Failure(WriteFailed)
    else Success(db.(inventory := db.inventory[newId := drug]))
  }

  /**
   * `handleUpdateDrug`: replaces every field of the record being edited (the
   * store creates it if it has meanwhile been deleted); refused without a
   * session or without a record being edited.
   */
  function UpdateDrug(userId: string, editing: Option<DocId>, db: Db, drug: Drug, accepted: bool)
    : (r: Result<Db, SaveError>)
    ensures r.Success? <==> |userId| > 0 && editing.Some? && accepted
    ensures r.Success? ==> r.value == db.(inventory := db.inventory[editing.value := drug])
  {
    if |userId| == 0 || editing.None? then Failure(NoSession)
    else if !accepted then Failure(WriteFailed)
    else Success(db.(inventory := db.inventory[editing.value := drug]))
  }

  /** Deleting a freshly added drug gives back the store as it was before the add. */
  lemma DeleteUndoesAdd(userId: string, db: Db, drug: Drug, newId: DocId)
    requires |userId| > 0 && newId !in db.inventory
    ensures AddDrug(userId, db, drug, newId, true).Success?
    ensures DeleteDrug(userId, AddDrug(userId, db, drug, newId, true).value, newId, true) == Success(db)
  {
    var added := AddDrug(userId, db, drug, newId, true).value;
    assert added.inventory - {newId} == db.inventory;
  }

  /**
   * Replacing a drug that exists keeps the set of drugs and every other
   * record; replacing it again with its previous record restores the store.
   */
  lemma UpdateDrugFrame(userId: string, id: DocId, db: Db, drug: Drug)
    requires |userId| > 0 && id in db.inventory
    ensures var r := UpdateDrug(userId, Some(id), db, drug, true);
      && r.Success?
      && r.value.inventory.Keys == db.inventory.Keys
      && r.value.inventory[id] == drug
      && (forall k :: k in db.inventory && k != id ==> r.value.inventory[k] == db.inventory[k])
      && r.value.sales == db.sales && r.value.prescriptions == db.prescriptions
    ensures var r := UpdateDrug(userId, Some(id), db, drug, true);
      UpdateDrug(userId, Some(id), r.value, db.inventory[id], true) == Success(db)
  {
    var r := UpdateDrug(userId, Some(id), db, drug, true).value;
    assert r.inventory[id := db.inventory[id]] == db.inventory;
  }

  /** `handleDeleteDrug`: removes the record; sales and prescriptions keep their copies. */
  function DeleteDrug(userId: string, db: Db, id: DocId, accepted: bool): (r: Result<Db, SaveError>)
    ensures r.Success? <==> |userId| > 0 && accepted
    ensures r.Success? ==> r.value.inventory.Keys == db.inventory.Keys - {id}
    ensures r.Success? ==> forall k :: k in r.value.inventory ==> r.value.inventory[k] == db.inventory[k]
    ensures r.Success? ==> r.value.sales == db.sales && r.value.prescriptions == db.prescriptions
  {
    if |userId| == 0 then Failure(NoSession)
    else if !accepted then Failure(WriteFailed)
    else Success(db.(inventory := db.inventory - {id}))
  }

  /**
   * Submitting the form: the checks, then an insert for a new drug or a
   * replace of the drug being edited.
   */
  function SaveDrugForm(userId: string, form: Drug, editing: Option<DocId>, db: Db, newId: DocId, accepted: bool)
    : (r: Result<Db, SaveError>)
    ensures !Valid(form) ==> r == Failure(Invalid(HandleSubmit(form).error))
    ensures r.Success? <==> Valid(form) && |userId| > 0 && accepted
    ensures r.Success? ==>
      var target := if editing.Some? then editing.value else newId;
      r.value == db.(inventory := db.inventory[target := form])
  {
    match HandleSubmit(form)
    case Failure(e) => Failure(Invalid(e))
    case Success(d) =>
      if editing.Some? then UpdateDrug(userId, editing, db, d, accepted)
      else AddDrug(userId, db, d, newId, accepted)
  }

  /** No inventory record has a negative quantity or price. */
  ghost predicate NonNegative(inv: Inventory) {
    forall k :: k in inv ==> inv[k].quantityInStock >= 0 && inv[k].unitPrice >= 0
  }

  /**
   * Saving through the form and deleting never introduce a negative quantity
   * or price: the saved record passed the checks, and nothing else changes.
   */
  lemma FormWritesKeepNonNegative(userId: string, form: Drug, editing: Option<DocId>, db: Db,
                                  newId: DocId, id: DocId, accepted: bool)
    requires NonNegative(db.inventory)
    ensures var r := SaveDrugForm(userId, form, editing, db, newId, accepted);
      r.Success? ==> NonNegative(r.value.inventory) && Valid(form)
    ensures var r := DeleteDrug(userId, db, id, accepted);
      r.Success? ==> NonNegative(r.value.inventory)
  {
  }
}
