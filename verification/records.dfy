/**
 * The records the pharmacy keeps: inventory items, sales with their
 * denormalised line snapshots, prescriptions, and the cart lines of a sale
 * in progress. Prices are whole minor currency units, dates are instants
 * given as integers.
 */
module Records {
  import opened Results

  /** A store-assigned document id. */
  type DocId = string

  /** One drug in the inventory collection (the document's fields, without its id). */
  datatype Drug = Drug(
    name: string,
    genericName: string,
    manufacturer: string,
    batchNumber: string,
    expiryDate: string,
    quantityInStock: int,
    unitPrice: int)

  /** The inventory collection, keyed by document id. */
  type Inventory = map<DocId, Drug>

  /**
   * A line of the point-of-sale cart: a copy of the drug record taken when
   * the line was first added (including its stock figure at that moment)
   * plus the chosen quantity.
   */
  datatype CartLine = CartLine(id: DocId, item: Drug, quantity: int)

  type Cart = seq<CartLine>

  /** A denormalised line of a committed sale. */
  datatype SaleItem = SaleItem(
    drugId: DocId,
    name: string,
    quantity: int,
    unitPrice: int,
    totalPrice: int)

  datatype Sale = Sale(timestamp: int, items: seq<SaleItem>, totalAmount: int)

  /** A line of a prescription, with the drug name copied at logging time. */
  datatype PrescriptionItem = PrescriptionItem(
    drugId: DocId,
    dosage: string,
    quantity: int,
    drugName: string)

  datatype Prescription = Prescription(
    patientIdentifier: string,
    doctorName: string,
    dateIssued: int,
    isFilled: bool,
    dateFilled: Option<int>,
    items: seq<PrescriptionItem>)

  /** The three collections of one signed-in user. */
  datatype Db = Db(
    inventory: Inventory,
    sales: map<DocId, Sale>,
    prescriptions: map<DocId, Prescription>)

  /** True when the cart holds at most one line per drug id. */
  ghost predicate UniqueIds(cart: Cart) {
    forall i, j :: 0 <= i < j < |cart| ==> cart[i].id != cart[j].id
  }

  /** Whether some line of the cart is for drug `id`. */
  predicate InCart(cart: Cart, id: DocId) {
    exists i :: 0 <= i < |cart| && cart[i].id == id
  }
}
