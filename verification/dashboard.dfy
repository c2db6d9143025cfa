/** The dashboard's counts over the live collections. */
module Dashboard {
  import opened Records
  import Prescriptions

  /** A drug is low on stock below this many units. */
  const LowStockThreshold := 20

  function LowStockIds(inv: Inventory): set<DocId> {
    set k | k in inv && inv[k].quantityInStock < LowStockThreshold
  }

  function PendingIds(ps: map<DocId, Prescription>): set<DocId> {
    set k | k in ps && !ps[k].isFilled
  }

  /** A subset is no larger than its superset. */
  lemma {:induction false} SubsetSize<T>(a: set<T>, b: set<T>)
    requires a <= b
    ensures |a| <= |b|
    decreases b
  {
    if a != {} {
      var x :| x in a;
      SubsetSize(a - {x}, b - {x});
    }
  }

  /** How many drugs have less stock than the low-stock threshold. */
  function LowStockCount(inv: Inventory): (n: nat)
    ensures n <= |inv|
  {
    SubsetSize(LowStockIds(inv), inv.Keys);
    var n := |LowStockIds(inv)|;
    n
  }

  /** How many prescriptions are not yet filled. */
  function PendingCount(ps: map<DocId, Prescription>): (n: nat)
    ensures n <= |ps|
  {
    SubsetSize(PendingIds(ps), ps.Keys);
    var n := |PendingIds(ps)|;
    n
  }

  /** The low-stock count is zero exactly when every drug has at least the threshold in stock. */
  lemma NoLowStockWhenZero(inv: Inventory)
    ensures LowStockCount(inv) == 0 <==> forall k :: k in inv ==> inv[k].quantityInStock >= LowStockThreshold
  {
    if LowStockCount(inv) != 0 {
      var k :| k in LowStockIds(inv);
    } else {
      assert LowStockIds(inv) == {};
      forall k | k in inv ensures inv[k].quantityInStock >= LowStockThreshold {
        assert k !in LowStockIds(inv);
      }
    }
  }

  /** The pending count is zero exactly when every prescription has been filled. */
  lemma NoPendingWhenZero(ps: map<DocId, Prescription>)
    ensures PendingCount(ps) == 0 <==> forall k :: k in ps ==> ps[k].isFilled
  {
    if PendingCount(ps) != 0 {
      var k :| k in PendingIds(ps);
    } else {
      assert PendingIds(ps) == {};
      forall k | k in ps ensures ps[k].isFilled {
        assert k !in PendingIds(ps);
      }
    }
  }

  /** Filling a pending prescription lowers the pending count by exactly one. */
  lemma FillLowersPending(userId: string, presId: DocId, p: Prescription, snapshot: Inventory,
                          db: Db, now: int, accepted: bool)
    requires Prescriptions.FillPrescription(userId, presId, p, snapshot, db, now, accepted).Success?
    requires presId in db.prescriptions && !db.prescriptions[presId].isFilled
    ensures PendingCount(Prescriptions.FillPrescription(userId, presId, p, snapshot, db, now, accepted).value.prescriptions)
            == PendingCount(db.prescriptions) - 1
  {
    Prescriptions.FillEffect(userId, presId, p, snapshot, db, now, accepted);
    var ps' := Prescriptions.FillPrescription(userId, presId, p, snapshot, db, now, accepted).value.prescriptions;
    assert PendingIds(ps') == PendingIds(db.prescriptions) - {presId};
  }

  /**
   * A prescription that passes the form's checks and is logged under a
   * fresh id is one more pending prescription.
   */
  lemma SubmitRaisesPending(patientId: string, doctorName: string, lines: seq<Prescriptions.FormLine>,
                            inventory: Inventory, now: int, userId: string, db: Db, newId: DocId)
    requires Prescriptions.SubmitPrescription(patientId, doctorName, lines, inventory, now).Success?
    requires |userId| > 0 && newId !in db.prescriptions
    ensures
      var p := Prescriptions.SubmitPrescription(patientId, doctorName, lines, inventory, now).value;
      var r := Prescriptions.AddPrescription(userId, db, p, newId, true);
      r.Success? && PendingCount(r.value.prescriptions) == PendingCount(db.prescriptions) + 1
  {
    var p := Prescriptions.SubmitPrescription(patientId, doctorName, lines, inventory, now).value;
    LogRaisesPending(userId, db, p, newId, true);
  }

  /** Logging a new prescription under a fresh id raises the pending count by exactly one. */
  lemma LogRaisesPending(userId: string, db: Db, p: Prescription, newId: DocId, accepted: bool)
    requires Prescriptions.AddPrescription(userId, db, p, newId, accepted).Success?
    requires newId !in db.prescriptions && !p.isFilled
    ensures PendingCount(Prescriptions.AddPrescription(userId, db, p, newId, accepted).value.prescriptions)
            == PendingCount(db.prescriptions) + 1
  {
    var ps' := Prescriptions.AddPrescription(userId, db, p, newId, accepted).value.prescriptions;
    assert PendingIds(ps') == PendingIds(db.prescriptions) + {newId};
  }
}
