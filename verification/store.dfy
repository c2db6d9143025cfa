/**
 * The document store as the handlers use it: a user's three collections and
 * the atomic multi-document batch. A batch is a sequence of writes applied
 * in order; `set` creates or overwrites a sale, `update` patches fields of a
 * document that must already exist. If any write cannot be applied, or the
 * store rejects the commit for a reason of its own, nothing is written.
 */
module Store {
  import opened Results
  import opened Records

  datatype Write =
    | SetSale(saleId: DocId, sale: Sale)
    | UpdateStock(drugId: DocId, quantity: int)
    | MarkFilled(prescriptionId: DocId, date: int)

  /** `update` fails on a missing document; `set` never does. */
  predicate Applicable(db: Db, w: Write) {
    match w
    case SetSale(_, _) => true
    case UpdateStock(id, _) => id in db.inventory
    case MarkFilled(id, _) => id in db.prescriptions
  }

  predicate AllApplicable(db: Db, ws: seq<Write>) {
    forall i :: 0 <= i < |ws| ==> Applicable(db, ws[i])
  }

  function ApplyWrite(db: Db, w: Write): Option<Db> {
    match w
    case SetSale(id, s) =>
      Some(db.(sales := db.sales[id := s]))
    case UpdateStock(id, q) =>
      if id in db.inventory then
        Some(db.(inventory := db.inventory[id := db.inventory[id].(quantityInStock := q)]))
      else None
    case MarkFilled(id, d) =>
      if id in db.prescriptions then
        Some(db.(prescriptions :=
          db.prescriptions[id := db.prescriptions[id].(isFilled := true, dateFilled := Some(d))]))
      else None
  }

  /** Applies the writes in order; the first write that cannot be applied voids the batch. */
  function ApplyBatch(db: Db, ws: seq<Write>): Option<Db>
    decreases |ws|
  {
    if |ws| == 0 then Some(db)
    else
      match ApplyBatch(db, ws[..|ws| - 1])
      case None => None
      case Some(d) => ApplyWrite(d, ws[|ws| - 1])
  }

  /**
   * `batch.commit()`: `accepted` is the store's own verdict (network, rules,
   * quota), which the model cannot see.
   */
  function Commit(db: Db, ws: seq<Write>, accepted: bool): (r: Option<Db>)
    ensures r.Some? <==> accepted && AllApplicable(db, ws)
    ensures r.Some? ==> r.value == Expected(db, ws)
  {
    BatchIsLastWriteWins(db, ws);
    if accepted then ApplyBatch(db, ws) else None
  }

  // ---------------------------------------------------------------------
  // Reference semantics: each document ends with the last value written to it.
  // ---------------------------------------------------------------------

  /** The last stock figure written to each drug id. */
  function StockWritten(ws: seq<Write>): map<DocId, int>
    decreases |ws|
  {
    if |ws| == 0 then map[]
    else
      var m := StockWritten(ws[..|ws| - 1]);
      match ws[|ws| - 1]
      case UpdateStock(id, q) => m[id := q]
      case _ => m
  }

  /** The last fill date written to each prescription id. */
  function FillsWritten(ws: seq<Write>): map<DocId, int>
    decreases |ws|
  {
    if |ws| == 0 then map[]
    else
      var m := FillsWritten(ws[..|ws| - 1]);
      match ws[|ws| - 1]
      case MarkFilled(id, d) => m[id := d]
      case _ => m
  }

  /** The last sale record set under each sale id. */
  function SalesWritten(ws: seq<Write>): map<DocId, Sale>
    decreases |ws|
  {
    if |ws| == 0 then map[]
    else
      var m := SalesWritten(ws[..|ws| - 1]);
      match ws[|ws| - 1]
      case SetSale(id, s) => m[id := s]
      case _ => m
  }

  function PatchStock(inv: Inventory, written: map<DocId, int>): Inventory {
    map k | k in inv :: if k in written then inv[k].(quantityInStock := written[k]) else inv[k]
  }

  function PatchFills(ps: map<DocId, Prescription>, written: map<DocId, int>): map<DocId, Prescription> {
    map k | k in ps :: if k in written then ps[k].(isFilled := true, dateFilled := Some(written[k])) else ps[k]
  }

  /** The state a fully applicable batch leaves behind, computed without ordering the writes. */
  function Expected(db: Db, ws: seq<Write>): Db {
    Db(PatchStock(db.inventory, StockWritten(ws)),
       db.sales + SalesWritten(ws),
       PatchFills(db.prescriptions, FillsWritten(ws)))
  }

  /** Applying a batch in order is the same as "all targets exist, then last write wins". */
  lemma {:induction false} BatchIsLastWriteWins(db: Db, ws: seq<Write>)
    ensures ApplyBatch(db, ws) == if AllApplicable(db, ws) then Some(Expected(db, ws)) else None
    decreases |ws|
  {
    if |ws| == 0 {
      assert PatchStock(db.inventory, map[]) == db.inventory;
      assert PatchFills(db.prescriptions, map[]) == db.prescriptions;
      assert db.sales + map[] == db.sales;
    } else {
      var p := ws[..|ws| - 1];
      var w := ws[|ws| - 1];
      BatchIsLastWriteWins(db, p);
      assert AllApplicable(db, ws) <==> AllApplicable(db, p) && Applicable(db, w) by {
        if AllApplicable(db, p) && Applicable(db, w) {
          forall i | 0 <= i < |ws| ensures Applicable(db, ws[i]) {
            if i < |p| { assert ws[i] == p[i]; }
          }
        }
        if AllApplicable(db, ws) {
          forall i | 0 <= i < |p| ensures Applicable(db, p[i]) {
            assert p[i] == ws[i];
          }
          assert Applicable(db, ws[|ws| - 1]);
        }
      }
      if AllApplicable(db, p) {
        var e := Expected(db, p);
        assert e.inventory.Keys == db.inventory.Keys;
        assert e.prescriptions.Keys == db.prescriptions.Keys;
        match w
        case SetSale(id, s) => {
          assert StockWritten(ws) == StockWritten(p);
          assert FillsWritten(ws) == FillsWritten(p);
          assert SalesWritten(ws) == SalesWritten(p)[id := s];
          assert db.sales + SalesWritten(ws) == (db.sales + SalesWritten(p))[id := s];
        }
        case UpdateStock(id, q) => {
          assert StockWritten(ws) == StockWritten(p)[id := q];
          assert FillsWritten(ws) == FillsWritten(p);
          assert SalesWritten(ws) == SalesWritten(p);
          if id in db.inventory {
            var inv := e.inventory[id := e.inventory[id].(quantityInStock := q)];
            assert inv == PatchStock(db.inventory, StockWritten(ws)) by {
              forall k | k in inv ensures inv[k] == PatchStock(db.inventory, StockWritten(ws))[k] {
              }
            }
          }
        }
        case MarkFilled(id, d) => {
          assert StockWritten(ws) == StockWritten(p);
          assert FillsWritten(ws) == FillsWritten(p)[id := d];
          assert SalesWritten(ws) == SalesWritten(p);
          if id in db.prescriptions {
            var ps := e.prescriptions[id := e.prescriptions[id].(isFilled := true, dateFilled := Some(d))];
            assert ps == PatchFills(db.prescriptions, FillsWritten(ws)) by {
              forall k | k in ps ensures ps[k] == PatchFills(db.prescriptions, FillsWritten(ws))[k] {
              }
            }
          }
        }
      }
    }
  }

  /** Writing `a` then `b` leaves each document with `b`'s last value for it, else `a`'s. */
  lemma {:induction false} WrittenAppend(a: seq<Write>, b: seq<Write>)
    ensures StockWritten(a + b) == StockWritten(a) + StockWritten(b)
    ensures FillsWritten(a + b) == FillsWritten(a) + FillsWritten(b)
    ensures SalesWritten(a + b) == SalesWritten(a) + SalesWritten(b)
    decreases |b|
  {
    if |b| == 0 {
      assert a + b == a;
    } else {
      var b' := b[..|b| - 1];
      assert (a + b)[..|a + b| - 1] == a + b';
      assert (a + b)[|a + b| - 1] == b[|b| - 1];
      WrittenAppend(a, b');
    }
  }

  // ---------------------------------------------------------------------
  // Batches of stock updates, as sales and prescription fills build them
  // ---------------------------------------------------------------------

  /** One stock update per (drug id, new stock) pair, in order. */
  function StockUpdates(us: seq<(DocId, int)>): (ws: seq<Write>)
    ensures |ws| == |us|
  {
    seq(|us|, i requires 0 <= i < |us| => UpdateStock(us[i].0, us[i].1))
  }

  predicate Targets(us: seq<(DocId, int)>, k: DocId) {
    exists i :: 0 <= i < |us| && us[i].0 == k
  }

  /** No later pair in `us` names the same drug as pair `i`. */
  predicate LastFor(us: seq<(DocId, int)>, i: int)
    requires 0 <= i < |us|
  {
    forall j :: i < j < |us| ==> us[j].0 != us[i].0
  }

  /** A batch of stock updates writes no sale and fills no prescription. */
  lemma {:induction false} StockUpdatesOnlyStock(us: seq<(DocId, int)>)
    ensures SalesWritten(StockUpdates(us)) == map[]
    ensures FillsWritten(StockUpdates(us)) == map[]
    decreases |us|
  {
    if |us| > 0 {
      assert StockUpdates(us)[..|us| - 1] == StockUpdates(us[..|us| - 1]);
      StockUpdatesOnlyStock(us[..|us| - 1]);
    }
  }

  /** A batch of stock updates writes exactly the drugs it names. */
  lemma {:induction false} StockUpdatesKeys(us: seq<(DocId, int)>)
    ensures forall k :: k in StockWritten(StockUpdates(us)) <==> Targets(us, k)
    decreases |us|
  {
    if |us| > 0 {
      var p := us[..|us| - 1];
      var last := us[|us| - 1];
      assert StockUpdates(us)[..|us| - 1] == StockUpdates(p);
      StockUpdatesKeys(p);
      var m := StockWritten(StockUpdates(us));
      assert m.Keys == StockWritten(StockUpdates(p)).Keys + {last.0};
      forall k ensures k in m <==> Targets(us, k) {
        if Targets(us, k) && k != last.0 {
          var i :| 0 <= i < |us| && us[i].0 == k;
          assert p[i] == us[i];
        }
        if Targets(p, k) {
          var i :| 0 <= i < |p| && p[i].0 == k;
          assert us[i] == p[i];
        }
      }
    }
  }

  /** Each drug ends with the value of the last pair that names it. */
  lemma {:induction false} StockUpdatesLastWins(us: seq<(DocId, int)>, i: int)
    requires 0 <= i < |us| && LastFor(us, i)
    ensures us[i].0 in StockWritten(StockUpdates(us))
    ensures StockWritten(StockUpdates(us))[us[i].0] == us[i].1
    decreases |us|
  {
    var p := us[..|us| - 1];
    var last := us[|us| - 1];
    assert StockUpdates(us)[..|us| - 1] == StockUpdates(p);
    assert StockWritten(StockUpdates(us)) == StockWritten(StockUpdates(p))[last.0 := last.1];
    if i < |p| {
      assert p[i] == us[i];
      assert last.0 != us[i].0;
      assert LastFor(p, i) by {
        forall j | i < j < |p| ensures p[j].0 != p[i].0 {
          assert p[j] == us[j];
        }
      }
      StockUpdatesLastWins(p, i);
    }
  }

  /** A batch of stock updates applies exactly when every named drug exists. */
  lemma StockUpdatesApplicable(db: Db, us: seq<(DocId, int)>)
    ensures AllApplicable(db, StockUpdates(us)) <==> forall i :: 0 <= i < |us| ==> us[i].0 in db.inventory
  {
    var ws := StockUpdates(us);
    if AllApplicable(db, ws) {
      forall i | 0 <= i < |us| ensures us[i].0 in db.inventory {
        assert Applicable(db, ws[i]);
      }
    }
  }

  /** Putting other writes before or after a batch does not change whether it applies. */
  lemma AllApplicableAppend(db: Db, a: seq<Write>, b: seq<Write>)
    ensures AllApplicable(db, a + b) <==> AllApplicable(db, a) && AllApplicable(db, b)
  {
    if AllApplicable(db, a + b) {
      forall i | 0 <= i < |a| ensures Applicable(db, a[i]) {
        assert (a + b)[i] == a[i];
      }
      forall i | 0 <= i < |b| ensures Applicable(db, b[i]) {
        assert (a + b)[|a| + i] == b[i];
      }
    }
  }
}
