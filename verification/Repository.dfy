/** The intent, attempt and payout tables. */
module Repository {
  import opened Domain
  import opened Database
  import opened Ledger
  import opened Books

  predicate KeyTaken(rows: seq<Intent>, pi: Intent) {
    exists i :: 0 <= i < |rows| && rows[i].merchant == pi.merchant && rows[i].key == pi.key
  }

  /** No two rows share merchant and key. */
  predicate DistinctKeys(rows: seq<Intent>) {
    forall i, j :: 0 <= i < j < |rows| ==> rows[i].merchant != rows[j].merchant || rows[i].key != rows[j].key
  }

  class IntentRepo {
    const db: Connection
    var rows: seq<Intent>

    constructor (db: Connection)
      ensures this.db == db && rows == []
    {
      this.db := db;
      rows := [];
    }

    /** The unique index refuses a second row for a merchant and key. */
    method Create(pi: Intent) returns (ok: bool, id: nat)
      modifies this, db`issued
      ensures ok <==>
                old(db.issued) !in db.faults &&
                forall i :: 0 <= i < |old(rows)| ==> old(rows)[i].merchant != pi.merchant || old(rows)[i].key != pi.key
      ensures ok <==> old(db.issued) !in db.faults && !KeyTaken(old(rows), pi)
      ensures DistinctKeys(old(rows)) ==> DistinctKeys(rows)
      ensures rows == (if ok then old(rows) + [pi] else old(rows)) && id == |old(rows)|
      ensures db.issued == old(db.issued) + 1
    {
      id := |rows|;
      ok := db.Try();
      ok := ok && !KeyTaken(rows, pi);
      if ok {
        rows := rows + [pi];
      }
    }

    method GetByID(id: nat) returns (ok: bool, pi: Intent)
      modifies db`issued
      ensures ok <==> old(db.issued) !in db.faults && id < |rows|
      ensures ok ==> pi == rows[id]
      ensures db.issued == old(db.issued) + 1
    {
      ok := db.Try();
      ok := ok && id < |rows|;
      pi := if ok then rows[id] else Intent("", "", 0, "", Created);
    }

    /** Writes the status whatever it was; an identifier that is not there is no error. */
    method UpdateStatus(id: nat, status: PIStatus) returns (ok: bool)
      modifies this, db
      ensures ok <==> old(db.issued) !in db.faults
      ensures rows == if ok && id < |old(rows)| then old(rows)[id := old(rows)[id].(status := status)] else old(rows)
      ensures db.issued == old(db.issued) + 1 && db.failed == (old(db.failed) || !ok)
      ensures DistinctKeys(old(rows)) ==> DistinctKeys(rows)
    {
      ok := db.Exec(true);
      if ok && id < |rows| {
        rows := rows[id := rows[id].(status := status)];
      }
    }

    /** Compare and set: writes only over the expected status and says whether it did. */
    method UpdateStatusSafe(id: nat, from: PIStatus, to: PIStatus) returns (ok: bool, changed: bool)
      modifies this, db
      ensures ok <==> old(db.issued) !in db.faults
      ensures changed <==> ok && id < |old(rows)| && old(rows)[id].status == from
      ensures rows == if changed then old(rows)[id := old(rows)[id].(status := to)] else old(rows)
      ensures db.issued == old(db.issued) + 1 && db.failed == (old(db.failed) || !ok)
      ensures DistinctKeys(old(rows)) ==> DistinctKeys(rows)
    {
      ok := db.Exec(true);
      changed := ok && id < |rows| && rows[id].status == from;
      if changed {
        rows := rows[id := rows[id].(status := to)];
      }
    }
  }

  class AttemptRepo {
    const db: Connection
    var rows: seq<Attempt>

    constructor (db: Connection)
      ensures this.db == db && rows == []
    {
      this.db := db;
      rows := [];
    }

    method Create(a: Attempt) returns (ok: bool, aid: nat)
      modifies this, db
      ensures ok <==> old(db.issued) !in db.faults
      ensures rows == (if ok then old(rows) + [a] else old(rows)) && aid == |old(rows)|
      ensures db.issued == old(db.issued) + 1 && db.failed == (old(db.failed) || !ok)
    {
      aid := |rows|;
      ok := db.Exec(true);
      if ok {
        rows := rows + [a];
      }
    }

    method GetByID(aid: nat) returns (ok: bool, a: Attempt)
      modifies db`issued
      ensures ok <==> old(db.issued) !in db.faults && aid < |rows|
      ensures ok ==> a == rows[aid]
      ensures db.issued == old(db.issued) + 1
    {
      ok := db.Try();
      ok := ok && aid < |rows|;
      a := if ok then rows[aid] else Attempt(0, "", "", APending);
    }

    /** Some row with the reference; nothing makes references unique. */
    method GetByPSPReference(psp: string, ref: string) returns (ok: bool, aid: nat, a: Attempt)
      modifies db`issued
      ensures ok <==>
                old(db.issued) !in db.faults && exists i :: 0 <= i < |rows| && rows[i].psp == psp && rows[i].ref == ref
      ensures ok ==> aid < |rows| && a == rows[aid] && a.psp == psp && a.ref == ref
      ensures db.issued == old(db.issued) + 1
    {
      ok := db.Try();
      aid, a := 0, Attempt(0, "", "", APending);
      if ok {
        if i :| 0 <= i < |rows| && rows[i].psp == psp && rows[i].ref == ref {
          aid, a := i, rows[i];
        } else {
          ok := false;
        }
      }
    }

    method UpdateStatus(aid: nat, status: AttemptStatus) returns (ok: bool)
      modifies this, db
      ensures ok <==> old(db.issued) !in db.faults
      ensures rows == if ok && aid < |old(rows)| then old(rows)[aid := old(rows)[aid].(status := status)] else old(rows)
      ensures db.issued == old(db.issued) + 1 && db.failed == (old(db.failed) || !ok)
    {
      ok := db.Exec(true);
      if ok && aid < |rows| {
        rows := rows[aid := rows[aid].(status := status)];
      }
    }
  }

  class PayoutRepo {
    const db: Connection
    var rows: seq<Payout>

    constructor (db: Connection)
      ensures this.db == db && rows == []
    {
      this.db := db;
      rows := [];
    }

    method Create(p: Payout) returns (ok: bool, id: nat)
      modifies this, db`issued
      ensures ok <==> old(db.issued) !in db.faults
      ensures rows == (if ok then old(rows) + [p] else old(rows)) && id == |old(rows)|
      ensures db.issued == old(db.issued) + 1
    {
      id := |rows|;
      ok := db.Try();
      if ok {
        rows := rows + [p];
      }
    }

    method UpdateStatus(id: nat, status: PayoutStatus) returns (ok: bool)
      modifies this, db
      ensures ok <==> old(db.issued) !in db.faults
      ensures rows == if ok && id < |old(rows)| then old(rows)[id := old(rows)[id].(status := status)] else old(rows)
      ensures db.issued == old(db.issued) + 1 && db.failed == (old(db.failed) || !ok)
    {
      ok := db.Exec(true);
      if ok && id < |rows| {
        rows := rows[id := rows[id].(status := status)];
      }
    }
  }

  /** The tables of four repositories as one value. */
  ghost function TablesOf(i: IntentRepo, a: AttemptRepo, p: PayoutRepo, l: LedgerRepo): Tables
    reads i, a, p, l
  {
    Tables(i.rows, a.rows, p.rows, l.rows)
  }
}
