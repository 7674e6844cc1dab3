/** The three deposit handlers, each run to its end without interruption. */
module DepositHandlers {
  import opened Wrappers
  import opened DepositRace

  function Updated(row: Row, hash: Option<TxHash>, complete: bool): Row {
    row.(hash := if hash.Some? then hash else row.hash, status := if complete then Completed else row.status)
  }

  function NewRow(f: Facts, id: CircleId, hash: Option<TxHash>, complete: bool): Row {
    Row(id, hash, if complete then Completed else Pending, f.userOf(id), f.amountOf(id))
  }

  /** What one uninterrupted handler does to the table: the deposit's row becomes completed
      if `complete` and takes the hash if one is known; a missing row is inserted; no other
      row changes. */
  ghost predicate HandledRows(rows: map<nat, Row>, nextRow: nat, rows': map<nat, Row>,
                              f: Facts, id: CircleId, hash: Option<TxHash>, complete: bool) {
    && (forall r :: r in rows ==>
          r in rows' && rows'[r] == if rows[r].ref == id then Updated(rows[r], hash, complete) else rows[r])
    && (if HasRef(rows, id) then rows'.Keys == rows.Keys
        else rows'.Keys == rows.Keys + {nextRow} && rows'[nextRow] == NewRow(f, id, hash, complete))
  }

  lemma UpdatesRow(s: State, f: Facts, id: CircleId, r: nat, hash: Option<TxHash>, complete: bool)
    requires RowsInv(s, f) && r in s.rows && s.rows[r].ref == id && (hash.Some? ==> hash.value == f.hashOf(id))
    ensures Writable(s, f, r, Updated(s.rows[r], hash, complete))
    ensures HandledRows(s.rows, s.nextRow, s.rows[r := Updated(s.rows[r], hash, complete)], f, id, hash, complete)
  {
  }

  lemma LeavesRow(s: State, f: Facts, id: CircleId, r: nat, hash: Option<TxHash>, complete: bool)
    requires RowsInv(s, f) && r in s.rows && s.rows[r].ref == id && Updated(s.rows[r], hash, complete) == s.rows[r]
    ensures HandledRows(s.rows, s.nextRow, s.rows, f, id, hash, complete)
  {
  }

  lemma AddsRow(s: State, f: Facts, id: CircleId, hash: Option<TxHash>, complete: bool)
    requires RowsInv(s, f) && !HasRef(s.rows, id) && (hash.Some? ==> hash.value == f.hashOf(id))
    ensures s.nextRow !in s.rows && Writable(s, f, s.nextRow, NewRow(f, id, hash, complete))
    ensures HandledRows(s.rows, s.nextRow, s.rows[s.nextRow := NewRow(f, id, hash, complete)], f, id, hash, complete)
  {
  }

  lemma HashMeansRef(s: State, f: Facts, r: nat, id: CircleId)
    requires OneToOne(f) && RowsInv(s, f) && r in s.rows && s.rows[r].hash == Some(f.hashOf(id))
    ensures s.rows[r].ref == id
  {
  }

  lemma KnownHash(s: State, f: Facts, r: nat, id: CircleId)
    requires RowsInv(s, f) && r in s.rows && s.rows[r].ref == id
    ensures s.rows[r].hash == None || s.rows[r].hash == Some(f.hashOf(id))
  {
  }

  lemma CompletedIs(s: State, f: Facts, r: nat, id: CircleId)
    requires RowsInv(s, f) && r in s.rows && s.rows[r].ref == id
    ensures HasRef(s.rows, id) && (IsCompleted(s.rows, id) <==> s.rows[r].status == Completed)
  {
  }

  lemma NoRef(s: State, id: CircleId)
    requires forall r :: r in s.rows ==> s.rows[r].ref != id
    ensures !HasRef(s.rows, id) && !IsCompleted(s.rows, id)
  {
  }

  /** From s to t, deposit `id` is credited to its user once if `paid`; nothing else is. */
  ghost predicate Pays(s: State, t: State, f: Facts, id: CircleId, paid: bool) {
    && (forall i :: Credits(t, i) == Credits(s, i) + if paid && i == id then 1 else 0)
    && (forall u :: Credited(t, u) == Credited(s, u) + if paid && u == f.userOf(id) then f.amountOf(id) else 0)
  }

  lemma WritePays(s: State, f: Facts, r: nat, row: Row)
    ensures Pays(s, Write(s, f, r, row), f, row.ref, Completes(s.rows, r, row))
  {
  }

  /** Where the deposit stands afterwards, read off the rows. */
  lemma HandledMeans(s: State, rows': map<nat, Row>, f: Facts, id: CircleId, hash: Option<TxHash>, complete: bool)
    requires RowsInv(s, f) && HandledRows(s.rows, s.nextRow, rows', f, id, hash, complete)
    ensures HasRef(rows', id) && (IsCompleted(rows', id) <==> complete || IsCompleted(s.rows, id))
    ensures hash.Some? ==> forall r :: r in rows' && rows'[r].ref == id ==> rows'[r].hash == hash
  {
    if r :| r in s.rows && s.rows[r].ref == id {
      CompletedIs(s, f, r, id);
      assert rows'[r].ref == id;
    } else {
      NoRef(s, id);
      assert rows'[s.nextRow].ref == id;
    }
  }

  lemma PaysNothing(s: State, f: Facts, id: CircleId)
    ensures Pays(s, s, f, id, false)
  {
  }

  class Database {
    var rows: map<nat, Row>
    var nextRow: nat
    var credited: map<nat, int>
    ghost var credits: map<CircleId, nat>

    ghost function Tables(): State
      reads this
    {
      State(rows, nextRow, credited, credits, [])
    }

    ghost predicate Valid(f: Facts)
      reads this
    {
      OneToOne(f) && RowsInv(Tables(), f) && CreditInv(Tables(), f)
    }

    constructor ()
      ensures Tables() == EMPTY
      ensures forall f :: OneToOne(f) ==> Valid(f)
    {
      rows, nextRow, credited, credits := map[], 0, map[], map[];
      new;
      forall f | OneToOne(f) ensures Valid(f) { InitInv(f); }
    }

    /** Adds the amount to the user's balance. */
    method CreditUser(ghost f: Facts, id: CircleId, user: nat, amount: nat)
      requires user == f.userOf(id) && amount == f.amountOf(id)
      modifies `credited, `credits
      ensures credited == old(Credit(Tables(), f, id).credited) && credits == old(Credit(Tables(), f, id).credits)
    {
      credited := credited[user := (if user in credited then credited[user] else 0) + amount];
      credits := credits[id := (if id in credits then credits[id] else 0) + 1];
    }

    /** Writes row `r`, and credits the user if that completes the deposit. */
    method WriteAndCredit(ghost f: Facts, r: nat, row: Row)
      requires Valid(f) && Writable(Tables(), f, r, row)
      modifies this
      ensures Valid(f) && Tables() == old(Write(Tables(), f, r, row)) && rows == old(rows)[r := row]
      ensures Pays(old(Tables()), Tables(), f, row.ref, old(Completes(rows, r, row)))
    {
      WriteRow(Tables(), f, r, row);
      WritePays(Tables(), f, r, row);
      if Completes(rows, r, row) {
        CreditUser(f, row.ref, row.user, row.amount);
      }
      rows := rows[r := row];
      nextRow := if r < nextRow then nextRow else r + 1;
    }

    /** `HandledRows` for a handler that started in the old state. */
    twostate predicate Handled(f: Facts, id: CircleId, hash: Option<TxHash>, complete: bool)
      reads this
    {
      Valid(f) && HandledRows(old(rows), old(nextRow), rows, f, id, hash, complete)
    }

    /** Writes the deposit's row `r` again, with what the notification adds. */
    method UpdateRow(ghost f: Facts, id: CircleId, r: nat, row: Row, ghost hash: Option<TxHash>, ghost complete: bool)
      requires Valid(f) && r in rows && rows[r].ref == id && row == Updated(rows[r], hash, complete)
      requires hash.Some? ==> hash.value == f.hashOf(id)
      modifies this
      ensures Handled(f, id, hash, complete) && rows == old(rows)[r := row]
      ensures Pays(old(Tables()), Tables(), f, id, complete && old(rows[r].status) == Pending)
    {
      hide CreditInv, OneToOne;
      ghost var s := Tables();
      UpdatesRow(s, f, id, r, hash, complete);
      WriteAndCredit(f, r, row);
    }

    method InsertRow(ghost f: Facts, id: CircleId, row: Row, ghost hash: Option<TxHash>, ghost complete: bool)
      requires Valid(f) && !HasRef(rows, id) && row == NewRow(f, id, hash, complete)
      requires hash.Some? ==> hash.value == f.hashOf(id)
      modifies this
      ensures Handled(f, id, hash, complete)
      ensures Pays(old(Tables()), Tables(), f, id, complete)
    {
      hide CreditInv, OneToOne;
      AddsRow(Tables(), f, id, hash, complete);
      WriteAndCredit(f, nextRow, row);
    }

    /** Step 1 to 3 of the indexer's `_handleDeposit`. Returns whether to sweep. */
    method HandleDeposit(ghost f: Facts, id: CircleId, userId: nat, amount: nat, txHash: TxHash, pendingOnly: bool)
      returns (sweep: bool)
      requires Valid(f) && userId == f.userOf(id) && amount == f.amountOf(id) && txHash == f.hashOf(id)
      modifies this
      ensures Handled(f, id, Some(txHash), !pendingOnly)
      ensures IsCompleted(rows, id) <==> !pendingOnly || old(IsCompleted(rows, id))
      ensures sweep <==> IsCompleted(rows, id) && !old(IsCompleted(rows, id))
      ensures Pays(old(Tables()), Tables(), f, id, sweep)
      ensures forall r :: r in rows && rows[r].ref == id ==> rows[r].hash == Some(txHash)
    {
      hide CreditInv, OneToOne, RowsInv, HandledRows, IsCompleted, HasRef, Write, Pays;
      ghost var s := Tables();
      if r :| r in rows && rows[r].hash == Some(txHash) {
        var existingByHash := rows[r];
        HashMeansRef(s, f, r, id);
        CompletedIs(s, f, r, id);
        if existingByHash.status == Completed || pendingOnly {
          LeavesRow(s, f, id, r, Some(txHash), !pendingOnly);
          HandledMeans(s, rows, f, id, Some(txHash), !pendingOnly);
          PaysNothing(s, f, id);
          return false;
        }
        UpdateRow(f, id, r, existingByHash.(status := Completed, hash := Some(txHash)), Some(txHash), true);
        HandledMeans(s, rows, f, id, Some(txHash), true);
        return true;
      }
      if r :| r in rows && rows[r].ref == id {
        var existingByRef := rows[r];
        CompletedIs(s, f, r, id);
        if !pendingOnly && existingByRef.status == Pending {
          UpdateRow(f, id, r, existingByRef.(status := Completed, hash := Some(txHash)), Some(txHash), true);
          HandledMeans(s, rows, f, id, Some(txHash), true);
          return true;
        }
        KnownHash(s, f, r, id);
        if existingByRef.hash == None {
          UpdateRow(f, id, r, existingByRef.(hash := Some(txHash)), Some(txHash), !pendingOnly);
        } else {
          LeavesRow(s, f, id, r, Some(txHash), !pendingOnly);
          PaysNothing(s, f, id);
        }
        HandledMeans(s, rows, f, id, Some(txHash), !pendingOnly);
        return false;
      }
      NoRef(s, id);
      var status := if pendingOnly then Pending else Completed;
      InsertRow(f, id, Row(id, Some(txHash), status, userId, amount), Some(txHash), !pendingOnly);
      HandledMeans(s, rows, f, id, Some(txHash), !pendingOnly);
      return !pendingOnly;
    }

    /** The on-chain inbound branch of the Circle webhook. Returns whether to sweep. */
    method InboundWebhook(ghost f: Facts, id: CircleId, userId: nat, amount: nat, txHash: Option<TxHash>, isComplete: bool)
      returns (sweep: bool)
      requires Valid(f) && userId == f.userOf(id) && amount == f.amountOf(id)
      requires txHash.Some? ==> txHash.value == f.hashOf(id)
      modifies this
      ensures Handled(f, id, txHash, isComplete)
      ensures IsCompleted(rows, id) <==> isComplete || old(IsCompleted(rows, id))
      ensures sweep <==> IsCompleted(rows, id) && !old(IsCompleted(rows, id))
      ensures Pays(old(Tables()), Tables(), f, id, sweep)
      ensures txHash.Some? ==> forall r :: r in rows && rows[r].ref == id ==> rows[r].hash == txHash
    {
      hide CreditInv, OneToOne, RowsInv, HandledRows, IsCompleted, HasRef, Write, Pays;
      ghost var s := Tables();
      if r :| r in rows && rows[r].ref == id {
        var existing := rows[r];
        CompletedIs(s, f, r, id);
        if existing.status == Pending && isComplete {
          var hash := if txHash.Some? then txHash else existing.hash;
          UpdateRow(f, id, r, existing.(status := Completed, hash := hash), txHash, isComplete);
          HandledMeans(s, rows, f, id, txHash, isComplete);
          return true;
        }
        KnownHash(s, f, r, id);
        if existing.hash == None && txHash.Some? {
          UpdateRow(f, id, r, existing.(hash := txHash), txHash, isComplete);
        } else {
          LeavesRow(s, f, id, r, txHash, isComplete);
          PaysNothing(s, f, id);
        }
        HandledMeans(s, rows, f, id, txHash, isComplete);
        return false;
      }
      NoRef(s, id);
      // The webhook looks for the hash next. Uninterrupted, a row with this hash has this
      // reference too, so it was found above; DepositRace has the interrupted case.
      if r :| r in rows && txHash.Some? && rows[r].hash == txHash {
        HashMeansRef(s, f, r, id);
        assert false;
      }
      var status := if isComplete then Completed else Pending;
      InsertRow(f, id, Row(id, txHash, status, userId, amount), txHash, isComplete);
      HandledMeans(s, rows, f, id, txHash, isComplete);
      return isComplete;
    }

    /** The Arc worker's transaction: insert or nothing. It does not promote a pending
        row, so it credits exactly when the table has no row for the deposit yet. */
    method ArcProcess(ghost f: Facts, id: CircleId, userId: nat, amount: nat, txHash: TxHash) returns (credit: bool)
      requires Valid(f) && userId == f.userOf(id) && amount == f.amountOf(id) && txHash == f.hashOf(id)
      modifies this
      ensures credit <==> !old(HasRef(rows, id))
      ensures credit ==> Handled(f, id, Some(txHash), true) && IsCompleted(rows, id)
      ensures Pays(old(Tables()), Tables(), f, id, credit)
      ensures !credit ==> Valid(f) && Tables() == old(Tables())
    {
      hide CreditInv, OneToOne, RowsInv, HandledRows, IsCompleted, HasRef, Write, Pays;
      ghost var s := Tables();
      if r :| r in rows && (rows[r].ref == id || rows[r].hash == Some(txHash)) {
        if rows[r].ref != id { HashMeansRef(s, f, r, id); }
        CompletedIs(s, f, r, id);
        PaysNothing(s, f, id);
        return false;
      }
      NoRef(s, id);
      InsertRow(f, id, Row(id, Some(txHash), Completed, userId, amount), Some(txHash), true);
      HandledMeans(s, rows, f, id, Some(txHash), true);
      return true;
    }
  }
}
