/**
 * The transaction handlers over the whole table: list, add, overwrite-update and delete. Only `add`
 * looks at the caller (to stamp the new row); update and delete take any id, whoever owns it.
 */
module TransactionController {
  import opened Wrappers
  import opened TransactionModel

  datatype TxError =
    | MissingFields   // 400 'Missing required fields.'
    | AddFailed       // 400 'Error adding transaction.'
    | NotFound        // 404 'Transaction not found.'
    | UpdateFailed    // 400 'Error updating transaction.'
  {
    /** The HTTP status the handlers answer with: 404 for an unknown id, 400 for every other error. */
    function Status(): (s: nat)
      ensures s == 404 <==> NotFound?
      ensures s == 400 <==> !NotFound?
    {
      match this
      case MissingFields => 400
      case AddFailed => 400
      case NotFound => 404
      case UpdateFailed => 400
    }
  }

  /** Whether a JSON amount is truthy: a number other than 0, or a non-empty string. */
  predicate AmountTruthy(a: Option<Amount>)
    ensures AmountTruthy(a) <==> a != None && a != Some(Number(0.0)) && a != Some(Text(""))
  {
    match a
    case None => false
    case Some(Number(n)) => n != 0.0
    case Some(Text(s)) => s != ""
  }

  /** `!amount || !category || !type || !date`, negated: a numeric 0 amount is falsy, `"0"` is not. */
  predicate AllTruthy(req: Request)
    ensures AllTruthy(req) ==> req.amount.Some? && req.category.Some? && req.kind.Some? && req.date.Some?
    ensures AllTruthy(req) ==> req.amount != Some(Number(0.0)) && req.amount != Some(Text(""))
  {
    AmountTruthy(req.amount) && Truthy(req.category) && Truthy(req.kind) && Truthy(req.date)
  }

  /**
   * Past the guard, a present value is never the reason an add fails: the database refuses it only
   * for an amount that is no FLOAT, a name outside an enumeration, or a date that is no date.
   */
  lemma GuardLeavesOnlyRefusals(req: Request, asFloat: string -> Option<real>, isDate: string -> bool)
    requires AllTruthy(req)
    ensures Validate(req, asFloat, isDate).None? <==>
              || AmountValue(req.amount.value, asFloat).None?
              || ParseCategory(req.category.value).None?
              || ParseKind(req.kind.value).None?
              || !isDate(req.date.value)
  {
  }

  /**
   * `addTransaction` turns away a numeric amount of 0, which `updateTransaction` stores; the text
   * `"0"` passes the guard and, when it reads as 0, is stored by `addTransaction` as 0.
   */
  lemma ZeroAmount(req: Request, asFloat: string -> Option<real>, isDate: string -> bool)
    requires Validate(req, asFloat, isDate).Some?
    requires asFloat("0") == Some(0.0)
    ensures !AllTruthy(req.(amount := Some(Number(0.0))))
    ensures Validate(req.(amount := Some(Number(0.0))), asFloat, isDate).Some?
    ensures Truthy(req.category) && Truthy(req.kind) ==> AllTruthy(req.(amount := Some(Text("0"))))
    ensures Validate(req.(amount := Some(Text("0"))), asFloat, isDate).value.amount == 0.0
  {
  }

  class TransactionTable {
    var rows: map<nat, Transaction>
    var nextId: nat

    /** Rows are keyed by their id, and every id lies below the auto-increment counter. */
    ghost predicate Valid()
      reads this
    {
      1 <= nextId && forall k :: k in rows ==> rows[k].id == k && k < nextId
    }

    constructor ()
      ensures Valid() && rows == map[] && nextId == 1
    {
      rows := map[];
      nextId := 1;
    }

    /** `getTransactions`: every row of every user. */
    method GetTransactions() returns (all: set<Transaction>)
      requires Valid()
      ensures forall k :: k in rows ==> rows[k] in all
      ensures forall t :: t in all ==> t.id in rows && rows[t.id] == t
    {
      all := rows.Values;
    }

    /**
     * `addTransaction`: a falsy field answers 400 before the database is touched; values the
     * database refuses answer 400 too; otherwise a row with a fresh id, stamped with the caller.
     */
    method AddTransaction(userId: nat, req: Request, asFloat: string -> Option<real>, isDate: string -> bool) returns (r: Result<Transaction, TxError>)
      requires Valid()
      modifies this
      ensures Valid()
      ensures !AllTruthy(req) ==> r == Failure(MissingFields) && unchanged(this)
      ensures AllTruthy(req) && Validate(req, asFloat, isDate).None? ==> r == Failure(AddFailed) && unchanged(this)
      ensures AllTruthy(req) && Validate(req, asFloat, isDate).Some? ==>
                var cols := Validate(req, asFloat, isDate).value;
                var row := Transaction(old(nextId), cols.amount, cols.category, cols.kind, cols.date, userId);
                && old(nextId) !in old(rows)
                && rows == old(rows)[old(nextId) := row]
                && nextId == old(nextId) + 1
                && r == Success(row)
    {
      if !AllTruthy(req) {
        return Failure(MissingFields);
      }
      var cols := Validate(req, asFloat, isDate);
      if cols.None? {
        return Failure(AddFailed);
      }
      var row := Transaction(nextId, cols.value.amount, cols.value.category, cols.value.kind,
                             cols.value.date, userId);
      rows := rows[nextId := row];
      nextId := nextId + 1;
      r := Success(row);
    }

    /**
     * `updateTransaction`: an unknown id answers 404; otherwise all four columns are overwritten
     * with the request's values, and saving fails (400, nothing written) when one is absent or
     * refused. The id and the owner stay, and no other row is touched.
     */
    method UpdateTransaction(id: nat, req: Request, asFloat: string -> Option<real>, isDate: string -> bool) returns (r: Result<Transaction, TxError>)
      requires Valid()
      modifies this
      ensures Valid() && nextId == old(nextId)
      ensures id !in old(rows) ==> r == Failure(NotFound) && rows == old(rows)
      ensures id in old(rows) && Validate(req, asFloat, isDate).None? ==> r == Failure(UpdateFailed) && rows == old(rows)
      ensures id in old(rows) && Validate(req, asFloat, isDate).Some? ==>
                var cols := Validate(req, asFloat, isDate).value;
                var row := old(rows)[id].(amount := cols.amount, category := cols.category,
                                          kind := cols.kind, date := cols.date);
                && r == Success(row)
                && rows == old(rows)[id := row]
                && row.id == id && row.userId == old(rows)[id].userId
    {
      if id !in rows {
        return Failure(NotFound);
      }
      var cols := Validate(req, asFloat, isDate);
      if cols.None? {
        return Failure(UpdateFailed);
      }
      var tx := rows[id];
      tx := tx.(amount := cols.value.amount);
      tx := tx.(category := cols.value.category);
      tx := tx.(kind := cols.value.kind);
      tx := tx.(date := cols.value.date);
      rows := rows[id := tx];
      r := Success(tx);
    }

    /** `deleteTransaction`: an unknown id answers 404; otherwise exactly that row goes. */
    method DeleteTransaction(id: nat) returns (r: Result<(), TxError>)
      requires Valid()
      modifies this
      ensures Valid() && nextId == old(nextId)
      ensures id !in old(rows) ==> r == Failure(NotFound) && rows == old(rows)
      ensures id in old(rows) ==> r == Success(()) && rows == old(rows) - {id}
    {
      if id !in rows {
        return Failure(NotFound);
      }
      rows := rows - {id};
      r := Success(());
    }

    /**
     * An add followed by a delete of the row it created leaves the table's rows as they were; only
     * the auto-increment counter remembers the add. `deleted` is `None` when there was nothing to delete.
     */
    method AddThenDelete(userId: nat, req: Request, asFloat: string -> Option<real>, isDate: string -> bool)
      returns (added: Result<Transaction, TxError>, deleted: Option<Result<(), TxError>>)
      requires Valid()
      modifies this
      ensures Valid() && rows == old(rows)
      ensures added.Success? <==> AllTruthy(req) && Validate(req, asFloat, isDate).Some?
      ensures added.Success? ==> deleted == Some(Success(())) && nextId == old(nextId) + 1
      ensures added.Failure? ==> deleted == None && nextId == old(nextId)
    {
      added := AddTransaction(userId, req, asFloat, isDate);
      if added.Success? {
        var outcome := DeleteTransaction(added.value.id);
        deleted := Some(outcome);
      } else {
        deleted := None;
      }
    }
  }
}
