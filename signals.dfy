/** The two receivers connected to `Stock` saves, and the save pipelines they run in: Django
    sends `pre_save` before the row is written and `post_save` (with `created`) after it. */
module Signals {
  import opened Wrappers
  import opened Models
  import opened Store

  /** `if not instance.pk`: the instance has a primary key that is not 0. */
  predicate HasPk(pk: Option<nat>)
  {
    pk.Some? && pk.value != 0
  }

  /** The row `create_stock_added_history` writes for a newly created stock. */
  function AddedHookRow(pk: nat, instance: Stock): HistoryRow
  {
    HistoryRow(pk, "added", instance.addedBy, None, None,
               "Stock " + instance.serialNumber + " added to inventory.")
  }

  /** The row `track_stock_changes` writes when the instance gets a (different) holder. */
  function AssignedRow(pk: nat, instance: Stock): HistoryRow
    requires instance.assignedTo.Some?
  {
    HistoryRow(pk, "assigned", instance.addedBy, None, None,
               "Assigned to " + UserText(instance.assignedTo.value) + ".")
  }

  /** The row `track_stock_changes` writes when the instance loses its holder. */
  function ReturnedRow(pk: nat, instance: Stock): HistoryRow
  {
    HistoryRow(pk, "returned", instance.addedBy, None, None, "Returned to stock (unassigned).")
  }

  /** The row `track_stock_changes` writes when the status differs from the stored one. */
  function StatusChangeRow(pk: nat, stored: Stock, instance: Stock): HistoryRow
  {
    HistoryRow(pk, "status_change", instance.addedBy, None, None,
               "Status changed from " + StatusValue(stored.status) + " to " + StatusValue(instance.status) + ".")
  }

  /** What the pre-save hook does to an instance whose stored row is `stored`: the instance it
      lets through to the write and the history rows it appends, in order. */
  function ChangeHook(pk: nat, stored: Stock, instance: Stock, today: int): (r: (Stock, seq<HistoryRow>))
    // the instance written: only `last_assigned_date` may change, set to today on a new holder
    ensures r.0 == if !SameUser(stored.assignedTo, instance.assignedTo) && instance.assignedTo.Some?
                   then instance.(lastAssignedDate := Some(today)) else instance
    // one row per changed aspect: holder, then status
    ensures |r.1| == (if SameUser(stored.assignedTo, instance.assignedTo) then 0 else 1)
                   + (if stored.status == instance.status then 0 else 1)
    ensures forall k :: 0 <= k < |r.1| ==>
              r.1[k].stock == pk && r.1[k].performedBy == instance.addedBy
              && r.1[k].transferredFrom.None? && r.1[k].transferredTo.None? && r.1[k].action in ActionChoices
    ensures !SameUser(stored.assignedTo, instance.assignedTo) ==>
              r.1[0] == if instance.assignedTo.Some? then AssignedRow(pk, instance) else ReturnedRow(pk, instance)
    ensures stored.status != instance.status ==>
              r.1[|r.1| - 1].action == "status_change"
              && r.1[|r.1| - 1].details == "Status changed from " + StatusValue(stored.status)
                                           + " to " + StatusValue(instance.status) + "."
  {
    var holderChanged := !SameUser(stored.assignedTo, instance.assignedTo);
    var saved := if holderChanged && instance.assignedTo.Some?
                 then instance.(lastAssignedDate := Some(today)) else instance;
    var holderRows := if !holderChanged then []
                      else if instance.assignedTo.Some? then [AssignedRow(pk, instance)]
                      else [ReturnedRow(pk, instance)];
    var statusRows := if stored.status == instance.status then [] else [StatusChangeRow(pk, stored, instance)];
    (saved, holderRows + statusRows)
  }

  /** A save that changes neither the holder nor the status is logged by nothing and
      passes the instance through unchanged. */
  lemma QuietSave(pk: nat, stored: Stock, instance: Stock, today: int)
    requires SameUser(stored.assignedTo, instance.assignedTo) && stored.status == instance.status
    ensures ChangeHook(pk, stored, instance, today) == (instance, [])
  {
  }

  /** `create_stock_added_history`, the `post_save` receiver. */
  method CreateStockAddedHistory(ledger: Ledger, pk: nat, instance: Stock, created: bool)
    requires ledger.Valid() && (created ==> pk in ledger.stocks)
    modifies ledger
    ensures ledger.Valid()
    ensures ledger.stocks == old(ledger.stocks) && ledger.nextPk == old(ledger.nextPk)
    ensures ledger.history == old(ledger.history) + if created then [AddedHookRow(pk, instance)] else []
  {
    if created {
      ledger.AppendHistory(AddedHookRow(pk, instance));
    }
  }

  /** `track_stock_changes`, the `pre_save` receiver: compares the instance with its stored row,
      logs holder and status changes and stamps `last_assigned_date` on a new holder. */
  method TrackStockChanges(ledger: Ledger, pk: Option<nat>, instance: Stock, today: int) returns (saved: Stock)
    requires ledger.Valid()
    requires HasPk(pk) ==> pk.value in ledger.stocks
    modifies ledger
    ensures ledger.Valid()
    ensures ledger.stocks == old(ledger.stocks) && ledger.nextPk == old(ledger.nextPk)
    ensures !HasPk(pk) ==> saved == instance && ledger.history == old(ledger.history)
    ensures HasPk(pk) ==>
              var r := ChangeHook(pk.value, old(ledger.stocks)[pk.value], instance, today);
              saved == r.0 && ledger.history == old(ledger.history) + r.1
  {
    if !HasPk(pk) {
      return instance;
    }
    var stored := ledger.stocks[pk.value];
    saved := instance;
    if !SameUser(stored.assignedTo, instance.assignedTo) {
      if instance.assignedTo.Some? {
        saved := saved.(lastAssignedDate := Some(today));
        ledger.AppendHistory(AssignedRow(pk.value, instance));
      } else {
        ledger.AppendHistory(ReturnedRow(pk.value, instance));
      }
    }
    if stored.status != instance.status {
      ledger.AppendHistory(StatusChangeRow(pk.value, stored, instance));
    }
  }

  /** `Stock.objects.create(...)`: `pre_save` (a no-op without a key), the INSERT, then
      `post_save` with `created` set, which logs the `added` row. */
  method CreateStock(ledger: Ledger, instance: Stock, today: int) returns (pk: Option<nat>)
    requires ledger.Valid()
    modifies ledger
    ensures ledger.Valid()
    ensures pk.Some? <==> Admissible(old(ledger.stocks), old(ledger.nextPk), instance)
    ensures pk.Some? ==>
              pk.value == old(ledger.nextPk) && pk.value !in old(ledger.stocks)
              && ledger.stocks == old(ledger.stocks)[pk.value := instance]
              && ledger.nextPk == old(ledger.nextPk) + 1
              && ledger.history == old(ledger.history) + [AddedHookRow(pk.value, instance)]
    ensures pk.None? ==>
              ledger.stocks == old(ledger.stocks) && ledger.nextPk == old(ledger.nextPk)
              && ledger.history == old(ledger.history)
  {
    var row := TrackStockChanges(ledger, None, instance, today);
    pk := ledger.Insert(row);
    if pk.Some? {
      CreateStockAddedHistory(ledger, pk.value, row, true);
    }
  }

  /** `stock.save()` on a stored row: `pre_save` logs the changes and may stamp the date, the
      UPDATE writes what it let through, then `post_save` without `created` logs nothing. The
      rows `pre_save` logged stay even when a unique constraint rejects the UPDATE. */
  method SaveStock(ledger: Ledger, pk: nat, instance: Stock, today: int) returns (ok: bool)
    requires ledger.Valid() && pk in ledger.stocks
    modifies ledger
    ensures ledger.Valid()
    ensures ledger.nextPk == old(ledger.nextPk)
    ensures var r := ChangeHook(pk, old(ledger.stocks)[pk], instance, today);
            && ledger.history == old(ledger.history) + r.1
            && (ok <==> Admissible(old(ledger.stocks), pk, r.0))
            && ledger.stocks == if ok then old(ledger.stocks)[pk := r.0] else old(ledger.stocks)
  {
    var row := TrackStockChanges(ledger, Some(pk), instance, today);
    ok := ledger.Update(pk, row);
    if ok {
      CreateStockAddedHistory(ledger, pk, row, false);
    }
  }
}
