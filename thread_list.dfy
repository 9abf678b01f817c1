/** The `ThreadList` component of the thread-history panel: the rows of the
    thread list, selection mode with its set of selected thread ids, and the
    single and batch delete workflows with their confirmation dialogs. */
module ThreadListView {
  import opened JsValues
  import opened JsSet
  import opened BatchDeletes

  // ----- Threads and the text shown for them -----

  datatype Message<C> = Message(content: C)

  /** What a thread's `values.messages` holds, as far as the row cares. */
  datatype MessagesField<C> = Absent | NotAnArray | MessageArray(items: seq<Message<C>>)

  /** A thread's `values`: not an object, `null`, or an object. */
  datatype Values<C> = NotAnObject | NullValues | ObjectValues(messages: MessagesField<C>)

  datatype Thread<C> = Thread(threadId: string, values: Values<C>)

  /** The first message of a thread whose values carry a non-empty message array. */
  function FirstMessage<C>(t: Thread<C>): (m: Option<Message<C>>) {
    match t.values
    case ObjectValues(MessageArray(items)) =>
      if |items| > 0 then Some(items[0]) else None
    case _ => None
  }

  /** The text of a row. `contentString` turns message content into text; it
      lives outside the panel and is a parameter here. */
  function PreviewText<C>(t: Thread<C>, contentString: C -> string): (text: string)
    ensures t.values.ObjectValues? && t.values.messages.MessageArray? && |t.values.messages.items| > 0
            ==> text == contentString(t.values.messages.items[0].content)
    ensures !t.values.ObjectValues? || !t.values.messages.MessageArray? || t.values.messages.items == []
            ==> text == t.threadId
  {
    match FirstMessage(t)
    case Some(m) => contentString(m.content)
    case None => t.threadId
  }

  // ----- Pure rules of the rendered panel -----

  /** The single-delete confirmation is shown when a delete is being confirmed
      outside selection mode. */
  predicate SingleDeleteDialogOpen(deleteConfirmOpen: bool, selectionMode: bool): (open: bool)
    ensures open ==> deleteConfirmOpen && !selectionMode
    ensures !selectionMode ==> (open <==> deleteConfirmOpen)
  {
    deleteConfirmOpen && !selectionMode
  }

  /** The batch-delete confirmation is shown when a delete is being confirmed
      in selection mode. */
  predicate BatchDeleteDialogOpen(deleteConfirmOpen: bool, selectionMode: bool): (open: bool)
    ensures open ==> deleteConfirmOpen && selectionMode
    ensures selectionMode ==> (open <==> deleteConfirmOpen)
  {
    deleteConfirmOpen && selectionMode
  }

  /** At most one confirmation is on screen; one is exactly when a delete is
      being confirmed, and selection mode decides which. */
  lemma DialogsExclusive(deleteConfirmOpen: bool, selectionMode: bool)
    ensures !(SingleDeleteDialogOpen(deleteConfirmOpen, selectionMode)
              && BatchDeleteDialogOpen(deleteConfirmOpen, selectionMode))
    ensures (SingleDeleteDialogOpen(deleteConfirmOpen, selectionMode)
             || BatchDeleteDialogOpen(deleteConfirmOpen, selectionMode)) <==> deleteConfirmOpen
    ensures BatchDeleteDialogOpen(deleteConfirmOpen, selectionMode) ==> selectionMode
    ensures SingleDeleteDialogOpen(deleteConfirmOpen, selectionMode) ==> !selectionMode
  {
  }

  /** The footer offers "Select All" while fewer ids are selected than there
      are threads, and "Deselect" otherwise. */
  predicate OffersSelectAll(selectedCount: nat, threadCount: nat): (offers: bool)
    ensures offers ==> threadCount > 0
    ensures selectedCount == 0 ==> (offers <==> threadCount > 0)
    ensures selectedCount >= threadCount ==> !offers
  {
    selectedCount < threadCount
  }

  /** Right after Select All the footer still offers "Select All" exactly when
      the list holds the same thread id twice. */
  lemma {:induction false} OffersSelectAllAfterSelectAll(ids: seq<string>)
    ensures OffersSelectAll(|FromSeq(ids)|, |ids|) <==> !NoDups(ids)
  {
    FromSeqLength(ids);
  }

  /** What the panel reports to the user after a batch delete. */
  datatype Toast = NoToast | Deleted(count: nat) | DeleteFailed

  // ----- The component's state and handlers -----

  class ThreadList {
    /** The ids of the `threads` the list shows, in list order. */
    const threadIds: seq<string>
    /** The `threadId` query parameter: the thread open in the main view. */
    var openThreadId: Option<string>
    var deleteConfirmOpen: bool
    var threadToDelete: Option<string>
    var selectionMode: bool
    /** `selectedThreadIds`, in the set's insertion order. */
    var selected: seq<string>
    var isDeleting: bool

    /** The selection has no repeats, and outside selection mode nothing is
        selected. The handlers keep the second part because the row
        checkboxes, Select All, Deselect and Delete (n) are only rendered in
        selection mode, which their `requires selectionMode` records. */
    ghost predicate Valid()
      reads this
    {
      NoDups(selected) && (!selectionMode ==> selected == [])
    }

    constructor (ids: seq<string>, openThread: Option<string>)
      ensures Valid()
      ensures threadIds == ids && openThreadId == openThread
      ensures !deleteConfirmOpen && threadToDelete == None
      ensures !selectionMode && selected == [] && !isDeleting
    {
      threadIds := ids;
      openThreadId := openThread;
      deleteConfirmOpen := false;
      threadToDelete := None;
      selectionMode := false;
      selected := [];
      isDeleting := false;
    }

    /** The trash button of a row, shown only outside selection mode:
        remember the thread and ask for confirmation. */
    method DeleteClick(tid: string)
      requires Valid() && !selectionMode
      modifies this`threadToDelete, this`deleteConfirmOpen
      ensures Valid()
      ensures threadToDelete == Some(tid) && deleteConfirmOpen
      ensures SingleDeleteDialogOpen(deleteConfirmOpen, selectionMode)
    {
      threadToDelete := Some(tid);
      deleteConfirmOpen := true;
    }

    /** The Delete button of the single-delete confirmation. `store` answers
        whether the delete of an id succeeds; the ids actually sent to it are
        returned in `calls`. A failure is only logged. */
    method DeleteConfirm(store: string -> bool) returns (calls: seq<string>)
      requires Valid()
      modifies this`openThreadId, this`deleteConfirmOpen, this`threadToDelete
      ensures Valid()
      ensures calls == if Truthy(old(threadToDelete)) then [old(threadToDelete).value] else []
      ensures openThreadId
              == if |calls| == 1 && store(calls[0]) && old(openThreadId) == Some(calls[0]) then None
                 else old(openThreadId)
      ensures !deleteConfirmOpen && threadToDelete == None
    {
      calls := [];
      if Truthy(threadToDelete) {
        var target := threadToDelete.value;
        calls := [target];
        if store(target) && Some(target) == openThreadId {
          openThreadId := None;
        }
      }
      deleteConfirmOpen := false;
      threadToDelete := None;
    }

    /** A row's checkbox, shown only in selection mode: flip that one id's
        membership. */
    method ToggleSelect(tid: string)
      requires Valid() && selectionMode
      modifies this`selected
      ensures Valid()
      ensures selected == Toggled(old(selected), tid)
      ensures tid in selected <==> tid !in old(selected)
      ensures forall x :: x != tid ==> (x in selected <==> x in old(selected))
      ensures Elems(old(selected)) <= Elems(threadIds) && tid in threadIds
              ==> Elems(selected) <= Elems(threadIds)
    {
      selected := Toggled(selected, tid);
    }

    /** Select All: exactly the ids of the listed threads, in list order. */
    method SelectAll()
      requires Valid() && selectionMode
      modifies this`selected
      ensures Valid()
      ensures selected == FromSeq(threadIds)
      ensures forall x :: x in selected <==> x in threadIds
      ensures NoDups(threadIds) ==> selected == threadIds
    {
      selected := FromSeq(threadIds);
      if NoDups(threadIds) {
        FromSeqOfDistinct(threadIds);
      }
    }

    /** Deselect: nothing selected, the mode stays. */
    method DeselectAll()
      requires Valid() && selectionMode
      modifies this`selected
      ensures Valid()
      ensures selected == []
    {
      selected := [];
    }

    /** Cancel: leave selection mode with nothing selected. */
    method CancelSelection()
      requires Valid()
      modifies this`selectionMode, this`selected
      ensures Valid()
      ensures !selectionMode && selected == []
    {
      selectionMode := false;
      selected := [];
    }

    /** The Select / Exit Select button above the list. */
    method SelectButtonClick()
      requires Valid()
      modifies this`selectionMode, this`selected
      ensures Valid()
      ensures old(selectionMode) ==> !selectionMode && selected == []
      ensures !old(selectionMode) ==> selectionMode && selected == old(selected)
    {
      if selectionMode {
        CancelSelection();
      } else {
        selectionMode := true;
      }
    }

    /** A click on a row. In selection mode it toggles the row; otherwise it
        tells the `onThreadClick` callback (`notified`) and opens the thread. */
    method RowClick(tid: string) returns (notified: bool)
      requires Valid()
      modifies this`selected, this`openThreadId
      ensures Valid()
      ensures selectionMode ==>
                !notified && selected == Toggled(old(selected), tid) && openThreadId == old(openThreadId)
      ensures !selectionMode ==>
                notified && openThreadId == Some(tid) && selected == old(selected)
    {
      if selectionMode {
        ToggleSelect(tid);
        notified := false;
        return;
      }
      notified := true;
      if Some(tid) == openThreadId {
        return;
      }
      openThreadId := Some(tid);
    }

    /** The Delete (n) button of the selection footer; it is disabled while a
        batch runs or when nothing is selected, and then a click does nothing. */
    method RequestBatchDelete()
      requires Valid() && selectionMode
      modifies this`deleteConfirmOpen
      ensures Valid()
      ensures deleteConfirmOpen ==> BatchDeleteDialogOpen(deleteConfirmOpen, selectionMode)
      ensures deleteConfirmOpen == (old(deleteConfirmOpen) || (!isDeleting && selected != []))
    {
      if !isDeleting && selected != [] {
        deleteConfirmOpen := true;
      }
    }

    /** A confirmation dialog asks to be opened or closed (its Cancel button,
        Escape, a click outside). The pending single delete is kept. */
    method ConfirmOpenChange(open: bool)
      requires Valid()
      modifies this`deleteConfirmOpen
      ensures Valid()
      ensures deleteConfirmOpen == open
    {
      deleteConfirmOpen := open;
    }

    /** The Delete button of the batch confirmation. The selected ids are
        deleted one after another, in selection order, and the batch stops at
        the first delete that fails. On full success the open thread is closed
        if it was selected and selection mode ends; on a failure the selection
        and the mode stay as they were. Either way the dialog closes. */
    method BatchDelete(store: string -> bool) returns (calls: seq<string>, toast: Toast)
      requires Valid()
      modifies this`isDeleting, this`openThreadId, this`selectionMode, this`selected, this`deleteConfirmOpen
      ensures Valid()
      ensures old(selected) == [] ==>
                calls == [] && toast == NoToast
                && isDeleting == old(isDeleting) && deleteConfirmOpen == old(deleteConfirmOpen)
                && openThreadId == old(openThreadId)
                && selectionMode == old(selectionMode) && selected == old(selected)
      ensures old(selected) != [] ==>
                calls == IssuedDeletes(old(selected), store) && !isDeleting && !deleteConfirmOpen
      ensures old(selected) != [] && AllSucceed(old(selected), store) ==>
                toast == Deleted(|old(selected)|) && !selectionMode && selected == []
                && openThreadId
                   == if Truthy(old(openThreadId)) && old(openThreadId).value in old(selected) then None
                      else old(openThreadId)
      ensures old(selected) != [] && !AllSucceed(old(selected), store) ==>
                toast == DeleteFailed && openThreadId == old(openThreadId)
                && selectionMode == old(selectionMode) && selected == old(selected)
    {
      if |selected| == 0 {
        calls, toast := [], NoToast;
        return;
      }
      isDeleting := true;
      var ids := selected;
      var failed;
      calls, failed := DeleteInOrder(ids, store);
      if !failed {
        if Truthy(openThreadId) && openThreadId.value in ids {
          openThreadId := None;
        }
        toast := Deleted(|ids|);
        selectionMode := false;
        selected := [];
      } else {
        toast := DeleteFailed;
      }
      isDeleting := false;
      deleteConfirmOpen := false;
    }
  }

  // ----- Whole interactions on a list of three threads "a", "b", "c" -----

  /** Select "a" and "c", confirm, and every delete succeeds: the store is
      asked for "a" and then "c", and the list leaves selection mode. */
  method BatchScenarioAllSucceed() returns (calls: seq<string>, toast: Toast, mode: bool, selection: seq<string>)
    ensures calls == ["a", "c"] && toast == Deleted(2)
    ensures !mode && selection == []
  {
    var list := new ThreadList(["a", "b", "c"], None);
    list.SelectButtonClick();
    list.ToggleSelect("a");
    list.ToggleSelect("c");
    list.RequestBatchDelete();
    assert list.selected == ["a", "c"];
    assert BatchDeleteDialogOpen(list.deleteConfirmOpen, list.selectionMode);
    var store := (id: string) => true;
    assert ["a", "c"][1..] == ["c"] && ["c"][1..] == [];
    assert AllSucceed(["a", "c"], store);
    assert IssuedDeletes(["a", "c"], store) == ["a", "c"];
    calls, toast := list.BatchDelete(store);
    mode, selection := list.selectionMode, list.selected;
  }

  /** The same, but the delete of "a" fails: "c" is never asked for, and the
      selection and the mode are kept for another try. */
  method BatchScenarioFirstFails() returns (calls: seq<string>, toast: Toast, mode: bool, selection: seq<string>)
    ensures calls == ["a"] && toast == DeleteFailed
    ensures mode && selection == ["a", "c"]
  {
    var list := new ThreadList(["a", "b", "c"], None);
    list.SelectButtonClick();
    list.ToggleSelect("a");
    list.ToggleSelect("c");
    list.RequestBatchDelete();
    var store := (id: string) => id != "a";
    assert IssuedDeletes(["a", "c"], store) == ["a"];
    assert !AllSucceed(["a", "c"], store) by { assert !store(["a", "c"][0]); }
    calls, toast := list.BatchDelete(store);
    mode, selection := list.selectionMode, list.selected;
  }

  /** Deleting the open thread on its own closes it; the confirmation closes. */
  method SingleScenarioDeleteOpenThread() returns (calls: seq<string>, open: Option<string>, dialog: bool)
    ensures calls == ["b"] && open == None && !dialog
  {
    var list := new ThreadList(["a", "b", "c"], Some("b"));
    list.DeleteClick("b");
    assert SingleDeleteDialogOpen(list.deleteConfirmOpen, list.selectionMode);
    calls := list.DeleteConfirm(id => true);
    open, dialog := list.openThreadId, list.deleteConfirmOpen;
  }
}
