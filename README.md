# Thread-history panel: interaction state

This project models the interaction logic of the thread-history panel of a chat front end (`src/components/thread/history/index.tsx`).

- **`ThreadList`** shows one row per thread. The row text is the first message's content, or the thread id when there is none. A row click opens that thread (the `threadId` query parameter). A trash button opens a confirmation for a single delete.
  - In *selection mode* a row click toggles the row's id in the selected set. A footer offers Select All or Deselect. Its Delete (n) button opens a batch confirmation, and the batch deletes the selected threads one after another.
- **`ThreadHistory`** is the side panel.
  - Its handle resizes it by dragging: the width is clamped to [200, 600], and every move stores it in local storage under `threadHistoryPanelWidth`.
  - On mount it reads the saved width back with `parseInt(saved, 10)`.
  - On small screens the panel becomes an overlay ("sheet"), open when `chatHistoryOpen` is set.

The project has five modules.

| file | module | what it holds |
|---|---|---|
| `js_values.dfy` | `JsValues` | Nullable strings and their truthiness. Numbers that may be NaN. The ECMAScript `parseInt` with radix 10 (ECMA-262 section 19.2.5), which trims WhiteSpace and LineTerminator (sections 12.2 and 12.3), then reads an optional sign and the leading decimal digits. The decimal `toString` of a non-negative integer. |
| `js_set.dfy` | `JsSet` | A JavaScript `Set<string>`: a sequence without repeats, in insertion order, because `Array.from` lists a set in that order and the batch deletes in that order. |
| `batch_deletes.dfy` | `BatchDeletes` | The delete calls a batch issues, and the loop that issues them. |
| `thread_list.dfy` | `ThreadListView` | Preview text, dialog predicates, the Select All choice, and the `ThreadList` class with its handlers. |
| `thread_history.dfy` | `ThreadHistoryView` | Width constants, clamp, mount-time load, the sheet rules, and the `ThreadHistory` class. |

The two classes hold the component state as fields, and each handler is a method that modifies only the fields the handler sets. `ThreadList.Valid()` says that the selection has no repeats and is empty outside selection mode. Every handler keeps it. A handler whose control is only rendered in one mode requires that mode: the checkboxes, Select All, Deselect and Delete (n) require selection mode, and the trash button requires its absence. Outside effects become values:

- `deleteThread` is a parameter `store: string -> bool`, which says whether the delete of an id succeeds.
- Local storage is a `map<string, string>` field.
- The `onWidthChange` callback is a field recording each reported width.
- `getContentString` is a function parameter.
- `isLargeScreen` is a boolean parameter.
- The pointer position is an integer.

## Model

| member | source | states |
|---|---|---|
| JsValues.Truthy | src/components/thread/history/index.tsx:339 | `null` and `""` are falsy and every other string is truthy, as the tests at lines 51, 98 and 339 use it |
| JsValues.TrimStart | src/components/thread/history/index.tsx:340 | What `parseInt` keeps after trimming is a suffix of its argument that does not start with white space, and everything dropped before it is white space |
| JsValues.ParseInt | src/components/thread/history/index.tsx:340 | `parseInt(s, 10)` gives a number only when `s` holds a decimal digit. When `s` starts with a digit, the number is the value of its leading run of digits |
| JsValues.LeadingDigits | src/components/thread/history/index.tsx:340 | The digits `parseInt` reads are a prefix of its input, are all digits, and are followed by a non-digit or by the end |
| JsValues.DecimalString | src/components/thread/history/index.tsx:369 | The `toString` of a stored width is a non-empty run of digits with no leading zero |
| JsValues.DecimalValueOfDecimalString | src/components/thread/history/index.tsx:369 | Reading the digits `toString` wrote gives back the number |
| JsValues.LeadingDigitsOfDigits | src/components/thread/history/index.tsx:340 | `parseInt` reads a whole run of digits and stops at the first non-digit |
| JsValues.ParseIntOfDecimalString | src/components/thread/history/index.tsx:340 | `parseInt(n.toString() + rest, 10)` is `n` whenever `rest` does not go on with a digit |
| JsValues.ParseDigitsOfDecimalString | src/components/thread/history/index.tsx:340 | The unsigned part of `parseInt` reads `n.toString()` followed by a non-digit as `n` |
| JsValues.ParseIntOfNegative | src/components/thread/history/index.tsx:340 | A leading minus gives the negated value, so a negative saved width is adopted as it is |
| JsValues.ParseIntOfPlus | src/components/thread/history/index.tsx:340 | A leading plus sign is skipped: `parseInt("+" + n.toString() + rest, 10)` is `n` |
| JsValues.ParseIntIsNaNExactly | src/components/thread/history/index.tsx:340 | `parseInt` gives NaN exactly when, after the leading white space and an optional sign, no decimal digit comes next |
| JsValues.ParseIntOfNonNumber | src/components/thread/history/index.tsx:340 | Text that starts with a character that is neither white space, a sign nor a digit gives NaN, whatever follows ("w1", "px450") |
| JsValues.ParseIntOfBareSign | src/components/thread/history/index.tsx:340 | A sign that no digit follows gives NaN ("-x5", "+") |
| JsValues.ParseIntSkipsWhitespace | src/components/thread/history/index.tsx:340 | Leading white space does not change what `parseInt` reads |
| JsValues.ParseIntWithoutDigits | src/components/thread/history/index.tsx:340 | Text without a decimal digit parses to NaN |
| JsSet.Delete | src/components/thread/history/index.tsx:69 | `set.delete(x)` removes exactly `x`, keeps every other element and the set free of repeats. An absent `x` leaves the set as it was; a present one is cut out at its position, and the rest keep their insertion order |
| JsSet.Add | src/components/thread/history/index.tsx:71 | `set.add(x)` adds exactly `x`: last if it is new, and nothing changes if it is there already |
| JsSet.Toggled | src/components/thread/history/index.tsx:65-75 | A toggle flips the membership of that id, leaves every other id's membership as it was, and keeps the set free of repeats |
| JsSet.FromSeq | src/components/thread/history/index.tsx:78 | `new Set(xs)` has no repeats, holds exactly the members of `xs`, and is no longer than `xs` |
| JsSet.DeleteAppended | src/components/thread/history/index.tsx:65-75 | Deleting the id that was just added gives back the selection as it was, order included |
| JsSet.ToggleTwice | src/components/thread/history/index.tsx:65-75 | Toggling the same id twice gives back the same set. When the id was not selected the order is kept too; when it was, the id moves to the end |
| JsSet.FromSeqOfDistinct | src/components/thread/history/index.tsx:78 | A list of distinct ids becomes a set with the same ids in the same order |
| JsSet.FromSeqLength | src/components/thread/history/index.tsx:78 | The set built from a list has as many elements as the list exactly when the list has no repeats |
| JsSet.FromSeqShorter | src/components/thread/history/index.tsx:78 | A list with a repeat gives a smaller set |
| BatchDeletes.IssuedDeletes | src/components/thread/history/index.tsx:94-97 | The deletes a batch issues are a prefix of the captured ids, taken in order |
| BatchDeletes.AllSucceedAt | src/components/thread/history/index.tsx:94-97 | The batch succeeds exactly when the delete of every captured id succeeds |
| BatchDeletes.BatchSucceedsIffEveryDeleteDoes | src/components/thread/history/index.tsx:94-97 | Every issued delete succeeds exactly when every id's delete would. A successful batch issues exactly one delete per captured id |
| BatchDeletes.IssuedStopsAtFirstFailure | src/components/thread/history/index.tsx:93-108 | Every issued delete except the last succeeded. The last one failed unless every id was reached, so nothing is issued after a failure |
| BatchDeletes.IssuedDeletesContinue | src/components/thread/history/index.tsx:95-97 | After a successful delete, the batch goes on with the next id |
| BatchDeletes.IssuedDeletesStop | src/components/thread/history/index.tsx:95-97 | A failed delete is the last call of the batch |
| BatchDeletes.DeleteInOrder | src/components/thread/history/index.tsx:94-97 | The loop issues exactly `IssuedDeletes` and reports a failure exactly when some delete fails |
| ThreadListView.PreviewText | src/components/thread/history/index.tsx:139-149 | A row shows the first message's content when the thread's values hold a non-empty message array, and the thread id otherwise |
| ThreadListView.SingleDeleteDialogOpen | src/components/thread/history/index.tsx:251 | The single-delete confirmation is shown only outside selection mode, and there exactly when a delete awaits confirmation |
| ThreadListView.BatchDeleteDialogOpen | src/components/thread/history/index.tsx:267 | The batch confirmation is shown only in selection mode, and there exactly when a delete awaits confirmation |
| ThreadListView.OffersSelectAll | src/components/thread/history/index.tsx:209 | "Select All" is offered only for a non-empty list. It is always offered when nothing is selected, and never once as many ids are selected as there are threads |
| ThreadListView.DialogsExclusive | src/components/thread/history/index.tsx:251-267 | At most one confirmation is open. One is open exactly when a delete awaits confirmation; the batch one only in selection mode, the single one only outside it |
| ThreadListView.OffersSelectAllAfterSelectAll | src/components/thread/history/index.tsx:209 | Right after Select All, the footer still offers "Select All" exactly when the list holds a thread id twice |
| ThreadListView.ThreadList.constructor | src/components/thread/history/index.tsx:36-42 | The list starts outside selection mode: nothing selected, no dialog, no pending delete, not deleting |
| ThreadListView.ThreadList.DeleteClick | src/components/thread/history/index.tsx:44-48 | The trash button, shown only outside selection mode, remembers the thread and opens the confirmation, which is then the single-delete one |
| ThreadListView.ThreadList.DeleteConfirm | src/components/thread/history/index.tsx:50-63 | Only a non-empty pending id is deleted. The open thread is cleared only when that delete succeeds and the id is the open one. The dialog always ends closed with nothing pending |
| ThreadListView.ThreadList.ToggleSelect | src/components/thread/history/index.tsx:65-75 | The toggled id flips membership and every other id keeps it. The selection stays free of repeats and within the listed ids |
| ThreadListView.ThreadList.SelectAll | src/components/thread/history/index.tsx:77-79 | The selection becomes exactly the listed ids, in list order when they are distinct |
| ThreadListView.ThreadList.DeselectAll | src/components/thread/history/index.tsx:81-83 | The selection becomes empty and the mode is not touched |
| ThreadListView.ThreadList.CancelSelection | src/components/thread/history/index.tsx:85-88 | Cancel leaves selection mode with an empty selection |
| ThreadListView.ThreadList.SelectButtonClick | src/components/thread/history/index.tsx:123-129 | Exit Select leaves the mode with an empty selection. Select enters the mode and keeps the selection. "Nothing selected outside selection mode" is preserved |
| ThreadListView.ThreadList.RowClick | src/components/thread/history/index.tsx:173-182 | In selection mode a row click toggles that id, leaves the open thread alone and does not call back. Otherwise it calls back and the clicked thread is open afterwards, unchanged if it already was |
| ThreadListView.ThreadList.RequestBatchDelete | src/components/thread/history/index.tsx:221-226 | The Delete (n) button opens the batch confirmation unless a batch is running or nothing is selected |
| ThreadListView.ThreadList.ConfirmOpenChange | src/components/thread/history/index.tsx:251 | Cancel, Escape or an outside click sets the dialog's open state and keeps the pending single delete |
| ThreadListView.ThreadList.BatchDelete | src/components/thread/history/index.tsx:90-113 | An empty selection changes nothing and issues no call. Otherwise the batch issues `IssuedDeletes` of the selection, in order. On full success: the open thread is cleared exactly when it was selected, the mode ends and the selection empties. On a failure: mode, selection and open thread are kept. The dialog closes and `isDeleting` is false in both cases |
| ThreadListView.BatchScenarioAllSucceed | src/components/thread/history/index.tsx:90-113 | Selecting "a" and "c" of three threads with every delete succeeding: the store is asked for "a" then "c", the toast says 2, and the list leaves selection mode |
| ThreadListView.BatchScenarioFirstFails | src/components/thread/history/index.tsx:90-113 | When the delete of "a" fails, "c" is never asked for, the failure toast is shown, and mode and selection are kept |
| ThreadListView.SingleScenarioDeleteOpenThread | src/components/thread/history/index.tsx:50-63 | Deleting the open thread by itself closes it, and the dialog closes |
| ThreadHistoryView.ClampWidth | src/components/thread/history/index.tsx:363 | A dragged width lies in [200, 600]. A position inside that range is kept, and one outside it gives the nearer bound |
| ThreadHistoryView.GetItem | src/components/thread/history/index.tsx:338 | Reading the storage gives the stored string under the key, and `null` exactly when nothing is stored there |
| ThreadHistoryView.LoadedWidth | src/components/thread/history/index.tsx:339-345 | A falsy saved value gives the default 300. NaN comes only from a non-empty saved string, and a number only from one that holds a digit |
| ThreadHistoryView.SheetOpen | src/components/thread/history/index.tsx:437 | The overlay is never open on a large screen; on a small one it is open exactly when `chatHistoryOpen` is set |
| ThreadHistoryView.LoadedWidthOfPersisted | src/components/thread/history/index.tsx:336-347 | A width a drag stored loads back on mount as that same width |
| ThreadHistoryView.LoadedWidthWhenNothingSaved | src/components/thread/history/index.tsx:339-345 | Nothing saved, or the empty string, keeps the default width 300 |
| ThreadHistoryView.LoadedWidthOfSavedNumber | src/components/thread/history/index.tsx:339-341 | Saved "450" loads as 450 |
| ThreadHistoryView.LoadedWidthNotClamped | src/components/thread/history/index.tsx:339-341 | Saved "900" loads as 900: the mount-time load is not clamped |
| ThreadHistoryView.LoadedWidthIgnoresUnit | src/components/thread/history/index.tsx:339-341 | Saved "450px" loads as 450 |
| ThreadHistoryView.LoadedWidthNaN | src/components/thread/history/index.tsx:339-341 | Saved "wide" loads as NaN, not as the default |
| ThreadHistoryView.ThreadHistory.constructor | src/components/thread/history/index.tsx:331-332 | The first render has the default width and no drag under way |
| ThreadHistoryView.ThreadHistory.Mount | src/components/thread/history/index.tsx:336-347 | A non-empty saved value is adopted as `parseInt(saved, 10)`; otherwise the width is unchanged. Either way the loaded width is reported exactly once, and afterwards the width is what storage says |
| ThreadHistoryView.ThreadHistory.MouseDown | src/components/thread/history/index.tsx:350-355 | Pressing the handle starts a drag and puts the drag styling on the page |
| ThreadHistoryView.ThreadHistory.MouseMove | src/components/thread/history/index.tsx:359-371 | Outside a drag a move changes nothing. During a drag, the width, the reported value and the stored string are all the clamped position. The width is then in [200, 600] and loads back from storage as itself |
| ThreadHistoryView.ThreadHistory.MouseUp | src/components/thread/history/index.tsx:373-379 | A release ends the drag and removes the drag styling; outside a drag it changes nothing |
| ThreadHistoryView.ThreadHistory.PressAndRelease | src/components/thread/history/index.tsx:350-379 | Press then release with no move leaves width, storage and reports as they were, and no drag is under way |
| ThreadHistoryView.ThreadHistory.ToggleHistory | src/components/thread/history/index.tsx:417 | The header button flips `chatHistoryOpen` |
| ThreadHistoryView.ThreadHistory.SheetOpenChange | src/components/thread/history/index.tsx:436-441 | On a large screen the overlay's open request is ignored. Otherwise `chatHistoryOpen` is the requested state, and the overlay is closed exactly when the screen is large or closing was asked for |
| ThreadHistoryView.ThreadHistory.OverlayRowClick | src/components/thread/history/index.tsx:450-453 | A row click in the overlay outside selection mode opens the thread and flips `chatHistoryOpen`. In selection mode it toggles the row and leaves the overlay as it is |
| ThreadHistoryView.MountScenarioSaved | src/components/thread/history/index.tsx:336-347 | Mounting with "450" saved gives width 450, reported once |
| ThreadHistoryView.MountScenarioNothingSaved | src/components/thread/history/index.tsx:336-347 | Mounting with nothing saved keeps 300, reported once |
| ThreadHistoryView.DragScenario | src/components/thread/history/index.tsx:359-371 | A drag to x = 1000 stops at 600, and the stored string loads back as 600 |

## Behaviour worth noting

The model follows the code in each of these points, which a reader of the panel might expect to go the other way.

- **Batch failure.** The batch loop sits inside one `try` (lines 93–108), so the first rejected delete ends it. No later id is sent, and the selection and mode are kept.
- **Unparsable saved width.** A non-empty saved width that does not start with a number becomes NaN (line 340). It does not fall back to the default.
- **No clamp on load.** A loaded width outside [200, 600] is adopted unclamped.
- **Overlay row click.** A row click in the overlay toggles `chatHistoryOpen` (line 452). That closes an open overlay, but it is a toggle, not a close.
- **Separate selections.** The sidebar and the overlay render separate `ThreadList` instances (lines 432 and 450), each with its own selection state.

## Left out

- The `deleteThread` provider call is asynchronous and can fail in other ways. It becomes the answer `store(id)`. Its effect on the thread list itself belongs to the provider and is not part of this model.
- Async interleaving: each awaited delete runs to completion before the next event. `isDeleting` is set and cleared inside one `BatchDelete` call, so a click during a running batch is not modelled.
- The toasts' texts and plurals, and the `console.error` logging. A batch's outcome is a `Toast` tag, and the single delete's failure is not recorded.
- JSX markup, class names, icons and the `ThreadHistoryLoading` skeleton (lines 299–310).
- The thread fetch effect (lines 390–397).
- Event-listener registration on `document`, and the `typeof window` checks: the model always runs in a browser.
- `document.body.style`: cursor and user-select become the single flag `dragStyling`.
- `useQueryState` URL syncing. `threadId` and `chatHistoryOpen` are fields of the classes. The two `ThreadList` instances share the one `threadId` parameter, but here each keeps its own copy.
- `useMediaQuery`: `isLargeScreen` is a parameter.
- `getContentString` is not part of this model (it is imported from another file); `PreviewText` takes it as a parameter.
- The threads of a list are fixed for its lifetime (`threadIds` is a constant). A new `threads` array from the provider is not modelled.
- `clientX` is a floating-point number in the browser; here it is an integer.
- JsValues.ParseInt: it reads into unbounded integers. The loss of precision of long digit runs as doubles, Infinity, and the sign of -0 are not modelled.
- JsValues.DecimalString: it covers non-negative integers only. These are all a clamped width can be.
