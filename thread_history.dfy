/** The `ThreadHistory` component: the panel that holds the thread list, its
    drag-to-resize handle with the width kept in local storage, and the overlay
    ("sheet") it becomes on small screens. */
module ThreadHistoryView {
  import opened JsValues
  import opened JsSet
  import ThreadListView

  const MIN_WIDTH: int := 200
  const MAX_WIDTH: int := 600
  const DEFAULT_WIDTH: int := 300

  /** The local-storage key under which the panel width is kept. */
  const WIDTH_KEY: string := "threadHistoryPanelWidth"

  function Max(a: int, b: int): (m: int) { if a >= b then a else b }

  function Min(a: int, b: int): (m: int) { if a <= b then a else b }

  /** The width a drag to pointer position `x` gives the panel. */
  function ClampWidth(x: int): (w: int)
    ensures MIN_WIDTH <= w <= MAX_WIDTH
    ensures MIN_WIDTH <= x <= MAX_WIDTH ==> w == x
    ensures x < MIN_WIDTH ==> w == MIN_WIDTH
    ensures x > MAX_WIDTH ==> w == MAX_WIDTH
  {
    Min(Max(x, MIN_WIDTH), MAX_WIDTH)
  }

  /** `localStorage.getItem(key)`: `null` when nothing is stored under `key`. */
  function GetItem(storage: map<string, string>, key: string): (item: Option<string>)
    ensures item.Some? <==> key in storage
    ensures item.Some? ==> item.value == storage[key]
  {
    if key in storage then Some(storage[key]) else None
  }

  /** The width the mount-time load adopts: the default when nothing (or the
      empty string) was saved, otherwise `parseInt(saved, 10)`, unclamped and
      possibly NaN. */
  function LoadedWidth(saved: Option<string>): (w: Number)
    ensures !Truthy(saved) ==> w == Int(DEFAULT_WIDTH)
    ensures w.NaN? ==> Truthy(saved)
    ensures Truthy(saved) && w.Int? ==> exists i :: 0 <= i < |saved.value| && IsDigit(saved.value[i])
  {
    if Truthy(saved) then ParseInt(saved.value) else Int(DEFAULT_WIDTH)
  }

  /** The string a drag persists for width `w` loads back as `w`. */
  lemma {:induction false} LoadedWidthOfPersisted(w: nat)
    ensures LoadedWidth(Some(DecimalString(w))) == Int(w)
  {
    var d := DecimalString(w);
    assert d + [] == d;
    ParseIntOfDecimalString(w, []);
    assert ParseInt(d) == Int(w);
    assert Truthy(Some(d));
  }

  /** Nothing saved, or the empty string, keeps the default width. */
  lemma LoadedWidthWhenNothingSaved()
    ensures LoadedWidth(None) == Int(DEFAULT_WIDTH)
    ensures LoadedWidth(Some("")) == Int(DEFAULT_WIDTH)
  {
  }

  /** A saved number is adopted as it is. */
  lemma {:induction false} LoadedWidthOfSavedNumber()
    ensures LoadedWidth(Some("450")) == Int(450)
  {
    assert DecimalString(450) == "450";
    LoadedWidthOfPersisted(450);
  }

  /** A saved number outside [MIN_WIDTH, MAX_WIDTH] is not clamped. */
  lemma {:induction false} LoadedWidthNotClamped()
    ensures LoadedWidth(Some("900")) == Int(900)
  {
    assert DecimalString(900) == "900";
    LoadedWidthOfPersisted(900);
  }

  /** What follows the number, such as a unit, is ignored. */
  lemma {:induction false} LoadedWidthIgnoresUnit()
    ensures LoadedWidth(Some("450px")) == Int(450)
  {
    assert "450px" == "450" + "px";
    LeadingDigitsOfDigits("450", "px");
    assert DecimalValue("450") == 450 by {
      assert "450"[..2] == "45" && "45"[..1] == "4" && "4"[..0] == "";
    }
  }

  /** Saved text that does not start with a number gives NaN, not the default. */
  lemma {:induction false} LoadedWidthNaN()
    ensures LoadedWidth(Some("wide")) == NaN
  {
    var s := "wide";
    assert forall i :: 0 <= i < |s| ==> !IsDigit(s[i]) by {
      assert s[0] == 'w' && s[1] == 'i' && s[2] == 'd' && s[3] == 'e';
    }
    ParseIntWithoutDigits(s);
    assert Truthy(Some(s));
  }

  /** The overlay is shown when the history is open and the screen is small. */
  predicate SheetOpen(chatHistoryOpen: bool, isLargeScreen: bool): (open: bool)
    ensures isLargeScreen ==> !open
    ensures !isLargeScreen ==> (open <==> chatHistoryOpen)
  {
    chatHistoryOpen && !isLargeScreen
  }

  class ThreadHistory {
    var panelWidth: Number
    /** The `isResizing` ref: a drag of the handle is under way. */
    var isResizing: bool
    /** The body carries the drag styling (`col-resize` cursor, no text selection). */
    var dragStyling: bool
    /** The browser's local storage. */
    var storage: map<string, string>
    /** The widths passed to `onWidthChange`, oldest first. */
    var widthReports: seq<Number>
    /** The `chatHistoryOpen` query parameter. */
    var chatHistoryOpen: bool

    /** The width is what a fresh mount would load from storage. */
    ghost predicate WidthMatchesStorage()
      reads this
    {
      panelWidth == LoadedWidth(GetItem(storage, WIDTH_KEY))
    }

    ghost predicate WidthInRange()
      reads this
    {
      panelWidth.Int? && MIN_WIDTH <= panelWidth.value <= MAX_WIDTH
    }

    /** The first render, before any effect has run. */
    constructor (initialStorage: map<string, string>, initialChatHistoryOpen: bool)
      ensures panelWidth == Int(DEFAULT_WIDTH) && !isResizing && !dragStyling
      ensures storage == initialStorage && widthReports == []
      ensures chatHistoryOpen == initialChatHistoryOpen
    {
      panelWidth := Int(DEFAULT_WIDTH);
      isResizing := false;
      dragStyling := false;
      storage := initialStorage;
      widthReports := [];
      chatHistoryOpen := initialChatHistoryOpen;
    }

    /** The mount effect: adopt the saved width, if any, and report the width
        once. The report in the other branch is the width of the first render. */
    method Mount()
      modifies this`panelWidth, this`widthReports
      ensures Truthy(GetItem(storage, WIDTH_KEY)) ==> panelWidth == ParseInt(storage[WIDTH_KEY])
      ensures !Truthy(GetItem(storage, WIDTH_KEY)) ==> panelWidth == old(panelWidth)
      ensures widthReports == old(widthReports) + [LoadedWidth(GetItem(storage, WIDTH_KEY))]
      ensures old(panelWidth) == Int(DEFAULT_WIDTH) ==> WidthMatchesStorage()
    {
      var saved := GetItem(storage, WIDTH_KEY);
      if Truthy(saved) {
        var width := ParseInt(saved.value);
        panelWidth := width;
        widthReports := widthReports + [width];
      } else {
        widthReports := widthReports + [Int(DEFAULT_WIDTH)];
      }
    }

    /** Mouse-down on the resize handle. */
    method MouseDown()
      modifies this`isResizing, this`dragStyling
      ensures isResizing && dragStyling
    {
      isResizing := true;
      dragStyling := true;
    }

    /** A mouse move anywhere in the document, at horizontal position `x`. */
    method MouseMove(x: int)
      modifies this`panelWidth, this`widthReports, this`storage
      ensures !isResizing ==>
                panelWidth == old(panelWidth) && widthReports == old(widthReports) && storage == old(storage)
      ensures isResizing ==>
                panelWidth == Int(ClampWidth(x))
                && widthReports == old(widthReports) + [Int(ClampWidth(x))]
                && storage == old(storage)[WIDTH_KEY := DecimalString(ClampWidth(x))]
      ensures isResizing ==> WidthInRange() && WidthMatchesStorage()
      ensures old(WidthMatchesStorage()) ==> WidthMatchesStorage()
    {
      if !isResizing {
        return;
      }
      var clampedWidth := ClampWidth(x);
      panelWidth := Int(clampedWidth);
      widthReports := widthReports + [Int(clampedWidth)];
      storage := storage[WIDTH_KEY := DecimalString(clampedWidth)];
      LoadedWidthOfPersisted(clampedWidth);
    }

    /** A mouse-up anywhere in the document. */
    method MouseUp()
      modifies this`isResizing, this`dragStyling
      ensures !isResizing
      ensures old(isResizing) ==> !dragStyling
      ensures !old(isResizing) ==> dragStyling == old(dragStyling)
    {
      if !isResizing {
        return;
      }
      isResizing := false;
      dragStyling := false;
    }

    /** Pressing and releasing the handle without moving leaves the width, the
        storage and the reports as they were, and ends the drag. */
    method PressAndRelease()
      modifies this`isResizing, this`dragStyling
      ensures !isResizing && !dragStyling
      ensures panelWidth == old(panelWidth) && storage == old(storage) && widthReports == old(widthReports)
    {
      MouseDown();
      MouseUp();
    }

    /** The header button of the panel flips `chatHistoryOpen`. */
    method ToggleHistory()
      modifies this`chatHistoryOpen
      ensures chatHistoryOpen == !old(chatHistoryOpen)
    {
      chatHistoryOpen := !chatHistoryOpen;
    }

    /** The overlay asks to be opened or closed; on a large screen it is ignored. */
    method SheetOpenChange(open: bool, isLargeScreen: bool)
      modifies this`chatHistoryOpen
      ensures isLargeScreen ==> chatHistoryOpen == old(chatHistoryOpen)
      ensures !isLargeScreen ==> chatHistoryOpen == open
      ensures !SheetOpen(chatHistoryOpen, isLargeScreen) <==> isLargeScreen || !open
    {
      if isLargeScreen {
        return;
      }
      chatHistoryOpen := open;
    }

    /** A click on a row of the list inside the overlay. Outside selection
        mode the list calls back, and the callback flips `chatHistoryOpen`. */
    method OverlayRowClick(list: ThreadListView.ThreadList, tid: string) returns (notified: bool)
      requires list.Valid()
      modifies this`chatHistoryOpen, list`selected, list`openThreadId
      ensures list.Valid()
      ensures notified <==> !list.selectionMode
      ensures chatHistoryOpen == if notified then !old(chatHistoryOpen) else old(chatHistoryOpen)
      ensures list.selectionMode ==>
                list.selected == Toggled(old(list.selected), tid) && list.openThreadId == old(list.openThreadId)
      ensures !list.selectionMode ==>
                list.openThreadId == Some(tid) && list.selected == old(list.selected)
    {
      notified := list.RowClick(tid);
      if notified {
        chatHistoryOpen := !chatHistoryOpen;
      }
    }
  }

  /** Mounting with "450" saved adopts 450 and reports it once. */
  method MountScenarioSaved() returns (width: Number, reports: seq<Number>)
    ensures width == Int(450) && reports == [Int(450)]
  {
    var panel := new ThreadHistory(map[WIDTH_KEY := "450"], false);
    panel.Mount();
    LoadedWidthOfSavedNumber();
    width, reports := panel.panelWidth, panel.widthReports;
  }

  /** Mounting with nothing saved keeps the default and reports it once. */
  method MountScenarioNothingSaved() returns (width: Number, reports: seq<Number>)
    ensures width == Int(DEFAULT_WIDTH) && reports == [Int(DEFAULT_WIDTH)]
  {
    var panel := new ThreadHistory(map[], false);
    panel.Mount();
    width, reports := panel.panelWidth, panel.widthReports;
  }

  /** A drag to x = 1000 stops at the maximum, and the stored string loads back
      as that width. */
  method DragScenario() returns (width: Number, saved: Option<string>)
    ensures width == Int(MAX_WIDTH) && LoadedWidth(saved) == width
  {
    var panel := new ThreadHistory(map[], false);
    panel.Mount();
    panel.MouseDown();
    panel.MouseMove(1000);
    panel.MouseUp();
    width, saved := panel.panelWidth, GetItem(panel.storage, WIDTH_KEY);
  }
}
