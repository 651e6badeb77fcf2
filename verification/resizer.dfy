/** `useResizer` of frontend/src/hooks/useResizer.ts: dragging the divider
    between the editor's two panes.  Mouse coordinates are integers. */
module ResizerHook {
  import opened Options

  const DEFAULT_HEIGHT := 300
  const MIN_HEIGHT := 100
  /** The space kept below the divider. */
  const BOTTOM_MARGIN := 100

  /** The height a mouse move at `clientY` asks for in a container whose top is
      at `top`: raised to the minimum, then lowered to the maximum. */
  function ClampHeight(clientY: int, top: int, containerHeight: int): (h: int)
    ensures containerHeight >= MIN_HEIGHT + BOTTOM_MARGIN ==> MIN_HEIGHT <= h <= containerHeight - BOTTOM_MARGIN
    ensures containerHeight < MIN_HEIGHT + BOTTOM_MARGIN ==> h == containerHeight - BOTTOM_MARGIN
    ensures MIN_HEIGHT <= clientY - top <= containerHeight - BOTTOM_MARGIN ==> h == clientY - top
    ensures h == clientY - top || h == MIN_HEIGHT || h == containerHeight - BOTTOM_MARGIN
  {
    var raised := if clientY - top < MIN_HEIGHT then MIN_HEIGHT else clientY - top;
    if raised > containerHeight - BOTTOM_MARGIN then containerHeight - BOTTOM_MARGIN else raised
  }

  /** The container's bounding box, when the ref is attached. */
  datatype Rect = Rect(top: int, height: int)

  class Resizer {
    var topPaneHeight: int
    var isResizing: bool
    /** The window `mousemove`/`mouseup` listeners are registered. */
    var listening: bool
    var bodyCursor: string
    var bodyUserSelect: string

    /** The effect keeps the listeners registered exactly while dragging. */
    predicate Valid()
      reads this
    {
      listening == isResizing
    }

    constructor(initialHeight: int)
      ensures Valid()
      ensures topPaneHeight == initialHeight && !isResizing && !listening
    {
      topPaneHeight := initialHeight;
      isResizing := false;
      listening := false;
      bodyCursor := "";
      bodyUserSelect := "";
    }

    /** `useResizer(containerRef)` without an initial height: the default of 300. */
    constructor Default()
      ensures Valid()
      ensures topPaneHeight == DEFAULT_HEIGHT && !isResizing && !listening
    {
      topPaneHeight := DEFAULT_HEIGHT;
      isResizing := false;
      listening := false;
      bodyCursor := "";
      bodyUserSelect := "";
    }

    /** Re-running the effect after `isResizing` changed: the previous listeners
        are removed, then registered again when dragging. */
    method RunEffect()
      modifies this
      ensures Valid()
      ensures isResizing ==> bodyCursor == "row-resize" && bodyUserSelect == "none"
      ensures !isResizing ==> bodyCursor == old(bodyCursor) && bodyUserSelect == old(bodyUserSelect)
      ensures topPaneHeight == old(topPaneHeight) && isResizing == old(isResizing)
    {
      listening := false;
      if isResizing {
        listening := true;
        bodyCursor := "row-resize";
        bodyUserSelect := "none";
      }
    }

    /** `startResizing()`. */
    method StartResizing()
      modifies this
      ensures Valid()
      ensures isResizing && listening
      ensures bodyCursor == "row-resize" && bodyUserSelect == "none"
      ensures topPaneHeight == old(topPaneHeight)
    {
      isResizing := true;
      RunEffect();
    }

    /** A window `mouseup`: only heard while the listeners are registered. */
    method MouseUp()
      requires Valid()
      modifies this
      ensures Valid()
      ensures !isResizing && !listening
      ensures old(listening) ==> bodyCursor == "" && bodyUserSelect == ""
      ensures !old(listening) ==> bodyCursor == old(bodyCursor) && bodyUserSelect == old(bodyUserSelect)
      ensures topPaneHeight == old(topPaneHeight)
    {
      if listening {
        isResizing := false;
        bodyCursor := "";
        bodyUserSelect := "";
        RunEffect();
      }
    }

    /** A window `mousemove` at `clientY`; `container` is absent when the ref is
        detached.  Only a drag with an attached container moves the divider. */
    method MouseMove(clientY: int, container: Option<Rect>)
      requires Valid()
      modifies this
      ensures Valid()
      ensures isResizing == old(isResizing) && listening == old(listening)
      ensures bodyCursor == old(bodyCursor) && bodyUserSelect == old(bodyUserSelect)
      ensures old(listening) && container.Some?
           ==> topPaneHeight == ClampHeight(clientY, container.value.top, container.value.height)
      ensures !old(listening) || container.None? ==> topPaneHeight == old(topPaneHeight)
    {
      if !listening || !isResizing || container.None? {
        return;
      }
      var newHeight := clientY - container.value.top;
      var maxHeight := container.value.height - BOTTOM_MARGIN;
      if newHeight < MIN_HEIGHT {
        newHeight := MIN_HEIGHT;
      }
      if newHeight > maxHeight {
        newHeight := maxHeight;
      }
      topPaneHeight := newHeight;
    }

    /** The effect's cleanup on unmount: the listeners are always removed. */
    method Unmount()
      modifies this
      ensures !listening
      ensures topPaneHeight == old(topPaneHeight) && isResizing == old(isResizing)
      ensures bodyCursor == old(bodyCursor) && bodyUserSelect == old(bodyUserSelect)
    {
      listening := false;
    }

    /** The exposed `setTopPaneHeight`. */
    method SetTopPaneHeight(h: int)
      modifies this
      ensures topPaneHeight == h
      ensures isResizing == old(isResizing) && listening == old(listening)
      ensures bodyCursor == old(bodyCursor) && bodyUserSelect == old(bodyUserSelect)
    {
      topPaneHeight := h;
    }
  }
}
