/** The zoom and solution-notes state of `PreviewPanel`
    (frontend/src/components/features/editor/PreviewPanel.tsx). */
module PreviewPanelState {
  import opened Options
  import opened JsValues

  const MIN_ZOOM := 50
  const MAX_ZOOM := 200
  const ZOOM_STEP := 10
  const DEFAULT_ZOOM := 100
  const NOTES_SAVE_FAILED_MESSAGE := "保存に失敗しました"

  /** `handleZoomIn`'s new zoom: only below the maximum, capped at it. */
  function ZoomIn(zoom: int): (z: int)
    ensures zoom < MAX_ZOOM ==> z == if zoom + ZOOM_STEP < MAX_ZOOM then zoom + ZOOM_STEP else MAX_ZOOM
    ensures zoom >= MAX_ZOOM ==> z == zoom
    ensures MIN_ZOOM <= zoom <= MAX_ZOOM ==> MIN_ZOOM <= z <= MAX_ZOOM && zoom <= z
  {
    if zoom < MAX_ZOOM then (if zoom + ZOOM_STEP < MAX_ZOOM then zoom + ZOOM_STEP else MAX_ZOOM) else zoom
  }

  /** `handleZoomOut`'s new zoom: only above the minimum, floored at it. */
  function ZoomOut(zoom: int): (z: int)
    ensures zoom > MIN_ZOOM ==> z == if zoom - ZOOM_STEP > MIN_ZOOM then zoom - ZOOM_STEP else MIN_ZOOM
    ensures zoom <= MIN_ZOOM ==> z == zoom
    ensures MIN_ZOOM <= zoom <= MAX_ZOOM ==> MIN_ZOOM <= z <= MAX_ZOOM && z <= zoom
  {
    if zoom > MIN_ZOOM then (if zoom - ZOOM_STEP > MIN_ZOOM then zoom - ZOOM_STEP else MIN_ZOOM) else zoom
  }

  datatype ZoomButton = In | Out

  function Press(zoom: int, b: ZoomButton): int {
    if b == In then ZoomIn(zoom) else ZoomOut(zoom)
  }

  /** The zoom after pressing the buttons in order. */
  function PressAll(zoom: int, presses: seq<ZoomButton>): int
    decreases |presses|
  {
    if presses == [] then zoom else PressAll(Press(zoom, presses[0]), presses[1..])
  }

  /** Starting inside [50, 200], no sequence of presses leaves it. */
  lemma {:induction false} ZoomStaysInRange(zoom: int, presses: seq<ZoomButton>)
    requires MIN_ZOOM <= zoom <= MAX_ZOOM
    ensures MIN_ZOOM <= PressAll(zoom, presses) <= MAX_ZOOM
    decreases |presses|
  {
    if presses != [] {
      ZoomStaysInRange(Press(zoom, presses[0]), presses[1..]);
    }
  }

  /** From any zoom in range, enough zoom-ins to cover the distance to the
      maximum in steps of ten (twenty at most) reach the maximum exactly. */
  lemma {:induction false} ZoomInReachesMax(zoom: int, n: nat)
    requires MIN_ZOOM <= zoom <= MAX_ZOOM
    requires n * ZOOM_STEP >= MAX_ZOOM - zoom
    ensures PressAll(zoom, seq(n, _ => In)) == MAX_ZOOM
    decreases n
  {
    if n > 0 {
      var rest := seq(n - 1, _ => In);
      assert seq(n, _ => In) == [In] + rest;
      assert seq(n, _ => In)[1..] == rest;
      ZoomInReachesMax(ZoomIn(zoom), n - 1);
    }
  }

  class PreviewPanel {
    const projectId: string
    /** An `onZoomChange` callback was passed: the parent owns the zoom. */
    const hasZoomCallback: bool
    var externalZoom: int
    var localZoom: int
    var solutionNotes: string
    var saveError: Option<string>
    var saveSuccess: bool

    /** `zoom = onZoomChange ? externalZoom : localZoom`. */
    function Zoom(): int
      reads this
    {
      if hasZoomCallback then externalZoom else localZoom
    }

    /** The first render: the zoom prop defaults to 100, the notes to the
        project's notes or the empty string. */
    constructor(projectId: string, zoomProp: Option<int>, hasZoomCallback: bool, savedNotes: Option<string>)
      ensures this.projectId == projectId && this.hasZoomCallback == hasZoomCallback
      ensures externalZoom == zoomProp.GetOr(DEFAULT_ZOOM) && localZoom == externalZoom
      ensures solutionNotes == savedNotes.GetOr([])
      ensures saveError.None? && !saveSuccess
    {
      this.projectId := projectId;
      this.hasZoomCallback := hasZoomCallback;
      externalZoom := zoomProp.GetOr(DEFAULT_ZOOM);
      localZoom := zoomProp.GetOr(DEFAULT_ZOOM);
      solutionNotes := savedNotes.GetOr([]);
      saveError := None;
      saveSuccess := false;
    }

    /** The parent re-renders with a new `zoom` prop. */
    method SetZoomProp(z: int)
      modifies this
      ensures externalZoom == z
      ensures localZoom == old(localZoom) && solutionNotes == old(solutionNotes)
      ensures saveError == old(saveError) && saveSuccess == old(saveSuccess)
    {
      externalZoom := z;
    }

    /** `handleZoomIn()`: the new zoom goes to the callback (returned) or to the
        local state. */
    method HandleZoomIn() returns (emitted: Option<int>)
      modifies this
      ensures hasZoomCallback ==> (old(Zoom()) < MAX_ZOOM <==> emitted.Some?)
      ensures emitted.Some? ==> emitted.value == ZoomIn(old(Zoom()))
      ensures !hasZoomCallback ==> localZoom == ZoomIn(old(localZoom)) && emitted.None?
      ensures hasZoomCallback ==> localZoom == old(localZoom)
      ensures externalZoom == old(externalZoom) && solutionNotes == old(solutionNotes)
      ensures saveError == old(saveError) && saveSuccess == old(saveSuccess)
    {
      emitted := None;
      var zoom := Zoom();
      if zoom < MAX_ZOOM {
        var next := if zoom + ZOOM_STEP < MAX_ZOOM then zoom + ZOOM_STEP else MAX_ZOOM;
        if hasZoomCallback {
          emitted := Some(next);
        } else {
          localZoom := next;
        }
      }
    }

    /** `handleZoomOut()`. */
    method HandleZoomOut() returns (emitted: Option<int>)
      modifies this
      ensures hasZoomCallback ==> (old(Zoom()) > MIN_ZOOM <==> emitted.Some?)
      ensures emitted.Some? ==> emitted.value == ZoomOut(old(Zoom()))
      ensures !hasZoomCallback ==> localZoom == ZoomOut(old(localZoom)) && emitted.None?
      ensures hasZoomCallback ==> localZoom == old(localZoom)
      ensures externalZoom == old(externalZoom) && solutionNotes == old(solutionNotes)
      ensures saveError == old(saveError) && saveSuccess == old(saveSuccess)
    {
      emitted := None;
      var zoom := Zoom();
      if zoom > MIN_ZOOM {
        var next := if zoom - ZOOM_STEP > MIN_ZOOM then zoom - ZOOM_STEP else MIN_ZOOM;
        if hasZoomCallback {
          emitted := Some(next);
        } else {
          localZoom := next;
        }
      }
    }

    /** `handleSolutionNotesChange(value)`: new text, no message shown. */
    method ChangeSolutionNotes(value: string)
      modifies this
      ensures solutionNotes == value && saveError.None? && !saveSuccess
      ensures externalZoom == old(externalZoom) && localZoom == old(localZoom)
    {
      solutionNotes := value;
      saveError := None;
      saveSuccess := false;
    }

    /** The synchronous part of `handleSolutionNotesSave()`: both messages cleared,
        the current notes sent. */
    method BeginSaveNotes() returns (notes: string)
      modifies this
      ensures notes == solutionNotes == old(solutionNotes)
      ensures saveError.None? && !saveSuccess
      ensures externalZoom == old(externalZoom) && localZoom == old(localZoom)
    {
      saveError := None;
      saveSuccess := false;
      notes := solutionNotes;
    }

    /** The rest of the save once `updateProjectSolutionNotesAction` settled; on
        success the saved notes are handed to `onSolutionNotesUpdate`. */
    method FinishSaveNotes(outcome: Completion<()>) returns (notified: Option<string>)
      modifies this
      ensures outcome.Normal? ==> saveSuccess && saveError == old(saveError) && notified == Some(solutionNotes)
      ensures outcome.Abrupt? ==> saveSuccess == old(saveSuccess) && notified.None?
                                   && saveError == Some(ErrorMessageOr(outcome.thrown, NOTES_SAVE_FAILED_MESSAGE))
      ensures solutionNotes == old(solutionNotes)
      ensures externalZoom == old(externalZoom) && localZoom == old(localZoom)
    {
      notified := None;
      match outcome {
        case Normal(_) =>
          saveSuccess := true;
          notified := Some(solutionNotes);
        case Abrupt(thrown) =>
          saveError := Some(ErrorMessageOr(thrown, NOTES_SAVE_FAILED_MESSAGE));
      }
    }

    /** The three-second timer set by a successful save. */
    method SuccessTimerFires()
      modifies this
      ensures !saveSuccess
      ensures saveError == old(saveError) && solutionNotes == old(solutionNotes)
      ensures externalZoom == old(externalZoom) && localZoom == old(localZoom)
    {
      saveSuccess := false;
    }
  }
}
