/** `useConfirmModal` of frontend/src/hooks/useConfirmModal.ts: the pending
    confirmation target and the guard that keeps the dialog open while the
    confirmed action runs. */
module ConfirmModalHook {
  import opened Options

  class ConfirmModal {
    var confirmId: Option<string>
    var isProcessing: bool

    constructor()
      ensures confirmId == None && !isProcessing
    {
      confirmId := None;
      isProcessing := false;
    }

    /** `openConfirm(id)`: replaces any pending id. */
    method OpenConfirm(id: string)
      modifies this
      ensures confirmId == Some(id)
      ensures isProcessing == old(isProcessing)
    {
      confirmId := Some(id);
    }

    /** `closeConfirm()`: ignored while the action is processing. */
    method CloseConfirm()
      modifies this
      ensures old(isProcessing) ==> confirmId == old(confirmId)
      ensures !old(isProcessing) ==> confirmId == None
      ensures isProcessing == old(isProcessing)
    {
      if !isProcessing {
        confirmId := None;
      }
    }

    method StartProcessing()
      modifies this
      ensures isProcessing
      ensures confirmId == old(confirmId)
    {
      isProcessing := true;
    }

    method StopProcessing()
      modifies this
      ensures !isProcessing
      ensures confirmId == old(confirmId)
    {
      isProcessing := false;
    }

    /** `reset()`: back to the initial state in one step, even while processing. */
    method Reset()
      modifies this
      ensures confirmId == None && !isProcessing
    {
      confirmId := None;
      isProcessing := false;
    }
  }

  /** However often the dialog is closed while an action runs, its target and
      the processing flag stay as they were. */
  method CloseWhileProcessing(m: ConfirmModal, attempts: nat)
    requires m.isProcessing
    modifies m
    ensures m.confirmId == old(m.confirmId) && m.isProcessing
  {
    var k := 0;
    while k < attempts
      invariant m.confirmId == old(m.confirmId) && m.isProcessing
    {
      m.CloseConfirm();
      k := k + 1;
    }
  }

  /** While an action runs, closing the dialog keeps its target; once it stops,
      closing clears it. */
  method ProcessingProtectsTarget(m: ConfirmModal, id: string)
    modifies m
    ensures m.confirmId == None && !m.isProcessing
  {
    m.OpenConfirm(id);
    m.StartProcessing();
    m.CloseConfirm();
    assert m.confirmId == Some(id);
    m.StopProcessing();
    m.CloseConfirm();
  }
}
