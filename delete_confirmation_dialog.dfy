/** The delete confirmation: `isDeleting` is held around the awaited confirm callback and
    released in `finally`; the dialog asks to close only when the callback resolves, and a
    rejection propagates to the caller, as there is no catch. */
module DeleteDialog {
  import opened Types

  /** The `disabled` of both buttons: locked while a deletion is in flight or the parent
      reports loading, enabled only when neither holds. */
  function ButtonsDisabled(isDeleting: bool, isLoading: bool): (disabled: bool)
    ensures disabled <==> isDeleting || isLoading
  {
    isDeleting || isLoading
  }

  /** The dialog's state. `openChanges` records every `onOpenChange(b)` call and
      `confirmCalls` counts the `onConfirm()` calls. */
  class DeleteConfirmationDialog {
    const isLoading: bool
    var isDeleting: bool
    var openChanges: seq<bool>
    var confirmCalls: nat

    /** `isLoading` is the prop, false when absent. */
    constructor (isLoading: bool)
      ensures this.isLoading == isLoading
      ensures !isDeleting && openChanges == [] && confirmCalls == 0
    {
      this.isLoading := isLoading;
      isDeleting := false;
      openChanges := [];
      confirmCalls := 0;
    }

    /** handleConfirm up to its await: `isDeleting` is set, then `onConfirm` is called. */
    method BeginConfirm()
      modifies this
      ensures isDeleting && ButtonsDisabled(isDeleting, isLoading)
      ensures confirmCalls == old(confirmCalls) + 1 && openChanges == old(openChanges)
    {
      isDeleting := true;
      confirmCalls := confirmCalls + 1;
    }

    /** handleConfirm after its await: on resolution the dialog asks to close once; on
        rejection nothing is asked and the reason is returned to propagate. */
    method CompleteConfirm(result: Settled<()>) returns (propagated: Option<Thrown>)
      modifies this
      ensures !isDeleting && confirmCalls == old(confirmCalls)
      ensures result.Resolved? ==> openChanges == old(openChanges) + [false] && propagated == None
      ensures result.Rejected? ==> openChanges == old(openChanges) && propagated == Some(result.reason)
    {
      match result {
        case Resolved(_) =>
          openChanges := openChanges + [false];
          propagated := None;
        case Rejected(reason) =>
          propagated := Some(reason);
      }
      isDeleting := false;
    }

    /** handleConfirm when `result` is how `onConfirm()` settles. */
    method HandleConfirm(result: Settled<()>) returns (propagated: Option<Thrown>)
      modifies this
      ensures !isDeleting && confirmCalls == old(confirmCalls) + 1
      ensures ButtonsDisabled(isDeleting, isLoading) == isLoading
      ensures result.Resolved? ==> openChanges == old(openChanges) + [false] && propagated == None
      ensures result.Rejected? ==> openChanges == old(openChanges) && propagated == Some(result.reason)
    {
      BeginConfirm();
      propagated := CompleteConfirm(result);
    }

    /** The "Annuler" button: asks to close, without touching `isDeleting`. */
    method Cancel()
      modifies this
      ensures openChanges == old(openChanges) + [false]
      ensures isDeleting == old(isDeleting) && confirmCalls == old(confirmCalls)
    {
      openChanges := openChanges + [false];
    }
  }
}
