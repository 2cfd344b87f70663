/**
 * The bookkeeping of ProgressDialog, the window that follows a long task:
 * the progress counters, the warnings it collects (all counted, the first
 * 5000 kept), the exception it was last told about, and the cancel button
 * that asks the task to stop on the first press and closes the window on
 * any later one.
 */
module ProgressDialogs {

  /** An exception passed to the dialog; only its identity matters here. */
  class Exception {
    constructor() {}
  }

  /** A task that can be asked to stop; only the number of requests it receives is modelled. */
  class Cancellable {
    var cancelCalls: nat

    constructor()
      ensures cancelCalls == 0
    {
      cancelCalls := 0;
    }

    method Cancel()
      modifies this`cancelCalls
      ensures cancelCalls == old(cancelCalls) + 1
    {
      cancelCalls := cancelCalls + 1;
    }
  }

  /** How many warnings the dialog keeps for display. */
  const MaxWarnings := 5000

  /** The warnings kept out of all those received: the first 5000, in arrival order. */
  function Retained(received: seq<Exception>): (kept: seq<Exception>)
    ensures |kept| == if |received| < MaxWarnings then |received| else MaxWarnings
    ensures kept == received[..|kept|]
  {
    if |received| <= MaxWarnings then received else received[..MaxWarnings]
  }

  /** One more warning is kept while fewer than 5000 are, and dropped afterwards. */
  lemma RetainedAppend(received: seq<Exception>, e: Exception)
    ensures Retained(received + [e]) == if |received| < MaxWarnings then Retained(received) + [e] else Retained(received)
  {
    if |received| >= MaxWarnings {
      assert (received + [e])[..MaxWarnings] == received[..MaxWarnings];
    }
  }

  /** What progressComplete shows: nothing, or the warning window with the total count and the warnings kept. */
  datatype WarningDisplay = NoDisplay | Display(count: int, shown: seq<Exception>)

  class ProgressDialog {
    /** The label text. */
    var message: string
    var current: int
    var total: int
    var warningCount: int
    var warnings: seq<Exception>
    var hasCancelled: bool
    var reportedException: Exception?
    var ignoreExceptions: bool
    var visible: bool
    const cancellable: Cancellable?
    /** Every warning received, in order. */
    ghost var received: seq<Exception>
    /** How many times this dialog has called cancel(). */
    ghost var cancelsSent: nat

    /** The count covers every warning, the list keeps the first 5000 of them, and cancel() has been called once exactly when hasCancelled is set. */
    ghost predicate Valid()
      reads this
    {
      && warningCount == |received|
      && warnings == Retained(received)
      && cancelsSent == if hasCancelled then 1 else 0
    }

    /** setup: an empty label, no progress out of 1, nothing received, not yet cancelled, shown. */
    constructor(cancellable: Cancellable?)
      ensures Valid() && this.cancellable == cancellable
      ensures message == "" && current == 0 && total == 1
      ensures warningCount == 0 && warnings == [] && received == []
      ensures !hasCancelled && cancelsSent == 0 && reportedException == null && !ignoreExceptions && visible
    {
      this.cancellable := cancellable;
      message := "";
      current, total := 0, 1;
      warningCount, warnings := 0, [];
      hasCancelled := false;
      reportedException := null;
      ignoreExceptions := false;
      visible := true;
      received := [];
      cancelsSent := 0;
    }

    /** progressUpdated: the label shows the message and the counters take the given values. */
    method ProgressUpdated(msg: string, currentPos: int, totalPos: int)
      modifies this`message, this`current, this`total
      ensures message == msg && current == currentPos && total == totalPos
    {
      message := msg;
      current := currentPos;
      total := totalPos;
    }

    method SetIgnoreExceptions(ignore: bool)
      modifies this`ignoreExceptions
      ensures ignoreExceptions == ignore
    {
      ignoreExceptions := ignore;
    }

    /** progressCancelled: the dialog closes. */
    method ProgressCancelled()
      modifies this`visible
      ensures !visible
    {
      visible := false;
    }

    /** progressComplete: the dialog closes, and the warnings are displayed, with their total count, exactly when at least one arrived. */
    method ProgressComplete() returns (display: WarningDisplay)
      requires Valid()
      modifies this`visible
      ensures !visible
      ensures display.Display? <==> received != []
      ensures display.Display? ==> display == Display(|received|, Retained(received))
    {
      visible := false;
      if warningCount > 0 {
        display := Display(warningCount, warnings);
      } else {
        display := NoDisplay;
      }
    }

    /** progressWarningReceived: every warning is counted; it is kept only while the count is at most 5000. */
    method ProgressWarningReceived(e: Exception)
      requires Valid()
      modifies this`warningCount, this`warnings, this`received
      ensures Valid() && received == old(received) + [e]
      ensures warningCount == old(warningCount) + 1
      ensures warnings == if old(warningCount) < MaxWarnings then old(warnings) + [e] else old(warnings)
    {
      RetainedAppend(received, e);
      received := received + [e];
      warningCount := warningCount + 1;
      if warningCount <= MaxWarnings {
        warnings := warnings + [e];
      }
    }

    /** progressExceptionReceived: the same exception a second time is ignored; a new one is recorded and closes the dialog. */
    method ProgressExceptionReceived(e: Exception)
      modifies this`reportedException, this`visible
      ensures old(reportedException) == e ==> reportedException == e && visible == old(visible)
      ensures old(reportedException) != e ==> reportedException == e && !visible
    {
      if reportedException != null && reportedException == e {
        return;
      }
      reportedException := e;
      visible := false;
    }

    /**
     * actionPerformed, from the cancel button (which exists only with a
     * Cancellable): the first press asks the task to stop; every later press
     * closes the dialog without asking again.
     */
    method ActionPerformed()
      requires Valid() && cancellable != null
      modifies this`hasCancelled, this`visible, this`cancelsSent, cancellable`cancelCalls
      ensures Valid() && hasCancelled && cancelsSent == 1
      ensures old(hasCancelled) ==> !visible && cancellable.cancelCalls == old(cancellable.cancelCalls)
      ensures !old(hasCancelled) ==> visible == old(visible) && cancellable.cancelCalls == old(cancellable.cancelCalls) + 1
    {
      if hasCancelled {
        visible := false;
        return;
      }
      cancellable.Cancel();
      cancelsSent := cancelsSent + 1;
      hasCancelled := true;
    }
  }
}
