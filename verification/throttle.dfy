/**
 * The suggestion-prompt throttle shared by both suggestion paths: a flag that
 * is set while a prompt is on screen and the time the last non-empty
 * suggestion list was produced. The clock is a parameter: `now` is read when
 * an attempt starts, `shownAt` when its selection has run.
 */
module SuggestionThrottle {
  const MinIntervalMs: int := 1000

  datatype Throttle = Throttle(popupOpen: bool, lastShown: int)

  /** Both controllers start with no prompt and a last-shown time of 0. */
  const Initial: Throttle := Throttle(false, 0)

  /** The entry guard: no prompt open and at least a second since the last one. */
  predicate Admits(t: Throttle, now: int) {
    !t.popupOpen && now - t.lastShown >= MinIntervalMs
  }

  /**
   * createPopup / createLimitedSuggestionPopup: refuse when a prompt is
   * already open or there is no owner window, otherwise raise the flag.
   */
  function OpenPopup(t: Throttle, ownerPresent: bool): (r: Throttle)
    ensures r.lastShown == t.lastShown
    ensures r.popupOpen <==> t.popupOpen || ownerPresent
    ensures t.popupOpen || !ownerPresent ==> r == t
  {
    if t.popupOpen || !ownerPresent then t else t.(popupOpen := true)
  }

  /**
   * The deferred half of an attempt: a non-empty list records its time and
   * asks for a prompt; an empty list changes nothing.
   */
  function Complete(t: Throttle, shownAt: int, count: nat, ownerPresent: bool): (r: Throttle)
    ensures count == 0 ==> r == t
    ensures count > 0 ==> r.lastShown == shownAt
    ensures r.popupOpen <==> t.popupOpen || (count > 0 && ownerPresent)
  {
    if count == 0 then t else OpenPopup(t.(lastShown := shownAt), ownerPresent)
  }

  /**
   * A whole attempt (tryShowSuggestion / showSmartSuggestionsAfterAdding):
   * the guard at `now`, then the selection, which produced `count` products.
   */
  function TryShow(t: Throttle, now: int, shownAt: int, count: nat, ownerPresent: bool): (r: Throttle)
    ensures !Admits(t, now) ==> r == t
    ensures count == 0 ==> r == t
    ensures Admits(t, now) && count > 0 ==> r == Throttle(ownerPresent, shownAt)
  {
    if Admits(t, now) then Complete(t, shownAt, count, ownerPresent) else t
  }

  /** The ways a prompt goes away. */
  datatype CloseEvent =
    | Skip                // the skip button
    | Hidden              // the window was hidden
    | CloseRequest        // the window manager asked to close it
    | AcceptSuggestion    // a suggestion was added directly
    | OptionChosen        // a drink or dessert option was chosen in a sub-dialog
    | SubDialogCancelled  // the option sub-dialog was cancelled; the prompt stays

  /** Every close path lowers the flag, except cancelling a sub-dialog, which changes nothing. */
  function Close(t: Throttle, e: CloseEvent): (r: Throttle)
    ensures r.lastShown == t.lastShown
    ensures e != SubDialogCancelled ==> !r.popupOpen
    ensures e == SubDialogCancelled ==> r == t
  {
    match e
    case SubDialogCancelled => t
    case _ => t.(popupOpen := false)
  }

  /** Several close events, applied in the order they arrive. */
  function CloseAll(t: Throttle, es: seq<CloseEvent>): (r: Throttle)
    ensures r.lastShown == t.lastShown
    ensures !t.popupOpen ==> !r.popupOpen
    decreases |es|
  {
    if es == [] then t else CloseAll(Close(t, es[0]), es[1..])
  }

  /** No sequence of closes moves the last-shown time. */
  lemma {:induction false} CloseAllKeepsLastShown(t: Throttle, es: seq<CloseEvent>)
    ensures CloseAll(t, es).lastShown == t.lastShown
    ensures (exists k :: 0 <= k < |es| && es[k] != SubDialogCancelled) ==> !CloseAll(t, es).popupOpen
    ensures (forall k :: 0 <= k < |es| ==> es[k] == SubDialogCancelled) ==> CloseAll(t, es) == t
    decreases |es|
  {
    if es != [] {
      CloseAllKeepsLastShown(Close(t, es[0]), es[1..]);
      if exists k :: 0 <= k < |es| && es[k] != SubDialogCancelled {
        var k :| 0 <= k < |es| && es[k] != SubDialogCancelled;
        if k > 0 {
          assert es[1..][k - 1] == es[k];
        } else {
          CloseAllFromClosed(Close(t, es[0]), es[1..]);
        }
      }
      if forall k :: 0 <= k < |es| ==> es[k] == SubDialogCancelled {
        assert es[0] == SubDialogCancelled;
        assert forall k :: 0 <= k < |es[1..]| ==> es[1..][k] == es[k + 1];
      }
    }
  }

  /** Closing never raises the flag. */
  lemma {:induction false} CloseAllFromClosed(t: Throttle, es: seq<CloseEvent>)
    requires !t.popupOpen
    ensures !CloseAll(t, es).popupOpen
    decreases |es|
  {
    if es != [] {
      CloseAllFromClosed(Close(t, es[0]), es[1..]);
    }
  }

  /** Single flight: while a prompt is open, no further attempt opens another or moves the clock. */
  lemma SingleFlight(t: Throttle, now: int, shownAt: int, count: nat, ownerPresent: bool)
    requires t.popupOpen
    ensures TryShow(t, now, shownAt, count, ownerPresent) == t
  {
  }

  /**
   * The second deferred half of two attempts that both passed the guard before
   * either ran: it may move the clock but cannot open a second prompt.
   */
  lemma RacingCompletionsOpenOnce(t: Throttle, at1: int, at2: int, n1: nat, n2: nat)
    requires n1 > 0
    ensures var first := Complete(t, at1, n1, true);
            first.popupOpen && OpenPopup(first, true) == first
            && Complete(first, at2, n2, true).popupOpen
  {
  }

  /**
   * After a prompt was shown at `shownAt`, every attempt started less than a
   * second later is ignored, whatever closes came in between.
   */
  lemma RapidRetryIgnored(t: Throttle, now: int, shownAt: int, count: nat, ownerPresent: bool,
                          es: seq<CloseEvent>, later: int, laterAt: int, laterCount: nat)
    requires Admits(t, now) && count > 0
    requires later - shownAt < MinIntervalMs
    ensures var shown := CloseAll(TryShow(t, now, shownAt, count, ownerPresent), es);
            TryShow(shown, later, laterAt, laterCount, ownerPresent) == shown
  {
    CloseAllKeepsLastShown(TryShow(t, now, shownAt, count, ownerPresent), es);
  }

  /** Once a shown prompt is closed and a second has passed, the next attempt is admitted again. */
  lemma AdmittedAfterCloseAndWait(t: Throttle, now: int, shownAt: int, count: nat, es: seq<CloseEvent>, later: int)
    requires Admits(t, now) && count > 0
    requires exists k :: 0 <= k < |es| && es[k] != SubDialogCancelled
    requires later - shownAt >= MinIntervalMs
    ensures Admits(CloseAll(TryShow(t, now, shownAt, count, true), es), later)
  {
    CloseAllKeepsLastShown(TryShow(t, now, shownAt, count, true), es);
  }

  /** Cancelling option sub-dialogs alone keeps the prompt open, so attempts stay blocked. */
  lemma CancelKeepsBlocking(t: Throttle, now: int, shownAt: int, count: nat, n: nat, later: int)
    requires Admits(t, now) && count > 0
    ensures var open := TryShow(t, now, shownAt, count, true);
            !Admits(CloseAll(open, seq(n, _ => SubDialogCancelled)), later)
  {
    CloseAllKeepsLastShown(TryShow(t, now, shownAt, count, true), seq(n, _ => SubDialogCancelled));
  }

  /** An empty selection leaves the clock alone, so a later attempt is judged against the previous prompt. */
  lemma EmptySelectionKeepsClock(t: Throttle, now: int, shownAt: int, ownerPresent: bool)
    ensures TryShow(t, now, shownAt, 0, ownerPresent).lastShown == t.lastShown
    ensures Admits(t, now) ==> Admits(TryShow(t, now, shownAt, 0, ownerPresent), now)
  {
  }
}
