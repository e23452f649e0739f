/**
 * `click_show_more_until_2500`: the progressive loader of a hotel's review feed.
 * The page is abstracted as two oracles indexed by the number of clicks made so
 * far: `counts(k)` is the number of review bodies the (k+1)-th read sees, and
 * `buttons(k)` whether an enabled "show more" button is present at that point.
 */
module ReviewLoader {

  const MaxAttempts: nat := 50
  const DefaultTarget: int := 2500

  /** Why the loop stopped. */
  datatype Exit = Reached | Stalled | NoButton | CapHit

  /** `last_count` when the read after `k` clicks is made: 0 before the first read. */
  function PreviousCount(counts: nat -> nat, k: nat): nat {
    if k == 0 then 0 else counts(k - 1)
  }

  /** The loop clicks after its read number `k`: below target, changed, button present. */
  predicate ClicksAt(counts: nat -> nat, buttons: nat -> bool, target: int, k: nat) {
    counts(k) < target && counts(k) != PreviousCount(counts, k) && buttons(k)
  }

  /** The loop leaves, for the reason `exit`, once `k` clicks have been made. */
  predicate StopsAt(counts: nat -> nat, buttons: nat -> bool, target: int, k: nat, exit: Exit) {
    match exit
    case Reached => k < MaxAttempts && counts(k) >= target
    case Stalled => k < MaxAttempts && counts(k) < target && counts(k) == PreviousCount(counts, k)
    case NoButton =>
      k < MaxAttempts && counts(k) < target && counts(k) != PreviousCount(counts, k) && !buttons(k)
    case CapHit => k == MaxAttempts
  }

  /** What a run of the loop that made `clicks` clicks and left for `exit` looks like. */
  predicate IsLoadOutcome(counts: nat -> nat, buttons: nat -> bool, target: int, clicks: nat, exit: Exit) {
    && clicks <= MaxAttempts
    && (forall k: nat :: k < clicks ==> ClicksAt(counts, buttons, target, k))
    && StopsAt(counts, buttons, target, clicks, exit)
  }

  method ClickShowMoreUntil(counts: nat -> nat, buttons: nat -> bool, target: int)
    returns (clicks: nat, exit: Exit)
    ensures IsLoadOutcome(counts, buttons, target, clicks, exit)
  {
    var lastCount := 0;
    var attempts := 0;
    exit := CapHit;
    while attempts < MaxAttempts
      invariant attempts <= MaxAttempts
      invariant lastCount == PreviousCount(counts, attempts)
      invariant forall k: nat :: k < attempts ==> ClicksAt(counts, buttons, target, k)
    {
      var currentCount := counts(attempts);
      if currentCount >= target {
        exit := Reached;
        break;
      }
      if currentCount == lastCount {
        exit := Stalled;
        break;
      }
      lastCount := currentCount;
      if buttons(attempts) {
        // the click; its effect shows up in the next read
      } else {
        exit := NoButton;
        break;
      }
      attempts := attempts + 1;
    }
    clicks := attempts;
  }

  /** The loop as a recursive definition: the outcome from the read after `k` clicks on. */
  function Run(counts: nat -> nat, buttons: nat -> bool, target: int, k: nat): (nat, Exit)
    requires k <= MaxAttempts
    decreases MaxAttempts - k
  {
    if k == MaxAttempts then (k, CapHit)
    else if counts(k) >= target then (k, Reached)
    else if counts(k) == PreviousCount(counts, k) then (k, Stalled)
    else if !buttons(k) then (k, NoButton)
    else Run(counts, buttons, target, k + 1)
  }

  /** Every run of the loop is the one the recursive definition gives. */
  lemma {:induction false} OutcomeIsRun(counts: nat -> nat, buttons: nat -> bool, target: int,
                                        clicks: nat, exit: Exit, k: nat)
    requires IsLoadOutcome(counts, buttons, target, clicks, exit)
    requires k <= clicks
    ensures Run(counts, buttons, target, k) == (clicks, exit)
    decreases clicks - k
  {
    if k < clicks {
      assert ClicksAt(counts, buttons, target, k);
      OutcomeIsRun(counts, buttons, target, clicks, exit, k + 1);
    }
  }

  /** The clicks and the exit reason are determined by the page. */
  lemma LoadOutcomeUnique(counts: nat -> nat, buttons: nat -> bool, target: int,
                          c1: nat, e1: Exit, c2: nat, e2: Exit)
    requires IsLoadOutcome(counts, buttons, target, c1, e1)
    requires IsLoadOutcome(counts, buttons, target, c2, e2)
    ensures c1 == c2 && e1 == e2
  {
    OutcomeIsRun(counts, buttons, target, c1, e1, 0);
    OutcomeIsRun(counts, buttons, target, c2, e2, 0);
  }

  /** A page that shows no reviews stops at the first read, without a click. */
  lemma EmptyPageStopsAtOnce(counts: nat -> nat, buttons: nat -> bool, target: int, clicks: nat, exit: Exit)
    requires counts(0) == 0 && target > 0
    requires IsLoadOutcome(counts, buttons, target, clicks, exit)
    ensures clicks == 0 && exit == Stalled
  {
    LoadOutcomeUnique(counts, buttons, target, clicks, exit, 0, Stalled);
  }

  /** A count that never changes after the first read is detected as a stall after one click. */
  lemma ConstantCountStallsAfterOneClick(counts: nat -> nat, buttons: nat -> bool, target: int,
                                         clicks: nat, exit: Exit)
    requires forall k: nat :: counts(k) == counts(0)
    requires 0 < counts(0) < target && buttons(0)
    requires IsLoadOutcome(counts, buttons, target, clicks, exit)
    ensures clicks == 1 && exit == Stalled
  {
    assert ClicksAt(counts, buttons, target, 0);
    assert StopsAt(counts, buttons, target, 1, Stalled) by {
      assert counts(1) == counts(0);
    }
    LoadOutcomeUnique(counts, buttons, target, clicks, exit, 1, Stalled);
  }

  /** A feed that keeps growing, with the button always there, stops at the first
      read that reaches the target when that read comes before the cap. */
  lemma GrowingFeedStopsAtTarget(counts: nat -> nat, buttons: nat -> bool, target: int,
                                 j: nat, clicks: nat, exit: Exit)
    requires forall k: nat :: counts(k) < counts(k + 1)
    requires counts(0) > 0
    requires forall k: nat :: buttons(k)
    requires j < MaxAttempts && counts(j) >= target
    requires forall k: nat :: k < j ==> counts(k) < target
    requires IsLoadOutcome(counts, buttons, target, clicks, exit)
    ensures clicks == j && exit == Reached
  {
    forall k: nat | k < j ensures ClicksAt(counts, buttons, target, k) {
      if k > 0 {
        assert counts(k - 1) < counts(k - 1 + 1);
      }
    }
    LoadOutcomeUnique(counts, buttons, target, clicks, exit, j, Reached);
  }
}
