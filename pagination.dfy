/** The "Load More" pagination loop of `load_all_rows` (stock_usa.py:79-123).
    The browser is replaced by a sequence of probe outcomes, one per loop
    iteration, and the two row counts the method reads by parameters. */
module Pagination {

  /** What one iteration of the loop observes: the Load More button was not
      visible, was clicked, the probe or click timed out, or another error
      was raised. Past the end of a probe sequence the button is not visible. */
  datatype Probe = NotVisible | Clicked | Timeout | OtherError

  /** Why the loop ended. */
  datatype Stop = BudgetSpent | ButtonGone | TimedOutTwice | Aborted

  /** The outcome of the loop: clicks made, probes consumed, and why it ended. */
  datatype Run = Run(clicks: nat, used: nat, stop: Stop)

  /** `max_clicks`. */
  const MaxClicks: nat := 150

  function ProbeAt(probes: seq<Probe>, i: nat): Probe {
    if i < |probes| then probes[i] else NotVisible
  }

  /** The loop from probe i on with the given counters: it stops once the
      budget is spent, on an invisible button, on any error other than a
      timeout, and on the second timeout in a row; a click counts and clears
      the timeout count, and a first timeout only counts as a failure. It
      never exceeds the budget, and it consumes at most two probes per click
      plus two, so it ends in bounded time whatever the page does. */
  function Drive(probes: seq<Probe>, i: nat, clicks: nat, failures: nat): (r: Run)
    requires clicks <= MaxClicks && failures < 2
    ensures clicks <= r.clicks <= MaxClicks
    ensures i <= r.used <= i + 2 * (r.clicks - clicks) + 2 - failures
    decreases |probes| - i
  {
    if clicks >= MaxClicks then Run(clicks, i, BudgetSpent)
    else
      match ProbeAt(probes, i)
      case NotVisible => Run(clicks, i + 1, ButtonGone)
      case Clicked => Drive(probes, i + 1, clicks + 1, 0)
      case Timeout =>
        if failures + 1 >= 2 then Run(clicks, i + 1, TimedOutTwice)
        else Drive(probes, i + 1, clicks, failures + 1)
      case OtherError => Run(clicks, i + 1, Aborted)
  }

  /** Number of clicks among probes i (inclusive) to j (exclusive). */
  function ClicksIn(probes: seq<Probe>, i: nat, j: nat): nat
    decreases j - i
  {
    if j <= i then 0
    else (if ProbeAt(probes, i) == Clicked then 1 else 0) + ClicksIn(probes, i + 1, j)
  }

  /** The clicks made are exactly the Clicked probes consumed: a timeout, an
      invisible button or an error never counts as a click. */
  lemma {:induction false} DriveCountsClicks(probes: seq<Probe>, i: nat, clicks: nat, failures: nat)
    requires clicks <= MaxClicks && failures < 2
    ensures var r := Drive(probes, i, clicks, failures);
      r.clicks == clicks + ClicksIn(probes, i, r.used)
    decreases |probes| - i
  {
    var r := Drive(probes, i, clicks, failures);
    if clicks < MaxClicks {
      match ProbeAt(probes, i)
      case NotVisible =>
        assert ClicksIn(probes, i + 1, i + 1) == 0;
      case Clicked =>
        DriveCountsClicks(probes, i + 1, clicks + 1, 0);
      case Timeout =>
        if failures + 1 < 2 {
          DriveCountsClicks(probes, i + 1, clicks, failures + 1);
        } else {
          assert ClicksIn(probes, i + 1, i + 1) == 0;
        }
      case OtherError =>
        assert ClicksIn(probes, i + 1, i + 1) == 0;
    }
  }

  /** Why the loop stops: the budget is spent exactly when 150 clicks were
      made; otherwise the last probe consumed was an invisible button, an
      error, or a timeout right after another timeout (or after the failure
      the loop started with). Every probe before the last was a click or a
      timeout. */
  lemma {:induction false} DriveStops(probes: seq<Probe>, i: nat, clicks: nat, failures: nat)
    requires clicks <= MaxClicks && failures < 2
    ensures var r := Drive(probes, i, clicks, failures);
      && (r.stop == BudgetSpent <==> r.clicks == MaxClicks)
      && (r.stop == BudgetSpent ==> forall k :: i <= k < r.used ==> ProbeAt(probes, k) in {Clicked, Timeout})
      && (r.stop != BudgetSpent ==> i < r.used && forall k :: i <= k < r.used - 1 ==> ProbeAt(probes, k) in {Clicked, Timeout})
      && (r.stop == ButtonGone ==> ProbeAt(probes, r.used - 1) == NotVisible)
      && (r.stop == Aborted ==> ProbeAt(probes, r.used - 1) == OtherError)
      && (r.stop == TimedOutTwice ==> ProbeAt(probes, r.used - 1) == Timeout)
      && (r.stop == TimedOutTwice ==>
            (i + 1 < r.used && ProbeAt(probes, r.used - 2) == Timeout) || (i + 1 == r.used && failures == 1))
    decreases |probes| - i
  {
    if clicks < MaxClicks {
      match ProbeAt(probes, i)
      case NotVisible =>
      case Clicked =>
        DriveStops(probes, i + 1, clicks + 1, 0);
      case Timeout =>
        if failures + 1 < 2 {
          DriveStops(probes, i + 1, clicks, failures + 1);
        }
      case OtherError =>
    }
  }

  /** The 95% heuristic `current_count >= total_rows_loaded * 0.95`, over
      integers. */
  predicate AlreadyLoaded(count: nat, total: nat) {
    20 * count >= 19 * total
  }

  /** The skip always applies before any rows have been recorded, and never
      applies to a count under 95% of the recorded total. */
  lemma AlreadyLoadedBounds(count: nat, total: nat)
    ensures total == 0 ==> AlreadyLoaded(count, total)
    ensures 100 * count < 95 * total ==> !AlreadyLoaded(count, total)
  {
  }

  /** The scraper's state that survives between tabs. */
  class Scraper {
    /** `total_rows_loaded`: the largest row count seen after loading a tab. */
    var totalRowsLoaded: nat

    constructor ()
      ensures totalRowsLoaded == 0
    {
      totalRowsLoaded := 0;
    }

    /** load_all_rows. `currentCount` is what the row count reads before the
        loop, `finalCount` what it reads after. On a tab other than the
        first whose rows are already 95% loaded nothing is clicked and the
        total is left alone; otherwise the loop runs as Drive says and the
        total becomes the larger of itself and the final count. */
    method LoadAllRows(isFirstTab: bool, currentCount: nat, probes: seq<Probe>, finalCount: nat)
      returns (clicks: nat)
      modifies this
      ensures !isFirstTab && AlreadyLoaded(currentCount, old(totalRowsLoaded)) ==>
        clicks == 0 && totalRowsLoaded == old(totalRowsLoaded)
      ensures !(!isFirstTab && AlreadyLoaded(currentCount, old(totalRowsLoaded))) ==>
        clicks == Drive(probes, 0, 0, 0).clicks &&
        totalRowsLoaded == if finalCount > old(totalRowsLoaded) then finalCount else old(totalRowsLoaded)
      ensures clicks <= MaxClicks
      ensures totalRowsLoaded >= old(totalRowsLoaded)
    {
      if !isFirstTab && AlreadyLoaded(currentCount, totalRowsLoaded) {
        return 0;
      }
      ghost var run := Drive(probes, 0, 0, 0);
      clicks := 0;
      var failures := 0;
      var i := 0;
      while clicks < MaxClicks
        invariant 0 <= i <= |probes| && clicks <= MaxClicks && failures < 2
        invariant Drive(probes, i, clicks, failures) == run
        decreases |probes| - i
      {
        var probe := ProbeAt(probes, i);
        i := i + 1;
        if probe == NotVisible {
          break;
        } else if probe == Clicked {
          clicks := clicks + 1;
          failures := 0;
        } else if probe == Timeout {
          failures := failures + 1;
          if failures >= 2 {
            break;
          }
        } else {
          break;
        }
      }
      assert clicks == run.clicks;
      if finalCount > totalRowsLoaded {
        totalRowsLoaded := finalCount;
      }
    }
  }
}
