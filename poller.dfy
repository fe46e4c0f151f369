/**
 * The readiness poller: the `worktree:waitReady` handler of packages/desktop/electron/main.ts.
 * Time is abstract: every iteration sleeps the poll interval, so at most `MaxPolls` samples are
 * taken before the timeout; `samples` are the samples the file system gives, in order.
 */
module ReadinessPoller {
  import opened Wrappers

  const TimeoutMs: nat := 120000
  const PollIntervalMs: nat := 1000
  const StabilityThreshold: nat := 5
  const MaxPolls: nat := TimeoutMs / PollIntervalMs

  /** One sample: the number of entries of `node_modules`, or the error code a check threw (ENOENT, EBUSY, ...). */
  datatype Sample = Count(n: nat) | Failed(code: string)

  /** The loop variables `prevCount` and `stabilityCounter`. */
  datatype Poll = Poll(prevCount: int, stable: nat)

  const Initial: Poll := Poll(-1, 0)

  /** One iteration: a repeated positive count is one more stable sample; any other count resets; a failure resets both. */
  function Next(p: Poll, s: Sample): Poll {
    match s
    case Count(n) => Poll(n, if n > 0 && n == p.prevCount then p.stable + 1 else 0)
    case Failed(_) => Initial
  }

  function After(samples: seq<Sample>): Poll {
    if samples == [] then Initial else Next(After(samples[..|samples| - 1]), samples[|samples| - 1])
  }

  /** The loop returns on sample `k` when its counter reaches the threshold there. */
  predicate ReadyAt(samples: seq<Sample>, k: nat)
    requires k < |samples|
  {
    After(samples[..k + 1]).stable >= StabilityThreshold
  }

  /** The last `m + 1` samples are one and the same positive count. */
  predicate SameRun(samples: seq<Sample>, m: nat) {
    m == 0 ||
    (&& |samples| > m
     && samples[|samples| - 1].Count? && samples[|samples| - 1].n > 0
     && forall j :: |samples| - 1 - m <= j < |samples| ==> samples[j] == samples[|samples| - 1])
  }

  /** Independent reading of readiness: six consecutive successful samples with the same positive count, ending at `k`. */
  predicate SettledAt(samples: seq<Sample>, k: nat)
    requires k < |samples|
  {
    && k >= StabilityThreshold
    && samples[k].Count? && samples[k].n > 0
    && forall j :: k - StabilityThreshold <= j <= k ==> samples[j] == samples[k]
  }

  /** `prevCount` is the last successful count, and -1 before any sample or right after a failure. */
  lemma PrevCountIsLastCount(samples: seq<Sample>)
    ensures After(samples).prevCount ==
      if samples == [] || samples[|samples| - 1].Failed? then -1 else samples[|samples| - 1].n
  {
  }

  /** The counter is at least `m` exactly when the last `m + 1` samples are the same positive count. */
  lemma {:induction false} StableIffRun(samples: seq<Sample>, m: nat)
    ensures After(samples).stable >= m <==> SameRun(samples, m)
    decreases m
  {
    if m > 0 && samples != [] {
      var init := samples[..|samples| - 1];
      var last := samples[|samples| - 1];
      StableIffRun(init, m - 1);
      PrevCountIsLastCount(init);
      if SameRun(samples, m) {
        assert init[|init| - 1] == last;
        assert SameRun(init, m - 1) by {
          if m - 1 > 0 {
            forall j | |init| - 1 - (m - 1) <= j < |init| ensures init[j] == init[|init| - 1] {
              assert init[j] == samples[j];
            }
          }
        }
      }
      if After(samples).stable >= m {
        assert last.Count? && last.n > 0 && init != [] && init[|init| - 1] == last;
        forall j | |samples| - 1 - m <= j < |samples| ensures samples[j] == last {
          if j < |samples| - 1 {
            assert samples[j] == init[j];
          }
        }
      }
    }
  }

  /** The loop's test and the independent reading agree: ready at `k` iff six equal positive samples end at `k`. */
  lemma ReadyIffSettled(samples: seq<Sample>, k: nat)
    requires k < |samples|
    ensures ReadyAt(samples, k) <==> SettledAt(samples, k)
  {
    var prefix := samples[..k + 1];
    StableIffRun(prefix, StabilityThreshold);
    if SameRun(prefix, StabilityThreshold) {
      forall j | k - StabilityThreshold <= j <= k ensures samples[j] == samples[k] {
        assert samples[j] == prefix[j];
      }
    }
    if SettledAt(samples, k) {
      forall j | |prefix| - 1 - StabilityThreshold <= j < |prefix| ensures prefix[j] == prefix[|prefix| - 1] {
        assert prefix[j] == samples[j];
      }
    }
  }

  function TimeoutMessage(target: string): string {
    "Timeout waiting for worktree " + target + " to be ready"
  }

  /**
   * `worktree:waitReady`: `Ok(k)` when sample `k` is the first at which six consecutive samples
   * carried the same positive count; otherwise the timeout error naming `target`.  No failed
   * sample ends the loop early.
   */
  method WaitReady(target: string, samples: seq<Sample>) returns (r: Result<nat, string>)
    ensures r.Ok? ==> r.value < |samples| && r.value < MaxPolls && SettledAt(samples, r.value)
    ensures r.Ok? ==> forall j :: 0 <= j < r.value ==> !SettledAt(samples, j)
    ensures r.Err? ==> r.error == TimeoutMessage(target)
    ensures r.Err? ==> forall j :: 0 <= j < |samples| && j < MaxPolls ==> !SettledAt(samples, j)
  {
    var prevCount := -1;
    var stabilityCounter := 0;
    var i := 0;
    while i < |samples| && i < MaxPolls
      invariant 0 <= i <= |samples|
      invariant Poll(prevCount, stabilityCounter) == After(samples[..i])
      invariant forall j :: 0 <= j < i ==> !SettledAt(samples, j)
      decreases |samples| - i
    {
      assert samples[..i + 1][..i] == samples[..i];
      match samples[i] {
        case Count(count) =>
          if count > 0 && count == prevCount {
            stabilityCounter := stabilityCounter + 1;
          } else {
            stabilityCounter := 0;
          }
          prevCount := count;
        case Failed(_) =>
          stabilityCounter := 0;
          prevCount := -1;
      }
      ReadyIffSettled(samples, i);
      if stabilityCounter >= StabilityThreshold {
        return Ok(i);
      }
      i := i + 1;
    }
    return Err(TimeoutMessage(target));
  }

  /**
   * The sequence 0, 0, 3, 3, 3, 3, 3 holds only five equal counts and times out; one more 3
   * makes the eighth sample ready.
   */
  method FiveStableCountsAreNotEnough(target: string) returns (five: Result<nat, string>, six: Result<nat, string>)
    ensures five.Err? && six == Ok(7)
  {
    var fiveThrees := [Count(0), Count(0), Count(3), Count(3), Count(3), Count(3), Count(3)];
    var sixThrees := fiveThrees + [Count(3)];
    forall j | 0 <= j < 7 ensures !SettledAt(fiveThrees, j) && !SettledAt(sixThrees, j) {
      if j >= StabilityThreshold {
        assert fiveThrees[j - StabilityThreshold] == Count(0) != fiveThrees[j];
        assert sixThrees[j - StabilityThreshold] == Count(0) != sixThrees[j];
      }
    }
    assert SettledAt(sixThrees, 7);
    five := WaitReady(target, fiveThrees);
    six := WaitReady(target, sixThrees);
  }
}
