/** The process-output log of packages/desktop/src/components/Terminal.tsx: `[...prev.slice(-1000), entry]`. */
module TerminalLog {

  const MaxKept := 1000

  function Min(a: int, b: int): int {
    if a < b then a else b
  }

  /** The last 1000 earlier entries, then the new one. */
  function AppendLog<T>(prev: seq<T>, entry: T): (r: seq<T>)
    ensures |r| == Min(|prev|, MaxKept) + 1 && |r| <= MaxKept + 1
    ensures r[|r| - 1] == entry
    ensures forall i :: 0 <= i < |r| - 1 ==> r[i] == prev[|prev| - (|r| - 1) + i]
    ensures |prev| <= MaxKept ==> r == prev + [entry]
  {
    var kept := if |prev| > MaxKept then prev[|prev| - MaxKept..] else prev;
    kept + [entry]
  }

  /** The log after the entries of `es` arrived, one after another, on an empty log. */
  function Feed<T>(es: seq<T>): seq<T> {
    if es == [] then [] else AppendLog(Feed(es[..|es| - 1]), es[|es| - 1])
  }

  /** `log` is the latest `min(|es|, 1001)` entries of `es`, in order. */
  predicate Latest<T(==)>(log: seq<T>, es: seq<T>) {
    && |log| == Min(|es|, MaxKept + 1)
    && forall i :: 0 <= i < |log| ==> log[i] == es[|es| - |log| + i]
  }

  /** Appending an entry to the latest entries of `es` gives the latest entries of `es + [entry]`. */
  lemma AppendKeepsLatest<T>(prev: seq<T>, es: seq<T>, entry: T)
    requires Latest(prev, es)
    ensures Latest(AppendLog(prev, entry), es + [entry])
  {
    var r, es' := AppendLog(prev, entry), es + [entry];
    var n, m := |es|, Min(|prev|, MaxKept);
    assert |r| == m + 1 == Min(|es'|, MaxKept + 1);
    forall i | 0 <= i < |r| ensures r[i] == es'[n + 1 - |r| + i] {
      if i < m {
        var j := |prev| - m + i;
        assert r[i] == prev[j];
        assert prev[j] == es[n - |prev| + j];
        assert es'[n - |prev| + j] == es[n - |prev| + j];
      }
    }
  }

  lemma {:induction false} FeedAt<T>(es: seq<T>)
    ensures Latest(Feed(es), es)
    decreases |es|
  {
    if es != [] {
      var init, e := es[..|es| - 1], es[|es| - 1];
      FeedAt(init);
      AppendKeepsLatest(Feed(init), init, e);
      assert init + [e] == es;
    }
  }

  lemma LatestIsSuffix<T>(log: seq<T>, es: seq<T>)
    requires Latest(log, es)
    ensures log == es[|es| - Min(|es|, MaxKept + 1)..]
  {
    var k := |log|;
    var tail := es[|es| - k..];
    assert |tail| == k;
    forall i | 0 <= i < k ensures log[i] == tail[i] {
      assert tail[i] == es[|es| - k + i];
    }
  }

  /** However many entries arrive, the log holds exactly the latest 1001 of them (or all, when fewer), in arrival order. */
  lemma FeedKeepsLatest<T>(es: seq<T>)
    ensures Feed(es) == es[|es| - Min(|es|, MaxKept + 1)..]
  {
    var log := Feed(es);
    FeedAt(es);
    LatestIsSuffix(log, es);
  }
}
