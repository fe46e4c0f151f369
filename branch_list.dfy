/**
 * The worktree list of packages/desktop/src/components/BranchList.tsx: the reconciliation
 * that `refresh` performs after each listing (a one-shot targeted start, auto-start of newly
 * appeared worktrees against a baseline of known paths) and the start/stop toggle.
 */
module BranchReconciler {
  import opened Wrappers
  import opened Text
  import opened Seqs
  import WorktreeStore

  type Worktree = WorktreeStore.Worktree

  // ---------------------------------------------------------------- target matching

  /** What normalising does to one character: `\` becomes `/`, ASCII letters go to lower case. */
  function NormChar(c: char): char {
    LowerChar(if c == '\\' then '/' else c)
  }

  /** `p.replace(/\\/g, '/').toLowerCase().replace(/\/$/, '')` */
  function Normalize(p: string): (r: string)
    ensures |r| <= |p| <= |r| + 1
    ensures |r| < |p| <==> |p| > 0 && (p[|p| - 1] == '/' || p[|p| - 1] == '\\')
    ensures forall i :: 0 <= i < |r| ==> r[i] == NormChar(p[i])
    ensures forall i :: 0 <= i < |r| ==> r[i] != '\\' && !('A' <= r[i] <= 'Z')
  {
    var lowered := Lower(ReplaceChar(p, '\\', '/'));
    if |lowered| > 0 && lowered[|lowered| - 1] == '/' then lowered[..|lowered| - 1] else lowered
  }

  /** Normalising ignores ASCII case. */
  lemma NormalizeIgnoresCase(p: string)
    ensures Normalize(Lower(p)) == Normalize(p)
  {
    var a, b := Normalize(Lower(p)), Normalize(p);
    assert |a| == |b|;
    forall i | 0 <= i < |a| ensures a[i] == b[i] {
      assert Lower(p)[i] == LowerChar(p[i]);
    }
  }

  /** Normalising does not tell `\` from `/`. */
  lemma NormalizeIgnoresSeparator(p: string)
    ensures Normalize(ReplaceChar(p, '\\', '/')) == Normalize(p)
  {
    var a, b := Normalize(ReplaceChar(p, '\\', '/')), Normalize(p);
    assert |a| == |b|;
    forall i | 0 <= i < |a| ensures a[i] == b[i] {
      assert ReplaceChar(p, '\\', '/')[i] == (if p[i] == '\\' then '/' else p[i]);
    }
  }

  /** A path already in normal form (lower case, `/` only, no trailing `/`) is its own normalisation. */
  lemma NormalizeFixesNormalForm(p: string)
    requires forall i :: 0 <= i < |p| ==> p[i] != '\\' && !('A' <= p[i] <= 'Z')
    requires |p| == 0 || p[|p| - 1] != '/'
    ensures Normalize(p) == p
  {
    var r := Normalize(p);
    assert |r| == |p|;
    forall i | 0 <= i < |r| ensures r[i] == p[i] {
    }
  }

  /** The test inside `list.find`: the normalised worktree path is the normalised target or a directory above it. */
  predicate MatchesTarget(path: string, target: string) {
    var w, t := Normalize(path), Normalize(target);
    w == t || StartsWith(t, w + "/")
  }

  function Matcher(target: string): Worktree -> bool {
    (w: Worktree) => MatchesTarget(w.path, target)
  }

  function ExactMatcher(target: string): Worktree -> bool {
    (w: Worktree) => Normalize(w.path) == Normalize(target)
  }

  /** The target lookup as written: the FIRST worktree that equals or contains the target. */
  function FindTargetAsWritten(list: seq<Worktree>, target: string): (r: Option<nat>)
    ensures r.None? <==> forall i :: 0 <= i < |list| ==> !MatchesTarget(list[i].path, target)
    ensures r.Some? ==>
      && r.value < |list| && MatchesTarget(list[r.value].path, target)
      && forall i :: 0 <= i < r.value ==> !MatchesTarget(list[i].path, target)
  {
    FindIndex(list, Matcher(target))
  }

  /** A path whose last character is not a separator (the empty path included). */
  predicate NoTrailingSeparator(p: string) {
    p == [] || (p[|p| - 1] != '/' && p[|p| - 1] != '\\')
  }

  /** Lengths under normalisation when no trailing separator is there to strip. */
  lemma NormalizeKeepsLength(p: string)
    requires NoTrailingSeparator(p)
    ensures |Normalize(p)| == |p|
  {
  }

  /** Below a directory without a trailing separator, normalising works part by part. */
  lemma NormalizeChild(m: string, s: string)
    requires NoTrailingSeparator(m) && s != [] && NoTrailingSeparator(s)
    ensures Normalize(m + "/" + s) == Normalize(m) + "/" + Normalize(s)
  {
    var t := m + "/" + s;
    assert t[|t| - 1] == s[|s| - 1];
    NormalizeKeepsLength(t);
    NormalizeKeepsLength(m);
    NormalizeKeepsLength(s);
    var a, b := Normalize(t), Normalize(m) + "/" + Normalize(s);
    forall i | 0 <= i < |a| ensures a[i] == b[i] {
      NormalizeChildAt(m, s, i);
    }
  }

  lemma NormalizeChildAt(m: string, s: string, i: nat)
    requires |Normalize(m + "/" + s)| == |m + "/" + s| && |Normalize(m)| == |m| && |Normalize(s)| == |s|
    requires i < |m + "/" + s|
    ensures Normalize(m + "/" + s)[i] == (Normalize(m) + "/" + Normalize(s))[i]
  {
    var t := m + "/" + s;
    var a, b := Normalize(t), Normalize(m) + "/" + Normalize(s);
    assert a[i] == NormChar(t[i]);
    if i < |m| {
      assert t[i] == m[i] && b[i] == Normalize(m)[i] == NormChar(m[i]);
    } else if i > |m| {
      var k := i - |m| - 1;
      assert t[i] == s[k] && b[i] == Normalize(s)[k] == NormChar(s[k]);
    } else {
      assert t[i] == '/' && b[i] == '/';
    }
  }

  /**
   * Git lists the main worktree first and the managed previews live below it, so for any target
   * below the first listed worktree the lookup as written picks that first worktree, although it
   * is not the target; the corrected lookup picks the exact entry whenever one is listed.
   */
  lemma TargetAsWrittenPicksMainWorktree(list: seq<Worktree>, s: string)
    requires |list| > 0 && NoTrailingSeparator(list[0].path)
    requires s != [] && NoTrailingSeparator(s)
    ensures FindTargetAsWritten(list, list[0].path + "/" + s) == Some(0)
    ensures Normalize(list[0].path) != Normalize(list[0].path + "/" + s)
    ensures forall i :: 0 < i < |list| && list[i].path == list[0].path + "/" + s ==>
      FindTarget(list, list[0].path + "/" + s) != Some(0)
  {
    var m := list[0].path;
    var t := m + "/" + s;
    NormalizeChild(m, s);
    var nm := Normalize(m);
    assert (nm + "/" + Normalize(s))[..|nm + "/"|] == nm + "/";
    assert MatchesTarget(m, t);
    assert |Normalize(m)| != |Normalize(t)|;
  }

  /** The target lookup: an exact match wins; otherwise the first worktree that contains the target. */
  function FindTarget(list: seq<Worktree>, target: string): (r: Option<nat>)
    ensures r.None? <==> forall i :: 0 <= i < |list| ==> !MatchesTarget(list[i].path, target)
    ensures r.Some? ==> r.value < |list| && MatchesTarget(list[r.value].path, target)
    ensures (exists i :: 0 <= i < |list| && Normalize(list[i].path) == Normalize(target)) ==>
      r.Some? && Normalize(list[r.value].path) == Normalize(target)
  {
    match FindIndex(list, ExactMatcher(target))
    case Some(i) => Some(i)
    case None =>
      assert forall i :: 0 <= i < |list| ==> !ExactMatcher(target)(list[i]);
      FindTargetAsWritten(list, target)
  }

  // ---------------------------------------------------------------- reconciliation

  function PathSet(list: seq<Worktree>): set<string> {
    set i | 0 <= i < |list| :: list[i].path
  }

  function IsNew(previous: set<string>): Worktree -> bool {
    (w: Worktree) => w.path !in previous
  }

  /** `list.filter(w => !previousWorktrees.has(w.path))`: paths compared exactly, case included. */
  function NewEntries(previous: set<string>, list: seq<Worktree>): (r: seq<Worktree>)
    ensures forall w :: w in r <==> w in list && w.path !in previous
  {
    Filter(list, IsNew(previous))
  }

  /** The double-start guard: the entry's lower-cased path is the lower-cased original target. */
  predicate IsTargeted(w: Worktree, targetedPath: Option<string>) {
    targetedPath.Some? && Lower(w.path) == Lower(targetedPath.value)
  }

  function NotTargeted(targetedPath: Option<string>): Worktree -> bool {
    (w: Worktree) => !IsTargeted(w, targetedPath)
  }

  /** The worktrees auto-started by one refresh. */
  function AutoStarts(previous: set<string>, targetedPath: Option<string>, autoStart: bool, list: seq<Worktree>): (r: seq<Worktree>)
    ensures forall w :: w in r <==>
      autoStart && |previous| > 0 && w in list && w.path !in previous && !IsTargeted(w, targetedPath)
    ensures !autoStart || |previous| == 0 ==> r == []
  {
    var newcomers := NewEntries(previous, list);
    if autoStart && |previous| > 0 && |newcomers| > 0 then Filter(newcomers, NotTargeted(targetedPath)) else []
  }

  /** The index of the targeted worktree in the listing, when a non-empty target is set: the first entry that equals or contains it. */
  function TargetPick(targeted: Option<string>, list: seq<Worktree>): (r: Option<nat>)
    ensures r.Some? ==>
      && Truthy(targeted) && r.value < |list| && MatchesTarget(list[r.value].path, targeted.value)
      && forall i :: 0 <= i < r.value ==> !MatchesTarget(list[i].path, targeted.value)
    ensures r.None? <==> !Truthy(targeted) || forall i :: 0 <= i < |list| ==> !MatchesTarget(list[i].path, targeted.value)
  {
    if Truthy(targeted) then FindTargetAsWritten(list, targeted.value) else None
  }

  /** The corrected pick: the same, except that an entry equal to the target wins over one containing it. */
  function TargetPickCorrected(targeted: Option<string>, list: seq<Worktree>): (r: Option<nat>)
    ensures r.Some? ==> Truthy(targeted) && r.value < |list| && MatchesTarget(list[r.value].path, targeted.value)
    ensures r.None? <==> !Truthy(targeted) || forall i :: 0 <= i < |list| ==> !MatchesTarget(list[i].path, targeted.value)
    ensures Truthy(targeted) && (exists i :: 0 <= i < |list| && Normalize(list[i].path) == Normalize(targeted.value)) ==>
      r.Some? && Normalize(list[r.value].path) == Normalize(targeted.value)
  {
    if Truthy(targeted) then FindTarget(list, targeted.value) else None
  }

  /** The worktrees one refresh hands to the toggle, given the pick: the picked one first, then the auto-started ones. */
  function TogglesAfter(pick: Option<nat>, previous: set<string>, targeted: Option<string>, autoStart: bool, list: seq<Worktree>): (r: seq<Worktree>)
    requires pick.Some? ==> pick.value < |list|
    ensures forall w :: w in r ==> w in list
    ensures pick.Some? ==> |r| > 0 && r[0] == list[pick.value]
    ensures !autoStart || |previous| == 0 ==> |r| <= 1 && (r != [] <==> pick.Some?)
    ensures forall k :: (if pick.Some? then 1 else 0) <= k < |r| ==>
      r[k].path !in previous && !IsTargeted(r[k], targeted)
  {
    var auto := AutoStarts(previous, targeted, autoStart, list);
    if pick.None? then auto
    else
      var r := [list[pick.value]] + auto;
      assert forall k :: 1 <= k < |r| ==> r[k] == auto[k - 1];
      r
  }

  /** Every worktree one refresh hands to the toggle, in order, with the target lookup as written. */
  function Toggles(previous: set<string>, targeted: Option<string>, autoStart: bool, list: seq<Worktree>): (r: seq<Worktree>)
    ensures forall w :: w in r ==> w in list
    ensures TargetPick(targeted, list).Some? ==> |r| > 0 && r[0] == list[TargetPick(targeted, list).value]
    ensures !autoStart || |previous| == 0 ==> |r| <= 1 && (r != [] <==> TargetPick(targeted, list).Some?)
    ensures forall k :: (if TargetPick(targeted, list).Some? then 1 else 0) <= k < |r| ==>
      r[k].path !in previous && !IsTargeted(r[k], targeted)
  {
    TogglesAfter(TargetPick(targeted, list), previous, targeted, autoStart, list)
  }

  /** The same with the corrected target lookup. */
  function TogglesCorrected(previous: set<string>, targeted: Option<string>, autoStart: bool, list: seq<Worktree>): (r: seq<Worktree>)
    ensures forall w :: w in r ==> w in list
    ensures TargetPickCorrected(targeted, list).Some? ==> |r| > 0 && r[0] == list[TargetPickCorrected(targeted, list).value]
    ensures !autoStart || |previous| == 0 ==> |r| <= 1 && (r != [] <==> TargetPickCorrected(targeted, list).Some?)
    ensures forall k :: (if TargetPickCorrected(targeted, list).Some? then 1 else 0) <= k < |r| ==>
      r[k].path !in previous && !IsTargeted(r[k], targeted)
  {
    TogglesAfter(TargetPickCorrected(targeted, list), previous, targeted, autoStart, list)
  }

  /** The new preview is the only newcomer, and the double-start guard holds it back. */
  lemma PreviewHeldBackByGuard(main: Worktree, preview: Worktree)
    requires preview.path != main.path
    ensures AutoStarts({main.path}, Some(preview.path), true, [main, preview]) == []
  {
    var list := [main, preview];
    assert NewEntries({main.path}, list) == [preview] by {
      assert list[1..] == [preview] && list[1..][1..] == [];
    }
    assert [preview][1..] == [];
  }

  /**
   * A new preview below the main worktree is the target: as written, the refresh hands the main
   * worktree to the toggle and the double-start guard skips the preview, so the preview is never
   * started; with the corrected lookup the preview alone is toggled.
   */
  lemma PreviewTargetTogglesMain(main: Worktree, preview: Worktree, s: string)
    requires NoTrailingSeparator(main.path) && s != [] && NoTrailingSeparator(s)
    requires preview.path == main.path + "/" + s
    ensures Toggles({main.path}, Some(preview.path), true, [main, preview]) == [main]
    ensures TogglesCorrected({main.path}, Some(preview.path), true, [main, preview]) == [preview]
  {
    var list := [main, preview];
    TargetAsWrittenPicksMainWorktree(list, s);
    assert preview.path != main.path by { assert |preview.path| != |main.path|; }
    PreviewHeldBackByGuard(main, preview);
    assert TargetPick(Some(preview.path), list) == Some(0);
    assert TargetPickCorrected(Some(preview.path), list) == Some(1) by {
      assert exists i :: 0 <= i < |list| && Normalize(list[i].path) == Normalize(preview.path) by {
        assert Normalize(list[1].path) == Normalize(preview.path);
      }
    }
  }

  /** The seed pass: with an empty baseline nothing is auto-started, however many worktrees appear. */
  lemma SeedPassStartsNothingNew(targeted: Option<string>, list: seq<Worktree>)
    requires TargetPick(targeted, list).None?
    ensures Toggles({}, targeted, true, list) == []
  {
  }

  /** Two known worktrees and a third that appeared: only the third is started. */
  lemma NewWorktreeIsStarted(a: Worktree, b: Worktree, c: Worktree)
    requires a.path != c.path && b.path != c.path
    ensures Toggles({a.path, b.path}, None, true, [a, b, c]) == [c]
  {
    var list := [a, b, c];
    assert Filter(list[2..], IsNew({a.path, b.path})) == [c] by {
      assert list[2..][1..] == [];
    }
    assert Filter(list[1..], IsNew({a.path, b.path})) == [c] by {
      assert list[1..][1..] == list[2..];
    }
    assert NewEntries({a.path, b.path}, list) == [c] by {
      assert list[1..] == [b, c];
    }
    assert [c][1..] == [];
  }

  lemma NormalizeDriveSample()
    ensures Normalize("C:/w") == "c:/w" == Normalize("C:\\w")
  {
    var r1, r2 := Normalize("C:/w"), Normalize("C:\\w");
    assert |r1| == 4 && |r2| == 4;
    assert r1[0] == 'c' && r1[1] == ':' && r1[2] == '/' && r1[3] == 'w';
    assert r2[0] == 'c' && r2[1] == ':' && r2[2] == '/' && r2[3] == 'w';
  }

  lemma TargetSampleFound()
    ensures TargetPick(Some("C:\\w"), [WorktreeStore.Worktree("C:/r", Some("main")), WorktreeStore.Worktree("C:/w", Some("feat"))]) == Some(1)
  {
    var list := [WorktreeStore.Worktree("C:/r", Some("main")), WorktreeStore.Worktree("C:/w", Some("feat"))];
    NormalizeDriveSample();
    assert Normalize("C:/r")[3] == 'r';
    assert !Matcher("C:\\w")(list[0]) && Matcher("C:\\w")(list[1]);
  }

  lemma AutoStartSample()
    ensures
      var w := WorktreeStore.Worktree("C:/w", Some("feat"));
      AutoStarts({"C:/r"}, Some("C:\\w"), true, [WorktreeStore.Worktree("C:/r", Some("main")), w]) == [w]
  {
    var main, w := WorktreeStore.Worktree("C:/r", Some("main")), WorktreeStore.Worktree("C:/w", Some("feat"));
    var list := [main, w];
    assert Lower(w.path)[2] == '/' != Lower("C:\\w")[2];
    assert NewEntries({main.path}, list) == [w] by {
      assert list[1..] == [w] && list[1..][1..] == [];
    }
    assert [w][1..] == [];
  }

  /**
   * The target lookup normalises separators but the double-start guard only lower-cases, so a
   * target written with `\` that appears as a new worktree is handed to the toggle twice.
   */
  lemma BackslashTargetToggledTwice()
    ensures
      var w := WorktreeStore.Worktree("C:/w", Some("feat"));
      Toggles({"C:/r"}, Some("C:\\w"), true, [WorktreeStore.Worktree("C:/r", Some("main")), w]) == [w, w]
  {
    TargetSampleFound();
    AutoStartSample();
  }

  // ---------------------------------------------------------------- toggle

  /** `server-${branch}`, the process id of a worktree's dev server. */
  function ServerId(branch: string): (id: string)
    ensures StartsWith(id, "server-") && id[|"server-"|..] == branch
  {
    "server-" + branch
  }

  /** Distinct branches never share a server id. */
  lemma ServerIdInjective(a: string, b: string)
    requires ServerId(a) == ServerId(b)
    ensures a == b
  {
    assert a == ServerId(a)[7..];
  }

  datatype Toggle = Ignore | StopServer(id: string) | StartServer(id: string, cwd: string)

  predicate IsRunning(running: map<string, bool>, branch: string) {
    branch in running && running[branch]
  }

  /** What `handleToggleProcess` does: nothing without a branch, a stop when running, otherwise a start in the worktree. */
  function ToggleAction(running: map<string, bool>, wt: Worktree): (a: Toggle)
    ensures a.Ignore? <==> !Truthy(wt.branch)
    ensures a.StopServer? <==> Truthy(wt.branch) && IsRunning(running, wt.branch.value)
    ensures !a.Ignore? ==> a.id == ServerId(wt.branch.value)
    ensures a.StartServer? ==> a.cwd == wt.path
  {
    if !Truthy(wt.branch) then Ignore
    else if IsRunning(running, wt.branch.value) then StopServer(ServerId(wt.branch.value))
    else StartServer(ServerId(wt.branch.value), wt.path)
  }

  /** The `forEach` over the new entries: each one not caught by the double-start guard is toggled, in list order. */
  method StartNewcomers(newcomers: seq<Worktree>, targetedPath: Option<string>) returns (started: seq<Worktree>)
    ensures started == Filter(newcomers, NotTargeted(targetedPath))
  {
    started := [];
    var i := 0;
    while i < |newcomers|
      invariant 0 <= i <= |newcomers|
      invariant started == Filter(newcomers[..i], NotTargeted(targetedPath))
    {
      var wt := newcomers[i];
      NewcomerStep(newcomers, i, targetedPath);
      if !IsTargeted(wt, targetedPath) {
        started := started + [wt];
      }
      i := i + 1;
    }
    assert newcomers[..i] == newcomers;
  }

  /** One more newcomer: it joins the started ones exactly when the guard lets it through. */
  lemma NewcomerStep(newcomers: seq<Worktree>, i: nat, targetedPath: Option<string>)
    requires i < |newcomers|
    ensures Filter(newcomers[..i + 1], NotTargeted(targetedPath)) ==
      Filter(newcomers[..i], NotTargeted(targetedPath)) + (if IsTargeted(newcomers[i], targetedPath) then [] else [newcomers[i]])
  {
    assert newcomers[..i + 1] == newcomers[..i] + [newcomers[i]];
    FilterSnoc(newcomers[..i], newcomers[i], NotTargeted(targetedPath));
  }

  /** The body of `refresh` after the listing: the worktrees toggled, and whether the target was found. */
  method Reconcile(previous: set<string>, targeted: Option<string>, autoStart: bool, list: seq<Worktree>)
    returns (toggled: seq<Worktree>, found: bool)
    ensures toggled == Toggles(previous, targeted, autoStart, list)
    ensures found <==> TargetPick(targeted, list).Some?
  {
    toggled := [];
    found := false;
    if Truthy(targeted) {
      var target := FindTargetAsWritten(list, targeted.value);
      if target.Some? {
        toggled := [list[target.value]];
        found := true;
      }
    }
    ghost var picked := toggled;
    var started: seq<Worktree> := [];
    if autoStart {
      var newcomers := NewEntries(previous, list);
      if |previous| > 0 && |newcomers| > 0 {
        started := StartNewcomers(newcomers, targeted);
      }
    }
    toggled := toggled + started;
  }

  class BranchList {
    var worktrees: seq<Worktree>
    /** `previousWorktreesRef`: the baseline of known paths. */
    var previous: set<string>
    /** `targetedWorktreeRef`: the active worktree still waiting for its one-shot start. */
    var targeted: Option<string>
    var autoStart: bool
    var running: map<string, bool>
    /**
     * The `activeWorktree` prop the effect last ran with. The app starts with no active worktree, so a
     * list mounted with one sees it as a change and runs the effect, as the mount run does.
     */
    var shownActive: Option<string>

    constructor(autoStart: bool)
      ensures worktrees == [] && previous == {} && targeted == None
      ensures this.autoStart == autoStart && running == map[] && shownActive == None
    {
      worktrees := [];
      previous := {};
      targeted := None;
      this.autoStart := autoStart;
      running := map[];
      shownActive := None;
    }

    method SetAutoStart(on: bool)
      modifies this
      ensures autoStart == on
      ensures worktrees == old(worktrees) && previous == old(previous) && targeted == old(targeted) && running == old(running)
      ensures shownActive == old(shownActive)
    {
      autoStart := on;
    }

    /**
     * One `refresh` with the listing's outcome; returns the worktrees handed to the toggle.
     * A failed listing changes nothing; otherwise the target is cleared only when found and
     * the baseline becomes the listed paths whether or not auto-start is on.
     */
    method Refresh(listing: Result<seq<Worktree>, string>) returns (toggled: seq<Worktree>)
      modifies this
      ensures listing.Err? ==> toggled == [] && worktrees == old(worktrees) && previous == old(previous) && targeted == old(targeted)
      ensures listing.Ok? ==>
        && toggled == Toggles(old(previous), old(targeted), autoStart, listing.value)
        && worktrees == listing.value
        && previous == PathSet(listing.value)
        && targeted == (if TargetPick(old(targeted), listing.value).Some? then None else old(targeted))
      ensures autoStart == old(autoStart) && running == old(running) && shownActive == old(shownActive)
    {
      match listing {
        case Err(_) =>
          toggled := [];
        case Ok(list) =>
          var started, found := Reconcile(previous, targeted, autoStart, list);
          worktrees := list;
          if found {
            targeted := None;
          }
          previous := PathSet(list);
          toggled := started;
      }
    }

    /**
     * The effect on `[activeWorktree]`: it runs only when the prop changed, and then a truthy
     * value becomes the target and triggers a refresh; an unchanged value does nothing at all.
     */
    method SetActiveWorktree(active: Option<string>, listing: Result<seq<Worktree>, string>) returns (toggled: seq<Worktree>)
      modifies this
      ensures active == old(shownActive) ==>
        && toggled == [] && worktrees == old(worktrees) && previous == old(previous) && targeted == old(targeted)
      ensures shownActive == active
      ensures active != old(shownActive) && !Truthy(active) ==>
        toggled == [] && worktrees == old(worktrees) && previous == old(previous) && targeted == old(targeted)
      ensures active != old(shownActive) && Truthy(active) && listing.Ok? ==>
        && toggled == Toggles(old(previous), active, autoStart, listing.value)
        && worktrees == listing.value
        && previous == PathSet(listing.value)
        && targeted == (if TargetPick(active, listing.value).Some? then None else active)
      ensures active != old(shownActive) && Truthy(active) && listing.Err? ==>
        toggled == [] && targeted == active && worktrees == old(worktrees) && previous == old(previous)
      ensures autoStart == old(autoStart) && running == old(running)
    {
      toggled := [];
      if active != shownActive {
        shownActive := active;
        if Truthy(active) {
          targeted := active;
          toggled := Refresh(listing);
        }
      }
    }

    /** `handleToggleProcess`: a stop marks the branch stopped; a start marks it running only when it succeeded. */
    method ToggleProcess(wt: Worktree, startSucceeded: bool) returns (action: Toggle)
      modifies this
      ensures action == ToggleAction(old(running), wt)
      ensures action.Ignore? ==> running == old(running)
      ensures action.StopServer? ==> running == old(running)[wt.branch.value := false]
      ensures action.StartServer? ==> running == if startSucceeded then old(running)[wt.branch.value := true] else old(running)
      ensures worktrees == old(worktrees) && previous == old(previous) && targeted == old(targeted) && autoStart == old(autoStart)
      ensures shownActive == old(shownActive)
    {
      action := ToggleAction(running, wt);
      match action {
        case Ignore =>
        case StopServer(_) =>
          running := running[wt.branch.value := false];
        case StartServer(_, _) =>
          if startSucceeded {
            running := running[wt.branch.value := true];
          }
      }
    }
  }
}
