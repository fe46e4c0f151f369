/**
 * The top-level state of packages/desktop/src/App.tsx: the recent-repository list (kept in
 * `localStorage`), the selected repository, the active worktree and the auto-start switch.
 */
module AppState {
  import opened Wrappers
  import opened Text
  import opened Seqs
  import RepoSwitch

  function Other(x: string): string -> bool {
    (y: string) => y != x
  }

  function Without(s: seq<string>, x: string): (r: seq<string>)
    ensures forall y :: y in r <==> y in s && y != x
  {
    Filter(s, Other(x))
  }

  /** `Array.from(new Set(s))`: each element once, in the order of their first occurrences. */
  function Dedup(s: seq<string>): (r: seq<string>)
    ensures Distinct(r)
    ensures forall x :: x in r <==> x in s
    ensures |r| <= |s|
    ensures s != [] ==> r != [] && r[0] == s[0]
    ensures forall i, j :: 0 <= i < j < |r| ==> FirstIndex(s, r[i]) < FirstIndex(s, r[j])
    decreases |s|
  {
    if s == [] then []
    else
      var rest := Dedup(Without(s[1..], s[0]));
      assert s[0] !in rest;
      DedupStep(s, rest);
      [s[0]] + rest
  }

  /** Two elements of the remainder keep the order of their first occurrences in the whole list. */
  lemma DedupPair(s: seq<string>, y: string, z: string)
    requires s != [] && y in Without(s[1..], s[0]) && z in Without(s[1..], s[0])
    requires FirstIndex(Without(s[1..], s[0]), y) < FirstIndex(Without(s[1..], s[0]), z)
    ensures y in s && z in s && FirstIndex(s, y) < FirstIndex(s, z)
  {
    assert y in s[1..] && z in s[1..];
    FilterKeepsFirstOrder(s[1..], Other(s[0]), y, z);
    FirstIndexPastHead(s, y);
    FirstIndexPastHead(s, z);
  }

  /** The first occurrences of two entries of the head-and-remainder list come in list order. */
  lemma DedupStepAt(s: seq<string>, rest: seq<string>, i: nat, j: nat)
    requires s != [] && i < j < |rest| + 1
    requires rest[j - 1] in Without(s[1..], s[0])
    requires i > 0 ==>
      && rest[i - 1] in Without(s[1..], s[0])
      && FirstIndex(Without(s[1..], s[0]), rest[i - 1]) < FirstIndex(Without(s[1..], s[0]), rest[j - 1])
    ensures ([s[0]] + rest)[i] in s && ([s[0]] + rest)[j] in s
    ensures FirstIndex(s, ([s[0]] + rest)[i]) < FirstIndex(s, ([s[0]] + rest)[j])
  {
    var r := [s[0]] + rest;
    var z := rest[j - 1];
    assert r[j] == z;
    if i > 0 {
      assert r[i] == rest[i - 1];
      DedupPair(s, rest[i - 1], z);
    } else {
      assert z in s[1..];
      FirstIndexPastHead(s, z);
    }
  }

  /** Putting the head in front of the deduplicated remainder keeps the order of first occurrences. */
  lemma DedupStep(s: seq<string>, rest: seq<string>)
    requires s != []
    requires forall x :: x in rest ==> x in Without(s[1..], s[0])
    requires forall i, j :: 0 <= i < j < |rest| ==>
      FirstIndex(Without(s[1..], s[0]), rest[i]) < FirstIndex(Without(s[1..], s[0]), rest[j])
    ensures forall x :: x in [s[0]] + rest ==> x in s
    ensures forall i, j :: 0 <= i < j < |[s[0]] + rest| ==>
      FirstIndex(s, ([s[0]] + rest)[i]) < FirstIndex(s, ([s[0]] + rest)[j])
  {
    var r := [s[0]] + rest;
    forall x | x in r ensures x in s {
      if x != s[0] {
        assert x in rest && x in s[1..];
      }
    }
    forall i, j | 0 <= i < j < |r| ensures FirstIndex(s, r[i]) < FirstIndex(s, r[j]) {
      assert rest[j - 1] in rest;
      if i > 0 {
        assert rest[i - 1] in rest;
      }
      DedupStepAt(s, rest, i, j);
    }
  }

  /** A list without duplicates is left as it is. */
  lemma {:induction false} DedupOfDistinct(s: seq<string>)
    requires Distinct(s)
    ensures Dedup(s) == s
    decreases |s|
  {
    if s != [] {
      assert s[0] !in s[1..] by {
        forall k | 0 <= k < |s[1..]| ensures s[1..][k] != s[0] {
          assert s[1..][k] == s[k + 1];
        }
      }
      FilterAllKept(s[1..], Other(s[0]));
      assert Distinct(s[1..]) by {
        forall i, j | 0 <= i < j < |s[1..]| ensures s[1..][i] != s[1..][j] {
          assert s[1..][i] == s[i + 1] && s[1..][j] == s[j + 1];
        }
      }
      DedupOfDistinct(s[1..]);
      assert [s[0]] + s[1..] == s;
    }
  }

  /** Line 70: the new repository first, then the earlier recents, duplicates dropped. */
  function AddToRecents(path: string, recents: seq<string>): (r: seq<string>)
    ensures r != [] && r[0] == path
    ensures Distinct(r)
    ensures forall x :: x in r <==> x == path || x in recents
  {
    Dedup([path] + recents)
  }

  /** With a duplicate-free list, adding a repository moves it to the front and keeps the others in order. */
  lemma AddToRecentsMovesToFront(path: string, recents: seq<string>)
    requires Distinct(recents)
    ensures AddToRecents(path, recents) == [path] + Without(recents, path)
  {
    var s := [path] + recents;
    assert s[1..] == recents;
    FilterDistinct(recents, Other(path));
    DedupOfDistinct(Without(recents, path));
  }

  /** Adding the same repository twice in a row is the same as adding it once. */
  lemma AddToRecentsIdempotent(path: string, recents: seq<string>)
    ensures AddToRecents(path, AddToRecents(path, recents)) == AddToRecents(path, recents)
  {
    var once := AddToRecents(path, recents);
    DedupOfDistinct(once);
    assert Dedup([path] + once) == [path] + Dedup(Without(once, path));
    var rest := Dedup(Without(recents, path));
    assert once == [path] + rest;
    assert ([path] + once)[1..] == once;
    assert Without(once, path) == rest by {
      assert once[1..] == rest;
      FilterAllKept(rest, Other(path));
    }
    DedupOfDistinct(rest);
  }

  /** Lines 88-95: the root goes first only when it is not already listed; otherwise the list is unchanged. */
  function PrependIfAbsent(root: string, recents: seq<string>): (r: seq<string>)
    ensures r == recents <==> root in recents
    ensures root in r && forall x :: x in r <==> x == root || x in recents
    ensures root !in recents ==> r[0] == root && r[1..] == recents
    ensures Distinct(recents) ==> Distinct(r)
  {
    if root in recents then recents
    else
      var r := [root] + recents;
      assert r != recents by { assert |r| != |recents|; }
      assert r[1..] == recents;
      r
  }

  /** What a `repo-changed` message carries: a bare path, or an object with `root` and `active`. */
  datatype Payload = PathPayload(path: string) | ObjectPayload(root: string, active: Option<string>)

  /** Lines 82-83: the repository root and the active worktree named by the payload. */
  function Decode(payload: Payload): (r: (string, Option<string>))
    ensures payload.PathPayload? ==> r == (payload.path, None)
    ensures payload.ObjectPayload? ==> r == (payload.root, payload.active)
  {
    match payload
    case PathPayload(p) => (p, None)
    case ObjectPayload(root, active) => (root, active)
  }

  /** The object main.ts sends for a notification. */
  function Encode(notice: RepoSwitch.RepoChanged): Payload {
    ObjectPayload(notice.root, Some(notice.active))
  }

  /** The renderer reads back exactly the root and active path the main process sent. */
  lemma DecodeEncode(notice: RepoSwitch.RepoChanged)
    ensures Decode(Encode(notice)) == (notice.root, Some(notice.active))
  {
  }

  /** `String(enabled)` */
  function BoolText(b: bool): string {
    if b then "true" else "false"
  }

  /** Lines 33-36: a saved value turns auto-start on exactly when it is `'true'`; nothing saved keeps the default. */
  function LoadAutoStart(saved: Option<string>, current: bool): (r: bool)
    ensures saved.None? ==> r == current
    ensures saved.Some? ==> (r <==> saved.value == "true")
  {
    match saved
    case None => current
    case Some(v) => v == "true"
  }

  /** What `handleToggleAutoStart` saves is loaded back as the same setting. */
  lemma AutoStartRoundTrip(enabled: bool, current: bool)
    ensures LoadAutoStart(Some(BoolText(enabled)), current) == enabled
  {
    assert "false"[0] != "true"[0];
  }

  /**
   * The `licorice_recent_repos` entry as the load reads it: missing or empty, not JSON, JSON other
   * than an array, or an array of paths (what `JSON.stringify` of a list of paths parses back to).
   */
  datatype StoredRecents = Missing | Unparsable | NotAnArray | Paths(paths: seq<string>)

  class App {
    var currentPath: Option<string>
    var activeWorktree: Option<string>
    var recentRepos: seq<string>
    var autoStart: bool
    /** The `licorice_recent_repos` and `licorice_autostart` entries of `localStorage`. */
    var savedRecents: StoredRecents
    var savedAutoStart: Option<string>

    constructor(savedRecents: StoredRecents, savedAutoStart: Option<string>)
      ensures currentPath == None && activeWorktree == None && recentRepos == [] && autoStart
      ensures this.savedRecents == savedRecents && this.savedAutoStart == savedAutoStart
    {
      currentPath := None;
      activeWorktree := None;
      recentRepos := [];
      autoStart := true;
      this.savedRecents := savedRecents;
      this.savedAutoStart := savedAutoStart;
    }

    /** Lines 16-36: restore the saved recents (selecting the first when nothing is selected) and the auto-start switch. */
    method Load()
      modifies this
      ensures savedRecents.Paths? ==> recentRepos == savedRecents.paths
      ensures !savedRecents.Paths? ==> recentRepos == old(recentRepos)
      ensures currentPath == if savedRecents.Paths? && |savedRecents.paths| > 0 && !Truthy(old(currentPath))
        then Some(savedRecents.paths[0]) else old(currentPath)
      ensures autoStart == LoadAutoStart(savedAutoStart, old(autoStart))
      ensures activeWorktree == old(activeWorktree)
      ensures savedRecents == old(savedRecents) && savedAutoStart == old(savedAutoStart)
    {
      match savedRecents {
        case Paths(paths) =>
          recentRepos := paths;
          if |paths| > 0 && !Truthy(currentPath) {
            currentPath := Some(paths[0]);
          }
        case _ =>
      }
      if savedAutoStart.Some? {
        autoStart := savedAutoStart.value == "true";
      }
    }

    method ToggleAutoStart(enabled: bool)
      modifies this
      ensures autoStart == enabled && savedAutoStart == Some(BoolText(enabled))
      ensures currentPath == old(currentPath) && activeWorktree == old(activeWorktree)
      ensures recentRepos == old(recentRepos) && savedRecents == old(savedRecents)
    {
      autoStart := enabled;
      savedAutoStart := Some(BoolText(enabled));
    }

    /** Lines 61-64: selecting a repository clears the active worktree. */
    method SelectRepo(path: string)
      modifies this
      ensures currentPath == Some(path) && activeWorktree == None
      ensures recentRepos == old(recentRepos) && autoStart == old(autoStart)
      ensures savedRecents == old(savedRecents) && savedAutoStart == old(savedAutoStart)
    {
      currentPath := Some(path);
      activeWorktree := None;
    }

    /** Lines 66-77: a chosen folder joins the recents at the front and becomes the selection; a cancelled dialog changes nothing. */
    method AddRepo(chosen: Option<string>)
      modifies this
      ensures Truthy(chosen) ==>
        && recentRepos == AddToRecents(chosen.value, old(recentRepos)) && savedRecents == Paths(recentRepos)
        && currentPath == chosen && activeWorktree == None
      ensures !Truthy(chosen) ==>
        && recentRepos == old(recentRepos) && savedRecents == old(savedRecents)
        && currentPath == old(currentPath) && activeWorktree == old(activeWorktree)
      ensures autoStart == old(autoStart) && savedAutoStart == old(savedAutoStart)
    {
      if Truthy(chosen) {
        var updated := AddToRecents(chosen.value, recentRepos);
        recentRepos := updated;
        savedRecents := Paths(updated);
        SelectRepo(chosen.value);
      }
    }

    /** Lines 81-98: a notification selects its root (adding it to the recents when new) and sets the active worktree. */
    method OnRepoChanged(payload: Payload)
      modifies this
      ensures currentPath == Some(Decode(payload).0) && activeWorktree == Decode(payload).1
      ensures recentRepos == PrependIfAbsent(Decode(payload).0, old(recentRepos))
      ensures savedRecents == if Decode(payload).0 in old(recentRepos) then old(savedRecents) else Paths(recentRepos)
      ensures autoStart == old(autoStart) && savedAutoStart == old(savedAutoStart)
    {
      var (root, active) := Decode(payload);
      if root !in recentRepos {
        var updated := [root] + recentRepos;
        savedRecents := Paths(updated);
        recentRepos := updated;
      }
      currentPath := Some(root);
      activeWorktree := active;
    }
  }

  /** A repository added before a restart is restored, and selected, by the next load. */
  method RecentsSurviveRestart(chosen: string) returns (saved: seq<string>, restored: seq<string>, selected: Option<string>)
    requires chosen != ""
    ensures saved == [chosen] && restored == saved && selected == Some(chosen)
  {
    var app := new App(Missing, None);
    app.AddRepo(Some(chosen));
    saved := app.recentRepos;
    var restarted := new App(app.savedRecents, app.savedAutoStart);
    restarted.Load();
    restored := restarted.recentRepos;
    selected := restarted.currentPath;
  }
}
