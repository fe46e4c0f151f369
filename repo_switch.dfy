/**
 * The repository-switch notification of packages/desktop/electron/main.ts: Git Bash drive
 * paths are normalised, the main worktree root is read from the first `worktree` line of
 * `git -C <path> worktree list --porcelain`, and `repo-changed {root, active}` is sent.
 */
module RepoSwitch {
  import opened Wrappers
  import opened Text
  import opened Porcelain

  /** The characters JavaScript's regular-expression `.` does not match. */
  predicate IsLineTerminator(c: char) {
    c == '\n' || c == '\r' || c == '\U{2028}' || c == '\U{2029}'
  }

  /** `repoPath` matches `^\/([a-zA-Z])\/(.*)$`. */
  predicate IsGitBashPath(p: string) {
    && |p| >= 3 && p[0] == '/' && IsAsciiLetter(p[1]) && p[2] == '/'
    && forall i :: 3 <= i < |p| ==> !IsLineTerminator(p[i])
  }

  /** `/x/rest` becomes `X:/rest`; any other path is kept. */
  function NormalizeGitBashPath(p: string): (r: string)
    ensures IsGitBashPath(p) ==>
      |r| == |p| && r[0] == UpperChar(p[1]) && 'A' <= r[0] <= 'Z' && r[1..3] == ":/" && r[3..] == p[3..]
    ensures !IsGitBashPath(p) ==> r == p
  {
    if IsGitBashPath(p) then [UpperChar(p[1])] + ":/" + p[3..] else p
  }

  /** Normalising twice changes nothing more: a drive path no longer starts with `/`. */
  lemma NormalizeIdempotent(p: string)
    ensures NormalizeGitBashPath(NormalizeGitBashPath(p)) == NormalizeGitBashPath(p)
  {
    var r := NormalizeGitBashPath(p);
    if IsGitBashPath(p) {
      assert r[0] != '/';
    }
  }

  /** The index of `lines.find(line => line.startsWith('worktree '))`, searching from `from`. */
  function FirstWorktreeIndex(lines: seq<string>, from: nat := 0): (r: Option<nat>)
    requires from <= |lines|
    decreases |lines| - from
    ensures r.None? <==> forall k :: from <= k < |lines| ==> !StartsWith(lines[k], WorktreePrefix)
    ensures r.Some? ==>
      && from <= r.value < |lines| && StartsWith(lines[r.value], WorktreePrefix)
      && forall j :: from <= j < r.value ==> !StartsWith(lines[j], WorktreePrefix)
  {
    if from == |lines| then None
    else if StartsWith(lines[from], WorktreePrefix) then Some(from)
    else FirstWorktreeIndex(lines, from + 1)
  }

  /** The repository root: the first `worktree` line minus its prefix, trimmed; the normalised path when git fails or lists none. */
  function MainRoot(normalized: string, listing: Result<string, string>): string {
    match listing
    case Err(_) => normalized
    case Ok(stdout) =>
      var lines := Split(stdout, '\n');
      match FirstWorktreeIndex(lines)
      case Some(k) => Trim(lines[k][|WorktreePrefix|..])
      case None => normalized
  }

  /** Git lists the main worktree first, so the root of a listing is its first record's path, trimmed. */
  lemma MainRootOfListing(normalized: string, recs: seq<Record>, trailingBlank: bool)
    requires recs != [] && forall i :: 0 <= i < |recs| ==> WellFormed(recs[i])
    ensures MainRoot(normalized, Ok(Listing(recs, trailingBlank))) == Trim(recs[0].path)
  {
    ListingSplits(recs, trailingBlank);
    ListingHead(recs, trailingBlank);
    var lines := ListingLines(recs, trailingBlank);
    assert StartsWith(lines[0], WorktreePrefix);
    assert FirstWorktreeIndex(lines) == Some(0);
    assert lines[0][|WorktreePrefix|..] == recs[0].path;
  }

  /** A failed listing, or one without any `worktree` line, falls back to the normalised path. */
  lemma MainRootFallback(normalized: string, listing: Result<string, string>)
    requires listing.Err? || forall k :: 0 <= k < |Split(listing.value, '\n')| ==>
      !StartsWith(Split(listing.value, '\n')[k], WorktreePrefix)
    ensures MainRoot(normalized, listing) == normalized
  {
    if listing.Ok? {
      assert FirstWorktreeIndex(Split(listing.value, '\n')).None?;
    }
  }

  /** The `repo-changed` payload: the resolved root and the normalised incoming path. */
  datatype RepoChanged = RepoChanged(root: string, active: string)

  function WorktreeListArgs(path: string): seq<string> {
    ["-C", path, "worktree", "list", "--porcelain"]
  }

  /** The notification handler, with `git` the outcome of each git command line. */
  function OnRepoNotification(repoPath: string, git: seq<string> -> Result<string, string>): (p: RepoChanged)
    ensures p.active == NormalizeGitBashPath(repoPath)
    ensures p.root == MainRoot(p.active, git(WorktreeListArgs(p.active)))
  {
    var normalized := NormalizeGitBashPath(repoPath);
    RepoChanged(MainRoot(normalized, git(WorktreeListArgs(normalized))), normalized)
  }
}
