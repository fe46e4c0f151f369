/**
 * The VCS worktree store: `WorktreeManager` of packages/core/src/worktree.ts.  The git binary is
 * an oracle from an argument list to `Ok(stdout)` or `Err(message)`; paths use the single
 * separator `/`.
 */
module WorktreeStore {
  import opened Wrappers
  import opened Text
  import opened Porcelain
  import Seqs

  datatype Worktree = Worktree(path: string, branch: Option<string>)

  /** The record under construction (`Partial<Worktree>`). */
  datatype Pending = Pending(path: Option<string>, branch: Option<string>)

  /** The parser's variables: the records flushed so far (before filtering) and `current`. */
  datatype ParseState = ParseState(candidates: seq<Worktree>, current: Pending)

  const DetachedLabel: string := "Detached HEAD"
  const CursorMarker: string := ".cursor"
  const WorktreesMarker: string := "worktrees"
  const CursorLabelPrefix: string := "Cursor: "
  const AlreadyExists: string := "already exists"

  const NoRecord: Pending := Pending(None, None)
  const Start: ParseState := ParseState([], NoRecord)

  /** `git <args>` run in the project root: its standard output, or the message of the error it raised. */
  type Git = seq<string> -> Result<string, string>

  /** `path.join(a, b)` with `/` as the only separator. */
  function JoinPath(a: string, b: string): string {
    a + "/" + b
  }

  // ---------------------------------------------------------------- parsing

  /** Flushing a record that has a path. */
  function Commit(st: ParseState): ParseState
    requires Truthy(st.current.path)
  {
    ParseState(st.candidates + [Worktree(st.current.path.value, st.current.branch)], NoRecord)
  }

  /** One iteration of the parsing loop, before the allow-list filter is applied. */
  function Step(st: ParseState, line: string): ParseState {
    if StartsWith(line, WorktreePrefix) then
      var flushed := if Truthy(st.current.path) then Commit(st).candidates else st.candidates;
      ParseState(flushed, Pending(Some(line[|WorktreePrefix|..]), None))
    else if StartsWith(line, BranchPrefix) then
      ParseState(st.candidates, st.current.(branch := Some(ReplaceFirst(line[|BranchPrefix|..], HeadsPrefix, ""))))
    else if StartsWith(line, DetachedPrefix) then
      ParseState(st.candidates, st.current.(branch := Some(DetachedLabel)))
    else if Trim(line) == "" && Truthy(st.current.path) then
      Commit(st)
    else
      st
  }

  /** The parsing loop run over `lines` from `st`. */
  function Scan(st: ParseState, lines: seq<string>): ParseState {
    if lines == [] then st else Step(Scan(st, lines[..|lines| - 1]), lines[|lines| - 1])
  }

  /** The explicit flush at end of input. */
  function Finish(st: ParseState): seq<Worktree> {
    if Truthy(st.current.path) then Commit(st).candidates else st.candidates
  }

  /** The records of a listing, before filtering and labelling. */
  function Candidates(lines: seq<string>): seq<Worktree> {
    Finish(Scan(Start, lines))
  }

  lemma {:induction false} ScanAppend(st: ParseState, a: seq<string>, b: seq<string>)
    ensures Scan(st, a + b) == Scan(Scan(st, a), b)
    decreases |b|
  {
    if b == [] {
      assert a + b == a;
    } else {
      assert (a + b)[..|a + b| - 1] == a + b[..|b| - 1];
      ScanAppend(st, a, b[..|b| - 1]);
    }
  }

  predicate PathsNonEmpty(ws: seq<Worktree>) {
    forall i :: 0 <= i < |ws| ==> ws[i].path != ""
  }

  /** The loop only ever flushes records whose path is non-empty. */
  lemma {:induction false} ScanPathsNonEmpty(lines: seq<string>)
    ensures PathsNonEmpty(Scan(Start, lines).candidates)
    decreases |lines|
  {
    if lines != [] {
      ScanPathsNonEmpty(lines[..|lines| - 1]);
    }
  }

  /** Every candidate has a non-empty path: a pending record without one is discarded. */
  lemma CandidatePathsNonEmpty(lines: seq<string>)
    ensures PathsNonEmpty(Candidates(lines))
  {
    ScanPathsNonEmpty(lines);
  }

  // ---------------------------------------------------------------- filter and labels

  /** The allow-list: under the managed root, the project root itself, or an agent worktree. */
  predicate Retained(managedRoot: string, projectRoot: string, path: string) {
    var p := Lower(path);
    || StartsWith(p, Lower(managedRoot))
    || p == Lower(projectRoot)
    || Contains(p, CursorMarker) || Contains(p, WorktreesMarker)
  }

  function Keeper(managedRoot: string, projectRoot: string): Worktree -> bool {
    (w: Worktree) => Retained(managedRoot, projectRoot, w.path)
  }

  /** `path.basename`: the last segment, trailing separators ignored. */
  function Basename(path: string): string {
    AfterLast(StripTrailing(path, '/'), '/')
  }

  /** The label given to a worktree whose branch is missing or detached. */
  function DisplayLabel(path: string): string {
    if Contains(path, CursorMarker) then CursorLabelPrefix + Basename(path) else Basename(path)
  }

  predicate NeedsLabel(branch: Option<string>) {
    !Truthy(branch) || branch.value == DetachedLabel
  }

  function Label(w: Worktree): Worktree {
    if NeedsLabel(w.branch) then w.(branch := Some(DisplayLabel(w.path))) else w
  }

  function Labelled(ws: seq<Worktree>): seq<Worktree> {
    seq(|ws|, i requires 0 <= i < |ws| => Label(ws[i]))
  }

  /** What `parseWorktrees` returns for `output`. */
  function Listed(managedRoot: string, projectRoot: string, output: string): seq<Worktree> {
    Labelled(Seqs.Filter(Candidates(Split(output, '\n')), Keeper(managedRoot, projectRoot)))
  }

  /**
   * Every listed worktree has a non-empty path that passes the allow-list and a branch label;
   * the list is the retained candidates in input order, and an explicit branch is kept verbatim.
   */
  lemma ListedShape(managedRoot: string, projectRoot: string, output: string)
    ensures var ws := Listed(managedRoot, projectRoot, output);
      forall i :: 0 <= i < |ws| ==>
        ws[i].path != "" && Retained(managedRoot, projectRoot, ws[i].path) && ws[i].branch.Some?
  {
    var cands := Candidates(Split(output, '\n'));
    var kept := Seqs.Filter(cands, Keeper(managedRoot, projectRoot));
    CandidatePathsNonEmpty(Split(output, '\n'));
    forall i | 0 <= i < |kept|
      ensures kept[i].path != "" && Retained(managedRoot, projectRoot, kept[i].path)
    {
      assert kept[i] in kept;
    }
  }

  /** The label pass: a detached or missing branch becomes the basename, prefixed for agent worktrees. */
  lemma LabelShape(w: Worktree)
    ensures Label(w).path == w.path && Label(w).branch.Some?
    ensures !NeedsLabel(w.branch) ==> Label(w).branch == w.branch
    ensures NeedsLabel(w.branch) && !Contains(w.path, CursorMarker) ==> Label(w).branch == Some(Basename(w.path))
    ensures NeedsLabel(w.branch) && Contains(w.path, CursorMarker) ==>
      Label(w).branch == Some(CursorLabelPrefix + Basename(w.path))
  {
  }

  /** The basename holds no separator; it is empty only for a path made of separators alone. */
  lemma BasenameShape(path: string)
    ensures '/' !in Basename(path)
    ensures Basename(path) == "" <==> forall i :: 0 <= i < |path| ==> path[i] == '/'
  {
    var stripped := StripTrailing(path, '/');
    if stripped == [] {
      assert forall i :: 0 <= i < |path| ==> path[i] == '/';
    } else {
      assert path[|stripped| - 1] != '/';
    }
  }

  /** The basename of `dir/name` and of `dir/name/` is `name`. */
  lemma BasenameOfChild(dir: string, name: string, trailingSlash: bool)
    requires name != "" && '/' !in name
    ensures Basename(dir + "/" + name + (if trailingSlash then "/" else "")) == name
  {
    var p := dir + "/" + name;
    var q := p + (if trailingSlash then "/" else "");
    assert StripTrailing(q, '/') == p by {
      if trailingSlash {
        assert q[..|q| - 1] == p;
      }
    }
    var r := AfterLast(p, '/');
    assert p[|p| - 1 - |name|] == '/';
    assert forall k :: |p| - |name| <= k < |p| ==> p[k] == name[k - (|p| - |name|)];
    assert r == p[|p| - |name|..] == name;
  }

  // ---------------------------------------------------------------- the manager

  /** One step of the labelling pass: the entry at `j` takes its label and the rest stays as it was. */
  lemma LabelStep(trees: seq<Worktree>, kept: seq<Worktree>, j: nat, t: Worktree)
    requires j < |trees| == |kept| && t == Label(kept[j])
    requires forall k :: 0 <= k < j ==> trees[k] == Label(kept[k])
    requires forall k :: j <= k < |trees| ==> trees[k] == kept[k]
    ensures forall k :: 0 <= k < j + 1 ==> trees[j := t][k] == Label(kept[k])
    ensures forall k :: j + 1 <= k < |trees| ==> trees[j := t][k] == kept[k]
  {
  }

  class WorktreeManager {
    const projectRoot: string
    const worktreeRoot: string

    constructor(projectRoot: string)
      ensures this.projectRoot == projectRoot
      ensures worktreeRoot == JoinPath(JoinPath(projectRoot, ".licorice"), "previews")
    {
      this.projectRoot := projectRoot;
      this.worktreeRoot := JoinPath(JoinPath(projectRoot, ".licorice"), "previews");
    }

    /** `commitTree`: push the pending record if it has a path and passes the allow-list; reset it. */
    method CommitTree(trees: seq<Worktree>, current: Pending) returns (trees': seq<Worktree>, current': Pending)
      ensures current' == NoRecord
      ensures trees' == trees + if Truthy(current.path) && Retained(worktreeRoot, projectRoot, current.path.value)
                                then [Worktree(current.path.value, current.branch)] else []
    {
      current' := NoRecord;
      trees' := trees;
      if Truthy(current.path) {
        if Retained(worktreeRoot, projectRoot, current.path.value) {
          trees' := trees + [Worktree(current.path.value, current.branch)];
        }
      }
    }

    /** `parseWorktrees`: the parsing loop with its filtering flushes, then the in-place label pass. */
    method ParseWorktrees(output: string) returns (trees: seq<Worktree>)
      ensures trees == Listed(worktreeRoot, projectRoot, output)
      ensures forall i :: 0 <= i < |trees| ==>
        trees[i].path != "" && Retained(worktreeRoot, projectRoot, trees[i].path) && trees[i].branch.Some?
    {
      var lines := Split(output, '\n');
      trees := CollectRetained(lines);
      trees := LabelInPlace(trees);
      ListedShape(worktreeRoot, projectRoot, output);
    }

    /** The loop over the lines of the listing, pushing each flushed record that passes the allow-list. */
    method CollectRetained(lines: seq<string>) returns (trees: seq<Worktree>)
      ensures trees == Seqs.Filter(Candidates(lines), Keeper(worktreeRoot, projectRoot))
    {
      ghost var keep := Keeper(worktreeRoot, projectRoot);
      ghost var cands: seq<Worktree> := [];
      var current := NoRecord;
      trees := [];
      var i := 0;
      while i < |lines|
        invariant 0 <= i <= |lines|
        invariant Scan(Start, lines[..i]) == ParseState(cands, current)
        invariant trees == Seqs.Filter(cands, keep)
      {
        var line := lines[i];
        assert lines[..i + 1][..i] == lines[..i];
        assert Scan(Start, lines[..i + 1]) == Step(ParseState(cands, current), line);
        if StartsWith(line, WorktreePrefix) {
          if Truthy(current.path) {
            Seqs.FilterSnoc(cands, Worktree(current.path.value, current.branch), keep);
            cands := cands + [Worktree(current.path.value, current.branch)];
            trees, current := CommitTree(trees, current);
          }
          current := Pending(Some(line[|WorktreePrefix|..]), None);
        } else if StartsWith(line, BranchPrefix) {
          current := current.(branch := Some(ReplaceFirst(line[|BranchPrefix|..], HeadsPrefix, "")));
        } else if StartsWith(line, DetachedPrefix) {
          current := current.(branch := Some(DetachedLabel));
        } else if Trim(line) == "" && Truthy(current.path) {
          Seqs.FilterSnoc(cands, Worktree(current.path.value, current.branch), keep);
          cands := cands + [Worktree(current.path.value, current.branch)];
          trees, current := CommitTree(trees, current);
        }
        i := i + 1;
      }
      assert lines[..i] == lines;
      if Truthy(current.path) {
        Seqs.FilterSnoc(cands, Worktree(current.path.value, current.branch), keep);
        cands := cands + [Worktree(current.path.value, current.branch)];
        trees, current := CommitTree(trees, current);
      }
    }

    /** The post-processing `forEach`: give every worktree with a missing or detached branch its label. */
    method LabelInPlace(kept: seq<Worktree>) returns (trees: seq<Worktree>)
      ensures trees == Labelled(kept)
    {
      trees := kept;
      var j := 0;
      while j < |trees|
        invariant 0 <= j <= |trees| == |kept|
        invariant forall k :: 0 <= k < j ==> trees[k] == Label(kept[k])
        invariant forall k :: j <= k < |trees| ==> trees[k] == kept[k]
      {
        var t := trees[j];
        assert t == kept[j];
        if !Truthy(t.branch) || t.branch.value == DetachedLabel {
          var base := Basename(t.path);
          if Contains(t.path, CursorMarker) {
            t := t.(branch := Some(CursorLabelPrefix + base));
          } else {
            t := t.(branch := Some(base));
          }
          LabelStep(trees, kept, j, t);
          trees := trees[j := t];
        } else {
          LabelStep(trees, kept, j, t);
          assert trees[j := t] == trees;
        }
        j := j + 1;
      }
      assert |trees| == |Labelled(kept)|;
      assert forall k :: 0 <= k < |trees| ==> trees[k] == Labelled(kept)[k];
    }

    /** `list`: the parsed listing, or no worktrees at all when git fails. */
    method List(git: Git) returns (trees: seq<Worktree>)
      ensures git(ListArgs()).Err? ==> trees == []
      ensures git(ListArgs()).Ok? ==> trees == Listed(worktreeRoot, projectRoot, git(ListArgs()).value)
    {
      match git(ListArgs())
      case Err(_) => trees := [];
      case Ok(output) => trees := ParseWorktrees(output);
    }

    function TargetPath(branchName: string): string {
      JoinPath(worktreeRoot, branchName)
    }

    /**
     * `create`: `rev-parse --verify`, then `worktree add <path> <branch>` for an existing branch;
     * if either fails, `worktree add -b <branch> <path>`.  A failure whose message contains
     * "already exists" counts as success.
     */
    function Create(git: Git, branchName: string): (r: Result<Worktree, string>)
      ensures r.Ok? ==> r.value == Worktree(TargetPath(branchName), Some(branchName))
      ensures r.Err? ==> Contains(r.error, branchName)
      ensures r.Err? <==>
        && !(git(RevParseArgs(branchName)).Ok? && git(AddExistingArgs(TargetPath(branchName), branchName)).Ok?)
        && git(AddNewArgs(TargetPath(branchName), branchName)).Err?
        && !Contains(git(AddNewArgs(TargetPath(branchName), branchName)).error, AlreadyExists)
    {
      var target := TargetPath(branchName);
      var attached := git(RevParseArgs(branchName)).Ok? && git(AddExistingArgs(target, branchName)).Ok?;
      var outcome := if attached then Ok("") else git(AddNewArgs(target, branchName));
      match outcome
      case Ok(_) => Ok(Worktree(target, Some(branchName)))
      case Err(message) =>
        if Contains(message, AlreadyExists) then Ok(Worktree(target, Some(branchName)))
        else
          ContainsInfix("Failed to create worktree for ", branchName, ": " + message);
          assert "Failed to create worktree for " + branchName + ": " + message
              == "Failed to create worktree for " + branchName + (": " + message);
          Err("Failed to create worktree for " + branchName + ": " + message)
    }

    /**
     * `remove`: forced removal of the managed path. Returns the git command it issued with git's
     * answer, and the result the caller sees: a failure is logged and never reaches the caller.
     */
    function Remove(git: Git, branchName: string): (r: (seq<string>, Result<string, string>, Result<(), string>))
      ensures r.0 == ["worktree", "remove", worktreeRoot + "/" + branchName, "--force"]
      ensures r.1 == git(r.0)
      ensures r.2 == Ok(())
    {
      var command := RemoveArgs(TargetPath(branchName));
      (command, git(command), Ok(()))
    }
  }

  function ListArgs(): seq<string> { ["worktree", "list", "--porcelain"] }
  function RevParseArgs(branchName: string): seq<string> { ["rev-parse", "--verify", branchName] }
  function AddExistingArgs(target: string, branchName: string): seq<string> { ["worktree", "add", target, branchName] }
  function AddNewArgs(target: string, branchName: string): seq<string> { ["worktree", "add", "-b", branchName, target] }
  function RemoveArgs(target: string): seq<string> { ["worktree", "remove", target, "--force"] }
}
