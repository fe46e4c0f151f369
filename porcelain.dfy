/**
 * The porcelain format of `git worktree list --porcelain` (section "PORCELAIN FORMAT" of the
 * git-worktree(1) manual page): one record per worktree, a `worktree <path>` line followed by
 * attribute lines, records separated by a blank line.  This module renders well-formed records
 * as text; the parser lives in WorktreeStore.
 */
module Porcelain {
  import opened Text

  const WorktreePrefix: string := "worktree "
  const BranchPrefix: string := "branch "
  const HeadsPrefix: string := "refs/heads/"
  const DetachedPrefix: string := "detached"

  /** An attribute line of a record: `branch <ref>`, `detached`, or any other line (`HEAD <oid>`, `bare`, `locked`, ...). */
  datatype Attr = BranchRef(ref: string) | Detached | Other(line: string)

  datatype Record = Record(path: string, attrs: seq<Attr>)

  function AttrLine(a: Attr): string {
    match a
    case BranchRef(r) => BranchPrefix + r
    case Detached => DetachedPrefix
    case Other(l) => l
  }

  /** No attribute line may contain a newline, and an `Other` line is neither blank nor one the parser interprets. */
  predicate WellFormedAttr(a: Attr) {
    && '\n' !in AttrLine(a)
    && (a.Other? ==>
          !StartsWith(a.line, WorktreePrefix) && !StartsWith(a.line, BranchPrefix)
          && !StartsWith(a.line, DetachedPrefix) && Trim(a.line) != "")
  }

  /** A record git could print: a non-empty single-line path and well-formed attributes. */
  predicate WellFormed(r: Record) {
    && r.path != "" && '\n' !in r.path
    && forall i :: 0 <= i < |r.attrs| ==> WellFormedAttr(r.attrs[i])
  }

  function AttrLines(attrs: seq<Attr>): seq<string> {
    if attrs == [] then [] else AttrLines(attrs[..|attrs| - 1]) + [AttrLine(attrs[|attrs| - 1])]
  }

  function RecordLines(r: Record): seq<string> {
    [WorktreePrefix + r.path] + AttrLines(r.attrs)
  }

  /** Every record followed by its blank separator line. */
  function Blocks(recs: seq<Record>): seq<string> {
    if recs == [] then []
    else Blocks(recs[..|recs| - 1]) + RecordLines(recs[|recs| - 1]) + [""]
  }

  /** The lines of a listing, with or without a blank line after the last record. */
  function ListingLines(recs: seq<Record>, trailingBlank: bool): seq<string> {
    if recs == [] then []
    else Blocks(recs[..|recs| - 1]) + RecordLines(recs[|recs| - 1]) + (if trailingBlank then [""] else [])
  }

  /** The text of a listing. */
  function Listing(recs: seq<Record>, trailingBlank: bool): string {
    Join(ListingLines(recs, trailingBlank), '\n')
  }

  lemma {:induction false} AttrLinesSingle(attrs: seq<Attr>)
    requires forall i :: 0 <= i < |attrs| ==> WellFormedAttr(attrs[i])
    ensures forall k :: 0 <= k < |AttrLines(attrs)| ==> '\n' !in AttrLines(attrs)[k]
    decreases |attrs|
  {
    if attrs != [] {
      AttrLinesSingle(attrs[..|attrs| - 1]);
    }
  }

  lemma {:induction false} BlocksSingle(recs: seq<Record>)
    requires forall i :: 0 <= i < |recs| ==> WellFormed(recs[i])
    ensures forall k :: 0 <= k < |Blocks(recs)| ==> '\n' !in Blocks(recs)[k]
    decreases |recs|
  {
    if recs != [] {
      var last := recs[|recs| - 1];
      BlocksSingle(recs[..|recs| - 1]);
      AttrLinesSingle(last.attrs);
      assert '\n' !in WorktreePrefix + last.path;
    }
  }

  /** A listing of well-formed records splits back into its lines. */
  lemma ListingSplits(recs: seq<Record>, trailingBlank: bool)
    requires recs != []
    requires forall i :: 0 <= i < |recs| ==> WellFormed(recs[i])
    ensures Split(Listing(recs, trailingBlank), '\n') == ListingLines(recs, trailingBlank)
  {
    var last := recs[|recs| - 1];
    BlocksSingle(recs[..|recs| - 1]);
    AttrLinesSingle(last.attrs);
    assert '\n' !in WorktreePrefix + last.path;
    SplitJoin(ListingLines(recs, trailingBlank), '\n');
  }

  /**
   * The listing with every record blank-terminated, followed by `k` more newlines, splits into its
   * lines and `k` empty ones; git itself prints `k == 1`.
   */
  lemma ListingSplitsTrailing(recs: seq<Record>, k: nat)
    requires forall i :: 0 <= i < |recs| ==> WellFormed(recs[i])
    ensures Split(Listing(recs, true) + Repeat('\n', k), '\n') ==
      (if recs == [] then [""] else Blocks(recs)) + Blanks(k)
  {
    var parts := if recs == [] then [""] else Blocks(recs);
    if recs != [] {
      assert ListingLines(recs, true) == Blocks(recs);
      BlocksSingle(recs);
    }
    JoinBlanks(parts, k, '\n');
    SplitJoin(parts + Blanks(k), '\n');
  }

  /** The first line of a non-empty listing is the first record's `worktree` line. */
  lemma {:induction false} BlocksHead(recs: seq<Record>)
    requires recs != []
    ensures Blocks(recs)[0] == WorktreePrefix + recs[0].path
    decreases |recs|
  {
    if |recs| > 1 {
      BlocksHead(recs[..|recs| - 1]);
    }
  }

  lemma ListingHead(recs: seq<Record>, trailingBlank: bool)
    requires recs != []
    ensures ListingLines(recs, trailingBlank)[0] == WorktreePrefix + recs[0].path
  {
    if |recs| > 1 {
      BlocksHead(recs[..|recs| - 1]);
    }
  }
}
