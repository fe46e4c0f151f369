/**
 * The parser of WorktreeStore read against the porcelain format: a listing of N well-formed
 * records yields exactly those N records, in order, each with the branch its last
 * `branch`/`detached` line names. This holds whether the text stops right after the last record,
 * after its blank line, or after further newlines, as git's own output does.
 */
module PorcelainRoundTrip {
  import opened Wrappers
  import opened Text
  import opened Porcelain
  import opened WorktreeStore

  /** The branch after one attribute line, given the branch before it. */
  function AttrBranch(a: Attr, before: Option<string>): Option<string> {
    match a
    case BranchRef(r) => Some(ReplaceFirst(r, HeadsPrefix, ""))
    case Detached => Some(DetachedLabel)
    case Other(_) => before
  }

  /** The branch a record's attribute lines leave behind, starting from `b`: the last `branch` or `detached` line wins. */
  function BranchAfter(b: Option<string>, attrs: seq<Attr>): Option<string> {
    if attrs == [] then b else AttrBranch(attrs[|attrs| - 1], BranchAfter(b, attrs[..|attrs| - 1]))
  }

  /** The worktree a record describes. */
  function Described(r: Record): Worktree {
    Worktree(r.path, BranchAfter(None, r.attrs))
  }

  function AllDescribed(recs: seq<Record>): seq<Worktree> {
    seq(|recs|, i requires 0 <= i < |recs| => Described(recs[i]))
  }

  lemma StepAttr(st: ParseState, a: Attr)
    requires Truthy(st.current.path) && WellFormedAttr(a)
    ensures Step(st, AttrLine(a)) == ParseState(st.candidates, Pending(st.current.path, AttrBranch(a, st.current.branch)))
  {
    var line := AttrLine(a);
    match a
    case BranchRef(r) =>
      assert line[0] == 'b';
      assert !StartsWith(line, WorktreePrefix);
      assert StartsWith(line, BranchPrefix) && line[|BranchPrefix|..] == r;
    case Detached =>
      assert line[0] == 'd';
      assert !StartsWith(line, WorktreePrefix) && !StartsWith(line, BranchPrefix);
    case Other(l) =>
  }

  lemma {:induction false} ScanAttrs(st: ParseState, attrs: seq<Attr>)
    requires Truthy(st.current.path)
    requires forall i :: 0 <= i < |attrs| ==> WellFormedAttr(attrs[i])
    ensures Scan(st, AttrLines(attrs)) ==
      ParseState(st.candidates, Pending(st.current.path, BranchAfter(st.current.branch, attrs)))
    decreases |attrs|
  {
    if attrs != [] {
      var init := attrs[..|attrs| - 1];
      ScanAttrs(st, init);
      var lines := AttrLines(attrs);
      assert lines[..|lines| - 1] == AttrLines(init);
      StepAttr(Scan(st, AttrLines(init)), attrs[|attrs| - 1]);
    }
  }

  lemma ScanRecord(st: ParseState, r: Record)
    requires !Truthy(st.current.path) && WellFormed(r)
    ensures Scan(st, RecordLines(r)) == ParseState(st.candidates, Pending(Some(r.path), BranchAfter(None, r.attrs)))
  {
    var head := WorktreePrefix + r.path;
    ScanAppend(st, [head], AttrLines(r.attrs));
    var first: seq<string> := [head];
    assert first[..0] == [];
    assert head[|WorktreePrefix|..] == r.path;
    assert Scan(st, [head]) == ParseState(st.candidates, Pending(Some(r.path), None));
    ScanAttrs(Scan(st, [head]), r.attrs);
  }

  /** A blank line flushes the record in progress. */
  lemma ScanBlank(st: ParseState)
    requires Truthy(st.current.path)
    ensures Scan(st, [""]) == Commit(st)
  {
    var blank: seq<string> := [""];
    assert blank[..0] == [];
    assert Trim("") == "";
  }

  /** A `worktree` line flushes the record in progress when it has a path, and starts a new record. */
  lemma StepWorktreeFlushes(st: ParseState, p: string)
    ensures Step(st, WorktreePrefix + p) == ParseState(
      st.candidates + (if Truthy(st.current.path) then [Worktree(st.current.path.value, st.current.branch)] else []),
      Pending(Some(p), None))
  {
    assert (WorktreePrefix + p)[..|WorktreePrefix|] == WorktreePrefix;
    assert (WorktreePrefix + p)[|WorktreePrefix|..] == p;
  }

  /** Two records with no blank line between them: the second one's `worktree` line flushes the first. */
  lemma ScanAdjacentRecords(st: ParseState, r1: Record, r2: Record)
    requires !Truthy(st.current.path) && WellFormed(r1) && WellFormed(r2)
    ensures Scan(st, RecordLines(r1) + RecordLines(r2)) ==
      ParseState(st.candidates + [Described(r1)], Pending(Some(r2.path), BranchAfter(None, r2.attrs)))
  {
    ScanAppend(st, RecordLines(r1), RecordLines(r2));
    ScanRecord(st, r1);
    var mid := Scan(st, RecordLines(r1));
    var head := WorktreePrefix + r2.path;
    ScanAppend(mid, [head], AttrLines(r2.attrs));
    StepWorktreeFlushes(mid, r2.path);
    var first: seq<string> := [head];
    assert first[..0] == [];
    ScanAttrs(Scan(mid, [head]), r2.attrs);
  }

  lemma {:induction false} ScanBlocks(recs: seq<Record>)
    requires forall i :: 0 <= i < |recs| ==> WellFormed(recs[i])
    ensures Scan(Start, Blocks(recs)) == ParseState(AllDescribed(recs), NoRecord)
    decreases |recs|
  {
    if recs != [] {
      var init := recs[..|recs| - 1];
      var last := recs[|recs| - 1];
      assert forall i :: 0 <= i < |init| ==> init[i] == recs[i];
      ScanBlocks(init);
      ScanAppend(Start, Blocks(init), RecordLines(last));
      ScanRecord(ParseState(AllDescribed(init), NoRecord), last);
      ScanAppend(Start, Blocks(init) + RecordLines(last), [""]);
      ScanBlank(ParseState(AllDescribed(init), Pending(Some(last.path), BranchAfter(None, last.attrs))));
      AllDescribedSnoc(recs);
    }
  }

  lemma AllDescribedSnoc(recs: seq<Record>)
    requires recs != []
    ensures AllDescribed(recs[..|recs| - 1]) + [Described(recs[|recs| - 1])] == AllDescribed(recs)
  {
    var a, b := AllDescribed(recs[..|recs| - 1]) + [Described(recs[|recs| - 1])], AllDescribed(recs);
    assert |a| == |b|;
    forall i | 0 <= i < |a| ensures a[i] == b[i] {
      if i < |recs| - 1 {
        assert a[i] == Described(recs[..|recs| - 1][i]);
      }
    }
  }

  /** The lines before the optional trailing blank leave the last record open, the earlier ones flushed. */
  lemma ScanListingBody(recs: seq<Record>)
    requires recs != [] && forall i :: 0 <= i < |recs| ==> WellFormed(recs[i])
    ensures var init, last := recs[..|recs| - 1], recs[|recs| - 1];
      Scan(Start, Blocks(init) + RecordLines(last))
        == ParseState(AllDescribed(init), Pending(Some(last.path), BranchAfter(None, last.attrs)))
  {
    var init, last := recs[..|recs| - 1], recs[|recs| - 1];
    assert forall i :: 0 <= i < |init| ==> init[i] == recs[i];
    ScanBlocks(init);
    ScanAppend(Start, Blocks(init), RecordLines(last));
    ScanRecord(ParseState(AllDescribed(init), NoRecord), last);
  }

  /** Line level: the listing's lines yield one candidate per record, with and without the trailing blank line. */
  lemma CandidatesOfListingLines(recs: seq<Record>, trailingBlank: bool)
    requires forall i :: 0 <= i < |recs| ==> WellFormed(recs[i])
    ensures Candidates(ListingLines(recs, trailingBlank)) == AllDescribed(recs)
  {
    if recs != [] {
      var init, last := recs[..|recs| - 1], recs[|recs| - 1];
      var body := Blocks(init) + RecordLines(last);
      var open := ParseState(AllDescribed(init), Pending(Some(last.path), BranchAfter(None, last.attrs)));
      ScanListingBody(recs);
      AllDescribedSnoc(recs);
      if trailingBlank {
        assert ListingLines(recs, trailingBlank) == body + [""];
        ScanAppend(Start, body, [""]);
        ScanBlank(open);
      } else {
        assert ListingLines(recs, trailingBlank) == body;
      }
    }
  }

  /**
   * Text level: parsing the text of N well-formed records gives N candidates before filtering,
   * the i-th being the i-th record's path and branch.
   */
  lemma CandidatesOfListing(recs: seq<Record>, trailingBlank: bool)
    requires forall i :: 0 <= i < |recs| ==> WellFormed(recs[i])
    ensures Candidates(Split(Listing(recs, trailingBlank), '\n')) == AllDescribed(recs)
    ensures |Candidates(Split(Listing(recs, trailingBlank), '\n'))| == |recs|
  {
    if recs == [] {
      assert Split(Listing(recs, trailingBlank), '\n') == [""];
      var blank: seq<string> := [""];
      assert blank[..0] == [];
      assert Scan(Start, [""]) == Start;
    } else {
      ListingSplits(recs, trailingBlank);
    }
    CandidatesOfListingLines(recs, trailingBlank);
  }

  /** Empty lines with no record open leave the parser as it is. */
  lemma {:induction false} ScanBlanksIdle(found: seq<Worktree>, k: nat)
    ensures Scan(ParseState(found, NoRecord), Blanks(k)) == ParseState(found, NoRecord)
    decreases k
  {
    if k > 0 {
      assert Blanks(k)[..k - 1] == Blanks(k - 1);
      ScanBlanksIdle(found, k - 1);
      assert !StartsWith("", WorktreePrefix);
    }
  }

  /**
   * The text `git worktree list --porcelain` prints ends every record, the last included, with a
   * blank line, so it ends in two newlines (`k == 1`); any number of trailing newlines still gives
   * one candidate per record, in order.
   */
  lemma CandidatesOfGitOutput(recs: seq<Record>, k: nat)
    requires forall i :: 0 <= i < |recs| ==> WellFormed(recs[i])
    ensures Candidates(Split(Listing(recs, true) + Repeat('\n', k), '\n')) == AllDescribed(recs)
  {
    var parts := if recs == [] then [""] else Blocks(recs);
    ListingSplitsTrailing(recs, k);
    ScanAppend(Start, parts, Blanks(k));
    if recs == [] {
      var blank: seq<string> := [""];
      assert blank[..0] == [];
      assert Scan(Start, parts) == ParseState(AllDescribed(recs), NoRecord);
    } else {
      ScanBlocks(recs);
    }
    ScanBlanksIdle(AllDescribed(recs), k);
  }

  /** A `branch refs/heads/<name>` line labels the record with `<name>`. */
  lemma BranchOfHeadsRef(name: string)
    ensures BranchAfter(None, [BranchRef(HeadsPrefix + name)]) == Some(name)
  {
    var r := HeadsPrefix + name;
    var attrs: seq<Attr> := [BranchRef(r)];
    assert attrs[..0] == [];
    assert OccursAt(r, HeadsPrefix, 0);
    assert IndexOf(r, HeadsPrefix) == Some(0);
    assert r[|HeadsPrefix|..] == name;
    assert ReplaceFirst(r, HeadsPrefix, "") == name;
  }
}
