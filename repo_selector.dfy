/** The tab label of a repository, `getRepoName` in packages/desktop/src/components/RepoSelector.tsx. */
module RepoSelector {
  import opened Text

  const UnknownName := "Unknown"

  /** One trailing `/` removed, as `endsWith('/') ? slice(0, -1) : …` does. */
  function DropOneSlash(s: string): (r: string)
    ensures r == s || (s != [] && s[|s| - 1] == '/' && r == s[..|s| - 1])
  {
    if |s| > 0 && s[|s| - 1] == '/' then s[..|s| - 1] else s
  }

  /** `\` becomes `/`, one trailing `/` goes, and the last `/`-separated part is the name, or "Unknown" when it is empty. */
  function RepoName(path: string): (r: string)
    ensures r != []
    ensures '/' !in r && '\\' !in r
  {
    var normalized := ReplaceChar(path, '\\', '/');
    var parts := Split(DropOneSlash(normalized), '/');
    SplitKeepsOut(DropOneSlash(normalized), '/', '\\');
    var last := parts[|parts| - 1];
    if last == "" then UnknownName else last
  }

  predicate IsSeparator(c: char) {
    c == '/' || c == '\\'
  }

  /**
   * A name with no separator, alone or after a directory and a separator of either kind, with or
   * without one trailing separator of either kind, is the repository name: `C:\dev\repo`,
   * `/home/u/repo/` and `repo` all give `repo`.
   */
  lemma RepoNameOfChild(dir: string, sep: char, name: string, trail: string)
    requires IsSeparator(sep) && (trail == [] || (|trail| == 1 && IsSeparator(trail[0])))
    requires name != [] && '/' !in name && '\\' !in name
    ensures RepoName(name) == name
    ensures RepoName(dir + [sep] + name + trail) == name
  {
    var rn := ReplaceChar(name, '\\', '/');
    assert rn == name;
    assert DropOneSlash(name) == name;
    SplitLone(name, '/');

    var path := dir + [sep] + name + trail;
    var normalized := ReplaceChar(path, '\\', '/');
    var d := ReplaceChar(dir, '\\', '/');
    var tail := DropOneSlash(normalized);
    assert tail == d + ['/'] + name by {
      assert |tail| == |d| + 1 + |name|;
      forall i | 0 <= i < |tail| ensures tail[i] == (d + ['/'] + name)[i] {
        if i < |dir| {
          assert path[i] == dir[i];
        } else if i > |dir| {
          assert path[i] == name[i - |dir| - 1];
        }
      }
    }
    SplitLastPart(d, name, '/');
  }

  /** An empty final part gives "Unknown": the empty path, the root, a doubled trailing slash. */
  lemma RepoNameUnknown()
    ensures RepoName("") == UnknownName
    ensures RepoName("/") == UnknownName
    ensures RepoName("a//") == UnknownName
    ensures RepoName("\\") == UnknownName
  {
    assert DropOneSlash(ReplaceChar("/", '\\', '/')) == "";
    assert DropOneSlash(ReplaceChar("\\", '\\', '/')) == "";
    var n := ReplaceChar("a//", '\\', '/');
    assert n == "a//";
    assert DropOneSlash(n) == "a/";
    SplitLastPart("a", "", '/');
  }
}
