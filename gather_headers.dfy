/**
 * The header-staging script tools/GatherHeaderFiles.py: it walks the engine
 * tree, keeps the `.h` files outside the build and CMakeUtils folders, and
 * copies each to `<tarDir>\headers<relative dir>\<name>`.  The directory walk
 * is a parameter (a sequence of folders with their file names, in walk
 * order); the file-system effects are returned as a sequence of actions.
 * Python's slicing clamps its bounds, and is modelled so.
 */
module GatherHeaders {

  /** The walked root, `..\engine` (9 characters). */
  const EngineDir: string := "..\\engine"
  /** The excluded build folder (15 characters). */
  const BuildDir: string := "..\\engine\\build"
  /** The excluded CMake helper folder (20 characters). */
  const CMakeUtilsDir: string := "..\\engine\\CMakeUtils"

  /** `s[lo:hi]` for non-negative bounds: both are clamped to the length. */
  function Slice(s: string, lo: nat, hi: nat): (r: string)
    ensures |r| == if lo <= hi && lo <= |s| then (if hi <= |s| then hi else |s|) - lo else 0
  {
    var h := if hi <= |s| then hi else |s|;
    var l := if lo <= h then lo else h;
    s[l..h]
  }

  /** `s[lo:]`. */
  function Drop(s: string, lo: nat): (r: string)
    ensures |s| <= lo ==> r == []
    ensures lo < |s| ==> r == s[lo..]
  {
    if lo <= |s| then s[lo..] else []
  }

  /** `s[-k:]` for `k > 0`: the last `k` characters, or all of a shorter string. */
  function Last(s: string, k: nat): (r: string)
    ensures |r| == if k <= |s| then k else |s|
  {
    if k <= |s| then s[|s| - k..] else s
  }

  /** Whether `p` is a prefix of `s`. */
  predicate IsPrefix(p: string, s: string) {
    |p| <= |s| && s[..|p|] == p
  }

  /** Python's `p in s` on strings: `p` occurs somewhere in `s`. */
  predicate Contains(s: string, p: string) {
    exists i :: 0 <= i <= |s| && IsPrefix(p, s[i..])
  }

  /** The folder test as written: the first 15 characters are not the build folder, and the first 20 do not contain the CMakeUtils folder. */
  predicate DirSelected(root: string) {
    BuildDir != Slice(root, 0, 15) && !Contains(Slice(root, 0, 20), CMakeUtilsDir)
  }

  /** The file test as written: the last two characters are `.h`. */
  predicate IsHeader(name: string) {
    Last(name, 2) == ".h"
  }

  /** `os.path.join(root, name)` on Windows for a plain file name: a backslash is added unless the root already ends with a separator. */
  function Join(root: string, name: string): string {
    if |root| > 0 && (root[|root| - 1] == '\\' || root[|root| - 1] == '/') then root + name else root + "\\" + name
  }

  /** One collected file: `[root[9:], os.path.join(root, name), name]`. */
  datatype Entry = Entry(relDir: string, srcPath: string, name: string)

  function EntryOf(root: string, name: string): Entry {
    Entry(Drop(root, 9), Join(root, name), name)
  }

  /** The entries of one folder's files, in order. */
  function FromDir(root: string, files: seq<string>): seq<Entry>
  {
    if files == [] || !DirSelected(root) then []
    else FromDir(root, files[..|files| - 1]) +
         (if IsHeader(files[|files| - 1]) then [EntryOf(root, files[|files| - 1])] else [])
  }

  /** The entries of the whole walk, in walk order. */
  function Collected(walk: seq<(string, seq<string>)>): seq<Entry>
  {
    if walk == [] then []
    else Collected(walk[..|walk| - 1]) + FromDir(walk[|walk| - 1].0, walk[|walk| - 1].1)
  }

  /** The collection loop of the script. */
  method GatherHeaderFiles(walk: seq<(string, seq<string>)>) returns (pathNameList: seq<Entry>)
    ensures pathNameList == Collected(walk)
  {
    pathNameList := [];
    for i := 0 to |walk|
      invariant pathNameList == Collected(walk[..i])
    {
      var (root, files) := walk[i];
      ghost var before := pathNameList;
      CollectedStep(walk, i);
      if DirSelected(root) {
        for j := 0 to |files|
          invariant pathNameList == before + FromDir(root, files[..j])
        {
          FromDirStep(root, files, j);
          if IsHeader(files[j]) {
            pathNameList := pathNameList + [EntryOf(root, files[j])];
          }
        }
        assert files[..|files|] == files;
      } else {
        FromDirUnselected(root, files);
      }
    }
    assert walk[..|walk|] == walk;
  }

  /** One more folder of the walk adds its entries. */
  lemma CollectedStep(walk: seq<(string, seq<string>)>, i: nat)
    requires i < |walk|
    ensures Collected(walk[..i + 1]) == Collected(walk[..i]) + FromDir(walk[i].0, walk[i].1)
  {
    assert walk[..i + 1][..i] == walk[..i];
  }

  /** One more file of a walked folder adds its entry when it is a header. */
  lemma FromDirStep(root: string, files: seq<string>, j: nat)
    requires j < |files| && DirSelected(root)
    ensures forall done: seq<Entry> ::
              done + FromDir(root, files[..j + 1]) ==
              (done + FromDir(root, files[..j])) + (if IsHeader(files[j]) then [EntryOf(root, files[j])] else [])
  {
    assert files[..j + 1][..j] == files[..j];
  }

  /** A skipped folder gives nothing. */
  lemma FromDirUnselected(root: string, files: seq<string>)
    requires !DirSelected(root)
    ensures FromDir(root, files) == []
  {
  }

  /** What the staging does to the file system. */
  datatype Action = RemoveTree(path: string) | MakeDirs(path: string) | CopyFile(src: string, dst: string)

  /** The header root under the target directory. */
  function HeaderPath(tarDir: string): string {
    tarDir + "\\headers"
  }

  /** Where a collected file is copied. */
  function Destination(tarDir: string, e: Entry): string {
    HeaderPath(tarDir) + e.relDir + "\\" + e.name
  }

  /** The actions for the collected files: its folder is created, then the file is copied. */
  function CopyActions(tarDir: string, entries: seq<Entry>): (r: seq<Action>)
    ensures |r| == 2 * |entries|
  {
    if entries == [] then []
    else CopyActions(tarDir, entries[..|entries| - 1]) +
         [MakeDirs(HeaderPath(tarDir) + entries[|entries| - 1].relDir),
          CopyFile(entries[|entries| - 1].srcPath, Destination(tarDir, entries[|entries| - 1]))]
  }

  /**
   * The staging step: nothing when the target directory does not exist;
   * otherwise an existing header folder is removed, the folder is created
   * and every collected file is copied into place.
   */
  method StageHeaders(tarDir: string, tarDirExists: bool, headersExist: bool, pathNameList: seq<Entry>)
    returns (actions: seq<Action>)
    ensures !tarDirExists ==> actions == []
    ensures tarDirExists ==> actions == (if headersExist then [RemoveTree(HeaderPath(tarDir))] else []) +
                                        [MakeDirs(HeaderPath(tarDir))] + CopyActions(tarDir, pathNameList)
  {
    actions := [];
    if tarDirExists {
      var headerPath := tarDir + "\\headers";
      if headersExist {
        actions := actions + [RemoveTree(headerPath)];
      }
      actions := actions + [MakeDirs(headerPath)];
      ghost var start := actions;
      for k := 0 to |pathNameList|
        invariant actions == start + CopyActions(tarDir, pathNameList[..k])
      {
        var copyFile := pathNameList[k];
        var newPath := headerPath + copyFile.relDir;
        assert pathNameList[..k + 1][..k] == pathNameList[..k];
        actions := actions + [MakeDirs(newPath), CopyFile(copyFile.srcPath, newPath + "\\" + copyFile.name)];
      }
      assert pathNameList[..|pathNameList|] == pathNameList;
    }
  }

  // ---------------------------------------------------------------------------
  // Properties
  // ---------------------------------------------------------------------------

  /** The 20-character window contains the 20-character folder name exactly when it is a prefix. */
  lemma {:induction false} ContainsInWindowIsPrefix(root: string)
    ensures Contains(Slice(root, 0, 20), CMakeUtilsDir) <==> IsPrefix(CMakeUtilsDir, root)
  {
    var w := Slice(root, 0, 20);
    if Contains(w, CMakeUtilsDir) {
      var i :| 0 <= i <= |w| && IsPrefix(CMakeUtilsDir, w[i..]);
      assert i == 0;
      assert root[..20] == w;
    }
    if IsPrefix(CMakeUtilsDir, root) {
      assert w[0..] == root[..20];
      assert IsPrefix(CMakeUtilsDir, w[0..]);
    }
  }

  /** The folder test is two prefix tests: a folder is skipped exactly when it starts with the build or the CMakeUtils folder. */
  lemma DirSelectedIsPrefixTest(root: string)
    ensures DirSelected(root) <==> !IsPrefix(BuildDir, root) && !IsPrefix(CMakeUtilsDir, root)
  {
    ContainsInWindowIsPrefix(root);
    if IsPrefix(BuildDir, root) {
      assert Slice(root, 0, 15) == root[..15];
    }
    if BuildDir == Slice(root, 0, 15) {
      assert |Slice(root, 0, 15)| == 15;
    }
  }

  /** Being a prefix test, the build exclusion also skips `..\engine\builder`. */
  lemma BuilderIsSkipped()
    ensures !DirSelected("..\\engine\\builder")
  {
    DirSelectedIsPrefixTest("..\\engine\\builder");
    assert "..\\engine\\builder"[..15] == BuildDir;
  }

  /** A name is a header exactly when it has at least two characters and ends with `.h`. */
  lemma IsHeaderIsSuffixTest(name: string)
    ensures IsHeader(name) <==> |name| >= 2 && name[|name| - 2..] == ".h"
  {
  }

  /** File `j` of folder `i` of the walk is a header in a selected folder, and gives entry `e`. */
  predicate Yields(walk: seq<(string, seq<string>)>, i: int, j: int, e: Entry) {
    0 <= i < |walk| && 0 <= j < |walk[i].1| && DirSelected(walk[i].0) && IsHeader(walk[i].1[j]) &&
    e == EntryOf(walk[i].0, walk[i].1[j])
  }

  /** An entry is collected exactly when it comes from a header in a selected folder of the walk. */
  lemma {:induction false} CollectedIff(walk: seq<(string, seq<string>)>, e: Entry)
    ensures e in Collected(walk) <==> exists i, j :: Yields(walk, i, j, e)
  {
    if walk != [] {
      var init := walk[..|walk| - 1];
      var last := walk[|walk| - 1];
      CollectedIff(init, e);
      FromDirIff(last.0, last.1, e);
      assert Collected(walk) == Collected(init) + FromDir(last.0, last.1);
      if e in Collected(init) {
        var i, j :| Yields(init, i, j, e);
        assert walk[i] == init[i];
        assert Yields(walk, i, j, e);
      } else if e in FromDir(last.0, last.1) {
        var j :| FileYields(last.0, last.1, j, e);
        assert Yields(walk, |walk| - 1, j, e);
      }
      if exists i, j :: Yields(walk, i, j, e) {
        var i, j :| Yields(walk, i, j, e);
        if i < |walk| - 1 {
          assert init[i] == walk[i];
          assert Yields(init, i, j, e);
        } else {
          assert FileYields(last.0, last.1, j, e);
        }
      }
    }
  }

  /** File `j` of a folder is a header in a selected folder, and gives entry `e`. */
  predicate FileYields(root: string, files: seq<string>, j: int, e: Entry) {
    0 <= j < |files| && DirSelected(root) && IsHeader(files[j]) && e == EntryOf(root, files[j])
  }

  /** An entry comes from a folder exactly when the folder is selected and one of its files is a header giving that entry. */
  lemma {:induction false} FromDirIff(root: string, files: seq<string>, e: Entry)
    ensures e in FromDir(root, files) <==> exists j :: FileYields(root, files, j, e)
  {
    if files != [] && DirSelected(root) {
      var init := files[..|files| - 1];
      var name := files[|files| - 1];
      FromDirIff(root, init, e);
      assert FromDir(root, files) == FromDir(root, init) + (if IsHeader(name) then [EntryOf(root, name)] else []);
      if e !in FromDir(root, init) && e in FromDir(root, files) {
        assert FileYields(root, files, |files| - 1, e);
      }
      if exists j :: FileYields(root, files, j, e) {
        var j :| FileYields(root, files, j, e);
        if j < |files| - 1 {
          assert init[j] == files[j];
          assert FileYields(root, init, j, e);
        }
      }
      if e in FromDir(root, init) {
        var j :| FileYields(root, init, j, e);
        assert files[j] == init[j];
        assert FileYields(root, files, j, e);
      }
    }
  }

  /** The `k`-th collected file is copied, after its folder is made, to its destination: entry order is kept. */
  lemma {:induction false} CopyActionsAt(tarDir: string, entries: seq<Entry>, k: nat)
    requires k < |entries|
    ensures CopyActions(tarDir, entries)[2 * k] == MakeDirs(HeaderPath(tarDir) + entries[k].relDir)
    ensures CopyActions(tarDir, entries)[2 * k + 1] == CopyFile(entries[k].srcPath, Destination(tarDir, entries[k]))
  {
    var init := entries[..|entries| - 1];
    if k < |entries| - 1 {
      CopyActionsAt(tarDir, init, k);
      assert init[k] == entries[k];
    }
  }

  /** A file under `..\engine<rest>` lands at `<tarDir>\headers<rest>\<name>`: the engine prefix is cut off, the rest of the tree is kept. */
  lemma DestinationKeepsTree(tarDir: string, rest: string, name: string)
    ensures Destination(tarDir, EntryOf(EngineDir + rest, name)) == tarDir + "\\headers" + rest + "\\" + name
  {
    assert (EngineDir + rest)[9..] == rest;
  }
}
