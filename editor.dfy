/**
 * The project handling of editor/HedgeEditor.cpp: the text of the game's
 * CMakeLists.txt, the command lines the editor hands to the shell to build
 * the game, and the scene list kept while projects are created and opened.
 * The shell, the file system and YAML parsing are not modelled: commands
 * are returned in the order they are run, and what a project file says is a
 * parameter.  A scene is an opaque handle.
 */
module Editor {
  import Paths

  type SceneHandle = nat

  // ---------------------------------------------------------------------------
  // The game's CMakeLists.txt
  // ---------------------------------------------------------------------------

  /** The first line of the generated file. */
  const MinimumRequiredLine: string := "cmake_minimum_required(VERSION 3.8)\n"

  /** Everything before the yaml-cpp library in the link list. */
  const CMakeHead: string := MinimumRequiredLine + CMakeHeadRest

  /** The head after its first line. */
  const CMakeHeadRest: string :=
    "project(HedgeGame VERSION 0.1 LANGUAGES CXX)\n\n" +
    "add_executable(HedgeGame)\n\n" +
    "target_include_directories(HedgeGame PUBLIC $ENV{HEDGE_LIB}/headers)\n" +
    "target_link_directories(HedgeGame PUBLIC $ENV{HEDGE_LIB})\n" +
    "target_link_libraries(HedgeGame LINK_PUBLIC HedgeEngine\n" +
    "                                            vulkan-1\n" +
    "                                            glfw3\n"

  /** The yaml-cpp link line: the debug build links the `d`-suffixed library. */
  function YamlLinkLine(isDebug: bool): string {
    if isDebug then "                                            yaml-cppd)\n"
    else "                                            yaml-cpp)\n"
  }

  /**
   * The C++ literals `"file(WRITE null.cpp "` `")\n\n"` are adjacent and
   * concatenate: the line has no `""` content argument.
   */
  const NullCppLine: string := "file(WRITE null.cpp )\n\n"

  /** The last line of the generated file. */
  const ReleaseOutputLine: string :=
    "set_target_properties(HedgeGame PROPERTIES RUNTIME_OUTPUT_DIRECTORY_RELEASE ${CMAKE_CURRENT_SOURCE_DIR}/../)\n"

  /** Everything after the link list. */
  const CMakeTail: string := CMakeTailInit + ReleaseOutputLine

  /** The tail before its last line. */
  const CMakeTailInit: string := NullCppLine + SourcesLines

  /** The tail between the `null.cpp` line and the last line. */
  const SourcesLines: string :=
    "target_sources(HedgeGame PRIVATE null.cpp)\n" +
    "set_target_properties(HedgeGame PROPERTIES RUNTIME_OUTPUT_DIRECTORY_DEBUG ${CMAKE_CURRENT_SOURCE_DIR}/../)\n"

  /** The text `GenGameCMakeFileStr` returns. */
  function CMakeText(isDebug: bool): string {
    CMakeHead + YamlLinkLine(isDebug) + CMakeTail
  }

  /** The build folder of a project: `rootDir + "\\build"`. */
  function CMakeFileFolder(rootDir: string): string {
    rootDir + "\\build"
  }

  /** The debug configure command: build tree `<folder>/build` (written straight after `-B`), source `<folder>`, Visual Studio 2019. */
  function DebugConfigureCmd(rootDir: string): string {
    "cmake -B" + (CMakeFileFolder(rootDir) + "/build") + " -S " + CMakeFileFolder(rootDir) + " -G \"Visual Studio 16 2019\""
  }

  /** The release configure command: build tree `<folder>\build`, source `<folder>`, Ninja, Release. */
  function ReleaseConfigureCmd(rootDir: string): string {
    "cmake -B" + (CMakeFileFolder(rootDir) + "\\build") + (" -S " + CMakeFileFolder(rootDir)) + " -G Ninja" + " -DCMAKE_BUILD_TYPE=Release"
  }

  /** The release compile command: six ninja jobs in `<folder>\build`. */
  function NinjaCmd(rootDir: string): string {
    "ninja" + (" -C " + CMakeFileFolder(rootDir) + "\\build") + " -j 6"
  }

  /** `HedgeEditor`: its scenes, the active one, and the open project's paths and names. */
  class HedgeEditor {
    var scenes: seq<SceneHandle>
    var activeScene: nat
    var rootDir: string
    var projFilePath: string
    var projName: string
    var gameName: string

    /** The active scene is the first, and it exists: nothing but the constructor sets the index. */
    predicate Valid()
      reads this
    {
      activeScene == 0 && |scenes| > 0
    }

    /** The editor starts with one new scene, which is active. */
    constructor(newScene: SceneHandle)
      ensures Valid() && scenes == [newScene] && activeScene == 0
      ensures rootDir == "" && projFilePath == "" && projName == "" && gameName == ""
    {
      scenes := [newScene];
      activeScene := 0;
      rootDir, projFilePath, projName, gameName := "", "", "", "";
    }

    /** `GenGameCMakeFileStr`: the file is built line by line. */
    static method GenGameCMakeFileStr(isDebug: bool) returns (cmakeStr: string)
      ensures cmakeStr == CMakeText(isDebug)
    {
      cmakeStr := CMakeHead;
      if isDebug {
        cmakeStr := cmakeStr + "                                            yaml-cppd)\n";
      } else {
        cmakeStr := cmakeStr + "                                            yaml-cpp)\n";
      }
      cmakeStr := cmakeStr + CMakeTail;
    }

    /**
     * `BuildDebugGame`: the CMakeLists.txt path and text it writes, the
     * folder it removes, and the command it runs.
     */
    method BuildDebugGame() returns (cmakeFilePath: string, cmakeStr: string, removed: string, cmd: string)
      ensures cmakeFilePath == CMakeFileFolder(rootDir) + "\\CMakeLists.txt" && cmakeStr == CMakeText(true)
      ensures removed == CMakeFileFolder(rootDir) + "/build"
      ensures cmd == DebugConfigureCmd(rootDir)
    {
      var cmakeFileFolder := rootDir + "\\build";
      cmakeFilePath := cmakeFileFolder + "\\CMakeLists.txt";
      cmakeStr := GenGameCMakeFileStr(true);
      removed := cmakeFileFolder + "/build";
      cmd := "cmake -B";
      cmd := cmd + (cmakeFileFolder + "/build");
      cmd := cmd + " -S ";
      cmd := cmd + cmakeFileFolder;
      cmd := cmd + " -G \"Visual Studio 16 2019\"";
    }

    /** `BuildAndReleaseGame`: the CMakeLists.txt text, the folder it removes, and its two commands in order. */
    method BuildAndReleaseGame() returns (cmakeStr: string, removed: string, cmds: seq<string>)
      ensures cmakeStr == CMakeText(false)
      ensures removed == CMakeFileFolder(rootDir) + "\\build"
      ensures cmds == [ReleaseConfigureCmd(rootDir), NinjaCmd(rootDir)]
    {
      cmakeStr := GenGameCMakeFileStr(false);
      var cmakeFileFolder := rootDir + "\\build";
      removed := cmakeFileFolder + "\\build";
      var cmakeBuildNinjaCmd := "cmake -B";
      cmakeBuildNinjaCmd := cmakeBuildNinjaCmd + (cmakeFileFolder + "\\build");
      cmakeBuildNinjaCmd := cmakeBuildNinjaCmd + (" -S " + cmakeFileFolder);
      cmakeBuildNinjaCmd := cmakeBuildNinjaCmd + " -G Ninja";
      cmakeBuildNinjaCmd := cmakeBuildNinjaCmd + " -DCMAKE_BUILD_TYPE=Release";
      var cmakeCompileCmd := "ninja";
      cmakeCompileCmd := cmakeCompileCmd + (" -C " + cmakeFileFolder + "\\build");
      cmakeCompileCmd := cmakeCompileCmd + " -j 6";
      cmds := [cmakeBuildNinjaCmd, cmakeCompileCmd];
    }

    /** `CreateGameProject`: the project file is `<rootDir>\<projName>.yml`; returns the first scene's file path. */
    method CreateGameProject(root: string, name: string) returns (scenePathName: string)
      modifies this
      ensures projName == name && projFilePath == root + "\\" + name + ".yml"
      ensures scenePathName == root + "\\scene\\testScene.yml"
      ensures scenes == old(scenes) && activeScene == old(activeScene) && rootDir == old(rootDir)
    {
      projName := name;
      projFilePath := root + "\\" + name + ".yml";
      scenePathName := root + "\\scene\\testScene.yml";
    }

    /**
     * `OpenGameProject`: the old scenes are dropped; the project path and
     * its directory are recorded; the names come from the project file and
     * the first scene it names is loaded as the only scene.  Returns the
     * path the scene is loaded from.
     */
    method OpenGameProject(pathName: string, cfgProjName: string, cfgGameName: string, firstSceneName: string,
                           loaded: SceneHandle) returns (scenePath: string)
      requires Valid() && Paths.ValidLength(pathName)
      modifies this
      ensures Valid() && scenes == [loaded] && activeScene == old(activeScene)
      ensures projFilePath == pathName && rootDir == Paths.GetFileDir(pathName)
      ensures projName == cfgProjName && gameName == cfgGameName
      ensures scenePath == rootDir + "\\scene\\" + firstSceneName
    {
      scenes := [];
      projFilePath := pathName;
      rootDir := Paths.GetFileDir(pathName);
      projName := cfgProjName;
      gameName := cfgGameName;
      scenePath := rootDir + "\\scene\\" + firstSceneName;
      scenes := scenes + [loaded];
    }
  }

  // ---------------------------------------------------------------------------
  // Properties
  // ---------------------------------------------------------------------------

  /** Regrouping a five-part concatenation to expose its first and last part. */
  lemma Regroup(a: string, b: string, c: string, d: string, e: string)
    ensures (a + b) + c + (d + e) == a + (b + c + d + e)
    ensures (a + b) + c + (d + e) == (a + b + c + d) + e
  {
  }

  /** The prefix and suffix of a concatenation. */
  lemma Ends(a: string, b: string)
    ensures (a + b)[..|a|] == a && (a + b)[|a|..] == b
  {
  }

  /** The file starts with the minimum-version line and ends with the release output directory. */
  lemma CMakeTextFrame(isDebug: bool)
    ensures |MinimumRequiredLine| <= |CMakeText(isDebug)| && CMakeText(isDebug)[..|MinimumRequiredLine|] == MinimumRequiredLine
    ensures |ReleaseOutputLine| <= |CMakeText(isDebug)|
    ensures CMakeText(isDebug)[|CMakeText(isDebug)| - |ReleaseOutputLine|..] == ReleaseOutputLine
  {
    var link := YamlLinkLine(isDebug);
    Regroup(MinimumRequiredLine, CMakeHeadRest, link, CMakeTailInit, ReleaseOutputLine);
    Ends(MinimumRequiredLine, CMakeHeadRest + link + CMakeTailInit + ReleaseOutputLine);
    Ends(MinimumRequiredLine + CMakeHeadRest + link + CMakeTailInit, ReleaseOutputLine);
  }

  /** The line after the link list writes an empty `null.cpp`: the adjacent literals leave no `""` argument in it. */
  lemma NullCppFollowsLinks(isDebug: bool)
    ensures var at := |CMakeHead| + |YamlLinkLine(isDebug)|;
      at + |NullCppLine| <= |CMakeText(isDebug)| &&
      CMakeText(isDebug)[at..at + |NullCppLine|] == "file(WRITE null.cpp )\n\n"
  {
    Middle(CMakeHead, YamlLinkLine(isDebug), NullCppLine, SourcesLines, ReleaseOutputLine);
  }

  /** The third part of a five-part concatenation grouped as the generated text is. */
  lemma Middle(a: string, b: string, c: string, d: string, e: string)
    ensures |a| + |b| + |c| <= |a + b + ((c + d) + e)|
    ensures (a + b + ((c + d) + e))[|a| + |b|..|a| + |b| + |c|] == c
  {
    assert a + b + ((c + d) + e) == (a + b) + c + (d + e);
  }

  /** The debug and release files differ only in the yaml-cpp line. */
  lemma DebugAndReleaseDifferInLinkOnly()
    ensures CMakeText(true) != CMakeText(false)
    ensures exists head, tail :: CMakeText(true) == head + YamlLinkLine(true) + tail &&
                                 CMakeText(false) == head + YamlLinkLine(false) + tail
  {
    assert CMakeText(true)[|CMakeHead| + 52] != CMakeText(false)[|CMakeHead| + 52];
  }

  /** `-B` is followed directly by the build tree, with no space, in both configure commands. */
  lemma NoSpaceAfterB(rootDir: string)
    ensures var n := 8 + |CMakeFileFolder(rootDir)|;
      n <= |DebugConfigureCmd(rootDir)| && DebugConfigureCmd(rootDir)[..n] == "cmake -B" + CMakeFileFolder(rootDir)
    ensures var n := 8 + |CMakeFileFolder(rootDir)|;
      n <= |ReleaseConfigureCmd(rootDir)| && ReleaseConfigureCmd(rootDir)[..n] == "cmake -B" + CMakeFileFolder(rootDir)
  {
    var f := CMakeFileFolder(rootDir);
    assert DebugConfigureCmd(rootDir) == ("cmake -B" + f) + ("/build" + " -S " + f + " -G \"Visual Studio 16 2019\"");
    assert ReleaseConfigureCmd(rootDir) == ("cmake -B" + f) + ("\\build" + " -S " + f + " -G Ninja" + " -DCMAKE_BUILD_TYPE=Release");
  }

  /** Release compiles in the build tree it configures; debug configures a different tree (`/build`, not `\build`). */
  lemma BuildTrees(rootDir: string)
    ensures var tree := CMakeFileFolder(rootDir) + "\\build";
      ReleaseConfigureCmd(rootDir) == "cmake -B" + tree + " -S " + CMakeFileFolder(rootDir) + " -G Ninja -DCMAKE_BUILD_TYPE=Release" &&
      NinjaCmd(rootDir) == "ninja -C " + tree + " -j 6"
    ensures CMakeFileFolder(rootDir) + "/build" != CMakeFileFolder(rootDir) + "\\build"
  {
    var f := CMakeFileFolder(rootDir);
    assert (f + "/build")[|f|] != (f + "\\build")[|f|];
  }

  /** A project created under `root` reopens with `root` as its directory, when the project name has no backslash. */
  lemma CreatedProjectReopens(root: string, name: string)
    requires Paths.Separator !in name
    requires Paths.ValidLength(root + "\\" + name + ".yml")
    ensures Paths.GetFileDir(root + "\\" + name + ".yml") == root
  {
    var path := root + "\\" + name + ".yml";
    assert path[|root|] == Paths.Separator;
    forall j | |root| < j < |path| ensures path[j] != Paths.Separator {
      if j < |root| + 1 + |name| {
        assert path[j] == name[j - |root| - 1];
      }
    }
    Paths.SplitAtLastSeparator(path, |root|);
    assert path[..|root|] == root;
  }
}
