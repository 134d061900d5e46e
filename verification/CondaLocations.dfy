/**
  Enumerating the environments of a conda directory: `get_environments`
  (crates/pet-conda/src/environment_locations.rs) over an arbitrary file tree, with
  `is_conda_install` and `is_conda_env` (crates/pet-conda/src/utils.rs).
 */
module CondaLocations {
  import opened Prelude
  import opened Ordering

  /** A path as its components below the root. */
  type Path = seq<string>

  /**
    What the code asks of the disk. `children` is `None` when a directory cannot be read;
    `condarcDirs` is the `env_dirs` list of the directory's `.condarc`, empty if it has none.
   */
  datatype Tree = Tree(
    exists_: Path -> bool,
    isDir: Path -> bool,
    isFile: Path -> bool,
    children: Path -> Option<seq<Path>>,
    condarcDirs: Path -> seq<Path>)

  predicate LooksInstalled(t: Tree, p: Path) {
    (t.exists_(p + ["condabin"]) || t.exists_(p + ["envs"])) && t.exists_(p + ["conda-meta"])
  }

  function Grandparent(p: Path): Option<Path> {
    if |p| < 2 then None else Some(p[..|p| - 2])
  }

  /** A directory below an install that merely looks installed is a plain environment. */
  predicate IsCondaInstall(t: Tree, p: Path) {
    LooksInstalled(t, p) && !(Grandparent(p).Some? && LooksInstalled(t, Grandparent(p).value))
  }

  predicate IsCondaEnv(t: Tree, p: Path) {
    t.isDir(p + ["conda-meta"]) && !t.isFile(p + ["conda-meta", "pixi"])
  }

  function OnlyEnvs(t: Tree, s: seq<Path>): seq<Path> {
    if s == [] then []
    else OnlyEnvs(t, s[..|s| - 1]) + (if IsCondaEnv(t, s[|s| - 1]) then [s[|s| - 1]] else [])
  }

  function EnvsIn(t: Tree, dir: Path): seq<Path> {
    if t.children(dir).Some? then OnlyEnvs(t, t.children(dir).value) else []
  }

  /** The install two levels up, when the directory sits in its `envs` folder. */
  function BaseInstall(t: Tree, p: Path): Option<Path> {
    if |p| >= 2 && p[|p| - 2] == "envs" && IsCondaInstall(t, p[..|p| - 2]) then Some(p[..|p| - 2]) else None
  }

  /** What `get_environments` returns. */
  function Environments(t: Tree, le: (Path, Path) -> bool, p: Path): seq<Path>
    decreases |p|, 1
  {
    SortDedup(le, Gathered(t, le, p))
  }

  /** The list before it is sorted. */
  function Gathered(t: Tree, le: (Path, Path) -> bool, p: Path): seq<Path>
    decreases |p|, 0
  {
    if IsCondaInstall(t, p) then [p] + EnvsIn(t, p + ["envs"]) + t.condarcDirs(p)
    else if IsCondaEnv(t, p) then
      [p] + (if BaseInstall(t, p).Some? then Environments(t, le, BaseInstall(t, p).value) else [])
    else if t.exists_(p + ["envs"]) then EnvsIn(t, p + ["envs"])
    else EnvsIn(t, p)
  }

  method CollectEnvs(t: Tree, dir: Path) returns (envs: seq<Path>)
    ensures envs == EnvsIn(t, dir)
  {
    envs := [];
    var entries := t.children(dir);
    if entries.Some? {
      for i := 0 to |entries.value|
        invariant envs == OnlyEnvs(t, entries.value[..i])
      {
        if IsCondaEnv(t, entries.value[i]) {
          envs := envs + [entries.value[i]];
        }
        assert entries.value[..i + 1][..i] == entries.value[..i];
      }
      assert entries.value[..|entries.value|] == entries.value;
    }
  }

  /** `get_environments`; `nested` counts the levels of recursive calls that it makes. */
  method GetEnvironments(t: Tree, le: (Path, Path) -> bool, condaDir: Path) returns (envs: seq<Path>, ghost nested: nat)
    ensures envs == Environments(t, le, condaDir)
    ensures nested <= 1
    ensures nested == 1 <==> !IsCondaInstall(t, condaDir) && IsCondaEnv(t, condaDir) && BaseInstall(t, condaDir).Some?
    ensures IsCondaInstall(t, condaDir) ==> nested == 0
    decreases |condaDir|
  {
    nested := 0;
    if IsCondaInstall(t, condaDir) {
      envs := [condaDir];
      var found := CollectEnvs(t, condaDir + ["envs"]);
      envs := envs + found;
      envs := envs + t.condarcDirs(condaDir);
    } else if IsCondaEnv(t, condaDir) {
      envs := [condaDir];
      if |condaDir| >= 2 && condaDir[|condaDir| - 2] == "envs" {
        var grandparent := condaDir[..|condaDir| - 2];
        assert BaseInstall(t, condaDir) == if IsCondaInstall(t, grandparent) then Some(grandparent) else None;
        if IsCondaInstall(t, grandparent) && grandparent !in envs {
          var more, deeper := GetEnvironments(t, le, grandparent);
          envs := envs + more;
          nested := deeper + 1;
        }
      }
    } else if t.exists_(condaDir + ["envs"]) {
      envs := CollectEnvs(t, condaDir + ["envs"]);
    } else {
      envs := CollectEnvs(t, condaDir);
    }
    assert envs == Gathered(t, le, condaDir);
    envs := Dedup(Sort(le, envs));
  }

  lemma EnvironmentsStrictlySorted(t: Tree, le: (Path, Path) -> bool, p: Path)
    requires TotalOrder(le)
    ensures StrictlySorted(le, Environments(t, le, p))
  {
    SortDedupStrict(le, Gathered(t, le, p));
  }

  lemma {:induction false} OnlyEnvsMembers(t: Tree, s: seq<Path>, p: Path)
    ensures p in OnlyEnvs(t, s) <==> p in s && IsCondaEnv(t, p)
  {
    if s != [] {
      OnlyEnvsMembers(t, s[..|s| - 1], p);
      assert s == s[..|s| - 1] + [s[|s| - 1]];
    }
  }

  /** The folder can be read and lists `p`, a conda environment that is not one of pixi's. */
  ghost predicate ListedEnv(t: Tree, dir: Path, p: Path) {
    && t.children(dir).Some? && p in t.children(dir).value
    && t.isDir(p + ["conda-meta"]) && !t.isFile(p + ["conda-meta", "pixi"])
  }

  lemma EnvsInMembers(t: Tree, dir: Path, p: Path)
    ensures p in EnvsIn(t, dir) <==> ListedEnv(t, dir, p)
  {
    if t.children(dir).Some? {
      OnlyEnvsMembers(t, t.children(dir).value, p);
    }
  }

  lemma SortedMembers(t: Tree, le: (Path, Path) -> bool, dir: Path, p: Path)
    requires TotalOrder(le)
    ensures p in Environments(t, le, dir) <==> p in Gathered(t, le, dir)
  {
    SortDedupStrict(le, Gathered(t, le, dir));
    assert p in Elements(Environments(t, le, dir)) <==> p in Elements(Gathered(t, le, dir));
  }

  /** An install enumerates itself, the environments listed in its `envs` folder, and its condarc dirs. */
  lemma InstallEnumerates(t: Tree, le: (Path, Path) -> bool, root: Path, p: Path)
    requires TotalOrder(le) && IsCondaInstall(t, root)
    ensures p in Environments(t, le, root) <==>
              p == root || p in t.condarcDirs(root) || ListedEnv(t, root + ["envs"], p)
  {
    SortedMembers(t, le, root, p);
    EnvsInMembers(t, root + ["envs"], p);
  }

  /** An environment outside the `envs` folder of an install enumerates only itself. */
  lemma LoneEnvironmentEnumerates(t: Tree, le: (Path, Path) -> bool, dir: Path)
    requires !IsCondaInstall(t, dir) && IsCondaEnv(t, dir)
    requires |dir| < 2 || dir[|dir| - 2] != "envs" || !IsCondaInstall(t, dir[..|dir| - 2])
    ensures Environments(t, le, dir) == [dir]
  {
    assert Gathered(t, le, dir) == [dir] && [dir][..0] == [];
    assert Sort(le, [dir]) == Insert(le, [], dir);
  }

  /**
    A directory that is neither enumerates the environments in its `envs` folder if that exists,
    readable or not, and otherwise those in itself.
   */
  lemma PlainDirectoryEnumerates(t: Tree, le: (Path, Path) -> bool, dir: Path, p: Path)
    requires TotalOrder(le) && !IsCondaInstall(t, dir) && !IsCondaEnv(t, dir)
    ensures p in Environments(t, le, dir) <==>
              if t.exists_(dir + ["envs"]) then ListedEnv(t, dir + ["envs"], p) else ListedEnv(t, dir, p)
  {
    SortedMembers(t, le, dir, p);
    EnvsInMembers(t, if t.exists_(dir + ["envs"]) then dir + ["envs"] else dir, p);
  }

  /**
    What two levels below something that looks installed is never an install, and everything else
    with `conda-meta` and a `condabin` or an `envs` is one.
   */
  lemma InstallsAreNotNested(t: Tree, p: Path)
    requires t.exists_(p + ["conda-meta"]) && (t.exists_(p + ["condabin"]) || t.exists_(p + ["envs"]))
    ensures |p| < 2 ==> IsCondaInstall(t, p)
    ensures |p| >= 2 ==>
              var g := p[..|p| - 2];
              !IsCondaInstall(t, p) <==>
                t.exists_(g + ["conda-meta"]) && (t.exists_(g + ["condabin"]) || t.exists_(g + ["envs"]))
  {}

  /** A child environment starts from itself and the install's list. */
  lemma GatheredFromChild(t: Tree, le: (Path, Path) -> bool, root: Path, x: string)
    requires IsCondaInstall(t, root) && IsCondaEnv(t, root + ["envs", x])
    ensures Gathered(t, le, root + ["envs", x]) == [root + ["envs", x]] + Environments(t, le, root)
  {
    var child := root + ["envs", x];
    assert child[..|child| - 2] == root;
    assert Grandparent(child) == Some(root);
    assert BaseInstall(t, child) == Some(root);
  }

  /** The disk names `p` under the install: in its readable `envs` folder or its condarc. */
  predicate NamedUnder(t: Tree, root: Path, p: Path) {
    || p in t.condarcDirs(root)
    || (t.children(root + ["envs"]).Some? && p in t.children(root + ["envs"]).value)
  }

  /**
    Starting from a child environment `root/envs/x` gives the same list as starting from the
    install, exactly when the install's `envs` folder can be read and lists the child, or its
    condarc names it.
   */
  lemma ChildListsWhatInstallLists(t: Tree, le: (Path, Path) -> bool, root: Path, x: string)
    requires TotalOrder(le) && IsCondaInstall(t, root) && IsCondaEnv(t, root + ["envs", x])
    ensures Environments(t, le, root + ["envs", x]) == Environments(t, le, root) <==>
            NamedUnder(t, root, root + ["envs", x])
  {
    var child := root + ["envs", x];
    InstallEnumerates(t, le, root, child);
    GatheredFromChild(t, le, root, x);
    EnvironmentsStrictlySorted(t, le, root);
    SortDedupAddsNothingIff(le, child, Environments(t, le, root));
  }

  /** An install at the top with one environment `x`, whose `envs` folder exists but cannot be read. */
  function UnreadableEnvs(x: string): Tree {
    Tree(
      p => p == ["envs"] || p == ["conda-meta"] || p == ["envs", x, "conda-meta"],
      p => p == ["envs", x, "conda-meta"],
      p => false,
      p => None,
      p => [])
  }

  /** There the install lists only itself, and the child also itself. */
  lemma UnreadableEnvsDiffer(le: (Path, Path) -> bool, x: string)
    requires TotalOrder(le)
    ensures var t := UnreadableEnvs(x);
            && IsCondaInstall(t, []) && IsCondaEnv(t, ["envs", x])
            && Environments(t, le, ["envs", x]) != Environments(t, le, [])
            && ["envs", x] in Environments(t, le, ["envs", x])
  {
    var t := UnreadableEnvs(x);
    var child: Path := ["envs", x];
    assert [] + child == child && child + ["conda-meta"] == ["envs", x, "conda-meta"];
    assert [] + ["envs"] == ["envs"] && [] + ["conda-meta"] == ["conda-meta"];
    assert child + ["conda-meta", "pixi"] == ["envs", x, "conda-meta", "pixi"];
    ChildListsWhatInstallLists(t, le, [], x);
    GatheredFromChild(t, le, [], x);
    SortDedupStrict(le, Gathered(t, le, child));
    assert child in Elements(Environments(t, le, child));
  }
}
