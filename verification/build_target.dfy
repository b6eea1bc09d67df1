/** The SCons target builder.

    `BuildTarget` reads four list files named by a dictionary of paths
    (`sources`, `include`, `ccFlags`, `ldFlags`), adds the include
    directories and the flags to the construction environment without
    duplicating an entry, compiles one object per source file and links
    them into the firmware image (target `ASch`) or into a unit-test
    program, which also gets the Catch and FakeIt include directories.

    The construction environment is SCons's, which is not part of this
    model: `Env` keeps the three variables the builder extends and a log
    of the builder calls (objects, programs, aliases, no-clean marks); a
    node is identified by its target path. */
module BuildTarget {
  import opened Wrappers
  import opened PyStr
  import ListCreator

  // ---------------------------------------------------------------------
  // object names: re.findall("(?<=\/)[^\/]*(?=.cpp)", sourceFile)[0]

  /** The lookahead of the object-name pattern accepts position `i`: `cpp`
      after one character that, when `escaped`, is a dot and, as written
      (an unescaped `.`), is any character but a line break. */
  predicate CppAt(s: string, i: nat, escaped: bool) {
    i + 4 <= |s| && (if escaped then s[i] == '.' else s[i] != '\n') && s[i + 1..i + 4] == "cpp"
  }

  /** The end of the run of characters other than `/` that starts at `p`:
      how far `[^\/]*` can reach. */
  function RunEnd(s: string, p: nat): (e: nat)
    requires p <= |s|
    ensures p <= e <= |s| && (e < |s| ==> s[e] == '/')
    ensures forall i :: p <= i < e ==> s[i] != '/'
    decreases |s| - p
  {
    if p < |s| && s[p] != '/' then RunEnd(s, p + 1) else p
  }

  /** Backtracking of the greedy `[^\/]*` from end `e` down to start `p`:
      the largest end the lookahead accepts. */
  function LongestFrom(s: string, p: nat, e: nat, escaped: bool): (r: Option<nat>)
    requires p <= e
    ensures r.Some? ==> p <= r.value <= e && CppAt(s, r.value, escaped)
    ensures r.Some? ==> forall k :: r.value < k <= e ==> !CppAt(s, k, escaped)
    ensures r.None? ==> forall k :: p <= k <= e ==> !CppAt(s, k, escaped)
    decreases e - p
  {
    if CppAt(s, e, escaped) then Some(e)
    else if e == p then None
    else LongestFrom(s, p, e - 1, escaped)
  }

  /** The end of the match that starts at `p`, if one does: the lookbehind
      needs a `/` just before `p`. */
  function MatchEnd(s: string, p: nat, escaped: bool): Option<nat>
    requires p <= |s|
  {
    if 0 < p && s[p - 1] == '/' then LongestFrom(s, p, RunEnd(s, p), escaped) else None
  }

  /** The leftmost match at or after `p`, which is the first that
      `re.findall` returns. */
  function FirstMatch(s: string, p: nat, escaped: bool): Option<string>
    requires p <= |s|
    decreases |s| - p
  {
    var m := MatchEnd(s, p, escaped);
    if m.Some? then Some(s[p..m.value])
    else if p == |s| then None
    else FirstMatch(s, p + 1, escaped)
  }

  /** The object name of a source path as the pattern is written. */
  function ObjectNameAsWritten(source: string): Option<string> {
    FirstMatch(source, 0, false)
  }

  /** The object name of a source path with the dot of `.cpp` escaped. */
  function ObjectName(source: string): Option<string> {
    FirstMatch(source, 0, true)
  }

  /** Positions without a match do not change the first match. */
  lemma {:induction false} FirstMatchSkip(s: string, p: nat, q: nat, escaped: bool)
    requires p <= q <= |s|
    requires forall i :: p <= i < q ==> MatchEnd(s, i, escaped).None?
    ensures FirstMatch(s, p, escaped) == FirstMatch(s, q, escaped)
    decreases q - p
  {
    if p < q {
      FirstMatchSkip(s, p + 1, q, escaped);
    }
  }

  /** With the dot escaped, the object name of `<dir>/<base>.cpp` is
      `base`, whatever the directory, as long as no directory name holds
      `.cpp`. */
  lemma ObjectNameOfPath(dir: string, base: string)
    requires '/' !in base && !Contains(dir, ".cpp")
    ensures ObjectName(dir + "/" + base + ".cpp") == Some(base)
  {
    var s := dir + "/" + base + ".cpp";
    var n := |dir|;
    assert s[n] == '/' && s[..n] == dir;
    forall i | 0 <= i <= n
      ensures MatchEnd(s, i, true).None?
    {
      if 0 < i && s[i - 1] == '/' {
        var e := RunEnd(s, i);
        assert e <= n;
        forall k | i <= k <= e
          ensures !CppAt(s, k, true)
        {
          if k + 4 <= n {
            assert s[k..k + 4] == s[..n][k..k + 4];
            assert !OccursAt(dir, ".cpp", k);
          } else {
            assert s[n] != '.' && s[n] != 'c' && s[n] != 'p';
          }
        }
      }
    }
    FirstMatchSkip(s, 0, n + 1, true);
    var p := n + 1;
    var e := RunEnd(s, p);
    forall j | p <= j < |s|
      ensures s[j] != '/'
    {
      assert s[j] == (base + ".cpp")[j - p];
    }
    assert e == |s|;
    assert s[|s| - 4..] == ".cpp";
    assert CppAt(s, |s| - 4, true);
    var r := LongestFrom(s, p, e, true);
    assert r.Some? && r.value == |s| - 4;
    assert s[p..|s| - 4] == base;
  }

  /** As written, a directory followed by a name that starts with `cpp`
      is taken for the object name: the unescaped dot matches the `/`. */
  lemma ObjectNameAsWrittenTakesDirectory(d: string, rest: string)
    requires '/' !in d
    ensures ObjectNameAsWritten("./" + d + "/cpp" + rest) == Some(d)
  {
    var s := "./" + d + "/cpp" + rest;
    var n := 2 + |d|;
    assert s[1] == '/' && s[0] == '.' && s[n] == '/';
    var e := RunEnd(s, 2);
    forall j | 2 <= j < n
      ensures s[j] != '/'
    {
      assert s[j] == d[j - 2];
    }
    assert e == n;
    assert s[n + 1..n + 4] == "cpp";
    assert CppAt(s, n, false);
    assert MatchEnd(s, 2, false) == Some(n);
    assert FirstMatch(s, 1, false) == FirstMatch(s, 2, false);
    assert s[2..n] == d;
  }

  /** As written, the source `./Utils/cppHelpers.cpp` is compiled into the
      object `Utils`. */
  lemma ObjectNameAsWrittenExample()
    ensures ObjectNameAsWritten("./Utils/cppHelpers.cpp") == Some("Utils")
  {
    ObjectNameAsWrittenTakesDirectory("Utils", "Helpers.cpp");
    assert "./" + "Utils" + "/cpp" + "Helpers.cpp" == "./Utils/cppHelpers.cpp";
  }

  /** With the dot escaped, the source `./Utils/cppHelpers.cpp` is compiled
      into the object `cppHelpers`. */
  lemma ObjectNameExample()
    ensures ObjectName("./Utils/cppHelpers.cpp") == Some("cppHelpers")
  {
    var dir := "./Utils";
    forall i | 0 <= i <= |dir|
      ensures !OccursAt(dir, ".cpp", i)
    {
      if i + 4 <= |dir| {
        assert i == 0 || i == 1 || i == 2 || i == 3;
        assert dir[i..i + 4][0] == dir[i] && dir[i..i + 4][1] == dir[i + 1];
      }
    }
    ObjectNameOfPath(dir, "cppHelpers");
    assert dir + "/" + "cppHelpers" + ".cpp" == "./Utils/cppHelpers.cpp";
  }

  // ---------------------------------------------------------------------
  // append-unique

  /** No entry occurs twice. */
  predicate Distinct(s: seq<string>) {
    forall i, j :: 0 <= i < j < |s| ==> s[i] != s[j]
  }

  /** `env.AppendUnique(VAR = values)`: each value that is neither in the
      variable nor earlier in `values` is appended, in order. */
  function AppendUniqueList(existing: seq<string>, values: seq<string>): seq<string>
    decreases |values|
  {
    if values == [] then existing
    else
      var before := AppendUniqueList(existing, values[..|values| - 1]);
      var v := values[|values| - 1];
      if v in before then before else before + [v]
  }

  /** Append-unique keeps the variable as a prefix, adds exactly the new
      values, never adds an entry already present and so keeps a
      duplicate-free variable duplicate-free. */
  lemma {:induction false} AppendUniqueContents(existing: seq<string>, values: seq<string>)
    ensures var r := AppendUniqueList(existing, values);
      |existing| <= |r| && r[..|existing|] == existing
      && (forall x :: x in r <==> x in existing || x in values)
      && (forall x :: x in existing ==> x !in r[|existing|..])
      && Distinct(r[|existing|..])
      && (Distinct(existing) ==> Distinct(r))
    decreases |values|
  {
    if values != [] {
      var init := values[..|values| - 1];
      var v := values[|values| - 1];
      AppendUniqueContents(existing, init);
      var before := AppendUniqueList(existing, init);
      assert values == init + [v];
      if v !in before {
        var r := before + [v];
        assert r[..|existing|] == before[..|existing|];
        assert r[|existing|..] == before[|existing|..] + [v];
        forall x | x in existing
          ensures x !in r[|existing|..]
        {
          assert x in before;
        }
        forall i, j | 0 <= i < j < |r| && Distinct(existing)
          ensures r[i] != r[j]
        {
          if j == |r| - 1 {
            assert r[i] in before;
          }
        }
        forall i, j | 0 <= i < j < |r| - |existing|
          ensures r[|existing|..][i] != r[|existing|..][j]
        {
          if j == |r| - |existing| - 1 {
            assert r[|existing| + i] in before;
          }
        }
      }
    }
  }

  /** Values all present already change nothing. */
  lemma {:induction false} AppendUniquePresent(existing: seq<string>, values: seq<string>)
    requires forall x :: x in values ==> x in existing
    ensures AppendUniqueList(existing, values) == existing
    decreases |values|
  {
    if values != [] {
      var init := values[..|values| - 1];
      assert forall x :: x in init ==> x in values;
      AppendUniquePresent(existing, init);
      assert values[|values| - 1] in values;
    }
  }

  /** Appending the same values twice is appending them once. */
  lemma AppendUniqueIdempotent(existing: seq<string>, values: seq<string>)
    ensures AppendUniqueList(AppendUniqueList(existing, values), values) == AppendUniqueList(existing, values)
  {
    AppendUniqueContents(existing, values);
    AppendUniquePresent(AppendUniqueList(existing, values), values);
  }

  // ---------------------------------------------------------------------
  // the construction environment

  /** The variables `BuildTarget` extends. */
  datatype Var = CppPath | CcFlags | LinkFlags

  /** A snapshot of the environment. */
  datatype EnvState = EnvState(
    cppPath: seq<string>,
    ccFlags: seq<string>,
    linkFlags: seq<string>,
    objects: seq<(string, string)>,
    programs: seq<(string, seq<string>)>,
    aliases: seq<(string, string)>,
    noClean: seq<string>)

  function VarOf(s: EnvState, v: Var): seq<string> {
    match v
    case CppPath => s.cppPath
    case CcFlags => s.ccFlags
    case LinkFlags => s.linkFlags
  }

  /** The environment with variable `v` set to `value`. */
  function WithVar(s: EnvState, v: Var, value: seq<string>): (r: EnvState)
    ensures VarOf(r, v) == value
    ensures forall w :: w != v ==> VarOf(r, w) == VarOf(s, w)
    ensures r.objects == s.objects && r.programs == s.programs
    ensures r.aliases == s.aliases && r.noClean == s.noClean
  {
    match v
    case CppPath => s.(cppPath := value)
    case CcFlags => s.(ccFlags := value)
    case LinkFlags => s.(linkFlags := value)
  }

  class Env {
    var cppPath: seq<string>
    var ccFlags: seq<string>
    var linkFlags: seq<string>
    var objects: seq<(string, string)>
    var programs: seq<(string, seq<string>)>
    var aliases: seq<(string, string)>
    var noClean: seq<string>

    function State(): EnvState
      reads this
    {
      EnvState(cppPath, ccFlags, linkFlags, objects, programs, aliases, noClean)
    }

    /** An environment with empty variables and no nodes. */
    constructor ()
      ensures State() == EnvState([], [], [], [], [], [], [])
    {
      cppPath, ccFlags, linkFlags := [], [], [];
      objects, programs, aliases, noClean := [], [], [], [];
    }

    method SetVar(v: Var, value: seq<string>)
      modifies this
      ensures State() == WithVar(old(State()), v, value)
    {
      match v
      case CppPath => cppPath := value;
      case CcFlags => ccFlags := value;
      case LinkFlags => linkFlags := value;
    }

    /** `env.AppendUnique(VAR = values)`. */
    method AppendUnique(v: Var, values: seq<string>)
      modifies this
      ensures State() == WithVar(old(State()), v, AppendUniqueList(VarOf(old(State()), v), values))
    {
      ghost var start := State();
      var i := 0;
      while i < |values|
        invariant 0 <= i <= |values|
        invariant State() == WithVar(start, v, AppendUniqueList(VarOf(start, v), values[..i]))
      {
        assert values[..i + 1][..i] == values[..i];
        var current := VarOf(State(), v);
        if values[i] !in current {
          SetVar(v, current + [values[i]]);
        }
        i := i + 1;
      }
      assert values[..i] == values;
    }

    /** `env.Object(target, source)`: the object node. */
    method Object(target: string, source: string) returns (node: string)
      modifies this
      ensures node == target
      ensures State() == old(State()).(objects := old(objects) + [(target, source)])
    {
      objects := objects + [(target, source)];
      node := target;
    }

    /** `env.Program(target, sources)`: the program node. */
    method Program(target: string, sources: seq<string>) returns (node: string)
      modifies this
      ensures node == target
      ensures State() == old(State()).(programs := old(programs) + [(target, sources)])
    {
      programs := programs + [(target, sources)];
      node := target;
    }

    /** `env.Alias(name, node)`. */
    method Alias(name: string, node: string)
      modifies this
      ensures State() == old(State()).(aliases := old(aliases) + [(name, node)])
    {
      aliases := aliases + [(name, node)];
    }

    /** `env.NoClean(node)`: `scons -c` keeps the node. */
    method NoClean(node: string)
      modifies this
      ensures State() == old(State()).(noClean := old(noClean) + [node])
    {
      noClean := noClean + [node];
    }
  }

  // ---------------------------------------------------------------------
  // the builder

  /** How a call ends: with the program node, an exit status or an
      exception. */
  datatype BuildOutcome = Linked(program: string) | Exit(status: nat) | Raised(error: PyError)

  /** The firmware target. */
  const FIRMWARE: string := "ASch"

  /** The include directories of the unit-test frameworks. */
  const TEST_INCLUDES: seq<string> := ["./Catch", "./FakeIt"]

  /** The list file named `key` in `buildFiles`, read. */
  function ListFile(files: ListCreator.FileSystem, buildFiles: map<string, string>, key: string): Result<seq<string>, PyError> {
    if key !in buildFiles then Failure(KeyError(key))
    else if buildFiles[key] !in files then Failure(FileNotFound(buildFiles[key]))
    else Success(ListCreator.ListOf(files[buildFiles[key]]))
  }

  /** `CreateListFromFile(buildFiles[key])`. */
  method ReadList(files: ListCreator.FileSystem, buildFiles: map<string, string>, key: string)
    returns (r: Result<seq<string>, PyError>)
    ensures r == ListFile(files, buildFiles, key)
  {
    if key !in buildFiles {
      return Failure(KeyError(key));
    }
    r := ListCreator.CreateListFromFile(files, buildFiles[key]);
  }

  function ProgramPath(target: string): string {
    if target == FIRMWARE then "./Build/Release/ASch" else "./Build/Tests/" + target + "_UTest"
  }

  function ObjectPath(target: string, name: string): string {
    "./Build/Objects/" + target + "/" + name
  }

  /** The name the pattern gives a source, as written or with the dot
      escaped. */
  function NameOf(source: string, escaped: bool): Option<string> {
    if escaped then ObjectName(source) else ObjectNameAsWritten(source)
  }

  /** The object nodes built for `sources`, as (target, source) pairs, and
      whether every source had a name; the first source without one raises
      `IndexError` and stops the loop. */
  function ObjectsOf(target: string, sources: seq<string>, escaped: bool): (seq<(string, string)>, bool)
    decreases |sources|
  {
    if sources == [] then ([], true)
    else
      var (objects, named) := ObjectsOf(target, sources[..|sources| - 1], escaped);
      var source := sources[|sources| - 1];
      if !named then (objects, false)
      else
        match NameOf(source, escaped)
        case None => (objects, false)
        case Some(name) => (objects + [(ObjectPath(target, name), source)], true)
  }

  /** The targets of a list of nodes. */
  function Nodes(objects: seq<(string, string)>): (r: seq<string>)
    ensures |r| == |objects|
  {
    seq(|objects|, i requires 0 <= i < |objects| => objects[i].0)
  }

  /** The environment and outcome after `BuildTarget(env, target,
      buildFiles)`, where a failed read of the sources or include list
      ends with `abort` and object names come from the pattern with the
      dot `escaped` or not. */
  function BuildWith(s: EnvState, files: ListCreator.FileSystem, buildFiles: map<string, string>, target: string,
                     abort: BuildOutcome, escaped: bool): (EnvState, BuildOutcome)
  {
    match ListFile(files, buildFiles, "sources")
    case Failure(_) => (s, abort)
    case Success(sources) =>
      match ListFile(files, buildFiles, "include")
      case Failure(_) => (s, abort)
      case Success(includes) =>
        var s1 := s.(cppPath := AppendUniqueList(s.cppPath, includes));
        match ListFile(files, buildFiles, "ccFlags")
        case Failure(e) => (s1, Raised(e))
        case Success(cc) =>
          var s2 := s1.(ccFlags := AppendUniqueList(s1.ccFlags, cc));
          match ListFile(files, buildFiles, "ldFlags")
          case Failure(e) => (s2, Raised(e))
          case Success(ld) =>
            var s3 := s2.(linkFlags := AppendUniqueList(s2.linkFlags, ld));
            LinkWith(s3, target, sources, escaped)
  }

  /** The second half of a build, once the lists are read and the flags
      set: the test include directories for a test target, one object per
      source, and the program with its aliases. */
  function LinkWith(s3: EnvState, target: string, sources: seq<string>, escaped: bool): (EnvState, BuildOutcome) {
    var s4 := if target == FIRMWARE then s3 else s3.(cppPath := AppendUniqueList(s3.cppPath, TEST_INCLUDES));
    var (objects, named) := ObjectsOf(target, sources, escaped);
    var s5 := s4.(objects := s4.objects + objects);
    if !named then (s5, Raised(IndexError))
    else
      var program := ProgramPath(target);
      (s5.(programs := s5.programs + [(program, Nodes(objects))],
           aliases := s5.aliases + [(target, program), (target + "_executable", program)],
           noClean := s5.noClean + [program]),
       Linked(program))
  }

  /** The builder as written: the handler of a failed read calls
      `sys.exit(1)`, but `sys` is never imported, so the handler itself
      raises `NameError`; object names use the unescaped dot. */
  function BuiltAsWritten(s: EnvState, files: ListCreator.FileSystem, buildFiles: map<string, string>, target: string)
    : (EnvState, BuildOutcome)
  {
    BuildWith(s, files, buildFiles, target, Raised(NameError("sys")), false)
  }

  /** The builder as intended: a failed read exits with status 1, and
      object names use `.cpp` literally. */
  function Built(s: EnvState, files: ListCreator.FileSystem, buildFiles: map<string, string>, target: string)
    : (EnvState, BuildOutcome)
  {
    BuildWith(s, files, buildFiles, target, Exit(1), true)
  }

  /** Once a source has no name, the rest of the list builds nothing. */
  lemma {:induction false} ObjectsFailureSticks(target: string, sources: seq<string>, i: nat, escaped: bool)
    requires i <= |sources| && !ObjectsOf(target, sources[..i], escaped).1
    ensures ObjectsOf(target, sources, escaped) == ObjectsOf(target, sources[..i], escaped)
    decreases |sources| - i
  {
    if i < |sources| {
      assert sources[..i + 1][..i] == sources[..i];
      ObjectsFailureSticks(target, sources, i + 1, escaped);
    } else {
      assert sources[..i] == sources;
    }
  }

  /** The loop that builds one object per source. */
  method BuildObjects(env: Env, buildTarget: string, sources: seq<string>) returns (objectFiles: seq<string>, named: bool)
    modifies env
    ensures named == ObjectsOf(buildTarget, sources, true).1
    ensures objectFiles == Nodes(ObjectsOf(buildTarget, sources, true).0)
    ensures env.State() == old(env.State()).(objects := old(env.objects) + ObjectsOf(buildTarget, sources, true).0)
  {
    ghost var linked := env.State();
    objectFiles := [];
    var i := 0;
    while i < |sources|
      invariant 0 <= i <= |sources|
      invariant ObjectsOf(buildTarget, sources[..i], true).1
      invariant env.State() == linked.(objects := linked.objects + ObjectsOf(buildTarget, sources[..i], true).0)
      invariant objectFiles == Nodes(ObjectsOf(buildTarget, sources[..i], true).0)
    {
      assert sources[..i + 1][..i] == sources[..i];
      var name := ObjectName(sources[i]);
      if name.None? {
        ObjectsFailureSticks(buildTarget, sources, i + 1, true);
        return objectFiles, false;
      }
      var node := env.Object(ObjectPath(buildTarget, name.value), sources[i]);
      objectFiles := objectFiles + [node];
      i := i + 1;
    }
    assert sources[..i] == sources;
    named := true;
  }

  /** `BuildTarget(env, buildTarget, buildFiles)`. */
  method BuildTarget(env: Env, files: ListCreator.FileSystem, buildFiles: map<string, string>, buildTarget: string)
    returns (outcome: BuildOutcome)
    modifies env
    ensures (env.State(), outcome) == Built(old(env.State()), files, buildFiles, buildTarget)
  {
    ghost var s0 := env.State();
    var sourceFiles := ReadList(files, buildFiles, "sources");
    if sourceFiles.Failure? {
      return Exit(1);
    }
    var includes := ReadList(files, buildFiles, "include");
    if includes.Failure? {
      return Exit(1);
    }
    env.AppendUnique(CppPath, includes.value);
    ghost var s1 := s0.(cppPath := AppendUniqueList(s0.cppPath, includes.value));
    assert env.State() == s1;
    var ccFlags := ReadList(files, buildFiles, "ccFlags");
    if ccFlags.Failure? {
      return Raised(ccFlags.error);
    }
    env.AppendUnique(CcFlags, ccFlags.value);
    ghost var s2 := s1.(ccFlags := AppendUniqueList(s1.ccFlags, ccFlags.value));
    assert env.State() == s2;
    var ldFlags := ReadList(files, buildFiles, "ldFlags");
    if ldFlags.Failure? {
      return Raised(ldFlags.error);
    }
    env.AppendUnique(LinkFlags, ldFlags.value);
    ghost var s3 := s2.(linkFlags := AppendUniqueList(s2.linkFlags, ldFlags.value));
    assert env.State() == s3;
    outcome := LinkTarget(env, buildTarget, sourceFiles.value);
  }

  /** The second half of the builder: adds the test include directories for a
      test target, declares the objects and links the program. */
  method LinkTarget(env: Env, buildTarget: string, sources: seq<string>) returns (outcome: BuildOutcome)
    modifies env
    ensures (env.State(), outcome) == LinkWith(old(env.State()), buildTarget, sources, true)
  {
    ghost var s3 := env.State();
    var targetString;
    if buildTarget == FIRMWARE {
      targetString := "./Build/Release/ASch";
    } else {
      targetString := "./Build/Tests/" + buildTarget + "_UTest";
      env.AppendUnique(CppPath, TEST_INCLUDES);
    }
    ghost var s4 := if buildTarget == FIRMWARE then s3 else s3.(cppPath := AppendUniqueList(s3.cppPath, TEST_INCLUDES));
    assert env.State() == s4;
    assert targetString == ProgramPath(buildTarget);
    var objectFiles, named := BuildObjects(env, buildTarget, sources);
    ghost var objects := ObjectsOf(buildTarget, sources, true).0;
    ghost var s5 := s4.(objects := s4.objects + objects);
    assert env.State() == s5;
    if !named {
      return Raised(IndexError);
    }
    var output := env.Program(targetString, objectFiles);
    env.Alias(buildTarget, output);
    env.Alias(buildTarget + "_executable", output);
    env.NoClean(output);
    assert env.State() == s5.(programs := s5.programs + [(output, Nodes(objects))],
                              aliases := s5.aliases + [(buildTarget, output), (buildTarget + "_executable", output)],
                              noClean := s5.noClean + [output]);
    return Linked(output);
  }

  // ---------------------------------------------------------------------
  // what a call does

  /** Every source has a name exactly when the object loop completes, and
      then there is one object per source, in source order, named after
      it. */
  lemma {:induction false} ObjectsOfAllNamed(target: string, sources: seq<string>, escaped: bool)
    ensures ObjectsOf(target, sources, escaped).1 <==> forall i :: 0 <= i < |sources| ==> NameOf(sources[i], escaped).Some?
    ensures ObjectsOf(target, sources, escaped).1 ==>
      var objects := ObjectsOf(target, sources, escaped).0;
      |objects| == |sources|
      && forall i :: 0 <= i < |sources| ==>
           objects[i] == (ObjectPath(target, NameOf(sources[i], escaped).value), sources[i])
    decreases |sources|
  {
    if sources != [] {
      var init := sources[..|sources| - 1];
      ObjectsOfAllNamed(target, init, escaped);
      assert forall i :: 0 <= i < |init| ==> init[i] == sources[i];
    }
  }

  /** A failed read of the source or include list leaves the environment
      untouched and exits with status 1. */
  lemma ReadFailureExits(s: EnvState, files: ListCreator.FileSystem, buildFiles: map<string, string>, target: string)
    requires ListFile(files, buildFiles, "sources").Failure? || ListFile(files, buildFiles, "include").Failure?
    ensures Built(s, files, buildFiles, target) == (s, Exit(1))
  {
  }

  /** As written, the same failure raises `NameError` for `sys` instead. */
  lemma AsWrittenReadFailureRaisesNameError(s: EnvState, files: ListCreator.FileSystem, buildFiles: map<string, string>, target: string)
    requires ListFile(files, buildFiles, "sources").Failure? || ListFile(files, buildFiles, "include").Failure?
    ensures BuiltAsWritten(s, files, buildFiles, target) == (s, Raised(NameError("sys")))
    ensures BuiltAsWritten(s, files, buildFiles, target).1 != Built(s, files, buildFiles, target).1
  {
  }

  /** A missing source-list entry is such a failure. */
  lemma MissingSourcesExample(s: EnvState, files: ListCreator.FileSystem)
    ensures BuiltAsWritten(s, files, map[], FIRMWARE).1 == Raised(NameError("sys"))
    ensures Built(s, files, map[], FIRMWARE).1 == Exit(1)
  {
    AsWrittenReadFailureRaisesNameError(s, files, map[], FIRMWARE);
    ReadFailureExits(s, files, map[], FIRMWARE);
  }

  /** The flag lists have no fallback: a missing entry raises `KeyError`
      and a missing file `FileNotFoundError`, after the include directories
      (and, for the linker flags, the compiler flags) have been added. */
  lemma FlagsHaveNoFallback(s: EnvState, files: ListCreator.FileSystem, buildFiles: map<string, string>, target: string)
    requires ListFile(files, buildFiles, "sources").Success? && ListFile(files, buildFiles, "include").Success?
    requires ListFile(files, buildFiles, "ccFlags").Failure? || ListFile(files, buildFiles, "ldFlags").Failure?
    ensures var key := if ListFile(files, buildFiles, "ccFlags").Failure? then "ccFlags" else "ldFlags";
      Built(s, files, buildFiles, target).1 ==
        Raised(if key !in buildFiles then KeyError(key) else FileNotFound(buildFiles[key]))
    ensures Built(s, files, buildFiles, target).0.cppPath ==
      AppendUniqueList(s.cppPath, ListFile(files, buildFiles, "include").value)
    ensures Built(s, files, buildFiles, target).0.objects == s.objects
  {
  }

  /** The include path after a call that read all four lists: the old
      entries first and unchanged, then the new directories, which for a
      unit-test target include the Catch and FakeIt ones; no entry is
      duplicated. */
  lemma BuiltIncludePath(s: EnvState, files: ListCreator.FileSystem, buildFiles: map<string, string>, target: string)
    requires ListFile(files, buildFiles, "sources").Success? && ListFile(files, buildFiles, "include").Success?
    requires ListFile(files, buildFiles, "ccFlags").Success? && ListFile(files, buildFiles, "ldFlags").Success?
    ensures var r := Built(s, files, buildFiles, target).0.cppPath;
      var includes := ListFile(files, buildFiles, "include").value;
      |s.cppPath| <= |r| && r[..|s.cppPath|] == s.cppPath
      && (forall x :: x in r <==> x in s.cppPath || x in includes || (target != FIRMWARE && x in TEST_INCLUDES))
      && (Distinct(s.cppPath) ==> Distinct(r))
  {
    var includes := ListFile(files, buildFiles, "include").value;
    var first := AppendUniqueList(s.cppPath, includes);
    AppendUniqueContents(s.cppPath, includes);
    if target != FIRMWARE {
      AppendUniqueContents(first, TEST_INCLUDES);
      var r := AppendUniqueList(first, TEST_INCLUDES);
      assert r[..|s.cppPath|] == r[..|first|][..|s.cppPath|];
    }
  }

  /** The flags after a call that read all four lists: each variable
      keeps its entries and gains the listed flags it lacked. */
  lemma BuiltFlags(s: EnvState, files: ListCreator.FileSystem, buildFiles: map<string, string>, target: string)
    requires ListFile(files, buildFiles, "sources").Success? && ListFile(files, buildFiles, "include").Success?
    requires ListFile(files, buildFiles, "ccFlags").Success? && ListFile(files, buildFiles, "ldFlags").Success?
    ensures var r := Built(s, files, buildFiles, target).0;
      var cc := ListFile(files, buildFiles, "ccFlags").value;
      var ld := ListFile(files, buildFiles, "ldFlags").value;
      |s.ccFlags| <= |r.ccFlags| && r.ccFlags[..|s.ccFlags|] == s.ccFlags
      && |s.linkFlags| <= |r.linkFlags| && r.linkFlags[..|s.linkFlags|] == s.linkFlags
      && (forall x :: x in r.ccFlags <==> x in s.ccFlags || x in cc)
      && (forall x :: x in r.linkFlags <==> x in s.linkFlags || x in ld)
      && (Distinct(s.ccFlags) ==> Distinct(r.ccFlags))
      && (Distinct(s.linkFlags) ==> Distinct(r.linkFlags))
  {
    AppendUniqueContents(s.ccFlags, ListFile(files, buildFiles, "ccFlags").value);
    AppendUniqueContents(s.linkFlags, ListFile(files, buildFiles, "ldFlags").value);
  }

  /** When all four lists are read and every source has a name, the call
      builds one object `./Build/Objects/<target>/<name>` per source, in
      order, links them into `./Build/Release/ASch` for the firmware and
      into `./Build/Tests/<target>_UTest` otherwise, makes `<target>` and
      `<target>_executable` aliases of the program, keeps it from being
      cleaned and returns it. */
  lemma BuiltProgram(s: EnvState, files: ListCreator.FileSystem, buildFiles: map<string, string>, target: string)
    requires ListFile(files, buildFiles, "sources").Success? && ListFile(files, buildFiles, "include").Success?
    requires ListFile(files, buildFiles, "ccFlags").Success? && ListFile(files, buildFiles, "ldFlags").Success?
    requires var sources := ListFile(files, buildFiles, "sources").value;
      forall i :: 0 <= i < |sources| ==> ObjectName(sources[i]).Some?
    ensures var sources := ListFile(files, buildFiles, "sources").value;
      var (r, outcome) := Built(s, files, buildFiles, target);
      var program := if target == "ASch" then "./Build/Release/ASch" else "./Build/Tests/" + target + "_UTest";
      var built := r.objects[|s.objects|..];
      outcome == Linked(program)
      && |s.objects| <= |r.objects| && r.objects[..|s.objects|] == s.objects
      && |built| == |sources|
      && (forall i :: 0 <= i < |sources| ==>
            built[i] == ("./Build/Objects/" + target + "/" + ObjectName(sources[i]).value, sources[i]))
      && r.programs == s.programs + [(program, Nodes(built))]
      && r.aliases == s.aliases + [(target, program), (target + "_executable", program)]
      && r.noClean == s.noClean + [program]
  {
    var sources := ListFile(files, buildFiles, "sources").value;
    ObjectsOfAllNamed(target, sources, true);
    var objects := ObjectsOf(target, sources, true).0;
    var r := Built(s, files, buildFiles, target).0;
    assert r.objects == s.objects + objects;
    assert r.objects[|s.objects|..] == objects;
  }

  /** A source without a name raises `IndexError` and links nothing. */
  lemma UnnamedSourceRaises(s: EnvState, files: ListCreator.FileSystem, buildFiles: map<string, string>, target: string)
    requires ListFile(files, buildFiles, "sources").Success? && ListFile(files, buildFiles, "include").Success?
    requires ListFile(files, buildFiles, "ccFlags").Success? && ListFile(files, buildFiles, "ldFlags").Success?
    requires var sources := ListFile(files, buildFiles, "sources").value;
      exists i :: 0 <= i < |sources| && ObjectName(sources[i]).None?
    ensures Built(s, files, buildFiles, target).1 == Raised(IndexError)
    ensures Built(s, files, buildFiles, target).0.programs == s.programs
    ensures Built(s, files, buildFiles, target).0.aliases == s.aliases
  {
    ObjectsOfAllNamed(target, ListFile(files, buildFiles, "sources").value, true);
  }

  /** A second identical call adds no include directory or flag. */
  lemma BuiltTwiceSameVariables(s: EnvState, files: ListCreator.FileSystem, buildFiles: map<string, string>, target: string)
    requires ListFile(files, buildFiles, "sources").Success? && ListFile(files, buildFiles, "include").Success?
    requires ListFile(files, buildFiles, "ccFlags").Success? && ListFile(files, buildFiles, "ldFlags").Success?
    ensures var once := Built(s, files, buildFiles, target).0;
      var twice := Built(once, files, buildFiles, target).0;
      twice.cppPath == once.cppPath && twice.ccFlags == once.ccFlags && twice.linkFlags == once.linkFlags
  {
    var includes := ListFile(files, buildFiles, "include").value;
    var once := Built(s, files, buildFiles, target).0;
    AppendUniqueContents(s.cppPath, includes);
    AppendUniqueIdempotent(s.ccFlags, ListFile(files, buildFiles, "ccFlags").value);
    AppendUniqueIdempotent(s.linkFlags, ListFile(files, buildFiles, "ldFlags").value);
    if target == FIRMWARE {
      AppendUniqueIdempotent(s.cppPath, includes);
    } else {
      var first := AppendUniqueList(s.cppPath, includes);
      AppendUniqueContents(first, TEST_INCLUDES);
      assert forall x :: x in includes ==> x in once.cppPath;
      AppendUniquePresent(once.cppPath, includes);
      AppendUniqueIdempotent(first, TEST_INCLUDES);
      AppendUniquePresent(once.cppPath, TEST_INCLUDES);
    }
  }
}
