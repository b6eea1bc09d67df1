/** The unit-test target reader of the older build scripts.

    `GenerateTargetDictionary` always reads the same registry file; each of
    its lines names a target followed by exactly two more tokens, and the
    dictionary maps the target to those two. A line with fewer than three
    tokens raises `IndexError`; tokens after the third are ignored. The
    list reader of these scripts, `GenerateList`, is
    `ListCreator.CreateListFromFile`. */
module BuildScripts {
  import opened Wrappers
  import opened PyStr
  import ListCreator

  /** The one file `GenerateTargetDictionary` reads. */
  const TARGETS_FILE: string := "./Build/SCons_UTest/UTestTargets.scons"

  /** The dictionary built from `lines`, or the error a short line raises. */
  function TargetTableOf(lines: seq<string>): Result<map<string, seq<string>>, PyError>
    decreases |lines|
  {
    if lines == [] then Success(map[])
    else
      match TargetTableOf(lines[..|lines| - 1])
      case Failure(e) => Failure(e)
      case Success(targets) =>
        var elements := Tokens(lines[|lines| - 1]);
        if |elements| < 3 then Failure(IndexError)
        else Success(targets[elements[0] := [elements[1], elements[2]]])
  }

  /** Reads the unit-test target registry. */
  method GenerateTargetDictionary(files: ListCreator.FileSystem)
    returns (r: Result<map<string, seq<string>>, PyError>)
    ensures TARGETS_FILE !in files ==> r == Failure(FileNotFound(TARGETS_FILE))
    ensures TARGETS_FILE in files ==> r == TargetTableOf(FileLines(Normalise(files[TARGETS_FILE])))
  {
    if TARGETS_FILE !in files {
      return Failure(FileNotFound(TARGETS_FILE));
    }
    var lines := FileLines(Normalise(files[TARGETS_FILE]));
    var targets: map<string, seq<string>> := map[];
    var i := 0;
    while i < |lines|
      invariant i <= |lines|
      invariant TargetTableOf(lines[..i]) == Success(targets)
    {
      assert lines[..i + 1][..i] == lines[..i];
      var elements := Tokens(lines[i]);
      if |elements| < 3 {
        TargetTableFailureSticks(lines, i + 1);
        return Failure(IndexError);
      }
      targets := targets[elements[0] := [elements[1], elements[2]]];
      i := i + 1;
    }
    assert lines[..i] == lines;
    return Success(targets);
  }

  /** Once a prefix of the lines fails, the whole file fails the same way. */
  lemma {:induction false} TargetTableFailureSticks(lines: seq<string>, i: nat)
    requires i <= |lines| && TargetTableOf(lines[..i]).Failure?
    ensures TargetTableOf(lines) == TargetTableOf(lines[..i])
    decreases |lines| - i
  {
    if i < |lines| {
      assert lines[..i + 1][..i] == lines[..i];
      TargetTableFailureSticks(lines, i + 1);
    } else {
      assert lines[..i] == lines;
    }
  }

  /** Reading fails, with `IndexError`, exactly when some line has fewer
      than three tokens; otherwise every target maps to two tokens. */
  lemma {:induction false} TargetTableShape(lines: seq<string>)
    ensures TargetTableOf(lines).Failure? <==> exists j :: 0 <= j < |lines| && |Tokens(lines[j])| < 3
    ensures TargetTableOf(lines).Failure? ==> TargetTableOf(lines).error == IndexError
    ensures TargetTableOf(lines).Success? ==>
      forall t :: t in TargetTableOf(lines).value ==> |TargetTableOf(lines).value[t]| == 2
    decreases |lines|
  {
    if lines != [] {
      var init := lines[..|lines| - 1];
      TargetTableShape(init);
      if exists j :: 0 <= j < |init| && |Tokens(init[j])| < 3 {
        var j :| 0 <= j < |init| && |Tokens(init[j])| < 3;
        assert lines[j] == init[j];
      }
      if exists j :: 0 <= j < |lines| && |Tokens(lines[j])| < 3 {
        var j :| 0 <= j < |lines| && |Tokens(lines[j])| < 3;
        if j < |init| {
          assert init[j] == lines[j];
        }
      }
    }
  }

  /** When every line has exactly three tokens, this reader and the
      general registry reader build the same dictionary. */
  lemma {:induction false} TargetTableIsRegistry(lines: seq<string>)
    requires forall j :: 0 <= j < |lines| ==> |Tokens(lines[j])| == 3
    ensures TargetTableOf(lines) == ListCreator.RegistryOf(lines)
    decreases |lines|
  {
    if lines != [] {
      var init := lines[..|lines| - 1];
      assert forall j :: 0 <= j < |init| ==> init[j] == lines[j];
      TargetTableIsRegistry(init);
      var elements := Tokens(lines[|lines| - 1]);
      assert elements[1..] == [elements[1], elements[2]];
    }
  }
}
