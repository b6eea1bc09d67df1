/** The module scaffolding script.

    Given command-line arguments such as `--module=Utils_Queue
    --path=Utils`, the script builds a dictionary of tags (`<__MODULE__>`,
    `<__PATH__>`, the date, a header guard, a class name, ...), asks for
    confirmation, writes the module's source, header and unit-test files
    from templates with every tag replaced, and registers the module in
    the SCons file lists.

    The file system is a map from path to contents, shared by all
    operations through a `Disk` object; the prompt's reply, the arguments
    and the date are inputs. `sys.exit(n)` is the outcome `Exit(n)`; an
    exception is the outcome `Raised(e)`, which the script's top level
    catches and prints. */
module TemplateGenerator {
  import opened Wrappers
  import opened PyStr
  import opened PyDict
  import ListCreator
  import BuildScripts

  type FileSystem = ListCreator.FileSystem

  // ---------------------------------------------------------------------
  // constants

  const DATE_TAG := "<__DATE__>"
  const YEAR_TAG := "<__YEAR__>"
  const AUTHOR_TAG := "<__AUTHOR__>"
  const EMAIL_TAG := "<__EMAIL__>"
  const MODULE_TAG := "<__MODULE__>"
  const NAMESPACE_TAG := "<__NAMESPACE__>"
  const PATH_TAG := "<__PATH__>"
  const HEADERGUARD_TAG := "<__HEADERGUARD__>"
  const CLASS_TAG := "<__CLASS__>"

  const MODULE_OPTION := "--module="
  const PATH_OPTION := "--path="
  const HAL_OPTION := "--hal="
  const HELP_OPTION := "-h"

  /** The command-line options that set a tag, in dictionary order. */
  const PARAMETERS: seq<(string, string)> :=
    [("--author=", AUTHOR_TAG), ("--email=", EMAIL_TAG), (MODULE_OPTION, MODULE_TAG),
     ("--namespace=", NAMESPACE_TAG), (PATH_OPTION, PATH_TAG)]

  const CPP_TEMPLATE := "./Templates/cpptemplate.tmp"
  const UTEST_TEMPLATE := "./Templates/utesttemplate.tmp"
  const HPP_TEMPLATE := "./Templates/hpptemplate.tmp"
  const UTEST_TARGETS := "./Build/SCons_UTest/UTestTargets.scons"
  const RELEASE_SOURCES := "./Build/SCons_Release/Sources.scons"
  const RELEASE_INCLUDE := "./Build/SCons_Release/Include.scons"

  /** How a step of the script ends. */
  datatype Outcome = Returned | Exit(status: nat) | Raised(error: PyError)

  /** The file system after a step, and how the step ended. */
  datatype Run = Run(files: FileSystem, outcome: Outcome)

  /** The file system. */
  class Disk {
    var files: FileSystem

    constructor (files: FileSystem)
      ensures this.files == files
    {
      this.files := files;
    }
  }

  // ---------------------------------------------------------------------
  // tags

  /** Well-formed tag dictionaries: every key is a tag, starting with `<`. */
  ghost predicate TagDict(d: Dict) {
    Valid(d) && forall i :: 0 <= i < |d.keys| ==> d.keys[i] != [] && d.keys[i][0] == '<'
  }

  /** The class-level dictionary: the date as `%d %b %Y` and the year. */
  function Initial(date: string, year: string): (d: Dict)
    ensures TagDict(d) && d.keys == [DATE_TAG, YEAR_TAG]
  {
    Pair(DATE_TAG, date, YEAR_TAG, year)
  }

  /** The header guard: the module name in upper case, then `_HPP_`. */
  function HeaderGuard(name: string): (r: string)
    ensures |r| == |name| + 5 && r[|name|..] == "_HPP_"
    ensures forall i :: 0 <= i < |name| ==> r[i] == UpperChar(name[i])
  {
    Upper(name) + "_HPP_"
  }

  predicate IsLetter(c: char) {
    'a' <= c <= 'z' || 'A' <= c <= 'Z'
  }

  /** The last piece of `re.split('[^a-zA-Z]', module)`: the longest run of
      ASCII letters that ends the name. */
  function ClassName(name: string): (r: string)
    ensures |r| <= |name| && r == name[|name| - |r|..]
    ensures forall i :: 0 <= i < |r| ==> IsLetter(r[i])
    ensures |r| < |name| ==> !IsLetter(name[|name| - |r| - 1])
    decreases |name|
  {
    if name == [] || !IsLetter(name[|name| - 1]) then ""
    else ClassName(name[..|name| - 1]) + [name[|name| - 1]]
  }

  /** The class name is the word after the last character that is not a
      letter. */
  lemma {:induction false} ClassNameOf(prefix: string, separator: char, word: string)
    requires !IsLetter(separator) && forall i :: 0 <= i < |word| ==> IsLetter(word[i])
    ensures ClassName(prefix + [separator] + word) == word
    decreases |word|
  {
    var name := prefix + [separator] + word;
    if word == [] {
      assert name[|name| - 1] == separator;
    } else {
      var init := word[..|word| - 1];
      ClassNameOf(prefix, separator, init);
      assert name[..|name| - 1] == prefix + [separator] + init;
      assert name[|name| - 1] == word[|word| - 1];
      assert init + [word[|word| - 1]] == word;
    }
  }

  /** The derived tags of two module names. */
  lemma DerivedTagsExample()
    ensures ClassName("Utils_Queue") == "Queue"
    ensures ClassName("Hal_Gpio2") == ""
  {
    ClassNameOf("Utils", '_', "Queue");
    assert "Utils" + ['_'] + "Queue" == "Utils_Queue";
  }

  /** The header guard of `Utils_Queue`. */
  lemma HeaderGuardExample()
    ensures HeaderGuard("Utils_Queue") == "UTILS_QUEUE_HPP_"
  {
  }

  /** The tag one argument sets, through the options in `params`. */
  function WithParameters(d: Dict, argument: string, params: seq<(string, string)>): Dict
    decreases |params|
  {
    if params == [] then d
    else
      var before := WithParameters(d, argument, params[..|params| - 1]);
      var (option, tag) := params[|params| - 1];
      if StartsWith(argument, option) then Put(before, tag, argument[|option|..]) else before
  }

  /** The dictionary and HAL mode after the argument loop. */
  function WithArguments(d: Dict, mode: string, args: seq<string>): (Dict, string)
    decreases |args|
  {
    if args == [] then (d, mode)
    else
      var (before, modeBefore) := WithArguments(d, mode, args[..|args| - 1]);
      var argument := args[|args| - 1];
      (WithParameters(before, argument, PARAMETERS),
       if StartsWith(argument, HAL_OPTION) then argument[|HAL_OPTION|..] else modeBefore)
  }

  /** The text after `prefix` of the last argument that starts with it. */
  function LastMatch(args: seq<string>, prefix: string): Option<string>
    decreases |args|
  {
    if args == [] then None
    else if StartsWith(args[|args| - 1], prefix) then Some(args[|args| - 1][|prefix|..])
    else LastMatch(args[..|args| - 1], prefix)
  }

  /** A later argument with the same option wins. */
  lemma {:induction false} LaterArgumentWins(args: seq<string>, prefix: string, value: string, rest: seq<string>)
    requires forall i :: 0 <= i < |rest| ==> !StartsWith(rest[i], prefix)
    ensures LastMatch(args + [prefix + value] + rest, prefix) == Some(value)
    decreases |rest|
  {
    var all := args + [prefix + value] + rest;
    if rest == [] {
      assert all[|all| - 1] == prefix + value;
      assert (prefix + value)[..|prefix|] == prefix;
      assert (prefix + value)[|prefix|..] == value;
    } else {
      var init := rest[..|rest| - 1];
      LaterArgumentWins(args, prefix, value, init);
      assert all[..|all| - 1] == args + [prefix + value] + init;
      assert all[|all| - 1] == rest[|rest| - 1];
    }
  }

  predicate IsParameterTag(k: string) {
    k == AUTHOR_TAG || k == EMAIL_TAG || k == MODULE_TAG || k == NAMESPACE_TAG || k == PATH_TAG
  }

  /** One argument sets the tag of the option it starts with, and no other
      key. */
  lemma ParametersLookup(d: Dict, argument: string)
    ensures forall i :: 0 <= i < |PARAMETERS| ==>
      Lookup(WithParameters(d, argument, PARAMETERS), PARAMETERS[i].1) ==
        if StartsWith(argument, PARAMETERS[i].0) then Some(argument[|PARAMETERS[i].0|..])
        else Lookup(d, PARAMETERS[i].1)
    ensures forall k :: !IsParameterTag(k) ==> Lookup(WithParameters(d, argument, PARAMETERS), k) == Lookup(d, k)
  {
    forall i | 0 <= i < |PARAMETERS|
      ensures Lookup(WithParameters(d, argument, PARAMETERS), PARAMETERS[i].1) ==
        if StartsWith(argument, PARAMETERS[i].0) then Some(argument[|PARAMETERS[i].0|..])
        else Lookup(d, PARAMETERS[i].1)
    {
      ParamLookup(d, argument, PARAMETERS, i);
    }
    forall k | !IsParameterTag(k)
      ensures Lookup(WithParameters(d, argument, PARAMETERS), k) == Lookup(d, k)
    {
      OtherKeyLookup(d, argument, PARAMETERS, k);
    }
  }

  /** With distinct tags, an option's tag is set exactly when the argument
      starts with that option. */
  lemma {:induction false} ParamLookup(d: Dict, argument: string, params: seq<(string, string)>, i: nat)
    requires i < |params|
    requires forall j, k :: 0 <= j < k < |params| ==> params[j].1 != params[k].1
    ensures Lookup(WithParameters(d, argument, params), params[i].1) ==
      if StartsWith(argument, params[i].0) then Some(argument[|params[i].0|..]) else Lookup(d, params[i].1)
    decreases |params|
  {
    var n := |params| - 1;
    if i < n {
      ParamLookup(d, argument, params[..n], i);
    } else if n > 0 {
      OtherKeyLookup(d, argument, params[..n], params[i].1);
    }
  }

  /** A key no option sets is left alone. */
  lemma {:induction false} OtherKeyLookup(d: Dict, argument: string, params: seq<(string, string)>, k: string)
    requires forall j :: 0 <= j < |params| ==> params[j].1 != k
    ensures Lookup(WithParameters(d, argument, params), k) == Lookup(d, k)
    decreases |params|
  {
    if params != [] {
      OtherKeyLookup(d, argument, params[..|params| - 1], k);
    }
  }

  /** Parsing keeps the dictionary a tag dictionary. */
  lemma {:induction false} ParametersKeepTags(d: Dict, argument: string, params: seq<(string, string)>)
    requires TagDict(d)
    requires forall i :: 0 <= i < |params| ==> params[i].1 != [] && params[i].1[0] == '<'
    ensures TagDict(WithParameters(d, argument, params))
    decreases |params|
  {
    if params != [] {
      var before := WithParameters(d, argument, params[..|params| - 1]);
      ParametersKeepTags(d, argument, params[..|params| - 1]);
      var (option, tag) := params[|params| - 1];
      if StartsWith(argument, option) {
        PutOrder(before, tag, argument[|option|..]);
      }
    }
  }

  /** After the argument loop each option's tag holds the text of the last
      argument with that option, or its earlier value when there is none;
      the HAL mode is that of the last `--hal=` argument; other keys are
      untouched. */
  lemma {:induction false} ArgumentsLookup(d: Dict, mode: string, args: seq<string>)
    ensures forall i :: 0 <= i < |PARAMETERS| ==>
      Lookup(WithArguments(d, mode, args).0, PARAMETERS[i].1) ==
        if LastMatch(args, PARAMETERS[i].0).Some? then LastMatch(args, PARAMETERS[i].0)
        else Lookup(d, PARAMETERS[i].1)
    ensures WithArguments(d, mode, args).1 ==
      if LastMatch(args, HAL_OPTION).Some? then LastMatch(args, HAL_OPTION).value else mode
    ensures forall k :: !IsParameterTag(k) ==> Lookup(WithArguments(d, mode, args).0, k) == Lookup(d, k)
    ensures TagDict(d) ==> TagDict(WithArguments(d, mode, args).0)
    decreases |args|
  {
    if args != [] {
      var init := args[..|args| - 1];
      ArgumentsLookup(d, mode, init);
      var before := WithArguments(d, mode, init).0;
      ParametersLookup(before, args[|args| - 1]);
      if TagDict(d) {
        ParametersKeepTags(before, args[|args| - 1], PARAMETERS);
      }
    }
  }

  /** One more argument is parsed on top of the ones before it. */
  lemma WithArgumentsStep(d: Dict, mode: string, args: seq<string>, i: nat)
    requires i < |args|
    ensures WithArguments(d, mode, args[..i + 1]) ==
      var (before, modeBefore) := WithArguments(d, mode, args[..i]);
      (WithParameters(before, args[i], PARAMETERS),
       if StartsWith(args[i], HAL_OPTION) then args[i][|HAL_OPTION|..] else modeBefore)
  {
    assert args[..i + 1][..i] == args[..i];
  }

  /** The tags added after the argument loop: the path defaults to the
      empty text, and the header guard and class name come from the
      module name. */
  function Derived(d: Dict): Dict
    requires MODULE_TAG in d.values
  {
    var name := d.values[MODULE_TAG];
    Put(Put(WithPath(d), HEADERGUARD_TAG, HeaderGuard(name)), CLASS_TAG, ClassName(name))
  }

  /** The dictionary with the path defaulting to the empty text. */
  function WithPath(d: Dict): Dict {
    if PATH_TAG in d.values then d else Put(d, PATH_TAG, "")
  }

  /** The derived tags: the path is kept if present and otherwise empty;
      no other key changes. */
  lemma DerivedLookup(d: Dict)
    requires MODULE_TAG in d.values
    ensures Lookup(Derived(d), PATH_TAG) == if PATH_TAG in d.values then Lookup(d, PATH_TAG) else Some("")
    ensures Lookup(Derived(d), HEADERGUARD_TAG) == Some(HeaderGuard(d.values[MODULE_TAG]))
    ensures Lookup(Derived(d), CLASS_TAG) == Some(ClassName(d.values[MODULE_TAG]))
    ensures forall k :: k != PATH_TAG && k != HEADERGUARD_TAG && k != CLASS_TAG ==> Lookup(Derived(d), k) == Lookup(d, k)
  {
    assert PATH_TAG != HEADERGUARD_TAG && PATH_TAG != CLASS_TAG && HEADERGUARD_TAG != CLASS_TAG;
  }

  /** The derived dictionary names a module and a path. */
  lemma DerivedReady(d: Dict)
    requires TagDict(d) && MODULE_TAG in d.values
    ensures ReadyDict(Derived(d))
  {
    DerivedKeys(d);
    DerivedLookup(d);
  }

  /** Assigning a tag keeps a tag dictionary and its existing keys. */
  lemma PutTag(d: Dict, k: string, v: string)
    requires TagDict(d) && k != [] && k[0] == '<'
    ensures TagDict(Put(d, k, v))
    ensures |d.keys| <= |Put(d, k, v).keys| && Put(d, k, v).keys[..|d.keys|] == d.keys
  {
    PutOrder(d, k, v);
  }

  /** The derived tags are added after the existing keys. */
  lemma DerivedKeys(d: Dict)
    requires TagDict(d) && MODULE_TAG in d.values
    ensures TagDict(Derived(d))
    ensures |d.keys| <= |Derived(d).keys| && Derived(d).keys[..|d.keys|] == d.keys
  {
    var name := d.values[MODULE_TAG];
    if PATH_TAG !in d.values {
      PutTag(d, PATH_TAG, "");
    }
    PutTwoTags(WithPath(d), HeaderGuard(name), ClassName(name));
    PrefixOfPrefix(d.keys, WithPath(d).keys, Derived(d).keys);
  }

  /** Assigning the header guard and the class name keeps a tag
      dictionary and its existing keys. */
  lemma PutTwoTags(d: Dict, guard: string, className: string)
    requires TagDict(d)
    ensures var r := Put(Put(d, HEADERGUARD_TAG, guard), CLASS_TAG, className);
      TagDict(r) && |d.keys| <= |r.keys| && r.keys[..|d.keys|] == d.keys
  {
    var guarded := Put(d, HEADERGUARD_TAG, guard);
    PutTag(d, HEADERGUARD_TAG, guard);
    PutTag(guarded, CLASS_TAG, className);
    PrefixOfPrefix(d.keys, guarded.keys, Put(guarded, CLASS_TAG, className).keys);
  }

  lemma PrefixOfPrefix(a: seq<string>, b: seq<string>, c: seq<string>)
    requires |a| <= |b| <= |c| && b[..|a|] == a && c[..|b|] == b
    ensures c[..|a|] == a
  {
    assert c[..|a|] == c[..|b|][..|a|];
  }

  /** The dictionary a fresh script holds after its argument loop. */
  function Parsed(date: string, year: string, args: seq<string>): Dict {
    WithArguments(Initial(date, year), "", args).0
  }

  /** The dictionary a fresh script builds from its arguments `args`
      (without the script name) when one of them names the module: the
      module and path come from the last `--module=` and `--path=`
      arguments, the path defaulting to the empty text, the date and year
      are kept in the first two places, and the derived tags follow from
      the module name. */
  lemma InitialisedTags(date: string, year: string, args: seq<string>)
    requires LastMatch(args, MODULE_OPTION).Some?
    ensures MODULE_TAG in Parsed(date, year, args).values
    ensures var d := Derived(Parsed(date, year, args));
      var name := LastMatch(args, MODULE_OPTION).value;
      TagDict(d)
      && |d.keys| >= 2 && d.keys[..2] == [DATE_TAG, YEAR_TAG]
      && Lookup(d, DATE_TAG) == Some(date) && Lookup(d, YEAR_TAG) == Some(year)
      && Lookup(d, MODULE_TAG) == Some(name)
      && Lookup(d, PATH_TAG) == Some(if LastMatch(args, PATH_OPTION).Some? then LastMatch(args, PATH_OPTION).value else "")
      && Lookup(d, HEADERGUARD_TAG) == Some(HeaderGuard(name))
      && Lookup(d, CLASS_TAG) == Some(ClassName(name))
  {
    var parsed := Parsed(date, year, args);
    ParsedTags(date, year, args);
    assert MODULE_TAG in parsed.values;
    DerivedLookup(parsed);
    DerivedKeys(parsed);
    PrefixOfPrefix([DATE_TAG, YEAR_TAG], parsed.keys, Derived(parsed).keys);
  }

  /** The dictionary after the argument loop of a fresh script. */
  lemma ParsedTags(date: string, year: string, args: seq<string>)
    ensures var parsed := Parsed(date, year, args);
      TagDict(parsed)
      && |parsed.keys| >= 2 && parsed.keys[..2] == [DATE_TAG, YEAR_TAG]
      && Lookup(parsed, MODULE_TAG) == LastMatch(args, MODULE_OPTION)
      && Lookup(parsed, PATH_TAG) == LastMatch(args, PATH_OPTION)
      && Lookup(parsed, DATE_TAG) == Some(date) && Lookup(parsed, YEAR_TAG) == Some(year)
  {
    var start := Initial(date, year);
    ArgumentsLookup(start, "", args);
    KeysGrow(start, "", args);
    assert PARAMETERS[2] == (MODULE_OPTION, MODULE_TAG) && PARAMETERS[4] == (PATH_OPTION, PATH_TAG);
    assert Lookup(start, MODULE_TAG) == None && Lookup(start, PATH_TAG) == None;
    assert !IsParameterTag(DATE_TAG) && !IsParameterTag(YEAR_TAG);
  }

  /** The argument loop never moves or removes a key. */
  lemma {:induction false} KeysGrow(d: Dict, mode: string, args: seq<string>)
    requires TagDict(d)
    ensures |d.keys| <= |WithArguments(d, mode, args).0.keys|
    ensures WithArguments(d, mode, args).0.keys[..|d.keys|] == d.keys
    decreases |args|
  {
    if args != [] {
      KeysGrow(d, mode, args[..|args| - 1]);
      ArgumentsLookup(d, mode, args[..|args| - 1]);
      ParametersKeysGrow(WithArguments(d, mode, args[..|args| - 1]).0, args[|args| - 1], PARAMETERS);
    }
  }

  lemma {:induction false} ParametersKeysGrow(d: Dict, argument: string, params: seq<(string, string)>)
    requires TagDict(d)
    requires forall i :: 0 <= i < |params| ==> params[i].1 != [] && params[i].1[0] == '<'
    ensures |d.keys| <= |WithParameters(d, argument, params).keys|
    ensures WithParameters(d, argument, params).keys[..|d.keys|] == d.keys
    decreases |params|
  {
    if params != [] {
      var before := WithParameters(d, argument, params[..|params| - 1]);
      ParametersKeysGrow(d, argument, params[..|params| - 1]);
      ParametersKeepTags(d, argument, params[..|params| - 1]);
      var (option, tag) := params[|params| - 1];
      if StartsWith(argument, option) {
        PutOrder(before, tag, argument[|option|..]);
      }
      if StartsWith(argument, option) && tag !in before.keys {
        assert (before.keys + [tag])[..|d.keys|] == before.keys[..|d.keys|];
      }
    }
  }

  // ---------------------------------------------------------------------
  // substitution

  /** The line after replacing each key in `keys`, in order, by its value,
      each replacement working on the text the previous ones produced. */
  function Substituted(line: string, keys: seq<string>, values: map<string, string>): string
    requires forall i :: 0 <= i < |keys| ==> keys[i] != [] && keys[i] in values
    decreases |keys|
  {
    if keys == [] then line
    else
      var k := keys[|keys| - 1];
      Replace(Substituted(line, keys[..|keys| - 1], values), k, values[k])
  }

  /** A line in which no tag occurs is left as it is. */
  lemma {:induction false} SubstitutedUnchanged(line: string, keys: seq<string>, values: map<string, string>)
    requires forall i :: 0 <= i < |keys| ==> keys[i] != [] && keys[i] in values
    requires forall i :: 0 <= i < |keys| ==> !Contains(line, keys[i])
    ensures Substituted(line, keys, values) == line
    decreases |keys|
  {
    if keys != [] {
      SubstitutedUnchanged(line, keys[..|keys| - 1], values);
      ReplaceAbsent(line, keys[|keys| - 1], values[keys[|keys| - 1]]);
    }
  }

  /** Replacement follows the dictionary order: a value that holds a tag
      inserted after its own is rewritten again, one that holds an earlier
      tag is not. */
  lemma SubstitutionOrder()
    ensures Substituted("<a>", ["<a>", "<b>"], map["<a>" := "<b>", "<b>" := "x"]) == "x"
    ensures Substituted("<a>", ["<b>", "<a>"], map["<a>" := "<b>", "<b>" := "x"]) == "<b>"
  {
    var values := map["<a>" := "<b>", "<b>" := "x"];
    assert ["<a>", "<b>"][..1] == ["<a>"] && ["<a>"][..0] == [];
    assert ["<b>", "<a>"][..1] == ["<b>"] && ["<b>"][..0] == [];
    assert Replace("<a>", "<a>", "<b>") == "<b>" + Replace("", "<a>", "<b>");
    assert Replace("<b>", "<b>", "x") == "x" + Replace("", "<b>", "x");
    assert Replace("<a>", "<b>", "x") == "<a>" by {
      NoFirstCharNoContains("<a>"[1..], "<b>");
      ReplaceAbsent("<a>", "<b>", "x");
    }
  }

  /** The lines of a template, each with its tags replaced. */
  function RenderedLines(d: Dict, lines: seq<string>): (r: seq<string>)
    requires TagDict(d)
    ensures |r| == |lines|
  {
    seq(|lines|, i requires 0 <= i < |lines| => Substituted(lines[i], d.keys, d.values))
  }

  /** Rendering one more line appends its rendering. */
  lemma RenderedLinesStep(d: Dict, lines: seq<string>, i: nat)
    requires TagDict(d) && i < |lines|
    ensures Concat(RenderedLines(d, lines[..i + 1])) ==
      Concat(RenderedLines(d, lines[..i])) + Substituted(lines[i], d.keys, d.values)
  {
    assert RenderedLines(d, lines[..i + 1])[..i] == RenderedLines(d, lines[..i]);
  }

  /** The file generated from a template holding `text`. */
  function Rendered(d: Dict, text: string): string
    requires TagDict(d)
  {
    Concat(RenderedLines(d, FileLines(Normalise(text))))
  }

  /** A template without tags and without `\r` is copied verbatim. */
  lemma RenderedVerbatim(d: Dict, text: string)
    requires TagDict(d) && '<' !in text && '\r' !in text
    ensures Rendered(d, text) == text
  {
    NormaliseIdentity(text);
    var lines := FileLines(text);
    var parts := Split(text, "\n");
    SplitCharsFrom(text, "\n");
    forall j | 0 <= j < |lines|
      ensures Substituted(lines[j], d.keys, d.values) == lines[j]
    {
      var n := |parts| - 1;
      var part := if j < n then parts[j] else parts[n];
      assert '<' !in part;
      assert '<' !in lines[j];
      forall i | 0 <= i < |d.keys|
        ensures !Contains(lines[j], d.keys[i])
      {
        NoFirstCharNoContains(lines[j], d.keys[i]);
      }
      SubstitutedUnchanged(lines[j], d.keys, d.values);
    }
    assert RenderedLines(d, lines) == lines;
    FileLinesConcat(text);
  }

  /** The file system after generating `target` from `template`: the target
      is opened for writing, which empties it, before the template is
      opened; a missing template then raises, leaving the target empty. */
  function FromTemplate(files: FileSystem, d: Dict, target: string, template: string): Run
    requires TagDict(d)
  {
    var truncated := files[target := ""];
    if template !in truncated then Run(truncated, Raised(FileNotFound(template)))
    else Run(truncated[target := Rendered(d, truncated[template])], Returned)
  }

  // ---------------------------------------------------------------------
  // the files a module consists of

  function SourceFile(name: string, path: string): string {
    "./" + path + "/sources/" + name + ".cpp"
  }

  function HeaderFile(name: string, path: string): string {
    "./" + path + "/include/" + name + ".hpp"
  }

  function TestFile(name: string, path: string): string {
    "./" + path + "/tests/UTest_" + name + ".cpp"
  }

  /** The files written for a HAL mode, in order, each with its template. */
  function Targets(name: string, path: string, mode: string): seq<(string, string)> {
    (if mode != "header" then
       (if mode != "header_with_tests" then [(SourceFile(name, path), CPP_TEMPLATE)] else [])
       + [(TestFile(name, path), UTEST_TEMPLATE)]
     else [])
    + (if mode != "source" then [(HeaderFile(name, path), HPP_TEMPLATE)] else [])
  }

  /** The paths of a list of targets. */
  function Paths(targets: seq<(string, string)>): (r: seq<string>)
    ensures |r| == |targets|
  {
    seq(|targets|, i requires 0 <= i < |targets| => targets[i].0)
  }

  /** Mode `header` writes the header only, `header_with_tests` the test
      and the header, `source` the source and the test, and any other mode
      all three. */
  lemma TargetsByMode(name: string, path: string, mode: string)
    ensures mode == "header" ==> Paths(Targets(name, path, mode)) == [HeaderFile(name, path)]
    ensures mode == "header_with_tests" ==>
      Paths(Targets(name, path, mode)) == [TestFile(name, path), HeaderFile(name, path)]
    ensures mode == "source" ==>
      Paths(Targets(name, path, mode)) == [SourceFile(name, path), TestFile(name, path)]
    ensures mode !in {"header", "header_with_tests", "source"} ==>
      Paths(Targets(name, path, mode)) == [SourceFile(name, path), TestFile(name, path), HeaderFile(name, path)]
  {
  }

  /** The file system after generating each target in turn; the first
      error stops the generation. */
  function GenerateTargets(files: FileSystem, d: Dict, targets: seq<(string, string)>): Run
    requires TagDict(d)
    decreases |targets|
  {
    if targets == [] then Run(files, Returned)
    else
      var first := FromTemplate(files, d, targets[0].0, targets[0].1);
      if first.outcome != Returned then first else GenerateTargets(first.files, d, targets[1..])
  }

  /** Generation touches only its targets: any other path is as it was. */
  lemma {:induction false} GenerateTargetsFrame(files: FileSystem, d: Dict, targets: seq<(string, string)>, path: string)
    requires TagDict(d)
    requires forall j :: 0 <= j < |targets| ==> targets[j].0 != path
    ensures path in GenerateTargets(files, d, targets).files <==> path in files
    ensures path in files ==> GenerateTargets(files, d, targets).files[path] == files[path]
    decreases |targets|
  {
    if targets != [] {
      var first := FromTemplate(files, d, targets[0].0, targets[0].1);
      if first.outcome == Returned {
        assert forall j :: 0 <= j < |targets| - 1 ==> targets[1..][j] == targets[j + 1];
        GenerateTargetsFrame(first.files, d, targets[1..], path);
      }
    }
  }

  /** Generation succeeds exactly when every template exists. This needs
      no target to be a template. */
  lemma {:induction false} GenerateTargetsSucceeds(files: FileSystem, d: Dict, targets: seq<(string, string)>)
    requires TagDict(d)
    requires forall i, j :: 0 <= i < |targets| && 0 <= j < |targets| ==> targets[i].0 != targets[j].1
    ensures GenerateTargets(files, d, targets).outcome == Returned <==>
      forall j :: 0 <= j < |targets| ==> targets[j].1 in files
    decreases |targets|
  {
    if targets != [] {
      var first := FromTemplate(files, d, targets[0].0, targets[0].1);
      var rest := targets[1..];
      assert forall j :: 0 <= j < |rest| ==> rest[j] == targets[j + 1];
      if first.outcome == Returned {
        GenerateTargetsSucceeds(first.files, d, rest);
        assert forall j :: 0 <= j < |rest| ==> (rest[j].1 in first.files <==> rest[j].1 in files);
      }
    }
  }

  /** A successful generation leaves each target holding its rendered
      template. This needs the targets to be distinct and none of them to
      be a template. */
  lemma {:induction false} GenerateTargetsWrites(files: FileSystem, d: Dict, targets: seq<(string, string)>)
    requires TagDict(d)
    requires forall i, j :: 0 <= i < j < |targets| ==> targets[i].0 != targets[j].0
    requires forall i, j :: 0 <= i < |targets| && 0 <= j < |targets| ==> targets[i].0 != targets[j].1
    requires GenerateTargets(files, d, targets).outcome == Returned
    ensures forall j :: 0 <= j < |targets| ==>
      targets[j].1 in files && targets[j].0 in GenerateTargets(files, d, targets).files
      && GenerateTargets(files, d, targets).files[targets[j].0] == Rendered(d, files[targets[j].1])
    decreases |targets|
  {
    GenerateTargetsSucceeds(files, d, targets);
    if targets != [] {
      var first := FromTemplate(files, d, targets[0].0, targets[0].1);
      var rest := targets[1..];
      var result := GenerateTargets(files, d, targets);
      assert forall j :: 0 <= j < |rest| ==> rest[j] == targets[j + 1];
      GenerateTargetsWrites(first.files, d, rest);
      GenerateTargetsFrame(first.files, d, rest, targets[0].0);
      forall j | 0 <= j < |rest|
        ensures first.files[rest[j].1] == files[rest[j].1]
      {
        assert rest[j].1 != targets[0].0;
      }
    }
  }

  // ---------------------------------------------------------------------
  // SCons lists

  function UTestIncludeFile(name: string): string {
    "./Build/SCons_UTest/UTest_" + name + "_Include.scons"
  }

  function UTestSourcesFile(name: string): string {
    "./Build/SCons_UTest/UTest_" + name + "_Sources.scons"
  }

  /** The per-target include list of the unit-test build. */
  function UTestIncludeList(path: string, mode: string): string {
    "./Config/include\n" + "./" + path + "/sources\n" + (if mode != "source" then "./" + path + "/include" else "")
  }

  /** The per-target source list of the unit-test build. */
  function UTestSourcesList(name: string, path: string, mode: string): string {
    (if mode != "header_with_tests" then SourceFile(name, path) + "\n" else "") + TestFile(name, path)
  }

  /** The line that registers a unit-test target. */
  function TargetLine(name: string, path: string): string {
    name + " " + ".\\" + path
  }

  function IncludeDir(path: string): string {
    "./" + path + "/include"
  }

  /** A shared list after adding `text` unless it is already a substring. */
  function AppendIfAbsent(content: string, text: string): (r: string)
    ensures Contains(r, text)
    ensures |content| <= |r| && r[..|content|] == content
  {
    if Contains(content, text) then content
    else
      var r := content + "\n" + text;
      assert OccursAt(r, text, |content| + 1);
      r
  }

  /** Adding a text twice is adding it once. */
  lemma AppendIfAbsentIdempotent(content: string, text: string)
    ensures AppendIfAbsent(AppendIfAbsent(content, text), text) == AppendIfAbsent(content, text)
  {
  }

  /** The file system after `AppendIfAbsent` on the file `path`; the file
      is read first, so a missing one raises. */
  function Appended(files: FileSystem, path: string, text: string): Run {
    if path !in files then Run(files, Raised(FileNotFound(path)))
    else Run(files[path := AppendIfAbsent(files[path], text)], Returned)
  }

  /** The file system after `GenerateSconsFiles`. */
  function SconsUpdated(files: FileSystem, name: string, path: string, mode: string): Run {
    var unitTests :=
      if mode == "header" then Run(files, Returned)
      else
        var written := files[UTestIncludeFile(name) := UTestIncludeList(path, mode)]
                            [UTestSourcesFile(name) := UTestSourcesList(name, path, mode)];
        var registered := Appended(written, UTEST_TARGETS, TargetLine(name, path));
        if registered.outcome != Returned || mode == "header_with_tests" then registered
        else Appended(registered.files, RELEASE_SOURCES, SourceFile(name, path));
    if unitTests.outcome != Returned then unitTests
    else Appended(unitTests.files, RELEASE_INCLUDE, IncludeDir(path))
  }

  /** The SCons list files are five different files. */
  lemma SconsFilesDistinct(name: string)
    ensures UTestIncludeFile(name) != UTestSourcesFile(name)
    ensures UTestIncludeFile(name) !in {UTEST_TARGETS, RELEASE_SOURCES, RELEASE_INCLUDE}
    ensures UTestSourcesFile(name) !in {UTEST_TARGETS, RELEASE_SOURCES, RELEASE_INCLUDE}
    ensures UTEST_TARGETS != RELEASE_SOURCES && UTEST_TARGETS != RELEASE_INCLUDE && RELEASE_SOURCES != RELEASE_INCLUDE
  {
    var n := |"./Build/SCons_UTest/UTest_"| + |name|;
    assert UTestIncludeFile(name)[n + 1] == 'I' && UTestSourcesFile(name)[n + 1] == 'S';
    assert UTestIncludeFile(name)[25] == '_' && UTestSourcesFile(name)[25] == '_' && UTEST_TARGETS[25] == 'T';
    assert UTestIncludeFile(name)[14] == 'U' && UTestSourcesFile(name)[14] == 'U';
    assert RELEASE_SOURCES[14] == 'R' && RELEASE_INCLUDE[14] == 'R';
  }

  /** Running the SCons update a second time changes nothing: the
      per-target lists are rewritten with the same text and every shared
      list already holds its entry. */
  lemma SconsUpdatedIdempotent(files: FileSystem, name: string, path: string, mode: string)
    requires SconsUpdated(files, name, path, mode).outcome == Returned
    ensures SconsUpdated(SconsUpdated(files, name, path, mode).files, name, path, mode)
      == Run(SconsUpdated(files, name, path, mode).files, Returned)
  {
    SconsFilesDistinct(name);
    var after := SconsUpdated(files, name, path, mode).files;
    if mode != "header" {
      assert after[UTestIncludeFile(name)] == UTestIncludeList(path, mode);
      assert after[UTestSourcesFile(name)] == UTestSourcesList(name, path, mode);
      assert Contains(after[UTEST_TARGETS], TargetLine(name, path));
      assert mode != "header_with_tests" ==> Contains(after[RELEASE_SOURCES], SourceFile(name, path));
      var written := after[UTestIncludeFile(name) := UTestIncludeList(path, mode)]
                          [UTestSourcesFile(name) := UTestSourcesList(name, path, mode)];
      assert written == after;
    }
  }

  /** The per-target include list, as the build reads it back: the
      configuration headers, the module's sources directory and, except in
      `source` mode, its include directory. */
  lemma UTestIncludeListEntries(path: string, mode: string)
    requires '\n' !in path && '\r' !in path
    ensures ListCreator.ListOf(UTestIncludeList(path, mode)) ==
      ["./Config/include", "./" + path + "/sources"] + (if mode != "source" then ["./" + path + "/include"] else [])
  {
    var last := if mode != "source" then "./" + path + "/include" else "";
    var entries := ["./Config/include", "./" + path + "/sources", last];
    assert Join(entries[2..], "\n") == last;
    assert Join(entries[1..], "\n") == "./" + path + "/sources" + "\n" + last;
    assert UTestIncludeList(path, mode) == Join(entries, "\n");
    assert mode != "source" ==> |last| >= 10;
    ListCreator.ListOfJoin(entries);
  }

  /** The per-target source list, as the build reads it back: the module's
      source, except in `header_with_tests` mode, then its unit test. */
  lemma UTestSourcesListEntries(name: string, path: string, mode: string)
    requires '\n' !in path && '\r' !in path && '\n' !in name && '\r' !in name
    ensures ListCreator.ListOf(UTestSourcesList(name, path, mode)) ==
      (if mode != "header_with_tests" then [SourceFile(name, path)] else []) + [TestFile(name, path)]
  {
    var entries := (if mode != "header_with_tests" then [SourceFile(name, path)] else []) + [TestFile(name, path)];
    assert TestFile(name, path)[0] == '.';
    if mode != "header_with_tests" {
      assert Join(entries[1..], "\n") == TestFile(name, path);
    }
    assert UTestSourcesList(name, path, mode) == Join(entries, "\n");
    ListCreator.ListOfJoin(entries);
  }

  /** Everything `GenerateSconsFiles` touches is one of the five list
      files; every other path is as it was. */
  lemma SconsUpdatedFrame(files: FileSystem, name: string, path: string, mode: string, other: string)
    requires other !in {UTestIncludeFile(name), UTestSourcesFile(name), UTEST_TARGETS, RELEASE_SOURCES, RELEASE_INCLUDE}
    ensures other in SconsUpdated(files, name, path, mode).files <==> other in files
    ensures other in files ==> SconsUpdated(files, name, path, mode).files[other] == files[other]
  {
  }

  /** When the update completes, the shared lists hold the module's
      entries: the include directory always, the target line and the
      release source unless the mode leaves them out. */
  lemma SconsUpdatedRegisters(files: FileSystem, name: string, path: string, mode: string)
    requires SconsUpdated(files, name, path, mode).outcome == Returned
    ensures var after := SconsUpdated(files, name, path, mode).files;
      RELEASE_INCLUDE in after && Contains(after[RELEASE_INCLUDE], IncludeDir(path))
      && (mode != "header" ==> UTEST_TARGETS in after && Contains(after[UTEST_TARGETS], TargetLine(name, path)))
      && (mode != "header" && mode != "header_with_tests" ==>
            RELEASE_SOURCES in after && Contains(after[RELEASE_SOURCES], SourceFile(name, path)))
  {
    SconsFilesDistinct(name);
  }

  // ---------------------------------------------------------------------
  // the confirmation gate

  /** The existence check as the script writes it: the header is checked
      unless the mode is `sources`, a mode no option names. */
  predicate OverwriteGateAsWritten(files: FileSystem, name: string, path: string, mode: string) {
    (mode != "header" && mode != "header_with_tests" && SourceFile(name, path) in files)
    || (mode != "sources" && HeaderFile(name, path) in files)
  }

  /** The existence check with the `source` mode, as the comment above it
      and the generation below it intend. */
  predicate OverwriteGate(files: FileSystem, name: string, path: string, mode: string) {
    (mode != "header" && mode != "header_with_tests" && SourceFile(name, path) in files)
    || (mode != "source" && HeaderFile(name, path) in files)
  }

  predicate NeitherTemplateNorList(t: string, name: string) {
    t !in {CPP_TEMPLATE, UTEST_TEMPLATE, HPP_TEMPLATE}
    && t !in {UTestIncludeFile(name), UTestSourcesFile(name), UTEST_TARGETS, RELEASE_SOURCES, RELEASE_INCLUDE}
  }

  /** The five paths a run writes to or reads templates from differ: the
      source, the header and the test, and the three templates. */
  lemma TargetFilesDistinct(name: string, path: string)
    ensures SourceFile(name, path) != HeaderFile(name, path)
    ensures TestFile(name, path) != SourceFile(name, path) && TestFile(name, path) != HeaderFile(name, path)
    ensures NeitherTemplateNorList(SourceFile(name, path), name)
    ensures NeitherTemplateNorList(HeaderFile(name, path), name)
    ensures NeitherTemplateNorList(TestFile(name, path), name)
  {
    var src, hdr, test := SourceFile(name, path), HeaderFile(name, path), TestFile(name, path);
    assert src[|src| - 3] == 'c' && hdr[|hdr| - 3] == 'h';
    assert |test| == |src| + 4 && |hdr| == |src|;
    SourceLikeIsNoTemplate(src, name);
    SourceLikeIsNoTemplate(hdr, name);
    SourceLikeIsNoTemplate(test, name);
  }

  /** A path ending in `.cpp` or `.hpp` is neither a template (`.tmp`) nor
      a list (`.scons`). */
  lemma SourceLikeIsNoTemplate(t: string, name: string)
    requires |t| >= 4 && t[|t| - 4..] in {".cpp", ".hpp"}
    ensures NeitherTemplateNorList(t, name)
  {
    assert t[|t| - 1] == t[|t| - 4..][3] == 'p';
    assert t[|t| - 3] == t[|t| - 4..][1] != 't';
    assert CPP_TEMPLATE[|CPP_TEMPLATE| - 3] == 't' && UTEST_TEMPLATE[|UTEST_TEMPLATE| - 3] == 't';
    assert HPP_TEMPLATE[|HPP_TEMPLATE| - 3] == 't';
    var inc, srcs := UTestIncludeFile(name), UTestSourcesFile(name);
    assert inc[|inc| - 1] == 's' && srcs[|srcs| - 1] == 's';
    assert UTEST_TARGETS[|UTEST_TARGETS| - 1] == 's' && RELEASE_SOURCES[|RELEASE_SOURCES| - 1] == 's';
    assert RELEASE_INCLUDE[|RELEASE_INCLUDE| - 1] == 's';
  }

  /** The corrected check asks for YES exactly when a source or header that
      the mode will write already exists. */
  lemma OverwriteGateIffTargetExists(files: FileSystem, name: string, path: string, mode: string)
    ensures OverwriteGate(files, name, path, mode) <==>
      exists j :: 0 <= j < |Targets(name, path, mode)|
        && Targets(name, path, mode)[j].1 != UTEST_TEMPLATE && Targets(name, path, mode)[j].0 in files
  {
    var t := Targets(name, path, mode);
    TargetFilesDistinct(name, path);
    if mode != "header" && mode != "header_with_tests" && SourceFile(name, path) in files {
      assert t[0] == (SourceFile(name, path), CPP_TEMPLATE);
    } else if mode != "source" && HeaderFile(name, path) in files {
      assert t[|t| - 1] == (HeaderFile(name, path), HPP_TEMPLATE);
    }
  }

  /** In `source` mode the header is not written, yet an existing header
      makes the check as written ask for YES. */
  lemma AsWrittenGateChecksUnwrittenHeader(files: FileSystem, name: string, path: string)
    requires HeaderFile(name, path) in files && SourceFile(name, path) !in files
    ensures OverwriteGateAsWritten(files, name, path, "source")
    ensures !OverwriteGate(files, name, path, "source")
    ensures HeaderFile(name, path) !in Paths(Targets(name, path, "source"))
  {
    TargetFilesDistinct(name, path);
    assert Paths(Targets(name, path, "source")) == [SourceFile(name, path), TestFile(name, path)];
  }

  /** In the mode `sources`, which writes all three files, the check as
      written skips the header: an existing header is overwritten after a
      plain y. */
  lemma AsWrittenGateSkipsHeader(files: FileSystem, name: string, path: string)
    requires HeaderFile(name, path) in files && SourceFile(name, path) !in files
    ensures !OverwriteGateAsWritten(files, name, path, "sources")
    ensures OverwriteGate(files, name, path, "sources")
    ensures HeaderFile(name, path) in Paths(Targets(name, path, "sources"))
  {
    assert Paths(Targets(name, path, "sources"))[2] == HeaderFile(name, path);
  }

  /** The reply to the prompt: with existing files it must begin with YES in
      any case; otherwise its first character must be y or Y, and an empty
      reply raises `IndexError`. */
  function Consent(reply: string, overwrite: bool): Result<bool, PyError> {
    if overwrite then Success(Upper(reply)[..if |reply| < 3 then |reply| else 3] == "YES")
    else if reply == "" then Failure(IndexError)
    else Success(Upper(reply)[0] == 'Y')
  }

  /** The prompts accept exactly the replies described above. */
  lemma ConsentRule(reply: string)
    ensures Consent(reply, true) == Success(|reply| >= 3 && reply[0] in "yY" && reply[1] in "eE" && reply[2] in "sS")
    ensures Consent(reply, false).Failure? <==> reply == ""
    ensures reply != "" ==> Consent(reply, false) == Success(reply[0] in "yY")
  {
    if |reply| >= 3 {
      var u := Upper(reply)[..3];
      assert u == [UpperChar(reply[0]), UpperChar(reply[1]), UpperChar(reply[2])];
      assert u == "YES" <==> u[0] == 'Y' && u[1] == 'E' && u[2] == 'S';
    }
  }

  // ---------------------------------------------------------------------
  // the whole run

  /** The tags a run needs. */
  ghost predicate ReadyDict(d: Dict) {
    TagDict(d) && MODULE_TAG in d.values && PATH_TAG in d.values
  }

  /** The file system after `GenerateAll`, with the corrected check. */
  function AllGenerated(files: FileSystem, d: Dict, mode: string, reply: string): Run
    requires ReadyDict(d)
  {
    var name := d.values[MODULE_TAG];
    var path := d.values[PATH_TAG];
    var consent := Consent(reply, OverwriteGate(files, name, path, mode));
    if consent.Failure? then Run(files, Raised(consent.error))
    else if !consent.value then Run(files, Exit(1))
    else
      var generated := GenerateTargets(files, d, Targets(name, path, mode));
      if generated.outcome != Returned then generated
      else SconsUpdated(generated.files, name, path, mode)
  }

  /** The targets of a mode are distinct, and none is a template or a list
      file. */
  lemma TargetsWellFormed(name: string, path: string, mode: string)
    ensures var t := Targets(name, path, mode);
      (forall i, j :: 0 <= i < j < |t| ==> t[i].0 != t[j].0)
      && (forall i, j :: 0 <= i < |t| && 0 <= j < |t| ==> t[i].0 != t[j].1)
      && (forall j :: 0 <= j < |t| ==> NeitherTemplateNorList(t[j].0, name))
  {
    TargetFilesDistinct(name, path);
    var t := Targets(name, path, mode);
    forall j | 0 <= j < |t|
      ensures t[j].0 in {SourceFile(name, path), HeaderFile(name, path), TestFile(name, path)}
      ensures t[j].1 in {CPP_TEMPLATE, UTEST_TEMPLATE, HPP_TEMPLATE}
    {
    }
  }

  /** A refused or failed prompt writes nothing. */
  lemma AllGeneratedRefused(files: FileSystem, d: Dict, mode: string, reply: string)
    requires ReadyDict(d)
    requires Consent(reply, OverwriteGate(files, d.values[MODULE_TAG], d.values[PATH_TAG], mode)) != Success(true)
    ensures AllGenerated(files, d, mode, reply).files == files
    ensures AllGenerated(files, d, mode, reply).outcome in {Exit(1), Raised(IndexError)}
  {
  }

  /** A completed run leaves each target holding its rendered template and
      registers the module's include directory. */
  lemma AllGeneratedWrites(files: FileSystem, d: Dict, mode: string, reply: string)
    requires ReadyDict(d)
    requires AllGenerated(files, d, mode, reply).outcome == Returned
    ensures var r := AllGenerated(files, d, mode, reply);
      var targets := Targets(d.values[MODULE_TAG], d.values[PATH_TAG], mode);
      (forall j :: 0 <= j < |targets| ==>
         targets[j].1 in files && targets[j].0 in r.files
         && r.files[targets[j].0] == Rendered(d, files[targets[j].1]))
      && RELEASE_INCLUDE in r.files && Contains(r.files[RELEASE_INCLUDE], IncludeDir(d.values[PATH_TAG]))
  {
    var name := d.values[MODULE_TAG];
    var path := d.values[PATH_TAG];
    var targets := Targets(name, path, mode);
    var generated := GenerateTargets(files, d, targets);
    AllGeneratedIsScons(files, d, mode, reply);
    TargetsWellFormed(name, path, mode);
    GenerateTargetsWrites(files, d, targets);
    SconsKeepsTargets(generated.files, name, path, mode, targets);
    SconsUpdatedRegisters(generated.files, name, path, mode);
  }

  /** A completed run generated every target and then updated the SCons
      lists. */
  lemma AllGeneratedIsScons(files: FileSystem, d: Dict, mode: string, reply: string)
    requires ReadyDict(d)
    requires AllGenerated(files, d, mode, reply).outcome == Returned
    ensures var name, path := d.values[MODULE_TAG], d.values[PATH_TAG];
      var generated := GenerateTargets(files, d, Targets(name, path, mode));
      generated.outcome == Returned
      && AllGenerated(files, d, mode, reply) == SconsUpdated(generated.files, name, path, mode)
  {
  }

  /** Updating the SCons lists leaves every generated target as it was. */
  lemma SconsKeepsTargets(fs: FileSystem, name: string, path: string, mode: string, targets: seq<(string, string)>)
    requires forall j :: 0 <= j < |targets| ==> NeitherTemplateNorList(targets[j].0, name)
    ensures forall j :: 0 <= j < |targets| ==>
      (targets[j].0 in SconsUpdated(fs, name, path, mode).files <==> targets[j].0 in fs)
      && (targets[j].0 in fs ==> SconsUpdated(fs, name, path, mode).files[targets[j].0] == fs[targets[j].0])
  {
    forall j | 0 <= j < |targets|
      ensures targets[j].0 in SconsUpdated(fs, name, path, mode).files <==> targets[j].0 in fs
      ensures targets[j].0 in fs ==> SconsUpdated(fs, name, path, mode).files[targets[j].0] == fs[targets[j].0]
    {
      SconsUpdatedFrame(fs, name, path, mode, targets[j].0);
    }
  }

  // ---------------------------------------------------------------------
  // interplay with the target readers

  /** The line registering a target has two tokens: the module name and the
      path after `.\`. */
  lemma TargetLineTokens(name: string, path: string)
    requires IsWord(name) && forall i :: 0 <= i < |path| ==> !IsSpace(path[i])
    ensures Tokens(TargetLine(name, path)) == [name, ".\\" + path]
  {
    var words := [name, ".\\" + path];
    assert IsWord(words[1]) by {
      var w := words[1];
      forall i | 0 <= i < |w|
        ensures !IsSpace(w[i])
      {
        if i >= 2 {
          assert w[i] == path[i - 2];
        }
      }
    }
    TokensOfJoin(words);
    assert Join(words, " ") == TargetLine(name, path);
  }

  /** The last line of a text that ends in a line break and a line without
      line breaks is that line. */
  lemma LastLine(content: string, line: string)
    requires (content == [] || content[|content| - 1] != '\r') && line != [] && '\r' !in line && '\n' !in line
    ensures var lines := FileLines(Normalise(content + "\n" + line));
      |lines| >= 1 && lines[|lines| - 1] == line
  {
    var n := Normalise(content);
    NormaliseTail(content, line);
    SplitAppendChar(n, line, '\n');
    SplitNoSep(line, '\n');
    var parts := Split(n + "\n" + line, "\n");
    assert parts[|parts| - 1] == line;
  }

  /** Appending a line break and a line without `\r` to a text not ending
      in `\r` appends them to its normal form. */
  lemma NormaliseTail(content: string, line: string)
    requires (content == [] || content[|content| - 1] != '\r') && '\r' !in line
    ensures Normalise(content + "\n" + line) == Normalise(content) + "\n" + line
  {
    NormaliseAppend(content, "\n" + line);
    NormaliseIdentity(line);
    assert Normalise("\n" + line) == "\n" + Normalise(line);
    assert content + "\n" + line == content + ("\n" + line);
  }

  /** A text without whitespace has no line break. */
  lemma NoBreakWithoutSpace(w: string)
    requires forall i :: 0 <= i < |w| ==> !IsSpace(w[i])
    ensures '\r' !in w && '\n' !in w
  {
    assert IsSpace('\r') && IsSpace('\n');
  }

  /** A target line holds no line break. */
  lemma TargetLineHasNoBreak(name: string, path: string)
    requires IsWord(name) && forall i :: 0 <= i < |path| ==> !IsSpace(path[i])
    ensures '\r' !in TargetLine(name, path) && '\n' !in TargetLine(name, path)
  {
    NoBreakWithoutSpace(name);
    NoBreakWithoutSpace(path);
    assert TargetLine(name, path) == name + " .\\" + path;
  }

  /** The target line the script appends is read by the current registry
      reader as the module with a one-entry list, the path after `.\`. */
  lemma AppendedTargetRegistered(content: string, name: string, path: string)
    requires content == [] || content[|content| - 1] != '\r'
    requires IsWord(name) && forall i :: 0 <= i < |path| ==> !IsSpace(path[i])
    requires ListCreator.RegistryOf(FileLines(Normalise(content + "\n" + TargetLine(name, path)))).Success?
    ensures var table := ListCreator.RegistryOf(FileLines(Normalise(content + "\n" + TargetLine(name, path)))).value;
      name in table && table[name] == [".\\" + path]
  {
    var line := TargetLine(name, path);
    TargetLineTokens(name, path);
    TargetLineHasNoBreak(name, path);
    LastLine(content, line);
    var lines := FileLines(Normalise(content + "\n" + line));
    ListCreator.RegistryLastKeyWins(lines);
    assert ListCreator.LastWithKey(lines, |lines| - 1);
  }

  /** The older target reader needs three tokens per line, so a registry
      file ending in a line the script appended cannot be read by it. */
  lemma AppendedTargetBreaksOlderReader(content: string, name: string, path: string)
    requires content == [] || content[|content| - 1] != '\r'
    requires IsWord(name) && forall i :: 0 <= i < |path| ==> !IsSpace(path[i])
    ensures BuildScripts.TargetTableOf(FileLines(Normalise(content + "\n" + TargetLine(name, path)))) == Failure(IndexError)
  {
    var line := TargetLine(name, path);
    TargetLineTokens(name, path);
    TargetLineHasNoBreak(name, path);
    LastLine(content, line);
    var lines := FileLines(Normalise(content + "\n" + line));
    BuildScripts.TargetTableShape(lines);
    assert |Tokens(lines[|lines| - 1])| < 3;
  }

  // ---------------------------------------------------------------------
  // the script

  /** Adds `text` to the list file `path` unless it is already there. */
  method AppendIfAbsentTo(disk: Disk, path: string, text: string) returns (outcome: Outcome)
    modifies disk
    ensures Run(disk.files, outcome) == Appended(old(disk.files), path, text)
  {
    if path !in disk.files {
      return Raised(FileNotFound(path));
    }
    var content := disk.files[path];
    if !Contains(content, text) {
      disk.files := disk.files[path := content + "\n" + text];
    }
    return Returned;
  }

  /** The generator: the tag dictionary and the HAL mode. */
  class Template {
    var keywords: Dict
    var halMode: string

    ghost predicate Valid()
      reads this
    {
      TagDict(keywords)
    }

    /** The class attributes, with the date of the run. */
    constructor (date: string, year: string)
      ensures Valid() && keywords == Initial(date, year) && halMode == ""
    {
      keywords := Initial(date, year);
      halMode := "";
    }

    /** `__init__`: builds the tags from the arguments `argv`, whose first
        entry is the script's name. */
    method Init(argv: seq<string>) returns (outcome: Outcome)
      requires Valid()
      modifies this
      ensures Valid()
      ensures outcome == Returned ==> ReadyDict(keywords)
      ensures |argv| < 2 ==>
        outcome == Raised(IndexError) && keywords == old(keywords) && halMode == old(halMode)
      ensures |argv| >= 2 && argv[1] == HELP_OPTION ==>
        outcome == Exit(0) && keywords == old(keywords) && halMode == old(halMode)
      ensures |argv| >= 2 && argv[1] != HELP_OPTION ==>
        var parsed := WithArguments(old(keywords), old(halMode), argv[1..]);
        halMode == parsed.1
        && (MODULE_TAG !in parsed.0.values ==> outcome == Exit(1) && keywords == parsed.0)
        && (MODULE_TAG in parsed.0.values ==> outcome == Returned && keywords == Derived(parsed.0))
    {
      if |argv| < 2 {
        return Raised(IndexError);
      }
      if argv[1] == HELP_OPTION {
        return Exit(0);
      }
      var args := argv[1..];
      var i := 0;
      while i < |args|
        invariant 0 <= i <= |args|
        invariant (keywords, halMode) == WithArguments(old(keywords), old(halMode), args[..i])
        invariant TagDict(keywords)
      {
        WithArgumentsStep(old(keywords), old(halMode), args, i);
        ApplyArgument(args[i]);
        i := i + 1;
      }
      assert args[..i] == args;
      if MODULE_TAG !in keywords.values {
        return Exit(1);
      }
      DerivedReady(keywords);
      DeriveTags();
      return Returned;
    }

    /** Adds the tags derived from the module name: an empty path unless
        one was given, the header guard and the class name. */
    method DeriveTags()
      requires TagDict(keywords) && MODULE_TAG in keywords.values
      modifies this
      ensures keywords == Derived(old(keywords)) && halMode == old(halMode)
    {
      ghost var parsed := keywords;
      var name := keywords.values[MODULE_TAG];
      if PATH_TAG !in keywords.values {
        keywords := Put(keywords, PATH_TAG, "");
      }
      assert keywords == WithPath(parsed);
      keywords := Put(keywords, HEADERGUARD_TAG, HeaderGuard(name));
      keywords := Put(keywords, CLASS_TAG, ClassName(name));
      assert keywords == Derived(parsed);
    }

    /** Records one command-line argument: each parameter option it starts
        with sets that option's tag to the rest of the argument, and the HAL
        option sets the HAL mode. */
    method ApplyArgument(argument: string)
      requires TagDict(keywords)
      modifies this
      ensures TagDict(keywords)
      ensures keywords == WithParameters(old(keywords), argument, PARAMETERS)
      ensures halMode == if StartsWith(argument, HAL_OPTION) then argument[|HAL_OPTION|..] else old(halMode)
    {
      var j := 0;
      while j < |PARAMETERS|
        invariant 0 <= j <= |PARAMETERS|
        invariant keywords == WithParameters(old(keywords), argument, PARAMETERS[..j])
        invariant halMode == old(halMode)
        invariant TagDict(keywords)
      {
        var (option, tag) := PARAMETERS[j];
        assert PARAMETERS[..j + 1][..j] == PARAMETERS[..j];
        if StartsWith(argument, option) {
          PutTag(keywords, tag, argument[|option|..]);
          keywords := Put(keywords, tag, argument[|option|..]);
        }
        j := j + 1;
      }
      assert PARAMETERS[..j] == PARAMETERS;
      if StartsWith(argument, HAL_OPTION) {
        halMode := argument[|HAL_OPTION|..];
      }
    }

    /** Replaces every tag of the dictionary in `line`, key by key. */
    method ParseLine(line: string) returns (r: string)
      requires Valid()
      ensures r == Substituted(line, keywords.keys, keywords.values)
    {
      r := line;
      var i := 0;
      while i < |keywords.keys|
        invariant 0 <= i <= |keywords.keys|
        invariant r == Substituted(line, keywords.keys[..i], keywords.values)
      {
        var tag := keywords.keys[i];
        assert keywords.keys[..i + 1][..i] == keywords.keys[..i];
        r := Replace(r, tag, keywords.values[tag]);
        i := i + 1;
      }
      assert keywords.keys[..i] == keywords.keys;
    }

    /** Writes `target` from `template`, line by line. */
    method GenerateFromTemplate(disk: Disk, target: string, template: string) returns (outcome: Outcome)
      requires Valid()
      modifies disk
      ensures Run(disk.files, outcome) == FromTemplate(old(disk.files), keywords, target, template)
    {
      disk.files := disk.files[target := ""];
      if template !in disk.files {
        return Raised(FileNotFound(template));
      }
      var truncated := disk.files;
      var lines := FileLines(Normalise(disk.files[template]));
      var i := 0;
      while i < |lines|
        invariant 0 <= i <= |lines|
        invariant disk.files == truncated[target := Concat(RenderedLines(keywords, lines[..i]))]
      {
        var line := ParseLine(lines[i]);
        RenderedLinesStep(keywords, lines, i);
        disk.files := disk.files[target := disk.files[target] + line];
        i := i + 1;
      }
      assert lines[..i] == lines;
      return Returned;
    }

    /** Writes the per-target lists and adds the module to the shared ones. */
    method GenerateSconsFiles(disk: Disk) returns (outcome: Outcome)
      requires ReadyDict(keywords)
      modifies disk
      ensures Run(disk.files, outcome) ==
        SconsUpdated(old(disk.files), keywords.values[MODULE_TAG], keywords.values[PATH_TAG], halMode)
    {
      var name := keywords.values[MODULE_TAG];
      var path := keywords.values[PATH_TAG];
      if halMode != "header" {
        disk.files := disk.files[UTestIncludeFile(name) := UTestIncludeList(path, halMode)];
        disk.files := disk.files[UTestSourcesFile(name) := UTestSourcesList(name, path, halMode)];
        outcome := AppendIfAbsentTo(disk, UTEST_TARGETS, TargetLine(name, path));
        if outcome != Returned {
          return;
        }
        if halMode != "header_with_tests" {
          outcome := AppendIfAbsentTo(disk, RELEASE_SOURCES, SourceFile(name, path));
          if outcome != Returned {
            return;
          }
        }
      }
      outcome := AppendIfAbsentTo(disk, RELEASE_INCLUDE, IncludeDir(path));
    }

    /** Asks for confirmation, generates the module's files and updates the
        SCons lists. */
    method GenerateAll(disk: Disk, reply: string) returns (outcome: Outcome)
      requires ReadyDict(keywords)
      modifies disk
      ensures Run(disk.files, outcome) == AllGenerated(old(disk.files), keywords, halMode, reply)
    {
      var name := keywords.values[MODULE_TAG];
      var path := keywords.values[PATH_TAG];
      var consent := Consent(reply, OverwriteGate(disk.files, name, path, halMode));
      if consent.Failure? {
        return Raised(consent.error);
      }
      if !consent.value {
        return Exit(1);
      }
      ghost var start := disk.files;
      ghost var targets := Targets(name, path, halMode);
      ghost var tail := if halMode != "source" then [(HeaderFile(name, path), HPP_TEMPLATE)] else [];
      ghost var mid := if halMode != "header" then [(TestFile(name, path), UTEST_TEMPLATE)] + tail else tail;
      assert targets ==
        if halMode != "header" && halMode != "header_with_tests" then [(SourceFile(name, path), CPP_TEMPLATE)] + mid else mid;
      outcome := Returned;
      if halMode != "header" {
        if halMode != "header_with_tests" {
          outcome := GenerateFromTemplate(disk, SourceFile(name, path), CPP_TEMPLATE);
          if outcome != Returned {
            return;
          }
        }
        assert GenerateTargets(start, keywords, targets) == GenerateTargets(disk.files, keywords, mid);
        outcome := GenerateFromTemplate(disk, TestFile(name, path), UTEST_TEMPLATE);
        if outcome != Returned {
          return;
        }
      }
      assert GenerateTargets(start, keywords, targets) == GenerateTargets(disk.files, keywords, tail);
      if halMode != "source" {
        outcome := GenerateFromTemplate(disk, HeaderFile(name, path), HPP_TEMPLATE);
        if outcome != Returned {
          return;
        }
      }
      assert GenerateTargets(start, keywords, targets) == Run(disk.files, Returned);
      outcome := GenerateSconsFiles(disk);
    }
  }

  /** The whole script, given its arguments, the date, the reply to its
      prompt and the file system. */
  function Scripted(files: FileSystem, argv: seq<string>, date: string, year: string, reply: string): Run {
    if |argv| < 2 then Run(files, Raised(IndexError))
    else if argv[1] == HELP_OPTION then Run(files, Exit(0))
    else
      var parsed := WithArguments(Initial(date, year), "", argv[1..]);
      if MODULE_TAG !in parsed.0.values then Run(files, Exit(1))
      else
        ArgumentsLookup(Initial(date, year), "", argv[1..]);
        DerivedKeys(parsed.0);
        DerivedLookup(parsed.0);
        AllGenerated(files, Derived(parsed.0), parsed.1, reply)
  }

  /** Runs the script. */
  method Script(disk: Disk, argv: seq<string>, date: string, year: string, reply: string) returns (outcome: Outcome)
    modifies disk
    ensures Run(disk.files, outcome) == Scripted(old(disk.files), argv, date, year, reply)
  {
    var template := new Template(date, year);
    outcome := template.Init(argv);
    if outcome == Returned {
      outcome := template.GenerateAll(disk, reply);
    }
  }

  /** Without a `--module=` argument the script exits with status 1 before
      touching any file; with `-h` first it exits with status 0. */
  lemma ScriptNeedsModule(files: FileSystem, argv: seq<string>, date: string, year: string, reply: string)
    requires |argv| >= 2
    ensures argv[1] == HELP_OPTION ==> Scripted(files, argv, date, year, reply) == Run(files, Exit(0))
    ensures argv[1] != HELP_OPTION && LastMatch(argv[1..], MODULE_OPTION).None? ==>
      Scripted(files, argv, date, year, reply) == Run(files, Exit(1))
  {
    ParsedTags(date, year, argv[1..]);
  }

  /** Status 0 is the help request's alone. */
  lemma ScriptExitsZeroOnlyForHelp(files: FileSystem, argv: seq<string>, date: string, year: string, reply: string)
    ensures Scripted(files, argv, date, year, reply).outcome == Exit(0) <==> |argv| >= 2 && argv[1] == HELP_OPTION
  {
    if |argv| >= 2 && argv[1] != HELP_OPTION {
      var parsed := WithArguments(Initial(date, year), "", argv[1..]);
      if MODULE_TAG in parsed.0.values {
        ArgumentsLookup(Initial(date, year), "", argv[1..]);
        DerivedKeys(parsed.0);
        DerivedLookup(parsed.0);
        AllGeneratedRefusedOrRuns(files, Derived(parsed.0), parsed.1, reply);
      }
    }
  }

  /** A run ends by returning, exiting with status 1, or raising. */
  lemma AllGeneratedRefusedOrRuns(files: FileSystem, d: Dict, mode: string, reply: string)
    requires ReadyDict(d)
    ensures AllGenerated(files, d, mode, reply).outcome != Exit(0)
  {
    var name := d.values[MODULE_TAG];
    var path := d.values[PATH_TAG];
    GenerateTargetsOutcome(files, d, Targets(name, path, mode));
  }

  lemma {:induction false} GenerateTargetsOutcome(files: FileSystem, d: Dict, targets: seq<(string, string)>)
    requires TagDict(d)
    ensures GenerateTargets(files, d, targets).outcome == Returned || GenerateTargets(files, d, targets).outcome.Raised?
    decreases |targets|
  {
    if targets != [] {
      var first := FromTemplate(files, d, targets[0].0, targets[0].1);
      GenerateTargetsOutcome(first.files, d, targets[1..]);
    }
  }
}
