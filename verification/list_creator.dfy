/** The line-list and registry readers of the SCons build.

    A file system is a map from path to file contents; a path that is not
    a key does not exist, and opening it raises `FileNotFoundError`.
    `CreateListFromFile` reads a file line by line and keeps each line
    without its `\r` and `\n` characters; `CreateDictionaryFromFile` reads
    one record per line, keyed by the line's first whitespace-separated
    token, with the remaining tokens as the value. The same two readers
    occur, without their progress messages, in the older build scripts. */
module ListCreator {
  import opened Wrappers
  import opened PyStr

  type FileSystem = map<string, string>

  /** The entries `CreateListFromFile` returns for a file holding `text`. */
  function ListOf(text: string): seq<string> {
    var lines := FileLines(Normalise(text));
    seq(|lines|, i requires 0 <= i < |lines| => Strip(lines[i]))
  }

  /** Reads the file `fileName` as a list of lines. */
  method CreateListFromFile(files: FileSystem, fileName: string) returns (r: Result<seq<string>, PyError>)
    ensures fileName !in files ==> r == Failure(FileNotFound(fileName))
    ensures fileName in files ==> r == Success(ListOf(files[fileName]))
  {
    if fileName !in files {
      return Failure(FileNotFound(fileName));
    }
    var lines := FileLines(Normalise(files[fileName]));
    var includes: seq<string> := [];
    var i := 0;
    while i < |lines|
      invariant i <= |lines|
      invariant |includes| == i && forall k :: 0 <= k < i ==> includes[k] == Strip(lines[k])
    {
      includes := includes + [Strip(lines[i])];
      i := i + 1;
    }
    assert includes == ListOf(files[fileName]);
    return Success(includes);
  }

  /** The list is the text split at its line breaks (`\r\n`, `\r` or
      `\n`), without the empty piece after a final line break: order and
      duplicates are kept, and no entry holds a line break. */
  lemma ListIsSplit(text: string)
    ensures ListOf(text) == DropEmptyTail(Split(Normalise(text), "\n"))
    ensures forall k :: 0 <= k < |ListOf(text)| ==> '\n' !in ListOf(text)[k] && '\r' !in ListOf(text)[k]
  {
    NormaliseHasNoCR(text);
    StrippedLinesAreSplit(Normalise(text));
    var list := ListOf(text);
    forall k | 0 <= k < |list|
      ensures '\n' !in list[k] && '\r' !in list[k]
    {
      var e := list[k];
      assert forall i :: 0 <= i < |e| ==> e[i] != '\r' && e[i] != '\n';
    }
  }

  /** A file written as entries separated by line breaks reads back as
      exactly those entries, except that an empty last entry is not a
      line. */
  lemma ListOfJoin(entries: seq<string>)
    requires |entries| >= 1
    requires forall k :: 0 <= k < |entries| ==> '\n' !in entries[k] && '\r' !in entries[k]
    ensures ListOf(Join(entries, "\n")) == DropEmptyTail(entries)
  {
    var text := Join(entries, "\n");
    JoinWithout(entries, "\n", '\r');
    NormaliseIdentity(text);
    SplitOfJoin(entries, '\n');
    StrippedLinesAreSplit(text);
  }

  /** A character in no part and not in the separator is not in the join. */
  lemma {:induction false} JoinWithout(parts: seq<string>, sep: string, c: char)
    requires |parts| >= 1 && c !in sep
    requires forall k :: 0 <= k < |parts| ==> c !in parts[k]
    ensures c !in Join(parts, sep)
    decreases |parts|
  {
    if |parts| > 1 {
      assert c !in parts[0];
      JoinWithout(parts[1..], sep, c);
    }
  }

  /** Appending a line break and a line to a file whose text does not end
      in a line break adds exactly that line to the list. */
  lemma ListAppend(content: string, line: string)
    requires content != [] && content[|content| - 1] != '\r' && content[|content| - 1] != '\n'
    requires line != [] && '\r' !in line && '\n' !in line
    ensures ListOf(content + "\n" + line) == ListOf(content) + [line]
  {
    NormaliseAppendLine(content, line);
    SplitAppendLine(Normalise(content), line);
    ListIsSplit(content);
    ListIsSplit(content + "\n" + line);
  }

  /** Reading a text that does not end in a line break, followed by a line
      break and a line without `\r`, reads the text and then that line. */
  lemma NormaliseAppendLine(content: string, line: string)
    requires content != [] && content[|content| - 1] != '\r' && content[|content| - 1] != '\n'
    requires '\r' !in line
    ensures Normalise(content + "\n" + line) == Normalise(content) + "\n" + line
    ensures Normalise(content) != [] && Normalise(content)[|Normalise(content)| - 1] != '\n'
  {
    NormaliseAppend(content, "\n" + line);
    NormaliseIdentity(line);
    assert Normalise("\n" + line) == "\n" + Normalise(line);
    assert content + "\n" + line == content + ("\n" + line);
    NormaliseLast(content);
  }

  /** Splitting at line breaks, a text that does not end in one followed by
      a line break and a line has that line as its last piece. */
  lemma SplitAppendLine(n: string, line: string)
    requires n != [] && n[|n| - 1] != '\n'
    requires line != [] && '\n' !in line
    ensures DropEmptyTail(Split(n + "\n" + line, "\n")) == DropEmptyTail(Split(n, "\n")) + [line]
  {
    var p := Split(n, "\n");
    SplitAppendChar(n, line, '\n');
    SplitNoSep(line, '\n');
    SplitLastEmpty(n, '\n');
    assert Split(n + "\n" + line, "\n") == p + [line];
    assert p[|p| - 1] != "";
  }

  // ---------------------------------------------------------------------
  // registry files

  /** The dictionary built from `lines`, or the error a blank line raises. */
  function RegistryOf(lines: seq<string>): Result<map<string, seq<string>>, PyError>
    decreases |lines|
  {
    if lines == [] then Success(map[])
    else
      match RegistryOf(lines[..|lines| - 1])
      case Failure(e) => Failure(e)
      case Success(targets) =>
        var elements := Tokens(lines[|lines| - 1]);
        if elements == [] then Failure(IndexError)
        else Success(targets[elements[0] := elements[1..]])
  }

  /** Reads the file `fileName` as a dictionary of records. */
  method CreateDictionaryFromFile(files: FileSystem, fileName: string)
    returns (r: Result<map<string, seq<string>>, PyError>)
    ensures fileName !in files ==> r == Failure(FileNotFound(fileName))
    ensures fileName in files ==> r == RegistryOf(FileLines(Normalise(files[fileName])))
  {
    if fileName !in files {
      return Failure(FileNotFound(fileName));
    }
    var lines := FileLines(Normalise(files[fileName]));
    var targets: map<string, seq<string>> := map[];
    var i := 0;
    while i < |lines|
      invariant i <= |lines|
      invariant RegistryOf(lines[..i]) == Success(targets)
    {
      assert lines[..i + 1][..i] == lines[..i];
      var elements := Tokens(lines[i]);
      if elements == [] {
        RegistryFailureSticks(lines, i + 1);
        return Failure(IndexError);
      }
      targets := targets[elements[0] := elements[1..]];
      i := i + 1;
    }
    assert lines[..i] == lines;
    return Success(targets);
  }

  /** Once a prefix of the lines fails, the whole file fails the same way. */
  lemma {:induction false} RegistryFailureSticks(lines: seq<string>, i: nat)
    requires i <= |lines| && RegistryOf(lines[..i]).Failure?
    ensures RegistryOf(lines) == RegistryOf(lines[..i])
    decreases |lines| - i
  {
    if i < |lines| {
      assert lines[..i + 1][..i] == lines[..i];
      RegistryFailureSticks(lines, i + 1);
    } else {
      assert lines[..i] == lines;
    }
  }

  /** Reading fails, with `IndexError`, exactly when some line has no
      token. */
  lemma {:induction false} RegistryFailsIffBlankLine(lines: seq<string>)
    ensures RegistryOf(lines).Failure? <==> exists j :: 0 <= j < |lines| && Tokens(lines[j]) == []
    ensures RegistryOf(lines).Failure? ==> RegistryOf(lines).error == IndexError
    decreases |lines|
  {
    if lines != [] {
      var init := lines[..|lines| - 1];
      RegistryFailsIffBlankLine(init);
      if exists j :: 0 <= j < |init| && Tokens(init[j]) == [] {
        var j :| 0 <= j < |init| && Tokens(init[j]) == [];
        assert lines[j] == init[j];
      }
      if exists j :: 0 <= j < |lines| && Tokens(lines[j]) == [] {
        var j :| 0 <= j < |lines| && Tokens(lines[j]) == [];
        if j < |init| {
          assert init[j] == lines[j];
        }
      }
    }
  }

  /** The first token of a line that has one. */
  function Key(line: string): string
    requires Tokens(line) != []
  {
    Tokens(line)[0]
  }

  /** No line after `j` has the key of line `j`. */
  ghost predicate LastWithKey(lines: seq<string>, j: nat)
    requires j < |lines| && forall i :: 0 <= i < |lines| ==> Tokens(lines[i]) != []
  {
    forall i :: j < i < |lines| ==> Key(lines[i]) != Key(lines[j])
  }

  /** The first tokens of `lines`. */
  ghost function KeysOf(lines: seq<string>): set<string>
    requires forall i :: 0 <= i < |lines| ==> Tokens(lines[i]) != []
  {
    set i | 0 <= i < |lines| :: Key(lines[i])
  }

  /** The keys of a file are those of all but its last line and the key of
      the last line. */
  lemma KeysOfSnoc(lines: seq<string>)
    requires lines != [] && forall i :: 0 <= i < |lines| ==> Tokens(lines[i]) != []
    ensures var init := lines[..|lines| - 1];
      (forall i :: 0 <= i < |init| ==> Tokens(init[i]) != [])
      && KeysOf(lines) == KeysOf(init) + {Key(lines[|lines| - 1])}
  {
    var n := |lines| - 1;
    var init := lines[..n];
    assert forall i :: 0 <= i < n ==> init[i] == lines[i];
    forall x | x in KeysOf(lines)
      ensures x in KeysOf(init) + {Key(lines[n])}
    {
      var i :| 0 <= i < |lines| && Key(lines[i]) == x;
      if i < n {
        assert Key(init[i]) == x;
      }
    }
    forall x | x in KeysOf(init)
      ensures x in KeysOf(lines)
    {
      var i :| 0 <= i < n && Key(init[i]) == x;
      assert Key(lines[i]) == x;
    }
  }

  /** A successful read has one key per distinct first token. */
  lemma {:induction false} RegistryKeys(lines: seq<string>)
    requires RegistryOf(lines).Success?
    ensures forall i :: 0 <= i < |lines| ==> Tokens(lines[i]) != []
    ensures RegistryOf(lines).value.Keys == KeysOf(lines)
    decreases |lines|
  {
    RegistryFailsIffBlankLine(lines);
    if lines != [] {
      var n := |lines| - 1;
      var init := lines[..n];
      RegistryKeys(init);
      KeysOfSnoc(lines);
    }
  }

  /** A repeated key keeps the tokens of its last line. */
  lemma {:induction false} RegistryLastKeyWins(lines: seq<string>)
    requires RegistryOf(lines).Success?
    ensures forall i :: 0 <= i < |lines| ==> Tokens(lines[i]) != []
    ensures forall j :: 0 <= j < |lines| && LastWithKey(lines, j) ==>
      Key(lines[j]) in RegistryOf(lines).value && RegistryOf(lines).value[Key(lines[j])] == Tokens(lines[j])[1..]
    decreases |lines|
  {
    RegistryFailsIffBlankLine(lines);
    if lines != [] {
      var n := |lines| - 1;
      var init := lines[..n];
      RegistryLastKeyWins(init);
      var m := RegistryOf(lines).value;
      assert m == RegistryOf(init).value[Key(lines[n]) := Tokens(lines[n])[1..]];
      forall j | 0 <= j < |lines| && LastWithKey(lines, j)
        ensures Key(lines[j]) in m && m[Key(lines[j])] == Tokens(lines[j])[1..]
      {
        if j < n {
          assert init[j] == lines[j];
          assert Key(lines[n]) != Key(lines[j]);
          assert forall i :: j < i < n ==> init[i] == lines[i];
          assert LastWithKey(init, j);
        }
      }
    }
  }

  /** The tokens of a record line: a key and one value. */
  lemma RecordTokens(key: char, value: char)
    requires !IsSpace(key) && !IsSpace(value)
    ensures Tokens([key, ' ', value, '\n']) == [[key], [value]]
  {
    TokensEmptyIffBlank("\n");
    WordRun([value], "\n");
    assert [value] + "\n" == [value, '\n'];
    TokensSkipSpaces(" ", [value, '\n']);
    WordRun([key], [' ', value, '\n']);
    assert [key] + [' ', value, '\n'] == [key, ' ', value, '\n'];
  }

  /** A file naming the same key twice, as in `a b` then `a c`, keeps the
      second record. */
  lemma RegistryExample(key: char, first: char, second: char)
    requires !IsSpace(key) && !IsSpace(first) && !IsSpace(second)
    ensures RegistryOf([[key, ' ', first, '\n'], [key, ' ', second, '\n']]) == Success(map[[key] := [[second]]])
  {
    var one := [key, ' ', first, '\n'];
    var two := [key, ' ', second, '\n'];
    RecordTokens(key, first);
    RecordTokens(key, second);
    var lines := [one, two];
    assert [one][..0] == [];
    assert RegistryOf([one]) == Success(map[[key] := [[first]]]);
    assert lines[..1] == [one];
    assert Tokens(lines[1]) == [[key], [second]];
    assert map[[key] := [[first]]][[key] := [[second]]] == map[[key] := [[second]]];
  }
}
