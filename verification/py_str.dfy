/** The parts of Python 3's `str` and text-file semantics that the build
    scripts rely on, over Dafny strings (sequences of code points).

    - `StartsWith`, `Contains`: `s.startswith(p)` and `p in s`;
    - `Split`, `Join`, `Replace`: `s.split(sep)`, `sep.join(parts)` and
      `s.replace(old, new)` for a non-empty separator;
    - `Tokens`: `s.split()`, splitting on runs of Unicode whitespace;
    - `Normalise`, `FileLines`: reading a file in text mode with universal
      newlines and iterating over it line by line;
    - `Strip`: `line.translate(str.maketrans('', '', '\r\n'))`;
    - `Upper`: `s.upper()` on ASCII letters. */
module PyStr {
  /** The Python exceptions the scripts let escape. */
  datatype PyError =
    | FileNotFound(path: string)
    | IndexError
    | KeyError(key: string)
    | NameError(name: string)

  predicate StartsWith(s: string, prefix: string) {
    |prefix| <= |s| && s[..|prefix|] == prefix
  }

  /** `needle` occurs in `s` at position `i`. */
  predicate OccursAt(s: string, needle: string, i: nat) {
    i + |needle| <= |s| && s[i..i + |needle|] == needle
  }

  predicate Contains(s: string, needle: string) {
    exists i :: 0 <= i <= |s| && OccursAt(s, needle, i)
  }

  // ---------------------------------------------------------------------
  // split, join, replace

  /** `s.split(sep)`: the pieces between the leftmost non-overlapping
      occurrences of `sep`. */
  function Split(s: string, sep: string): (parts: seq<string>)
    requires |sep| > 0
    ensures |parts| >= 1
    decreases |s|
  {
    if |s| < |sep| then [s]
    else if StartsWith(s, sep) then [""] + Split(s[|sep|..], sep)
    else
      var rest := Split(s[1..], sep);
      [[s[0]] + rest[0]] + rest[1..]
  }

  /** `sep.join(parts)`. */
  function Join(parts: seq<string>, sep: string): string
    requires |parts| >= 1
    decreases |parts|
  {
    if |parts| == 1 then parts[0] else parts[0] + sep + Join(parts[1..], sep)
  }

  /** `s.replace(old, new)`: every leftmost non-overlapping occurrence of
      `pattern` becomes `replacement`. */
  function Replace(s: string, pattern: string, replacement: string): string
    requires |pattern| > 0
    decreases |s|
  {
    if |s| < |pattern| then s
    else if StartsWith(s, pattern) then replacement + Replace(s[|pattern|..], pattern, replacement)
    else [s[0]] + Replace(s[1..], pattern, replacement)
  }

  /** Prepending a character to the first piece prepends it to the join. */
  lemma JoinConsHead(c: char, parts: seq<string>, sep: string)
    requires |parts| >= 1
    ensures Join([[c] + parts[0]] + parts[1..], sep) == [c] + Join(parts, sep)
  {
    var p := [[c] + parts[0]] + parts[1..];
    if |parts| > 1 {
      assert p[1..] == parts[1..];
    }
  }

  /** `replace` is `split` followed by `join` with the new text: it rewrites
      every occurrence `split` cuts at, and nothing else. */
  lemma {:induction false} ReplaceIsSplitJoin(s: string, pattern: string, replacement: string)
    requires |pattern| > 0
    ensures Replace(s, pattern, replacement) == Join(Split(s, pattern), replacement)
    decreases |s|
  {
    if |s| < |pattern| {
    } else if StartsWith(s, pattern) {
      ReplaceIsSplitJoin(s[|pattern|..], pattern, replacement);
      assert ([""] + Split(s[|pattern|..], pattern))[1..] == Split(s[|pattern|..], pattern);
    } else {
      ReplaceIsSplitJoin(s[1..], pattern, replacement);
      JoinConsHead(s[0], Split(s[1..], pattern), replacement);
    }
  }

  /** Joining the pieces with the separator gives back the text. */
  lemma SplitJoinRoundTrip(s: string, sep: string)
    requires |sep| > 0
    ensures Join(Split(s, sep), sep) == s
  {
    ReplaceIsSplitJoin(s, sep, sep);
    ReplaceSameIsIdentity(s, sep);
  }

  /** Replacing a text by itself changes nothing. */
  lemma {:induction false} ReplaceSameIsIdentity(s: string, pattern: string)
    requires |pattern| > 0
    ensures Replace(s, pattern, pattern) == s
    decreases |s|
  {
    if |s| < |pattern| {
    } else if StartsWith(s, pattern) {
      ReplaceSameIsIdentity(s[|pattern|..], pattern);
      assert s == s[..|pattern|] + s[|pattern|..];
    } else {
      ReplaceSameIsIdentity(s[1..], pattern);
      assert s == [s[0]] + s[1..];
    }
  }

  /** A text without the pattern substring is left unchanged by `replace`. */
  lemma {:induction false} ReplaceAbsent(s: string, pattern: string, replacement: string)
    requires |pattern| > 0 && !Contains(s, pattern)
    ensures Replace(s, pattern, replacement) == s
    decreases |s|
  {
    if |s| >= |pattern| {
      assert !OccursAt(s, pattern, 0);
      assert !Contains(s[1..], pattern) by {
        forall i | 0 <= i <= |s[1..]| && OccursAt(s[1..], pattern, i)
          ensures OccursAt(s, pattern, i + 1)
        {
          assert s[1..][i..i + |pattern|] == s[i + 1..i + 1 + |pattern|];
        }
      }
      ReplaceAbsent(s[1..], pattern, replacement);
      assert s == [s[0]] + s[1..];
    }
  }

  /** With a one-character separator, no piece contains the separator. */
  lemma {:induction false} SplitCharPieces(s: string, c: char)
    ensures forall k :: 0 <= k < |Split(s, [c])| ==> c !in Split(s, [c])[k]
    decreases |s|
  {
    if |s| >= 1 {
      SplitCharPieces(s[1..], c);
    }
  }

  /** Every character of every piece comes from the text. */
  lemma {:induction false} SplitCharsFrom(s: string, sep: string)
    requires |sep| > 0
    ensures forall k, x :: 0 <= k < |Split(s, sep)| && x in Split(s, sep)[k] ==> x in s
    decreases |s|
  {
    if |s| >= |sep| {
      if StartsWith(s, sep) {
        SplitCharsFrom(s[|sep|..], sep);
        forall x | x in s[|sep|..]
          ensures x in s
        {
          var i :| 0 <= i < |s[|sep|..]| && s[|sep|..][i] == x;
          assert s[i + |sep|] == x;
        }
      } else {
        SplitCharsFrom(s[1..], sep);
        forall x | x in s[1..]
          ensures x in s
        {
          var i :| 0 <= i < |s[1..]| && s[1..][i] == x;
          assert s[i + 1] == x;
        }
      }
    }
  }

  /** A text without the one-character separator is a single piece. */
  lemma SplitNoSep(s: string, c: char)
    requires c !in s
    ensures Split(s, [c]) == [s]
  {
    SplitCharPieces(s, c);
    SplitJoinRoundTrip(s, [c]);
  }

  /** Splitting a text at a one-character separator, by its first
      character. */
  lemma SplitCons(x: char, t: string, c: char)
    ensures Split([x] + t, [c]) ==
      if x == c then [""] + Split(t, [c])
      else [[x] + Split(t, [c])[0]] + Split(t, [c])[1..]
  {
    assert ([x] + t)[1..] == t;
    assert StartsWith([x] + t, [c]) <==> x == c;
  }

  /** The first-character step of `Split` commutes with appending further
      pieces. */
  lemma ConsAppend(x: char, c: char, p: seq<string>, q: seq<string>)
    requires |p| >= 1
    ensures (if x == c then [""] + (p + q) else [[x] + (p + q)[0]] + (p + q)[1..])
      == (if x == c then [""] + p else [[x] + p[0]] + p[1..]) + q
  {
    if x != c {
      assert (p + q)[0] == p[0] && (p + q)[1..] == p[1..] + q;
    }
  }

  /** Splitting at a one-character separator distributes over a separator
      between two texts. */
  lemma {:induction false} SplitAppendChar(a: string, b: string, c: char)
    ensures Split(a + [c] + b, [c]) == Split(a, [c]) + Split(b, [c])
    decreases |a|
  {
    if a == [] {
      assert a + [c] + b == [c] + b;
      SplitCons(c, b, c);
      assert Split(a, [c]) == [""];
    } else {
      var tail := a[1..];
      assert a == [a[0]] + tail;
      assert a + [c] + b == [a[0]] + (tail + [c] + b);
      SplitAppendChar(tail, b, c);
      SplitCons(a[0], tail + [c] + b, c);
      SplitCons(a[0], tail, c);
      ConsAppend(a[0], c, Split(tail, [c]), Split(b, [c]));
    }
  }

  /** Joining pieces without the separator and splitting again gives back
      the pieces. */
  lemma {:induction false} SplitOfJoin(parts: seq<string>, c: char)
    requires |parts| >= 1 && forall k :: 0 <= k < |parts| ==> c !in parts[k]
    ensures Split(Join(parts, [c]), [c]) == parts
    decreases |parts|
  {
    if |parts| == 1 {
      SplitNoSep(parts[0], c);
    } else {
      SplitOfJoin(parts[1..], c);
      SplitAppendChar(parts[0], Join(parts[1..], [c]), c);
      SplitNoSep(parts[0], c);
      assert [parts[0]] + parts[1..] == parts;
    }
  }

  /** The last piece is empty exactly when the text is empty or ends with
      the separator. */
  lemma {:induction false} SplitLastEmpty(s: string, c: char)
    ensures Split(s, [c])[|Split(s, [c])| - 1] == "" <==> s == [] || s[|s| - 1] == c
    decreases |s|
  {
    if |s| >= 1 {
      SplitLastEmpty(s[1..], c);
      if |s| == 1 && s[0] != c {
        assert Split(s[1..], [c]) == [""];
      }
    }
  }

  // ---------------------------------------------------------------------
  // whitespace tokens

  /** Python's `str.isspace` for one character. */
  predicate IsSpace(ch: char) {
    var n := ch as int;
    n == 0x20 || 0x09 <= n <= 0x0D || 0x1C <= n <= 0x1F || n == 0x85 || n == 0xA0
    || n == 0x1680 || 0x2000 <= n <= 0x200A || n == 0x2028 || n == 0x2029
    || n == 0x202F || n == 0x205F || n == 0x3000
  }

  /** The length of the run of non-space characters at the start of `s`. */
  function WordLength(s: string): (n: nat)
    ensures n <= |s|
    ensures forall i :: 0 <= i < n ==> !IsSpace(s[i])
    ensures n < |s| ==> IsSpace(s[n])
  {
    if s == [] || IsSpace(s[0]) then 0 else 1 + WordLength(s[1..])
  }

  /** `s.split()`: the maximal runs of non-space characters. */
  function Tokens(s: string): seq<string>
    decreases |s|
  {
    if s == [] then []
    else if IsSpace(s[0]) then Tokens(s[1..])
    else
      var n := WordLength(s);
      [s[..n]] + Tokens(s[n..])
  }

  /** A word: non-empty, without whitespace. */
  predicate IsWord(w: string) {
    w != [] && forall i :: 0 <= i < |w| ==> !IsSpace(w[i])
  }

  /** Every token is a word. */
  lemma {:induction false} TokensAreWords(s: string)
    ensures forall k :: 0 <= k < |Tokens(s)| ==> IsWord(Tokens(s)[k])
    decreases |s|
  {
    if s != [] {
      if IsSpace(s[0]) {
        TokensAreWords(s[1..]);
      } else {
        TokensAreWords(s[WordLength(s)..]);
      }
    }
  }

  /** A line has no tokens exactly when it is all whitespace. */
  lemma {:induction false} TokensEmptyIffBlank(s: string)
    ensures Tokens(s) == [] <==> forall i :: 0 <= i < |s| ==> IsSpace(s[i])
    decreases |s|
  {
    if s != [] && IsSpace(s[0]) {
      TokensEmptyIffBlank(s[1..]);
      if forall i :: 0 <= i < |s| - 1 ==> IsSpace(s[1..][i]) {
        forall i | 0 <= i < |s|
          ensures IsSpace(s[i])
        {
          if i > 0 {
            assert s[1..][i - 1] == s[i];
          }
        }
      }
    }
  }

  /** Leading whitespace does not change the tokens. */
  lemma {:induction false} TokensSkipSpaces(spaces: string, s: string)
    requires forall i :: 0 <= i < |spaces| ==> IsSpace(spaces[i])
    ensures Tokens(spaces + s) == Tokens(s)
    decreases |spaces|
  {
    if spaces != [] {
      assert (spaces + s)[0] == spaces[0];
      assert (spaces + s)[1..] == spaces[1..] + s;
      TokensSkipSpaces(spaces[1..], s);
    } else {
      assert spaces + s == s;
    }
  }

  /** Words separated by single spaces split back into the same words. */
  lemma {:induction false} TokensOfJoin(words: seq<string>)
    requires |words| >= 1 && forall k :: 0 <= k < |words| ==> IsWord(words[k])
    ensures Tokens(Join(words, " ")) == words
    decreases |words|
  {
    var w := words[0];
    if |words| == 1 {
      WordRun(w, "");
      assert w + "" == w;
    } else {
      var rest := Join(words[1..], " ");
      assert Join(words, " ") == w + (" " + rest);
      WordRun(w, " " + rest);
      TokensOfJoin(words[1..]);
      TokensSkipSpaces(" ", rest);
      assert [w] + words[1..] == words;
    }
  }

  /** A word followed by nothing or by whitespace is read as one token. */
  lemma WordRun(w: string, tail: string)
    requires IsWord(w) && (tail == [] || IsSpace(tail[0]))
    ensures Tokens(w + tail) == [w] + Tokens(tail)
  {
    var s := w + tail;
    WordLengthOf(w, tail);
    assert s[..|w|] == w && s[|w|..] == tail;
  }

  lemma {:induction false} WordLengthOf(w: string, tail: string)
    requires (forall i :: 0 <= i < |w| ==> !IsSpace(w[i])) && (tail == [] || IsSpace(tail[0]))
    ensures WordLength(w + tail) == |w|
    decreases |w|
  {
    if w != [] {
      assert (w + tail)[1..] == w[1..] + tail;
      WordLengthOf(w[1..], tail);
    } else {
      assert w + tail == tail;
    }
  }

  // ---------------------------------------------------------------------
  // text files

  /** Universal newlines: reading in text mode turns `\r\n` and a lone `\r`
      into `\n`. */
  function Normalise(s: string): string
    decreases |s|
  {
    if s == [] then []
    else if s[0] == '\r' then "\n" + Normalise(if |s| > 1 && s[1] == '\n' then s[2..] else s[1..])
    else [s[0]] + Normalise(s[1..])
  }

  /** Text read in text mode holds no `\r`. */
  lemma {:induction false} NormaliseHasNoCR(s: string)
    ensures '\r' !in Normalise(s)
    decreases |s|
  {
    if s != [] {
      if s[0] == '\r' {
        NormaliseHasNoCR(if |s| > 1 && s[1] == '\n' then s[2..] else s[1..]);
      } else {
        NormaliseHasNoCR(s[1..]);
      }
    }
  }

  /** Text without `\r` reads back unchanged. */
  lemma {:induction false} NormaliseIdentity(s: string)
    requires '\r' !in s
    ensures Normalise(s) == s
    decreases |s|
  {
    if s != [] {
      assert s[0] in s;
      NormaliseIdentity(s[1..]);
      assert s == [s[0]] + s[1..];
    }
  }

  /** Reading two texts joined where the first does not end in `\r` reads
      each in turn. */
  lemma {:induction false} NormaliseAppend(a: string, b: string)
    requires a == [] || a[|a| - 1] != '\r'
    ensures Normalise(a + b) == Normalise(a) + Normalise(b)
    decreases |a|
  {
    if a != [] {
      var s := a + b;
      assert s[0] == a[0];
      if a[0] == '\r' {
        assert |a| > 1 && s[1] == a[1];
        if a[1] == '\n' {
          assert s[2..] == a[2..] + b;
          NormaliseAppend(a[2..], b);
        } else {
          assert s[1..] == a[1..] + b;
          NormaliseAppend(a[1..], b);
        }
      } else {
        assert s[1..] == a[1..] + b;
        NormaliseAppend(a[1..], b);
      }
    } else {
      assert a + b == b;
    }
  }

  /** The last character read is the last character stored, unless that
      is a line break. */
  lemma {:induction false} NormaliseLast(s: string)
    requires s != [] && s[|s| - 1] != '\r' && s[|s| - 1] != '\n'
    ensures Normalise(s) != [] && Normalise(s)[|Normalise(s)| - 1] == s[|s| - 1]
    decreases |s|
  {
    if s[0] == '\r' {
      var rest := if s[1] == '\n' then s[2..] else s[1..];
      assert rest != [] && rest[|rest| - 1] == s[|s| - 1];
      NormaliseLast(rest);
    } else if |s| > 1 {
      NormaliseLast(s[1..]);
    }
  }

  /** Iterating over a text-mode file: each line keeps its `\n`; a final
      line without one is yielded as it is, and an empty tail is not a
      line. */
  function FileLines(t: string): (lines: seq<string>) {
    var parts := Split(t, "\n");
    var n := |parts| - 1;
    seq(n, i requires 0 <= i < n => parts[i] + "\n") + (if parts[n] == "" then [] else [parts[n]])
  }

  /** `translate` deleting `\r` and `\n`. */
  function Strip(line: string): (r: string)
    ensures forall i :: 0 <= i < |r| ==> r[i] != '\r' && r[i] != '\n'
  {
    if line == [] then []
    else (if line[0] == '\r' || line[0] == '\n' then [] else [line[0]]) + Strip(line[1..])
  }

  lemma {:induction false} StripIdentity(s: string)
    requires '\r' !in s && '\n' !in s
    ensures Strip(s) == s
  {
    if s != [] {
      assert s[0] in s;
      StripIdentity(s[1..]);
      assert s == [s[0]] + s[1..];
    }
  }

  lemma StripDropsNewline(s: string)
    requires '\r' !in s && '\n' !in s
    ensures Strip(s + "\n") == s
  {
    StripAppend(s, "\n");
    StripIdentity(s);
  }

  lemma {:induction false} StripAppend(a: string, b: string)
    ensures Strip(a + b) == Strip(a) + Strip(b)
  {
    if a != [] {
      assert (a + b)[1..] == a[1..] + b;
      StripAppend(a[1..], b);
    } else {
      assert a + b == b;
    }
  }

  /** The pieces of a text split at `\n`, without an empty last piece. */
  function DropEmptyTail(parts: seq<string>): seq<string>
    requires |parts| >= 1
  {
    if parts[|parts| - 1] == "" then parts[..|parts| - 1] else parts
  }

  /** Reading a file's lines and stripping their terminators gives the text
      split at line breaks, without an empty tail. */
  lemma StrippedLinesAreSplit(t: string)
    requires '\r' !in t
    ensures var lines := FileLines(t);
      seq(|lines|, i requires 0 <= i < |lines| => Strip(lines[i])) == DropEmptyTail(Split(t, "\n"))
  {
    var lines := FileLines(t);
    var stripped := seq(|lines|, i requires 0 <= i < |lines| => Strip(lines[i]));
    var expected := DropEmptyTail(Split(t, "\n"));
    assert |stripped| == |expected|;
    forall i | 0 <= i < |lines|
      ensures stripped[i] == expected[i]
    {
      StrippedPiece(t, i);
    }
  }

  /** One line of `StrippedLinesAreSplit`. */
  lemma StrippedPiece(t: string, i: nat)
    requires '\r' !in t && i < |FileLines(t)|
    ensures Strip(FileLines(t)[i]) == Split(t, "\n")[i]
  {
    var parts := Split(t, "\n");
    var piece := parts[i];
    SplitCharPieces(t, '\n');
    assert '\n' !in piece;
    SplitCharsFrom(t, "\n");
    assert forall x :: x in piece ==> x in t;
    if i < |parts| - 1 {
      assert FileLines(t)[i] == piece + "\n";
      StripDropsNewline(piece);
    } else {
      assert FileLines(t)[i] == piece;
      StripIdentity(piece);
    }
  }

  /** A text without the first character of a non-empty needle does not
      contain the needle. */
  lemma NoFirstCharNoContains(s: string, needle: string)
    requires needle != [] && needle[0] !in s
    ensures !Contains(s, needle)
  {
    forall i | 0 <= i <= |s|
      ensures !OccursAt(s, needle, i)
    {
      if i + |needle| <= |s| {
        assert s[i..i + |needle|][0] == s[i] && s[i] in s;
      }
    }
  }

  /** The pieces of a list, written one after the other. */
  function Concat(parts: seq<string>): string
    decreases |parts|
  {
    if parts == [] then "" else Concat(parts[..|parts| - 1]) + parts[|parts| - 1]
  }

  /** A join is the join of all but the last part, the separator and the
      last part. */
  lemma {:induction false} JoinSnoc(parts: seq<string>, sep: string)
    requires |parts| >= 2
    ensures Join(parts, sep) == Join(parts[..|parts| - 1], sep) + sep + parts[|parts| - 1]
    decreases |parts|
  {
    if |parts| > 2 {
      JoinSnoc(parts[1..], sep);
      assert parts[1..][..|parts| - 2] == parts[..|parts| - 1][1..];
    }
  }

  /** The first `k` pieces each followed by a line break, then piece `k`,
      are the join of the first `k + 1` pieces. */
  lemma {:induction false} ConcatTerminated(parts: seq<string>, k: nat)
    requires k < |parts|
    ensures Concat(seq(k, i requires 0 <= i < k => parts[i] + "\n")) + parts[k] == Join(parts[..k + 1], "\n")
  {
    if k > 0 {
      ConcatTerminated(parts, k - 1);
      var lines := seq(k, i requires 0 <= i < k => parts[i] + "\n");
      assert lines[..k - 1] == seq(k - 1, i requires 0 <= i < k - 1 => parts[i] + "\n");
      JoinSnoc(parts[..k + 1], "\n");
      assert parts[..k + 1][..k] == parts[..k];
    }
  }

  /** Writing out the lines of a file gives back its text. */
  lemma FileLinesConcat(t: string)
    ensures Concat(FileLines(t)) == t
  {
    var parts := Split(t, "\n");
    var n := |parts| - 1;
    var front := seq(n, i requires 0 <= i < n => parts[i] + "\n");
    ConcatTerminated(parts, n);
    assert parts[..n + 1] == parts;
    SplitJoinRoundTrip(t, "\n");
    if parts[n] != "" {
      assert (front + [parts[n]])[..n] == front;
    } else {
      assert front + [] == front;
    }
  }

  /** Python's `str.upper` on ASCII letters; other characters are kept. */
  function UpperChar(ch: char): char {
    if 'a' <= ch <= 'z' then (ch as int - 'a' as int + 'A' as int) as char else ch
  }

  function Upper(s: string): (r: string)
    ensures |r| == |s|
    ensures forall i :: 0 <= i < |s| ==> r[i] == UpperChar(s[i])
  {
    seq(|s|, i requires 0 <= i < |s| => UpperChar(s[i]))
  }

  lemma UpperIdempotent(s: string)
    ensures Upper(Upper(s)) == Upper(s)
  {
  }
}
