/**
 * The command tokenizer (parseCommand and its get_next_token lambda in bob.cc).
 * The source text is split on the delimiter set " \t\n"; the first raw piece is
 * the program name, the later non-empty pieces are its arguments, and a null
 * sentinel closes the argument vector handed to execvp.
 */
module Tokenizer {
  import opened Wrappers

  /** Membership in the delimiter set " \t\n" given to strpbrk. */
  predicate IsDelimiter(c: char) {
    c == ' ' || c == '\t' || c == '\n'
  }

  predicate NoDelimiter(s: string) {
    forall i | 0 <= i < |s| :: !IsDelimiter(s[i])
  }

  /** The text a C string routine (strpbrk, strlen) sees: everything before the first NUL. */
  function CString(s: string): (r: string)
    ensures r <= s
    ensures '\0' !in r
    ensures |r| < |s| ==> s[|r|] == '\0'
  {
    if s == [] || s[0] == '\0' then [] else [s[0]] + CString(s[1..])
  }

  /** strpbrk over the delimiter set, as an offset: the first delimiter's index, or |s| when there is none. */
  function FindDelimiter(s: string): (k: nat)
    ensures k <= |s|
    ensures forall i | 0 <= i < k :: !IsDelimiter(s[i])
    ensures k < |s| ==> IsDelimiter(s[k])
  {
    if s == [] || IsDelimiter(s[0]) then 0 else 1 + FindDelimiter(s[1..])
  }

  /** The first delimiter is unique: any k with the properties of FindDelimiter's result is it. */
  lemma FindDelimiterAt(s: string, k: nat)
    requires k <= |s|
    requires forall i | 0 <= i < k :: !IsDelimiter(s[i])
    requires k < |s| ==> IsDelimiter(s[k])
    ensures FindDelimiter(s) == k
  {
  }

  /**
   * The arguments kept after the program name: each piece of `s` up to the next
   * delimiter, in order, with the empty pieces (consecutive delimiters) dropped.
   */
  function Words(s: string): (ws: seq<string>)
    ensures forall w | w in ws :: w != [] && NoDelimiter(w)
    decreases |s|
  {
    var k := FindDelimiter(s);
    var rest := if k == |s| then [] else Words(s[k + 1..]);
    if k == 0 then rest else [s[..k]] + rest
  }

  /** A word, or nothing when it is empty. */
  function Emit(cur: string): seq<string> {
    if cur == [] then [] else [cur]
  }

  /** The parsed command: program_name, the argument vector, and argument_count. */
  datatype Command = Command(programName: string, arguments: seq<Option<string>>, argumentCount: nat)

  /** The words as argument-vector entries. */
  function Present(ws: seq<string>): (r: seq<Option<string>>)
    ensures |r| == |ws|
    ensures forall i | 0 <= i < |ws| :: r[i] == Some(ws[i])
  {
    seq(|ws|, i requires 0 <= i < |ws| => Some(ws[i]))
  }

  /** Between the program name and the sentinel, the vector holds the words in order. */
  lemma PresentMiddle(name: string, words: seq<string>)
    requires forall w | w in words :: w != [] && NoDelimiter(w)
    ensures var arguments := [Some(name)] + Present(words) + [None];
      forall i | 0 < i < |arguments| - 1 ::
        arguments[i] == Some(words[i - 1]) && arguments[i].value != [] && NoDelimiter(arguments[i].value)
  {
    var arguments := [Some(name)] + Present(words) + [None];
    forall i | 0 < i < |arguments| - 1
      ensures arguments[i] == Some(words[i - 1]) && arguments[i].value != [] && NoDelimiter(arguments[i].value)
    {
      assert arguments[i] == Present(words)[i - 1];
      assert words[i - 1] in words;
    }
  }

  /**
   * What parseCommand builds from `source`. The program name is the text before the
   * first delimiter (all of it when there is none) and is never checked, so it is
   * empty when the source is empty or starts with a delimiter. The argument vector
   * starts with the program name, continues with the non-empty delimiter-free
   * tokens, and ends with exactly one null sentinel that argument_count includes.
   */
  function Parse(source: string): (cmd: Command)
    ensures var text := CString(source);
      && cmd.programName <= text
      && NoDelimiter(cmd.programName)
      && (|cmd.programName| < |text| ==> IsDelimiter(text[|cmd.programName|]))
    ensures cmd.programName == [] <==> CString(source) == [] || IsDelimiter(CString(source)[0])
    ensures |cmd.arguments| >= 2 && cmd.argumentCount == |cmd.arguments|
    ensures cmd.arguments[0] == Some(cmd.programName)
    ensures cmd.arguments[|cmd.arguments| - 1] == None
    ensures forall i | 0 < i < |cmd.arguments| - 1 ::
      cmd.arguments[i].Some? && cmd.arguments[i].value != [] && NoDelimiter(cmd.arguments[i].value)
  {
    var text := CString(source);
    var k := FindDelimiter(text);
    var words := if k == |text| then [] else Words(text[k + 1..]);
    var arguments := [Some(text[..k])] + Present(words) + [None];
    PresentMiddle(text[..k], words);
    Command(text[..k], arguments, |arguments|)
  }

  /**
   * get_next_token: the text from `iter` up to the next delimiter. Either it steps
   * `iter` one past that delimiter, or there is none and it reports the end,
   * leaving `iter` where it was; every call therefore makes progress.
   */
  method NextToken(text: string, iter: nat) returns (token: string, next: nat, ended: bool)
    requires iter <= |text|
    ensures NoDelimiter(token)
    ensures ended ==> next == iter && token == text[iter..]
    ensures !ended ==> iter < next <= |text| && token == text[iter..next - 1] && IsDelimiter(text[next - 1])
  {
    var end := FindDelimiter(text[iter..]);
    if end == |text| - iter {
      ended := true;
      token := text[iter..];
      next := iter;
    } else {
      ended := false;
      token := text[iter..iter + end];
      assert token == text[iter..][..end];
      next := iter + end + 1;
    }
  }

  /** A prefix without delimiters, restated index by index. */
  lemma NoDelimiterInPrefix(s: string, k: nat)
    requires k <= |s| && NoDelimiter(s[..k])
    ensures forall i | 0 <= i < k :: !IsDelimiter(s[i])
  {
    assert forall i | 0 <= i < k :: s[..k][i] == s[i];
  }

  /** One step of Words: the piece before a delimiter, then the words of what follows it. */
  lemma WordsAfterToken(s: string, token: string, rest: string)
    requires NoDelimiter(token)
    requires |s| > |token| && s[..|token|] == token && IsDelimiter(s[|token|]) && rest == s[|token| + 1..]
    ensures FindDelimiter(s) == |token|
    ensures Words(s) == Emit(token) + Words(rest)
  {
    var k := |token|;
    NoDelimiterInPrefix(s, k);
    FindDelimiterAt(s, k);
    assert Words(s) == if k == 0 then Words(rest) else [token] + Words(rest);
    if k == 0 {
      assert Emit(token) + Words(rest) == Words(rest);
    } else {
      assert Emit(token) == [token];
    }
  }

  /** The last step of Words: a delimiter-free tail is one word, or none when it is empty. */
  lemma WordsOfLastToken(s: string)
    requires NoDelimiter(s)
    ensures FindDelimiter(s) == |s|
    ensures Words(s) == Emit(s)
  {
    FindDelimiterAt(s, |s|);
    assert s[..|s|] == s;
  }

  /** What one get_next_token call at `iter` means for the words still to come. */
  lemma WordsAtToken(text: string, iter: nat, token: string, next: nat, ended: bool)
    requires iter <= |text| && NoDelimiter(token)
    requires ended ==> token == text[iter..]
    requires !ended ==> iter < next <= |text| && token == text[iter..next - 1] && IsDelimiter(text[next - 1])
    ensures FindDelimiter(text[iter..]) == |token|
    ensures Words(text[iter..]) == Emit(token) + (if ended then [] else Words(text[next..]))
  {
    var s := text[iter..];
    if ended {
      WordsOfLastToken(s);
    } else {
      assert s[..|token|] == token && s[|token|] == text[next - 1] && s[|token| + 1..] == text[next..];
      WordsAfterToken(s, token, text[next..]);
    }
  }

  lemma PresentAppend(a: seq<string>, b: seq<string>)
    ensures Present(a + b) == Present(a) + Present(b)
  {
  }

  /** The argument vector grows by the token when it is not empty, and is unchanged otherwise. */
  lemma KeepToken(arguments: seq<Option<string>>, token: string, future: seq<string>)
    ensures arguments + Present(Emit(token) + future) + [None]
         == (if token == [] then arguments else arguments + [Some(token)]) + Present(future) + [None]
  {
    PresentAppend(Emit(token), future);
    if token == [] {
      assert Present(Emit(token)) == [];
    } else {
      assert Present(Emit(token)) == [Some(token)];
    }
  }

  /** The first token is the program name, and the words after it give the arguments. */
  lemma ParseFirstToken(source: string, token: string, next: nat, ended: bool)
    requires var text := CString(source);
      && NoDelimiter(token)
      && (ended ==> next == 0 && token == text)
      && (!ended ==> 0 < next <= |text| && token == text[..next - 1] && IsDelimiter(text[next - 1]))
    ensures next <= |CString(source)|
    ensures Parse(source).programName == token
    ensures !ended ==> Parse(source).arguments == [Some(token)] + Present(Words(CString(source)[next..])) + [None]
    ensures ended ==> Parse(source).arguments == [Some(token)] + [None]
  {
    var text := CString(source);
    assert text[0..] == text;
    WordsAtToken(text, 0, token, next, ended);
    assert Present([]) == [];
  }

  /** One pass of parseCommand's loop keeps the argument vector on course for Parse's. */
  lemma TokenStep(text: string, iter: nat, token: string, next: nat, ended: bool,
                  arguments: seq<Option<string>>, expected: seq<Option<string>>)
    requires iter <= |text| && NoDelimiter(token)
    requires ended ==> token == text[iter..]
    requires !ended ==> iter < next <= |text| && token == text[iter..next - 1] && IsDelimiter(text[next - 1])
    requires expected == arguments + Present(Words(text[iter..])) + [None]
    ensures var kept := if token == [] then arguments else arguments + [Some(token)];
      && (!ended ==> expected == kept + Present(Words(text[next..])) + [None])
      && (ended ==> expected == kept + [None])
  {
    WordsAtToken(text, iter, token, next, ended);
    var future := if ended then [] else Words(text[next..]);
    KeepToken(arguments, token, future);
    assert Present([]) == [];
  }

  /** parseCommand: the get_next_token loop, proved to build exactly Parse(source). */
  method ParseCommand(source: string) returns (cmd: Command)
    ensures cmd == Parse(source)
  {
    var text := CString(source);
    var iter: nat := 0;
    var ended: bool;
    var programName: string;
    programName, iter, ended := NextToken(text, iter);
    ParseFirstToken(source, programName, iter, ended);
    ghost var expected := Parse(source).arguments;
    var arguments := [Some(programName)];
    while !ended
      invariant iter <= |text|
      invariant !ended ==> expected == arguments + Present(Words(text[iter..])) + [None]
      invariant ended ==> expected == arguments + [None]
      decreases !ended, |text| - iter
    {
      ghost var before := iter;
      var token: string;
      token, iter, ended := NextToken(text, iter);
      TokenStep(text, before, token, iter, ended, arguments, expected);
      if token == [] {
        continue;
      }
      arguments := arguments + [Some(token)];
    }
    arguments := arguments + [None];
    cmd := Command(programName, arguments, |arguments|);
  }

  /**
   * A reference tokenizer that reads one character at a time: it grows the current
   * word `cur`, emits it at each delimiter and at the end, and never emits an empty one.
   */
  function Scan(s: string, cur: string): seq<string>
    decreases |s|
  {
    if s == [] then Emit(cur)
    else if IsDelimiter(s[0]) then Emit(cur) + Scan(s[1..], [])
    else Scan(s[1..], cur + [s[0]])
  }

  /**
   * Words agrees with the character-at-a-time scan: its results are exactly the
   * maximal runs of non-delimiter characters, in source order.
   */
  lemma {:induction false} WordsMatchScan(s: string, cur: string)
    requires NoDelimiter(cur)
    ensures Words(cur + s) == Scan(s, cur)
  {
    if s == [] {
      assert cur + s == cur;
      WordsOfLastToken(cur);
    } else if IsDelimiter(s[0]) {
      assert cur + s == cur + [s[0]] + s[1..];
      WordsAtDelimiter(cur, s[0], s[1..]);
      WordsMatchScan(s[1..], []);
      assert [] + s[1..] == s[1..];
    } else {
      var cur' := cur + [s[0]];
      NoDelimiterExtend(cur, s[0]);
      WordsMatchScan(s[1..], cur');
      assert cur' + s[1..] == cur + s;
    }
  }

  /**
   * For every source, with or without a NUL or a delimiter: the arguments after the
   * program name are exactly what the character-at-a-time scan finds after the first
   * delimiter of the text the C string routines see.
   */
  lemma ParseMatchesScan(source: string)
    ensures var text := CString(source); var k := FindDelimiter(text);
      Parse(source).arguments
        == [Some(text[..k])] + Present(if k == |text| then [] else Scan(text[k + 1..], [])) + [None]
  {
    var text := CString(source);
    var k := FindDelimiter(text);
    if k < |text| {
      assert [] + text[k + 1..] == text[k + 1..];
      WordsMatchScan(text[k + 1..], []);
    }
  }

  lemma NoDelimiterExtend(cur: string, c: char)
    requires NoDelimiter(cur) && !IsDelimiter(c)
    ensures NoDelimiter(cur + [c])
  {
    assert forall i | 0 <= i < |cur| :: (cur + [c])[i] == cur[i];
  }

  /** The piece before a delimiter is a word when it is not empty, and the words of the rest follow it. */
  lemma WordsAtDelimiter(cur: string, c: char, rest: string)
    requires NoDelimiter(cur) && IsDelimiter(c)
    ensures Words(cur + [c] + rest) == Emit(cur) + Words(rest)
  {
    var t := cur + [c] + rest;
    assert t[..|cur|] == cur && t[|cur|] == c && t[|cur| + 1..] == rest;
    WordsAfterToken(t, cur, rest);
  }


  /** Every word separated from the next by one space. */
  function Join(ws: seq<string>): string
    decreases |ws|
  {
    if ws == [] then []
    else if |ws| == 1 then ws[0]
    else ws[0] + " " + Join(ws[1..])
  }

  /** Tokenizing words joined by single spaces gives the words back. */
  lemma {:induction false} WordsOfJoin(ws: seq<string>)
    requires forall w | w in ws :: w != [] && NoDelimiter(w)
    ensures Words(Join(ws)) == ws
    decreases |ws|
  {
    if ws == [] {
      WordsOfLastToken([]);
    } else if |ws| == 1 {
      WordsOfLastToken(ws[0]);
    } else {
      assert ws[0] in ws;
      assert Join(ws) == ws[0] + [' '] + Join(ws[1..]);
      WordsTakeWord(ws[0], ' ', Join(ws[1..]));
      assert forall w | w in ws[1..] :: w in ws;
      WordsOfJoin(ws[1..]);
    }
  }

  /** No NUL character in a word list, so the C string routines see all of it. */
  lemma NoNulInJoin(ws: seq<string>)
    requires forall w | w in ws :: '\0' !in w
    ensures '\0' !in Join(ws)
    decreases |ws|
  {
    if |ws| > 1 {
      assert forall w | w in ws[1..] :: w in ws;
      NoNulInJoin(ws[1..]);
      assert ws[0] in ws;
    }
  }

  /** CString leaves a NUL-free string as it is. */
  lemma CStringOfNulFree(s: string)
    requires '\0' !in s
    ensures CString(s) == s
  {
  }

  /**
   * Round trip: parsing a program name and arguments written out with single spaces
   * yields that program name, and the argument vector [name, arguments..., null].
   */
  lemma {:induction false} ParseOfJoin(name: string, args: seq<string>)
    requires name != [] && NoDelimiter(name) && '\0' !in name
    requires forall a | a in args :: a != [] && NoDelimiter(a) && '\0' !in a
    ensures Parse(Join([name] + args)).programName == name
    ensures Parse(Join([name] + args)).arguments == [Some(name)] + Present(args) + [None]
  {
    var ws := [name] + args;
    assert forall w | w in ws :: w == name || w in args;
    NoNulInJoin(ws);
    var s := Join(ws);
    CStringOfNulFree(s);
    if args == [] {
      assert s == name && s[..|s|] == s;
      FindDelimiterAt(s, |s|);
    } else {
      assert ws[1..] == args;
      assert s[..|name|] == name && s[|name|] == ' ' && s[|name| + 1..] == Join(args);
      FindDelimiterAt(s, |name|);
      WordsOfJoin(args);
    }
  }

  /** A source that starts with a delimiter gives an empty program name, which is kept as argument 0. */
  lemma LeadingDelimiterGivesEmptyName(rest: string)
    ensures Parse(" " + rest).programName == []
    ensures Parse(" " + rest).arguments[0] == Some([])
  {
    assert CString(" " + rest) == " " + CString(rest);
    assert CString(" " + rest)[0] == ' ';
  }

  /** A delimiter in front of the text adds no word. */
  lemma WordsSkipDelimiter(c: char, s: string)
    requires IsDelimiter(c)
    ensures Words([c] + s) == Words(s)
  {
    WordsAtDelimiter([], c, s);
    assert [] + [c] + s == [c] + s;
  }

  /** A non-empty piece followed by a delimiter is the first word. */
  lemma WordsTakeWord(w: string, c: char, s: string)
    requires w != [] && NoDelimiter(w) && IsDelimiter(c)
    ensures Words(w + [c] + s) == [w] + Words(s)
  {
    WordsAtDelimiter(w, c, s);
  }

  /** The program name is the text up to the first delimiter, and the words after it are the arguments. */
  lemma ParseAtDelimiter(name: string, c: char, rest: string)
    requires NoDelimiter(name) && IsDelimiter(c) && '\0' !in name + [c] + rest
    ensures Parse(name + [c] + rest).programName == name
    ensures Parse(name + [c] + rest).arguments == [Some(name)] + Present(Words(rest)) + [None]
  {
    var t := name + [c] + rest;
    CStringOfNulFree(t);
    assert t[..|name|] == name && t[|name|] == c && t[|name| + 1..] == rest;
    NoDelimiterInPrefix(t, |name|);
    FindDelimiterAt(t, |name|);
  }

  lemma WordsOfSpacedTail(rest: string)
    requires rest == [' '] + ([' '] + ("a" + ['\t'] + ("b" + ['\n'] + [])))
    ensures Words(rest) == ["a", "b"]
  {
    var tail := "b" + ['\n'] + [];
    WordsSkipDelimiter(' ', [' '] + ("a" + ['\t'] + tail));
    WordsSkipDelimiter(' ', "a" + ['\t'] + tail);
    WordsTakeWord("a", '\t', tail);
    WordsTakeWord("b", '\n', []);
    assert Words([]) == [];
  }

  lemma SpacedShape(rest: string)
    requires rest == [' '] + ([' '] + ("a" + ['\t'] + ("b" + ['\n'] + [])))
    ensures "echo   a\tb\n" == "echo" + [' '] + rest
  {
    var t := "echo" + [' '] + rest;
    assert |t| == 11;
    assert forall i | 0 <= i < 11 :: t[i] == "echo   a\tb\n"[i];
  }

  /** Runs of spaces, tabs and newlines give no empty arguments: "echo   a\tb\n" gives [echo, a, b, null]. */
  lemma RepeatedWhitespace()
    ensures Parse("echo   a\tb\n").programName == "echo"
    ensures Parse("echo   a\tb\n").arguments == [Some("echo"), Some("a"), Some("b"), None]
  {
    var rest := [' '] + ([' '] + ("a" + ['\t'] + ("b" + ['\n'] + [])));
    SpacedShape(rest);
    ParseAtDelimiter("echo", ' ', rest);
    WordsOfSpacedTail(rest);
    TwoArguments(Parse("echo" + [' '] + rest).arguments, "echo", "a", "b");
  }

  lemma TwoArguments(arguments: seq<Option<string>>, name: string, a: string, b: string)
    requires arguments == [Some(name)] + Present([a, b]) + [None]
    ensures arguments == [Some(name), Some(a), Some(b), None]
  {
    assert Present([a, b]) == [Some(a), Some(b)];
  }

  lemma HelloShape(rest: string)
    requires rest == "hello" + [' '] + "world"
    ensures "echo hello world" == "echo" + [' '] + rest
  {
    var t := "echo" + [' '] + rest;
    assert |t| == 16;
    assert forall i | 0 <= i < 16 :: t[i] == "echo hello world"[i];
  }

  /** Two words with one delimiter between them. */
  lemma WordsOfTwo(a: string, c: char, b: string)
    requires a != [] && b != [] && NoDelimiter(a) && NoDelimiter(b) && IsDelimiter(c)
    ensures Words(a + [c] + b) == [a, b]
  {
    WordsTakeWord(a, c, b);
    WordsOfLastToken(b);
  }

  lemma WordsOfHelloWorld(rest: string)
    requires rest == "hello" + [' '] + "world"
    ensures Words(rest) == ["hello", "world"]
  {
    assert NoDelimiter("hello");
    assert NoDelimiter("world");
    WordsOfTwo("hello", ' ', "world");
  }

  /** "echo hello world" gives the program name echo and the arguments [echo, hello, world, null]. */
  lemma EchoHelloWorld()
    ensures Parse("echo hello world").programName == "echo"
    ensures Parse("echo hello world").arguments == [Some("echo"), Some("hello"), Some("world"), None]
  {
    var rest := "hello" + [' '] + "world";
    HelloShape(rest);
    ParseAtDelimiter("echo", ' ', rest);
    WordsOfHelloWorld(rest);
    TwoArguments(Parse("echo" + [' '] + rest).arguments, "echo", "hello", "world");
  }
}
