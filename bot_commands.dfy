/**
 * Chat commands: the tokenising of `Command.__init__` and the reply
 * selection of `process` and `_help`.
 */
module BotCommands {
  import opened Types

  /**
   * The characters Python's `str.split()` without arguments treats as
   * whitespace (those for which `str.isspace()` holds).
   */
  predicate IsSpace(c: char) {
    || '\t' <= c <= '\r'                   // tab, line feed, vertical tab, form feed, carriage return
    || '\U{1C}' <= c <= '\U{1F}'           // file, group, record and unit separators
    || c == ' ' || c == '\U{85}' || c == '\U{A0}' || c == '\U{1680}'
    || '\U{2000}' <= c <= '\U{200A}'
    || c == '\U{2028}' || c == '\U{2029}' || c == '\U{202F}' || c == '\U{205F}' || c == '\U{3000}'
  }

  /** A token of `str.split()`: non-empty and free of whitespace. */
  predicate IsWord(w: string) {
    w != [] && forall i :: 0 <= i < |w| ==> !IsSpace(w[i])
  }

  /** Every character of `s` is whitespace (the empty string included). */
  predicate AllSpaces(s: string) {
    forall i :: 0 <= i < |s| ==> IsSpace(s[i])
  }

  /** Length of the run of whitespace that `s` starts with. */
  function LeadingSpaces(s: string): (n: nat)
    ensures n <= |s|
    ensures forall i :: 0 <= i < n ==> IsSpace(s[i])
    ensures n < |s| ==> !IsSpace(s[n])
  {
    if s == [] || !IsSpace(s[0]) then 0 else 1 + LeadingSpaces(s[1..])
  }

  /** Length of the run of non-whitespace that `s` starts with. */
  function LeadingWord(s: string): (n: nat)
    ensures n <= |s|
    ensures forall i :: 0 <= i < n ==> !IsSpace(s[i])
    ensures n < |s| ==> IsSpace(s[n])
  {
    if s == [] || IsSpace(s[0]) then 0 else 1 + LeadingWord(s[1..])
  }

  /** Python's `s.split()`: the maximal runs of non-whitespace, in order. */
  function Split(s: string): (r: seq<string>)
    ensures forall i :: 0 <= i < |r| ==> IsWord(r[i])
    decreases |s|
  {
    var t := s[LeadingSpaces(s)..];
    if t == [] then []
    else
      var n := LeadingWord(t);
      [t[..n]] + Split(t[n..])
  }

  /** `" ".join(words)`. */
  function JoinWords(words: seq<string>): string {
    if words == [] then ""
    else if |words| == 1 then words[0]
    else words[0] + " " + JoinWords(words[1..])
  }

  lemma {:induction false} LeadingWordOfWord(w: string, rest: string)
    requires IsWord(w)
    requires rest == [] || IsSpace(rest[0])
    ensures LeadingWord(w + rest) == |w|
  {
    if |w| > 1 {
      assert (w + rest)[1..] == w[1..] + rest;
      LeadingWordOfWord(w[1..], rest);
    } else {
      assert (w + rest)[1..] == rest;
    }
  }

  /** Whitespace in front of a message changes none of its tokens. */
  lemma {:induction false} SplitSkipsLeadingSpaces(spaces: string, s: string)
    requires AllSpaces(spaces)
    ensures Split(spaces + s) == Split(s)
  {
    if spaces != [] {
      assert (spaces + s)[1..] == spaces[1..] + s;
      SplitSkipsLeadingSpaces(spaces[1..], s);
      assert LeadingSpaces(spaces + s) == 1 + LeadingSpaces(spaces[1..] + s);
      assert (spaces + s)[LeadingSpaces(spaces + s)..]
          == (spaces[1..] + s)[LeadingSpaces(spaces[1..] + s)..];
    } else {
      assert spaces + s == s;
    }
  }

  /** Splitting words joined by single spaces gives back the words. */
  lemma {:induction false} SplitJoinRoundTrip(words: seq<string>)
    requires forall i :: 0 <= i < |words| ==> IsWord(words[i])
    ensures Split(JoinWords(words)) == words
  {
    if words == [] {
    } else if |words| == 1 {
      var w := words[0];
      LeadingWordOfWord(w, "");
      assert w + "" == w;
      assert LeadingSpaces(w) == 0;
      assert w[|w|..] == [];
      assert Split(w) == [w[..|w|]] + Split([]);
    } else {
      var w, rest := words[0], JoinWords(words[1..]);
      var s := w + " " + rest;
      assert s == w + (" " + rest);
      LeadingWordOfWord(w, " " + rest);
      assert LeadingSpaces(s) == 0;
      assert s[..|w|] == w;
      assert s[|w|..] == [' '] + rest;
      SplitJoinRoundTrip(words[1..]);
      SplitSkipsLeadingSpaces([' '], rest);
      assert Split(s) == [w] + Split(s[|w|..]);
    }
  }

  /** A parsed command: its first token and the remaining ones. */
  datatype Command = Command(command: string, args: seq<string>)

  /** Python's `msg[len(prefix):]`, which is empty when the message is shorter. */
  function DropPrefix(prefix: string, msg: string): (r: string)
    ensures |prefix| <= |msg| ==> msg == msg[..|prefix|] + r
    ensures |msg| < |prefix| ==> r == []
  {
    if |prefix| <= |msg| then msg[|prefix|..] else []
  }

  /**
   * `Command.__init__`: drop `len(prefix)` characters, split, and take the
   * first token as the command. `None` is the `IndexError` that `pop(0)`
   * raises when there is no token.
   */
  function Parse(prefix: string, msg: string): (r: Option<Command>)
    ensures r.None? <==> Split(DropPrefix(prefix, msg)) == []
    ensures r.Some? ==> [r.value.command] + r.value.args == Split(DropPrefix(prefix, msg))
  {
    var tokens := Split(DropPrefix(prefix, msg));
    if tokens == [] then None else Some(Command(tokens[0], tokens[1..]))
  }

  /** A single word splits to itself. */
  lemma SplitWord(w: string)
    requires IsWord(w)
    ensures Split(w) == [w]
  {
    LeadingWordOfWord(w, "");
    assert w + "" == w;
    assert LeadingSpaces(w) == 0;
    assert w[|w|..] == [];
    assert Split(w) == [w[..|w|]] + Split([]);
  }

  /** A word followed by a run of whitespace of any length is one token, and the run separates it from the rest. */
  lemma SplitWordThenSpaces(w: string, spaces: string, s: string)
    requires IsWord(w) && spaces != [] && AllSpaces(spaces)
    ensures Split(w + spaces + s) == [w] + Split(s)
  {
    var t := w + spaces + s;
    assert t == w + (spaces + s);
    LeadingWordOfWord(w, spaces + s);
    assert LeadingSpaces(t) == 0;
    assert t[..|w|] == w;
    assert t[|w|..] == spaces + s;
    SplitSkipsLeadingSpaces(spaces, s);
    assert Split(t) == [w] + Split(t[|w|..]);
  }

  /**
   * `words[0] + gaps[0] + words[1] + gaps[1] + ...`: words separated by
   * whitespace runs, with trailing whitespace in the last gap.
   */
  function Spaced(words: seq<string>, gaps: seq<string>): string
    requires |gaps| == |words|
  {
    if words == [] then "" else words[0] + gaps[0] + Spaced(words[1..], gaps[1..])
  }

  /** Gaps made of whitespace, non-empty between two words; the gap after the last word may be empty. */
  predicate Separators(words: seq<string>, gaps: seq<string>) {
    && |gaps| == |words|
    && (forall i :: 0 <= i < |gaps| ==> AllSpaces(gaps[i]))
    && (forall i :: 0 <= i && i + 1 < |gaps| ==> gaps[i] != [])
  }

  predicate AllWords(words: seq<string>) {
    forall i :: 0 <= i < |words| ==> IsWord(words[i])
  }

  /**
   * Splitting words separated by any whitespace runs gives back the words:
   * a run of several whitespace characters is one separator, and trailing
   * whitespace yields no token. With `SplitSkipsLeadingSpaces` this
   * determines `Split` on every string.
   */
  lemma {:induction false} SplitSpacedRoundTrip(words: seq<string>, gaps: seq<string>)
    requires AllWords(words) && Separators(words, gaps)
    ensures Split(Spaced(words, gaps)) == words
  {
    if words != [] {
      var w, gap := words[0], gaps[0];
      var rest := Spaced(words[1..], gaps[1..]);
      assert Spaced(words, gaps) == w + gap + rest;
      if |words| == 1 {
        assert rest == "";
        if gap == [] {
          assert w + gap + rest == w;
          SplitWord(w);
        } else {
          SplitWordThenSpaces(w, gap, rest);
        }
      } else {
        assert AllWords(words[1..]) by {
          forall i | 0 <= i < |words[1..]| ensures IsWord(words[1..][i]) {
            assert words[1..][i] == words[i + 1];
          }
        }
        assert Separators(words[1..], gaps[1..]) by {
          forall i | 0 <= i < |gaps[1..]| ensures AllSpaces(gaps[1..][i]) {
            assert gaps[1..][i] == gaps[i + 1];
          }
          forall i | 0 <= i && i + 1 < |gaps[1..]| ensures gaps[1..][i] != [] {
            assert gaps[1..][i] == gaps[i + 1];
          }
        }
        SplitSpacedRoundTrip(words[1..], gaps[1..]);
        assert gap != [] by { assert 0 + 1 < |gaps|; }
        SplitWordThenSpaces(w, gap, rest);
        assert [w] + words[1..] == words;
      }
    }
  }

  /**
   * A message made of the prefix, any leading whitespace, and words
   * separated by whitespace runs parses to the first word as the command
   * and the others as its arguments.
   */
  lemma ParseRoundTrip(prefix: string, spaces: string, command: string, args: seq<string>, gaps: seq<string>)
    requires AllSpaces(spaces)
    requires AllWords([command] + args) && Separators([command] + args, gaps)
    ensures Parse(prefix, prefix + spaces + Spaced([command] + args, gaps)) == Some(Command(command, args))
  {
    var words := [command] + args;
    var body := spaces + Spaced(words, gaps);
    var msg := prefix + spaces + Spaced(words, gaps);
    assert msg == prefix + body;
    assert msg[|prefix|..] == body;
    assert DropPrefix(prefix, msg) == body;
    SplitSkipsLeadingSpaces(spaces, Spaced(words, gaps));
    SplitSpacedRoundTrip(words, gaps);
    assert Split(body) == words;
    assert words[0] == command && words[1..] == args;
  }

  /** A message that is only the prefix and whitespace has no command. */
  lemma BlankCommandHasNoTokens(prefix: string, spaces: string)
    requires AllSpaces(spaces)
    ensures Parse(prefix, prefix + spaces) == None
  {
    assert DropPrefix(prefix, prefix + spaces) == spaces + [];
    SplitSkipsLeadingSpaces(spaces, []);
  }

  // The long texts are written in pieces so that the verifier can look at their first characters.
  const IntroText: string := "Hello, I am a bot! " + "Use `help commands` to view available commands."
  const CommandsText: string := "\n" + "I post about weekly drawing challenges from /r/MLPDrawingSchool!\n"
  const UnknownTopicText: string := "Unknown help topic!"

  /** `_help`: the reply for the given arguments; each of the three texts identifies its case. */
  function HelpText(args: seq<string>): (r: string)
    ensures r == IntroText <==> args == []
    ensures r == CommandsText <==> args != [] && args[0] == "commands"
    ensures r == UnknownTopicText <==> args != [] && args[0] != "commands"
  {
    assert IntroText[0] == 'H' && CommandsText[0] == '\n' && UnknownTopicText[0] == 'U';
    if args == [] then IntroText
    else if args[0] == "commands" then CommandsText
    else UnknownTopicText
  }

  /** `process`: only `help` has a reply. */
  function Process(cmd: Command): (r: Option<string>)
    ensures r.Some? <==> cmd.command == "help"
    ensures r.Some? ==> r.value == HelpText(cmd.args)
  {
    if cmd.command == "help" then Some(HelpText(cmd.args)) else None
  }

  /** The reply to a command is decided by its name and its first argument; later arguments are ignored. */
  lemma ReplySelection(cmd: Command)
    ensures cmd.command != "help" ==> Process(cmd) == None
    ensures cmd.command == "help" && cmd.args == [] ==> Process(cmd) == Some(IntroText)
    ensures cmd.command == "help" && cmd.args != [] && cmd.args[0] == "commands" ==>
              Process(cmd) == Some(CommandsText)
    ensures cmd.command == "help" && cmd.args != [] && cmd.args[0] != "commands" ==>
              Process(cmd) == Some(UnknownTopicText)
    ensures forall extra :: cmd.args != [] ==>
              Process(Command(cmd.command, cmd.args + extra)) == Process(cmd)
  {
  }

  lemma HelpAndCommandsAreWords()
    ensures IsWord("help") && IsWord("commands")
  {
    assert forall i :: 0 <= i < 4 ==> !IsSpace("help"[i]);
    assert forall i :: 0 <= i < 8 ==> !IsSpace("commands"[i]);
  }

  /**
   * `<prefix>help commands ...` replies with the command description,
   * whatever whitespace separates the words and whatever words follow.
   */
  lemma HelpCommandsMessage(prefix: string, spaces: string, extra: seq<string>, gaps: seq<string>)
    requires AllSpaces(spaces)
    requires AllWords(extra) && Separators(["help"] + (["commands"] + extra), gaps)
    ensures var parsed := Parse(prefix, prefix + spaces + Spaced(["help"] + (["commands"] + extra), gaps));
            parsed.Some? && Process(parsed.value) == Some(CommandsText)
  {
    var args := ["commands"] + extra;
    HelpAndCommandsAreWords();
    assert AllWords(["help"] + args) by {
      forall i | 0 <= i < |["help"] + args| ensures IsWord((["help"] + args)[i]) {
        if i > 1 { assert (["help"] + args)[i] == extra[i - 2]; }
      }
    }
    ParseRoundTrip(prefix, spaces, "help", args, gaps);
  }
}
