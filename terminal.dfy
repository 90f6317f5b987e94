/** The terminal application: a command line whose commands are matched after
    lowercasing and trimming, and a history list that each command either
    extends or clears. */
module TerminalApp {

  const Prompt := "root@nexus:~$ "
  const WelcomeLines: seq<string> := ["Welcome to NexusOS Kernel v1.0.4", "Type \"help\" for commands."]
  const HelpText := "Available commands: help, clear, date, whoami, reboot, ai"
  const WhoamiText := "admin"
  const AiText := "Nexus AI subsystem is active. Access via the Desktop Dock."
  const RebootText := "System reboot initiated..."
  const NotFound := "Command not found: "

  /** The characters JavaScript's `trim` removes: the white space and line
      terminator code points of ECMAScript. */
  predicate IsSpace(c: char) {
    || c == '\t' || c == '\n' || c == '\U{000B}' || c == '\U{000C}' || c == '\r' || c == ' '
    || c == '\U{00A0}' || c == '\U{1680}' || ('\U{2000}' <= c <= '\U{200A}')
    || c == '\U{2028}' || c == '\U{2029}' || c == '\U{202F}' || c == '\U{205F}'
    || c == '\U{3000}' || c == '\U{FEFF}'
  }

  /** `toLowerCase` on one character, for the characters whose lower case is
      exactly one ASCII letter: the capital Latin letters and KELVIN SIGN.
      Every other character is kept. One more character has a lower case that
      contains an ASCII letter: LATIN CAPITAL LETTER I WITH DOT ABOVE becomes
      `i` followed by COMBINING DOT ABOVE, which lengthens the text; it is not
      modelled, and since the combining mark is neither white space nor part
      of any command word, no command matches either way. */
  function LowerChar(c: char): (l: char)
    ensures IsSpace(l) <==> IsSpace(c)
    ensures 'a' <= l <= 'z' <==> ('a' <= c <= 'z' || 'A' <= c <= 'Z' || c == '\U{212A}')
  {
    if 'A' <= c <= 'Z' then (c as int + 32) as char
    else if c == '\U{212A}' then 'k'
    else c
  }

  function ToLower(s: string): (r: string)
    ensures |r| == |s|
  {
    if s == [] then [] else [LowerChar(s[0])] + ToLower(s[1..])
  }

  /** Lowercasing works character by character. */
  lemma {:induction false} ToLowerAt(s: string, i: int)
    requires 0 <= i < |s|
    ensures ToLower(s)[i] == LowerChar(s[i])
  {
    if i > 0 {
      ToLowerAt(s[1..], i - 1);
    }
  }

  lemma ToLowerConcat(a: string, b: string)
    ensures ToLower(a + b) == ToLower(a) + ToLower(b)
  {
    forall i | 0 <= i < |a + b| ensures ToLower(a + b)[i] == (ToLower(a) + ToLower(b))[i] {
      ToLowerAt(a + b, i);
      if i < |a| {
        ToLowerAt(a, i);
      } else {
        ToLowerAt(b, i - |a|);
      }
    }
  }

  /** Lowercasing white space gives white space. */
  lemma ToLowerKeepsSpace(s: string)
    requires forall i | 0 <= i < |s| :: IsSpace(s[i])
    ensures forall i | 0 <= i < |s| :: IsSpace(ToLower(s)[i])
  {
    forall i | 0 <= i < |s| ensures IsSpace(ToLower(s)[i]) {
      ToLowerAt(s, i);
    }
  }

  /** Drops the leading white space: a suffix of `s` that is empty or starts
      with a non-space. */
  function TrimStart(s: string): (r: string)
    ensures |r| <= |s| && r == s[|s| - |r|..]
    ensures r != [] ==> !IsSpace(r[0])
  {
    if s != [] && IsSpace(s[0]) then TrimStart(s[1..]) else s
  }

  /** Everything `TrimStart` drops is white space. */
  lemma {:induction false} TrimStartSpec(s: string)
    ensures forall i | 0 <= i < |s| - |TrimStart(s)| :: IsSpace(s[i])
  {
    if s != [] && IsSpace(s[0]) {
      var t := s[1..];
      TrimStartSpec(t);
      forall i | 0 <= i < |s| - |TrimStart(s)| ensures IsSpace(s[i]) {
        if i > 0 {
          assert s[i] == t[i - 1];
        }
      }
    }
  }

  /** Drops the trailing white space: a prefix of `s` that is empty or ends
      with a non-space. */
  function TrimEnd(s: string): (r: string)
    ensures |r| <= |s| && r == s[..|r|]
    ensures r != [] ==> !IsSpace(r[|r| - 1])
  {
    if s != [] && IsSpace(s[|s| - 1]) then TrimEnd(s[..|s| - 1]) else s
  }

  /** Everything `TrimEnd` drops is white space. */
  lemma {:induction false} TrimEndSpec(s: string)
    ensures forall i | |TrimEnd(s)| <= i < |s| :: IsSpace(s[i])
  {
    if s != [] && IsSpace(s[|s| - 1]) {
      TrimEndSpec(s[..|s| - 1]);
    }
  }

  function Trim(s: string): string {
    TrimEnd(TrimStart(s))
  }

  /** The key the command switch matches on. */
  function Normalize(cmd: string): (key: string)
    ensures |key| <= |cmd|
    ensures key != [] ==> !IsSpace(key[0]) && !IsSpace(key[|key| - 1])
  {
    Trim(ToLower(cmd))
  }

  /** Leading white space is all `TrimStart` removes. */
  lemma {:induction false} TrimStartSkips(p: string, t: string)
    requires forall i | 0 <= i < |p| :: IsSpace(p[i])
    requires t != [] ==> !IsSpace(t[0])
    ensures TrimStart(p + t) == t
  {
    if p == [] {
      assert p + t == t;
    } else {
      assert (p + t)[0] == p[0];
      assert (p + t)[1..] == p[1..] + t;
      TrimStartSkips(p[1..], t);
    }
  }

  /** Trailing white space is all `TrimEnd` removes. */
  lemma {:induction false} TrimEndSkips(t: string, q: string)
    requires forall i | 0 <= i < |q| :: IsSpace(q[i])
    requires t != [] ==> !IsSpace(t[|t| - 1])
    ensures TrimEnd(t + q) == t
  {
    if q == [] {
      assert t + q == t;
    } else {
      assert (t + q)[|t + q| - 1] == q[|q| - 1];
      assert (t + q)[..|t + q| - 1] == t + q[..|q| - 1];
      TrimEndSkips(t, q[..|q| - 1]);
    }
  }

  /** White space around a word, in any amount, is what trimming removes:
      padding `u` with white space on both sides trims back to `u`. */
  lemma TrimPadded(p: string, u: string, q: string)
    requires forall i | 0 <= i < |p| :: IsSpace(p[i])
    requires forall i | 0 <= i < |q| :: IsSpace(q[i])
    requires u != [] ==> !IsSpace(u[0]) && !IsSpace(u[|u| - 1])
    ensures Trim(p + u + q) == u
  {
    if u == [] {
      assert p + u + q == (p + q) + u;
      assert forall i | 0 <= i < |p + q| :: IsSpace((p + q)[i]);
      TrimStartSkips(p + q, u);
      TrimEndSkips(u, []);
      assert u + [] == u;
    } else {
      assert p + u + q == p + (u + q);
      TrimStartSkips(p, u + q);
      TrimEndSkips(u, q);
    }
  }

  /** The switch on the key: what follows the echo line for the command
      `cmd` whose key is `key` (for every key but `clear`, which writes no line
      at all); `now` is the clock's text. */
  function ReplyFor(key: string, cmd: string, now: string): (reply: seq<string>)
    ensures |reply| <= 1
    ensures reply == [] <==> key == ""
  {
    match key
    case "help" => [HelpText]
    case "date" => [now]
    case "whoami" => [WhoamiText]
    case "ai" => [AiText]
    case "reboot" => [RebootText]
    case "" => []
    case _ => [NotFound + cmd]
  }

  function Reply(cmd: string, now: string): seq<string> {
    ReplyFor(Normalize(cmd), cmd, now)
  }

  /** The lines a command other than `clear` adds to the history: its echo
      after the prompt, then its reply. */
  function Transcript(cmd: string, now: string): (lines: seq<string>)
    ensures 1 <= |lines| <= 2 && lines[0] == Prompt + cmd
  {
    [Prompt + cmd] + Reply(cmd, now)
  }

  /** The command switch: the echo of the raw command followed by the reply,
      unless the key is `clear`, which asks for the history to be emptied and
      produces nothing. */
  method Respond(cmd: string, now: string) returns (clear: bool, output: seq<string>)
    ensures clear <==> Normalize(cmd) == "clear"
    ensures clear ==> output == []
    ensures !clear ==> output == Transcript(cmd, now)
  {
    output := [Prompt + cmd];
    clear := false;
    var key := Normalize(cmd);
    match key
    case "help" => output := output + [HelpText];
    case "date" => output := output + [now];
    case "clear" => clear := true; output := [];
    case "whoami" => output := output + [WhoamiText];
    case "ai" => output := output + [AiText];
    case "reboot" => output := output + [RebootText];
    case "" =>
    case _ => output := output + [NotFound + cmd];
  }

  /** Case and surrounding white space do not matter to the switch: a word
      padded with white space on both sides normalises to its lower case. */
  lemma NormalizePadded(p: string, word: string, q: string)
    requires forall i | 0 <= i < |p| :: IsSpace(p[i])
    requires forall i | 0 <= i < |q| :: IsSpace(q[i])
    requires word != [] ==> !IsSpace(word[0]) && !IsSpace(word[|word| - 1])
    ensures Normalize(p + word + q) == ToLower(word)
  {
    ToLowerConcat(p, word);
    ToLowerConcat(p + word, q);
    ToLowerKeepsSpace(p);
    ToLowerKeepsSpace(q);
    if word != [] {
      ToLowerAt(word, 0);
      ToLowerAt(word, |word| - 1);
    }
    TrimPadded(ToLower(p), ToLower(word), ToLower(q));
  }

  /** A word that lowercases to letters neither starts nor ends with white space. */
  lemma LetterEnds(word: string)
    requires word != [] && 'a' <= ToLower(word)[0] <= 'z' && 'a' <= ToLower(word)[|word| - 1] <= 'z'
    ensures !IsSpace(word[0]) && !IsSpace(word[|word| - 1])
  {
    ToLowerAt(word, 0);
    LetterNotSpace(word[0]);
    ToLowerAt(word, |word| - 1);
    LetterNotSpace(word[|word| - 1]);
  }

  /** A character that lowercases to a letter is not white space. */
  lemma LetterNotSpace(c: char)
    requires 'a' <= LowerChar(c) <= 'z'
    ensures !IsSpace(c)
  {
  }

  /** The three commands with a fixed reply. */
  lemma ReplyByKey(key: string, cmd: string, now: string)
    ensures key == "help" ==> ReplyFor(key, cmd, now) == [HelpText]
    ensures key == "whoami" ==> ReplyFor(key, cmd, now) == [WhoamiText]
    ensures key == "ai" ==> ReplyFor(key, cmd, now) == [AiText]
  {
  }

  /** `help`, `whoami` and `ai` each write one fixed line, whatever the case
      of their letters and the white space around them. */
  lemma FixedReplies(p: string, word: string, q: string, now: string)
    requires forall i | 0 <= i < |p| :: IsSpace(p[i])
    requires forall i | 0 <= i < |q| :: IsSpace(q[i])
    requires ToLower(word) in {"help", "whoami", "ai"}
    ensures ToLower(word) == "help" ==> Reply(p + word + q, now) == [HelpText]
    ensures ToLower(word) == "whoami" ==> Reply(p + word + q, now) == [WhoamiText]
    ensures ToLower(word) == "ai" ==> Reply(p + word + q, now) == [AiText]
  {
    LetterEnds(word);
    NormalizePadded(p, word, q);
    ReplyByKey(Normalize(p + word + q), p + word + q, now);
  }

  /** A command that is empty or only white space writes nothing after its echo. */
  lemma BlankInputOnlyEchoes(cmd: string, now: string)
    requires forall i | 0 <= i < |cmd| :: IsSpace(cmd[i])
    ensures Normalize(cmd) == ""
    ensures Reply(cmd, now) == []
  {
    var l := ToLower(cmd);
    ToLowerKeepsSpace(cmd);
    assert l + "" == l;
    TrimStartSkips(l, "");
    TrimEndSkips("", "");
  }

  /** A key that is none of the commands echoes the raw, untrimmed command
      after the not-found text. */
  lemma UnknownCommand(cmd: string, now: string)
    requires Normalize(cmd) !in {"help", "date", "clear", "whoami", "ai", "reboot", ""}
    ensures Reply(cmd, now) == [NotFound + cmd]
  {
  }

  /** The terminal window: its history and the line being typed. */
  class Terminal {
    var history: seq<string>
    var currentLine: string

    constructor ()
      ensures history == WelcomeLines && currentLine == ""
    {
      history := WelcomeLines;
      currentLine := "";
    }

    method HandleCommand(cmd: string, now: string)
      modifies this`history
      ensures Normalize(cmd) == "clear" ==> history == []
      ensures Normalize(cmd) != "clear" ==> history == old(history) + Transcript(cmd, now)
    {
      var clear, output := Respond(cmd, now);
      if clear {
        history := [];
      } else {
        history := history + output;
      }
    }

    /** The input's change handler. */
    method Edit(text: string)
      modifies this`currentLine
      ensures currentLine == text
    {
      currentLine := text;
    }

    /** The input's key handler: Enter runs the typed line and empties it. */
    method KeyDown(key: string, now: string)
      modifies this
      ensures key == "Enter" ==> currentLine == ""
      ensures key == "Enter" && Normalize(old(currentLine)) == "clear" ==> history == []
      ensures key == "Enter" && Normalize(old(currentLine)) != "clear" ==>
        history == old(history) + Transcript(old(currentLine), now)
      ensures key != "Enter" ==> history == old(history) && currentLine == old(currentLine)
    {
      if key == "Enter" {
        HandleCommand(currentLine, now);
        currentLine := "";
      }
    }
  }
}
