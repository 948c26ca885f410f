/**
 The command string the controller sends to the daemon, and the daemon's tokenizer.
 */
module CommandLine {

  predicate QuoteFree(s: string) {
    forall i :: 0 <= i < |s| ==> s[i] != '"'
  }

  /** The text main builds after the leading 'c': every argument in quotes, separated by blanks. */
  function Quoted(args: seq<string>): string {
    if args == [] then ""
    else if |args| == 1 then "\"" + args[0] + "\""
    else "\"" + args[0] + "\" " + Quoted(args[1..])
  }

  lemma {:induction false} QuotedSnoc(args: seq<string>, arg: string)
    ensures Quoted(args + [arg]) == Quoted(args) + (if args == [] then "" else " ") + "\"" + arg + "\""
  {
    if args == [] {
      assert args + [arg] == [arg];
    } else {
      assert (args + [arg])[1..] == args[1..] + [arg];
      QuotedSnoc(args[1..], arg);
    }
  }

  /** main's loop over argv. */
  method BuildCommand(argv: seq<string>) returns (sendcommand: string)
    ensures sendcommand == "c" + Quoted(argv)
  {
    sendcommand := "c";
    var first := true;
    for i := 0 to |argv|
      invariant first <==> i == 0
      invariant sendcommand == "c" + Quoted(argv[..i])
    {
      QuotedSnoc(argv[..i], argv[i]);
      assert argv[..i + 1] == argv[..i] + [argv[i]];
      if first {
        first := false;
      } else {
        sendcommand := sendcommand + " ";
      }
      sendcommand := sendcommand + "\"";
      sendcommand := sendcommand + argv[i];
      sendcommand := sendcommand + "\"";
    }
    assert argv[..|argv|] == argv;
  }

  /** What the tokenizer still has to produce, given the token it is building and whether it is inside quotes. */
  function TokensFrom(token: string, escaped: bool, rest: string): seq<string>
    decreases |rest|
  {
    if rest == "" then (if token == "" then [] else [token])
    else if rest[0] == ' ' && !escaped then [token] + TokensFrom("", false, rest[1..])
    else if rest[0] == '"' then TokensFrom(token, !escaped, rest[1..])
    else TokensFrom(token + [rest[0]], escaped, rest[1..])
  }

  /** Utils::tokenize. */
  method Tokenize(input: string) returns (out: seq<string>)
    ensures out == TokensFrom("", false, input)
  {
    out := [];
    var currentToken := "";
    var escaped := false;
    for i := 0 to |input|
      invariant out + TokensFrom(currentToken, escaped, input[i..]) == TokensFrom("", false, input)
    {
      if input[i] == ' ' && !escaped {
        out := out + [currentToken];
        currentToken := "";
      } else if input[i] == '"' {
        escaped := !escaped;
      } else {
        currentToken := currentToken + [input[i]];
      }
    }
    if currentToken != "" {
      out := out + [currentToken];
    }
  }

  // ---------- What the tokenizer does to any text ----------

  function Quotes(s: string): nat {
    if s == "" then 0 else (if s[0] == '"' then 1 else 0) + Quotes(s[1..])
  }

  /** The text without its quotes. */
  function Unquoted(s: string): string {
    if s == "" then "" else (if s[0] == '"' then "" else [s[0]]) + Unquoted(s[1..])
  }

  /** Every blank stands behind an odd number of quotes, those before the text (`outer`) included. */
  ghost predicate BlanksQuoted(outer: nat, s: string) {
    forall i :: 0 <= i < |s| && s[i] == ' ' ==> (outer + Quotes(s[..i])) % 2 == 1
  }

  lemma BlanksQuotedTail(outer: nat, s: string)
    requires s != "" && BlanksQuoted(outer, s)
    ensures BlanksQuoted(outer + (if s[0] == '"' then 1 else 0), s[1..])
  {
    forall i | 0 <= i < |s[1..]| && s[1..][i] == ' '
      ensures (outer + (if s[0] == '"' then 1 else 0) + Quotes(s[1..][..i])) % 2 == 1
    {
      assert s[i + 1] == ' ';
      assert s[..i + 1][1..] == s[1..][..i];
    }
  }

  /** Text whose blanks are all quoted only extends the token, by what is left of it without quotes. */
  lemma {:induction false} ReadOn(token: string, outer: nat, text: string, rest: string)
    requires BlanksQuoted(outer, text)
    ensures TokensFrom(token, outer % 2 == 1, text + rest)
            == TokensFrom(token + Unquoted(text), (outer + Quotes(text)) % 2 == 1, rest)
    decreases |text|
  {
    if text == "" {
      assert text + rest == rest && token + Unquoted(text) == token;
    } else {
      assert (text + rest)[1..] == text[1..] + rest;
      assert text[..0] == "";
      BlanksQuotedTail(outer, text);
      if text[0] == '"' {
        ReadOn(token, outer + 1, text[1..], rest);
        assert Unquoted(text) == Unquoted(text[1..]);
      } else {
        ReadOn(token + [text[0]], outer, text[1..], rest);
        assert token + [text[0]] + Unquoted(text[1..]) == token + Unquoted(text);
      }
    }
  }

  /** A blank outside of quotes ends a token: what stands before it, without the quotes. */
  lemma CutAtBlank(text: string, rest: string)
    requires BlanksQuoted(0, text) && Quotes(text) % 2 == 0
    ensures TokensFrom("", false, text + " " + rest) == [Unquoted(text)] + TokensFrom("", false, rest)
  {
    ReadOn("", 0, text, " " + rest);
    assert text + " " + rest == text + (" " + rest);
    assert "" + Unquoted(text) == Unquoted(text);
    FirstToken(Unquoted(text), rest);
  }

  /** Without a blank outside of quotes there is one token, or none when nothing is left of the text. */
  lemma LastToken(text: string)
    requires BlanksQuoted(0, text)
    ensures TokensFrom("", false, text) == if Unquoted(text) == "" then [] else [Unquoted(text)]
  {
    ReadOn("", 0, text, "");
    assert text + "" == text && "" + Unquoted(text) == Unquoted(text);
  }

  lemma {:induction false} QuoteFreeText(s: string)
    requires QuoteFree(s)
    ensures Quotes(s) == 0 && Unquoted(s) == s
  {
    if s != "" {
      QuoteFreeText(s[1..]);
    }
  }

  lemma OneArgument(arg: string, rest: string)
    requires QuoteFree(arg)
    ensures TokensFrom("", false, "\"" + arg + "\"" + rest) == TokensFrom(arg, false, rest)
  {
    var s := "\"" + arg + "\"" + rest;
    assert s[1..] == arg + ("\"" + rest);
    forall i | 0 <= i < |arg| ensures Quotes(arg[..i]) == 0 {
      QuoteFreeText(arg[..i]);
    }
    QuoteFreeText(arg);
    ReadOn("", 1, arg, "\"" + rest);
    assert "" + arg == arg;
    assert ("\"" + rest)[1..] == rest;
  }

  lemma FirstToken(token: string, rest: string)
    ensures TokensFrom(token, false, " " + rest) == [token] + TokensFrom("", false, rest)
  {
    assert (" " + rest)[1..] == rest;
  }

  function DropTrailingEmpty(args: seq<string>): seq<string> {
    if args != [] && args[|args| - 1] == "" then args[..|args| - 1] else args
  }

  lemma QuotedCons(args: seq<string>)
    requires |args| > 1
    ensures Quoted(args) == "\"" + args[0] + "\"" + (" " + Quoted(args[1..]))
  {
  }

  /** The daemon receives the controller's arguments, except that one empty argument at the very end is lost. */
  lemma {:induction false} QuotingRoundTrip(args: seq<string>)
    requires args != []
    requires forall i :: 0 <= i < |args| ==> QuoteFree(args[i])
    ensures TokensFrom("", false, Quoted(args)) == DropTrailingEmpty(args)
    ensures TokensFrom("", false, Quoted(args)) == args <==> args[|args| - 1] != ""
    decreases |args|
  {
    if |args| == 1 {
      assert Quoted(args) == "\"" + args[0] + "\"" + "";
      OneArgument(args[0], "");
      assert args == [args[0]];
    } else {
      QuotedCons(args);
      hide TokensFrom, Quoted;
      OneArgument(args[0], " " + Quoted(args[1..]));
      FirstToken(args[0], Quoted(args[1..]));
      QuotingRoundTrip(args[1..]);
      assert args == [args[0]] + args[1..];
    }
  }

  /** The daemon's side: it cuts off the leading 'c' and tokenizes what is left (IPCForDaemon::listen). */
  method SendAndReceive(argv: seq<string>) returns (commands: seq<string>)
    requires argv != []
    requires forall i :: 0 <= i < |argv| ==> QuoteFree(argv[i])
    ensures commands == DropTrailingEmpty(argv)
  {
    var sent := BuildCommand(argv);
    var command := sent[1..];
    assert command == Quoted(argv);
    commands := Tokenize(command);
    QuotingRoundTrip(argv);
  }
}
