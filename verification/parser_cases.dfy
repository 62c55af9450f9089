/** The parser on the particular inputs the protocol relies on: lines the server writes to
    its subscribers, lines with a trailing, and lines the id parser declines. */
module ParserCases {

  import opened Basics
  import opened Text
  import opened Parser

  /** Without an id, a line starting with a command character reads no sign and the whole
      command token. */
  lemma UnsignedHead(command: string, tail: string)
    requires |command| > 0 && IsCommand(command)
    requires |tail| == 0 || !IsCommandChar(tail[0])
    requires Id(command + tail).0.None?
    ensures Head(command + tail) == (None, None, command, tail)
  {
    var s := command + tail;
    assert s[0] == command[0];
    assert Sign(s) == (None, s);
    SpanOfPrefix(command, tail, IsCommandChar);
    assert s[..|command|] == command && s[|command|..] == tail;
  }

  /** Input that does not start with a blank holds no arguments. */
  lemma NoArguments(s: string)
    requires |s| == 0 || !IsBlank(s[0])
    ensures Arguments(s) == ([], s)
  {
    assert Span(s, IsBlank) == 0;
  }

  /** A colon, possibly after blanks, starts the trailing: the rest of the input after
      any blanks that follow the colon. */
  lemma ColonTrailing(before: string, after: string, t: string)
    requires AllChars(before, IsBlank) && AllChars(after, IsBlank)
    requires IsTrailing(t)
    ensures Trailing(before + (":" + (after + t))) == (Some(t), [])
  {
    var s := before + (":" + (after + t));
    SpanOfPrefix(before, ":" + (after + t), IsBlank);
    assert s[|before|] == ':';
    assert s[|before| + 1..] == after + t;
    SpanOfPrefix(after, t, IsBlank);
    assert (after + t)[|after|..] == t;
  }

  /** The `empty_trailing` test: a colon right after the command gives an empty trailing. */
  lemma EmptyTrailing()
    ensures Line("BODY:", false) == Ok(([], Message(None, None, "BODY", [], Some(""))))
  {
    assert "BODY:" == "BODY" + ":";
    assert Id("BODY:") == (None, "BODY:");
    UnsignedHead("BODY", ":");
    NoArguments(":");
    ColonTrailing("", "", "");
    assert "" + (":" + ("" + "")) == ":";
  }

  /** A blank before the colon changes nothing. */
  lemma EmptyTrailingAfterBlank()
    ensures Line("BODY :", false) == Ok(([], Message(None, None, "BODY", [], Some(""))))
  {
    assert "BODY :" == "BODY" + " :";
    assert Id("BODY :") == (None, "BODY :");
    UnsignedHead("BODY", " :");
    assert Span(" :", IsBlank) == 1;
    assert Span(" :"[1..], IsArgumentChar) == 0;
    assert Arguments(" :") == ([], " :");
    ColonTrailing(" ", "", "");
    assert " " + (":" + ("" + "")) == " :";
  }

  /** A line starting with `$` (the subscriber frame lines) has no id, no sign, an empty
      command, no arguments and no trailing, and nothing of it is consumed. */
  lemma DollarLine(s: string)
    requires |s| > 0 && s[0] == '$'
    ensures Line(s, false) == Ok((s, Message(None, None, "", [], None)))
  {
    assert Id(s) == (None, s);
    assert Sign(s) == (None, s);
    assert Span(s, IsCommandChar) == 0;
    assert s[..0] == "" && s[0..] == s;
    assert Command(s) == ("", s);
    NoArguments(s);
    assert Trailing(s) == (None, s);
  }

  /** Digits not followed by a blank are no id: they start the command. */
  lemma DigitsStartCommand()
    ensures Line("123abc", false) == Ok(([], Message(None, None, "123abc", [], None)))
  {
    var s := "123abc";
    SpanOfPrefix("123", "abc", IsDigit);
    assert s == "123" + "abc";
    assert s[3..] == "abc";
    assert Id(s) == (None, s);
    assert AllChars(s, IsCommandChar);
    assert s + "" == s;
    UnsignedHead(s, "");
    NoArguments("");
    assert Trailing("") == (None, "");
  }

  /** The trailing runs to the end of the input, whatever it holds: the predicate meant
      to stop it at CR or LF holds for every character, so a line end becomes part of it. */
  lemma TrailingSwallowsAll(command: string, t: string)
    requires |command| > 0 && IsCommand(command) && !IsDigit(command[0])
    requires IsTrailing(t)
    ensures Line(command + (" : " + t), false)
         == Ok(([], Message(None, None, command, [], Some(t))))
  {
    var tail := " : " + t;
    var s := command + tail;
    assert s[0] == command[0];
    assert Id(s) == (None, s);
    UnsignedHead(command, tail);
    assert Span(tail, IsBlank) == 1 by {
      assert AllChars(" ", IsBlank);
      SpanOfPrefix(" ", ":" + " " + t, IsBlank);
      assert tail == " " + (":" + " " + t);
    }
    assert tail[1..][0] == ':';
    assert Arguments(tail) == ([], tail);
    assert AllChars(" ", IsBlank);
    ColonTrailing(" ", " ", t);
    assert " " + (":" + (" " + t)) == tail;
  }

  lemma TrailingKeepsLineEnd()
    ensures Line("TITLE : hi\r\n", false)
         == Ok(([], Message(None, None, "TITLE", [], Some("hi\r\n"))))
  {
    TrailingSwallowsAll("TITLE", "hi\r\n");
    assert "TITLE" + (" : " + "hi\r\n") == "TITLE : hi\r\n";
  }

  /** Terminated parsing succeeds exactly when there is no trailing and a line end follows
      the arguments; so no line with a trailing ever parses terminated. */
  lemma TerminatedIff(input: string)
    ensures Line(input, true).Ok? <==> Parts(input).0.trailing.None? && LineEnd(Parts(input).1).Some?
  {
    PartsFacts(input);
  }
}
