/** How the reply formatter and the line parser fit together, and the behaviour of the
    parser on the particular inputs the source and its test rely on. */
module CodecLaws {

  import opened Basics
  import opened Text
  import opened Parser
  import opened Reply

  /** Each argument preceded by one space. */
  function Spaced(arguments: seq<string>): string
    decreases |arguments|
  {
    if |arguments| == 0 then "" else " " + arguments[0] + Spaced(arguments[1..])
  }

  lemma {:induction false} ArgumentsTextIsSpaced(arguments: seq<string>)
    ensures ArgumentsText(arguments) == Spaced(arguments)
    decreases |arguments|
  {
    if |arguments| >= 2 {
      ArgumentsTextIsSpaced(arguments[1..]);
      assert arguments[1..][1..] == arguments[2..];
    }
  }

  /** One step of the argument parser over ` <argument>` followed by a non-argument. */
  lemma ArgumentStep(s: string, a: string, more: string)
    requires s == " " + (a + more)
    requires IsArgument(a)
    requires |more| == 0 || !IsArgumentChar(more[0])
    ensures Arguments(s) == ([a] + Arguments(more).0, Arguments(more).1)
  {
    assert AllChars(" ", IsBlank);
    SpanOfPrefix(" ", a + more, IsBlank);
    SpanOfPrefix(a, more, IsArgumentChar);
    assert s[1..] == a + more;
    assert s[1..][..|a|] == a;
    assert s[1 + |a|..] == more;
  }

  /** A spaced list with text after it, split at its first argument. */
  lemma SpacedCons(arguments: seq<string>, rest: string)
    requires |arguments| > 0
    requires |rest| == 0 || !IsArgumentChar(rest[0])
    ensures Spaced(arguments) + rest == " " + (arguments[0] + (Spaced(arguments[1..]) + rest))
    ensures var more := Spaced(arguments[1..]) + rest; |more| == 0 || !IsArgumentChar(more[0])
  {
    if |arguments| > 1 {
      assert (Spaced(arguments[1..]) + rest)[0] == ' ';
    } else {
      assert Spaced(arguments[1..]) + rest == rest;
    }
  }

  /** The inductive step of `ArgumentsOfSpaced`: one more argument in front. */
  lemma ArgumentsOfSpacedStep(arguments: seq<string>, rest: string)
    requires |arguments| > 0 && IsArgument(arguments[0])
    requires |rest| == 0 || !IsArgumentChar(rest[0])
    requires Arguments(Spaced(arguments[1..]) + rest) == (arguments[1..], rest)
    ensures Arguments(Spaced(arguments) + rest) == (arguments, rest)
  {
    var a, tail := arguments[0], arguments[1..];
    var more := Spaced(tail) + rest;
    var s := Spaced(arguments) + rest;
    SpacedCons(arguments, rest);
    ArgumentStep(s, a, more);
    HeadTail(arguments);
  }

  /** The argument parser reads back exactly the arguments laid out one space apart, as
      long as the text after them cannot be read as one more argument. */
  lemma {:induction false} ArgumentsOfSpaced(arguments: seq<string>, rest: string)
    requires forall i :: 0 <= i < |arguments| ==> IsArgument(arguments[i])
    requires |rest| == 0 || !IsArgumentChar(rest[0])
    requires NoMoreArguments(rest)
    ensures Arguments(Spaced(arguments) + rest) == (arguments, rest)
    decreases |arguments|
  {
    if |arguments| == 0 {
      assert Spaced(arguments) + rest == rest;
      assert Arguments(rest) == ([], rest);
    } else {
      var tail := arguments[1..];
      assert forall i :: 0 <= i < |tail| ==> IsArgument(tail[i]) by {
        forall i | 0 <= i < |tail| ensures IsArgument(tail[i]) {
          assert tail[i] == arguments[i + 1];
        }
      }
      ArgumentsOfSpaced(tail, rest);
      ArgumentsOfSpacedStep(arguments, rest);
    }
  }

  lemma TrailingOfText(trailing: Option<string>)
    requires trailing.Some? ==> IsTrailing(trailing.value)
    ensures Trailing(TrailingText(trailing)) == (trailing, [])
  {
    if trailing.Some? {
      var t := trailing.value;
      var s := TrailingText(trailing);
      assert s == " " + (":" + (" " + t));
      assert AllChars(" ", IsBlank);
      SpanOfPrefix(" ", ":" + (" " + t), IsBlank);
      assert s[2..] == " " + t;
      SpanOfPrefix(" ", t, IsBlank);
      assert s[2..][1..] == t;
    }
  }

  /** The text after a rendered command cannot be read as one more argument. */
  lemma TrailingTextStopsArguments(trailing: Option<string>)
    ensures var s := TrailingText(trailing);
            (|s| == 0 || !IsArgumentChar(s[0])) && NoMoreArguments(s)
  {
    var s := TrailingText(trailing);
    if trailing.Some? {
      assert s == " " + (":" + (" " + trailing.value));
      assert AllChars(" ", IsBlank);
      SpanOfPrefix(" ", ":" + (" " + trailing.value), IsBlank);
      assert s[1..][0] == ':';
    }
  }

  /** The parser reads the sign and command of a reply and stops where its arguments
      begin. */
  lemma HeadOfSigned(success: bool, command: string, tail: string)
    requires IsCommand(command)
    requires |tail| == 0 || tail[0] == ' '
    ensures Head([SignChar(success)] + command + tail) == (None, Some(success), command, tail)
  {
    var s := [SignChar(success)] + command + tail;
    assert s[0] == SignChar(success);
    assert !IsDigit(s[0]);
    assert Id(s) == (None, s);
    assert s[1..] == command + tail;
    assert Sign(s) == (Some(success), command + tail);
    SpanOfPrefix(command, tail, IsCommandChar);
    assert (command + tail)[..|command|] == command;
    assert (command + tail)[|command|..] == tail;
    assert Command(command + tail) == (command, tail);
  }

  /** The parser reads back the rendered arguments and trailing and leaves nothing. */
  lemma TailOfRendered(arguments: seq<string>, trailing: Option<string>)
    requires forall i :: 0 <= i < |arguments| ==> IsArgument(arguments[i])
    requires trailing.Some? ==> IsTrailing(trailing.value)
    ensures Tail(ArgumentsText(arguments) + TrailingText(trailing)) == (arguments, trailing, [])
  {
    ArgumentsTextIsSpaced(arguments);
    TrailingTextStopsArguments(trailing);
    ArgumentsOfSpaced(arguments, TrailingText(trailing));
    TrailingOfText(trailing);
  }

  /** The rendered arguments and trailing start with a blank unless both are absent. */
  lemma AfterStartsBlank(arguments: seq<string>, trailing: Option<string>)
    ensures var t := After(arguments, trailing); |t| == 0 || t[0] == ' '
  {
    if |arguments| == 0 { assert After(arguments, trailing) == TrailingText(trailing); }
  }

  /** The part of a reply after its id: the parser finds the sign, command, arguments and
      trailing in it and leaves nothing. */
  lemma SignedParts(success: bool, command: string, arguments: seq<string>,
                    trailing: Option<string>)
    requires IsCommand(command)
    requires forall i :: 0 <= i < |arguments| ==> IsArgument(arguments[i])
    requires trailing.Some? ==> IsTrailing(trailing.value)
    ensures Parts(Signed(success, command, arguments, trailing))
         == (Message(None, Some(success), command, arguments, trailing), [])
  {
    AfterStartsBlank(arguments, trailing);
    HeadOfSigned(success, command, After(arguments, trailing));
    TailOfRendered(arguments, trailing);
  }

  /** The id parser reads back a rendered id and stops at the first character after its
      blank, provided that character is neither a digit nor a blank. */
  lemma IdOfRendered(id: Option<U32>, s: string)
    requires |s| > 0 && !IsDigit(s[0]) && !IsBlank(s[0])
    ensures Id(IdText(id) + s) == (id, s)
  {
    match id {
      case None =>
        assert IdText(id) + s == s;
      case Some(n) =>
        var digits := NatToString(n);
        var line := digits + (" " + s);
        assert IdText(id) + s == line;
        SpanOfPrefix(digits, " " + s, IsDigit);
        assert line[..|digits|] == digits;
        DecimalRoundTrip(n);
        assert line[|digits|..] == " " + s;
        assert AllChars(" ", IsBlank);
        SpanOfPrefix(" ", s, IsBlank);
        assert line[|digits| + 1..] == s;
    }
  }

  /** Parsing past an id is parsing what follows it, with the id filled in, when no second
      id can be read there. */
  lemma PartsAfterId(input: string)
    requires Id(Id(input).1).0.None?
    ensures var s := Id(input).1;
            Parts(input) == (Parts(s).0.(id := Id(input).0), Parts(s).1)
  {
  }

  /** Round trip: a reply, read back without its final `\r\n` by the unterminated
      parser, yields the same id, sign, command, arguments and trailing.  The command
      must be a command token (possibly empty), every argument a non-empty run without
      blank, CR, LF or `:`, and the trailing must not start with a blank; the trailing
      may hold anything else, CR and LF included. */
  lemma FormatThenParse(id: Option<U32>, success: bool, command: string,
                        arguments: seq<string>, trailing: Option<string>)
    requires IsCommand(command)
    requires forall i :: 0 <= i < |arguments| ==> IsArgument(arguments[i])
    requires trailing.Some? ==> IsTrailing(trailing.value)
    ensures var r := Format(id, success, command, arguments, trailing);
            Line(Body(r), false) == Ok(([], Message(id, Some(success), command, arguments, trailing)))
  {
    var signed := Signed(success, command, arguments, trailing);
    var line := IdText(id) + signed;
    BodyOfFormat(id, success, command, arguments, trailing);
    assert signed[0] == SignChar(success);
    IdOfRendered(id, signed);
    IdOfRendered(None, signed);
    PartsAfterId(line);
    SignedParts(success, command, arguments, trailing);
  }

  /** Formatting what the parser read from a signed line, and parsing that again, gives
      the same message: the round trip holds for every message the parser produces. */
  lemma ParseFormatParse(input: string)
    requires Line(input, false).Ok? && Line(input, false).value.1.sign.Some?
    ensures var m := Line(input, false).value.1;
            var r := Format(m.id, m.sign.value, m.command, m.arguments, m.trailing);
            Line(Body(r), false) == Ok(([], m))
  {
    LineFacts(input, false);
    var m := Line(input, false).value.1;
    FormatThenParse(m.id, m.sign.value, m.command, m.arguments, m.trailing);
  }

  /** Text whose first character is not a command character, a blank or `:` yields no
      command, no arguments and no trailing. */
  lemma NothingReadable(rest: string)
    requires |rest| > 0 && !IsCommandChar(rest[0]) && !IsBlank(rest[0]) && rest[0] != ':'
    ensures Command(rest) == ([], rest)
    ensures Tail(rest) == ([], None, rest)
  {
    assert Span(rest, IsCommandChar) == 0;
    assert Arguments(rest) == ([], rest);
    assert Trailing(rest) == (None, rest);
  }

  lemma SignedNothingReadable(success: bool, command: string, after: string)
    requires |command| > 0 && !IsCommandChar(command[0]) && !IsBlank(command[0]) && command[0] != ':'
    ensures Parts([SignChar(success)] + command + after)
         == (Message(None, Some(success), "", [], None), command + after)
  {
    var rest := command + after;
    var signed := [SignChar(success)] + command + after;
    assert signed[1..] == rest;
    assert Id(signed) == (None, signed);
    assert Sign(signed) == (Some(success), rest);
    NothingReadable(rest);
  }

  /** The round trip fails for a command that starts with a character the command parser
      does not take (nor a blank or `:`): the parser reads the sign, an empty command, no
      arguments and no trailing, and leaves the whole command and what follows unread. */
  lemma UnreadableCommand(id: Option<U32>, success: bool, command: string,
                          arguments: seq<string>, trailing: Option<string>)
    requires |command| > 0 && !IsCommandChar(command[0])
    requires !IsBlank(command[0]) && command[0] != ':'
    ensures Line(Body(Format(id, success, command, arguments, trailing)), false)
         == Ok((command + After(arguments, trailing), Message(id, Some(success), "", [], None)))
  {
    var signed := Signed(success, command, arguments, trailing);
    BodyOfFormat(id, success, command, arguments, trailing);
    IdOfRendered(id, signed);
    IdOfRendered(None, signed);
    PartsAfterId(IdText(id) + signed);
    SignedNothingReadable(success, command, After(arguments, trailing));
  }
}
