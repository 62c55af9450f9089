/** The line grammar of the wire protocol (src/protocol/parser.rs): an optional numeric
    id followed by blanks, an optional `+`/`-` sign, a command token, blank-separated
    arguments and an optional `:` trailing.  Each sub-parser returns what it recognised
    and the input left over, as the nom combinators do. */
module Parser {

  import opened Basics
  import opened Text

  /** Rust's `u32`. */
  type U32 = n: nat | n < 0x1_0000_0000

  datatype Message = Message(
    id: Option<U32>,
    sign: Option<bool>,
    command: string,
    arguments: seq<string>,
    trailing: Option<string>)

  /** The only way `line` fails: a terminated line whose end is not `\r\n` or `\n`. */
  datatype ParseError = ExpectedLineEnd(at: string)

  /** `s` ends with `suffix`. */
  predicate IsSuffix(suffix: string, s: string) {
    |suffix| <= |s| && s[|s| - |suffix|..] == suffix
  }

  lemma SuffixTrans(a: string, b: string, c: string)
    requires IsSuffix(a, b) && IsSuffix(b, c)
    ensures IsSuffix(a, c)
  {
    assert c[|c| - |a|..] == c[|c| - |b|..][|b| - |a|..];
  }

  lemma SuffixOfDrop(a: string, s: string, k: nat)
    requires k <= |s| && IsSuffix(a, s[k..])
    ensures IsSuffix(a, s)
  {
    SuffixTrans(a, s[k..], s);
  }

  /** After the argument list no further ` <argument>` can be read. */
  predicate NoMoreArguments(s: string) {
    var b := Span(s, IsBlank);
    b == 0 || Span(s[b..], IsArgumentChar) == 0
  }

  /** A trailing as the parser delivers it: it never starts with a blank. */
  predicate IsTrailing(t: string) {
    |t| == 0 || !IsBlank(t[0])
  }

  /** The shape of every message `Line` produces. */
  predicate WellFormed(m: Message) {
    && IsCommand(m.command)
    && (forall i :: 0 <= i < |m.arguments| ==> IsArgument(m.arguments[i]))
    && (m.trailing.Some? ==> IsTrailing(m.trailing.value))
  }

  /** `opt(terminated(id, space1))`: a run of digits whose value fits in 32 bits and is
      followed by at least one blank; otherwise nothing is consumed. */
  function Id(s: string): (r: (Option<U32>, string))
    ensures r.0.None? ==> r.1 == s
    ensures |r.1| <= |s|
  {
    var k := Span(s, IsDigit);
    if k == 0 then (None, s)
    else
      var n := DecimalValue(s[..k]);
      var b := Span(s[k..], IsBlank);
      if n < U32_LIMIT && b > 0 then (Some(n), s[k..][b..])
      else (None, s)
  }

  /** What `Id` leaves is a suffix of its input. */
  lemma IdSuffix(s: string)
    ensures IsSuffix(Id(s).1, s)
  {
    var k := Span(s, IsDigit);
    if k > 0 && DecimalValue(s[..k]) < U32_LIMIT && Span(s[k..], IsBlank) > 0 {
      var b := Span(s[k..], IsBlank);
      assert s[k..][b..] == s[k + b..];
    }
  }

  /** The id is present exactly when the line starts with digits, denoting a number below
      2^32, followed by a blank; it is then the value of those digits. */
  lemma IdPresentIff(s: string)
    ensures Id(s).0.Some? <==>
      exists k :: 0 < k < |s| && AllChars(s[..k], IsDigit) && IsBlank(s[k]) && DecimalValue(s[..k]) < U32_LIMIT
    ensures Id(s).0.Some? ==>
      forall k :: 0 < k < |s| && AllChars(s[..k], IsDigit) && IsBlank(s[k]) ==> Id(s).0.value == DecimalValue(s[..k])
  {
    var n := Span(s, IsDigit);
    forall k | 0 < k < |s| && AllChars(s[..k], IsDigit) && IsBlank(s[k])
      ensures n == k
    {
      assert s == s[..k] + s[k..];
      SpanOfPrefix(s[..k], s[k..], IsDigit);
    }
    if Id(s).0.Some? {
      assert 0 < n < |s| && AllChars(s[..n], IsDigit) && IsBlank(s[n]);
    }
  }

  /** `sign`: `+` reads as `true`, `-` as `false`; anything else reads nothing. */
  function Sign(s: string): (r: (Option<bool>, string))
    ensures r.0 == Some(true) <==> |s| > 0 && s[0] == '+'
    ensures r.0 == Some(false) <==> |s| > 0 && s[0] == '-'
    ensures r.0.Some? ==> |s| > 0 && r.1 == s[1..]
    ensures r.0.None? ==> r.1 == s
  {
    if |s| > 0 && s[0] == '+' then (Some(true), s[1..])
    else if |s| > 0 && s[0] == '-' then (Some(false), s[1..])
    else (None, s)
  }

  /** `command`: the longest, possibly empty, prefix of command characters. */
  function Command(s: string): (r: (string, string))
    ensures s == r.0 + r.1
    ensures IsCommand(r.0)
    ensures |r.1| == 0 || !IsCommandChar(r.1[0])
  {
    var k := Span(s, IsCommandChar);
    assert s == s[..k] + s[k..];
    (s[..k], s[k..])
  }

  /** `arguments`: `many0(preceded(space1, is_not(" \t\r\n:")))`, the blank-led
      arguments in input order and the input after the last of them. */
  function Arguments(s: string): (r: (seq<string>, string))
    ensures |r.1| <= |s|
    decreases |s|
  {
    var b := Span(s, IsBlank);
    if b == 0 then ([], s)
    else
      var a := Span(s[b..], IsArgumentChar);
      if a == 0 then ([], s)
      else
        var more := Arguments(s[b + a..]);
        ([s[b..][..a]] + more.0, more.1)
  }

  /** One step of `many0`: a blank run and a non-empty argument run are consumed. */
  lemma ArgumentsUnfold(s: string)
    requires Span(s, IsBlank) > 0
    requires Span(s[Span(s, IsBlank)..], IsArgumentChar) > 0
    ensures var b := Span(s, IsBlank);
            var a := Span(s[b..], IsArgumentChar);
            Arguments(s) == ([s[b..][..a]] + Arguments(s[b + a..]).0, Arguments(s[b + a..]).1)
  {
  }

  /** The argument run that step consumes is an argument token. */
  lemma ArgumentRunIsArgument(s: string, a: nat)
    requires 0 < a <= |s|
    requires forall i :: 0 <= i < a ==> IsArgumentChar(s[i])
    ensures IsArgument(s[..a])
  {
    var arg := s[..a];
    forall i | 0 <= i < |arg| ensures IsArgumentChar(arg[i]) {
      assert arg[i] == s[i];
    }
  }

  /** The parser stops only where no further argument can be read, and what it leaves
      is a suffix of its input, the whole input exactly when no argument was read. */
  lemma {:induction false} ArgumentsRest(s: string)
    ensures var r := Arguments(s);
            && IsSuffix(r.1, s)
            && (|r.0| == 0 <==> r.1 == s)
            && NoMoreArguments(r.1)
    decreases |s|
  {
    var b := Span(s, IsBlank);
    if b == 0 {
      assert Arguments(s) == ([], s);
    } else {
      var a := Span(s[b..], IsArgumentChar);
      if a == 0 {
        assert Arguments(s) == ([], s);
      } else {
        ArgumentsUnfold(s);
        var more := Arguments(s[b + a..]);
        ArgumentsRest(s[b + a..]);
        SuffixOfDrop(more.1, s, b + a);
        assert Arguments(s).1 == more.1;
        assert |Arguments(s).0| > 0;
        assert |more.1| < |s|;
      }
    }
  }

  /** Every argument is a non-empty run without blank, CR, LF or `:`. */
  lemma {:induction false} ArgumentsTokens(s: string)
    ensures forall i :: 0 <= i < |Arguments(s).0| ==> IsArgument(Arguments(s).0[i])
    decreases |s|
  {
    var b := Span(s, IsBlank);
    if b == 0 {
      assert Arguments(s) == ([], s);
    } else {
      var a := Span(s[b..], IsArgumentChar);
      if a == 0 {
        assert Arguments(s) == ([], s);
      } else {
        ArgumentsUnfold(s);
        ArgumentRunIsArgument(s[b..], a);
        var more := Arguments(s[b + a..]).0;
        ArgumentsTokens(s[b + a..]);
        var args := Arguments(s).0;
        assert args == [s[b..][..a]] + more;
        forall i | 0 <= i < |args| ensures IsArgument(args[i]) {
          if i > 0 { assert args[i] == more[i - 1]; }
        }
      }
    }
  }

  /** `opt(preceded((opt(space1), char(':')), trailing))`: optional blanks, a colon, then
      optional blanks and the whole rest of the input.  The predicate the source hands to
      `take_while` (`c != '\r' || c != '\n'`) holds of every character, so the trailing
      takes CR and LF too and nothing is left over. */
  function Trailing(s: string): (r: (Option<string>, string))
    ensures r.0.None? ==> r.1 == s
    ensures r.0.Some? ==> r.1 == []
  {
    var b := Span(s, IsBlank);
    if b < |s| && s[b] == ':' then
      var t := s[b + 1..];
      (Some(t[Span(t, IsBlank)..]), [])
    else (None, s)
  }

  /** A trailing is present exactly when blanks and then `:` start the input; its value
      is the rest of the input after the colon minus leading blanks, so it never starts
      with a blank and may hold CR and LF. */
  lemma TrailingFacts(s: string)
    ensures Trailing(s).0.Some? <==> Span(s, IsBlank) < |s| && s[Span(s, IsBlank)] == ':'
    ensures Trailing(s).0.Some? ==> IsSuffix(Trailing(s).0.value, s) && IsTrailing(Trailing(s).0.value)
    ensures IsSuffix(Trailing(s).1, s)
  {
    var b := Span(s, IsBlank);
    if b < |s| && s[b] == ':' {
      var t := s[b + 1..];
      var b2 := Span(t, IsBlank);
      assert t[b2..] == s[b + 1 + b2..];
      assert s[|s|..] == [];
    }
  }

  /** `crlf`: `\r\n` or `\n`; `None` when neither starts the input. */
  function LineEnd(s: string): (r: Option<string>)
    ensures r.Some? <==> (|s| >= 2 && s[..2] == "\r\n") || (|s| >= 1 && s[0] == '\n')
    ensures r.Some? ==> IsSuffix(r.value, s) && |r.value| < |s|
  {
    if |s| >= 2 && s[..2] == "\r\n" then Some(s[2..])
    else if |s| >= 1 && s[0] == '\n' then Some(s[1..])
    else None
  }

  /** Id, sign and command: the part of a line before its arguments. */
  function Head(input: string): (r: (Option<U32>, Option<bool>, string, string)) {
    var i := Id(input);
    var g := Sign(i.1);
    var c := Command(g.1);
    (i.0, g.0, c.0, c.1)
  }

  lemma HeadFacts(input: string)
    ensures IsCommand(Head(input).2)
    ensures IsSuffix(Head(input).3, input)
  {
    IdSuffix(input);
    var s1 := Id(input).1;
    var s2 := Sign(s1).1;
    var c := Command(s2);
    assert IsSuffix(s2, s1) by {
      if Sign(s1).0.Some? { assert s1[|s1| - |s2|..] == s1[1..]; }
    }
    assert IsSuffix(c.1, s2) by {
      assert s2[|s2| - |c.1|..] == (c.0 + c.1)[|c.0|..];
    }
    SuffixTrans(s2, s1, input);
    SuffixTrans(c.1, s2, input);
  }

  /** Arguments and trailing: the part of a line after its command. */
  function Tail(s: string): (r: (seq<string>, Option<string>, string)) {
    var a := Arguments(s);
    var t := Trailing(a.1);
    (a.0, t.0, t.1)
  }

  lemma TailFacts(s: string)
    ensures forall i :: 0 <= i < |Tail(s).0| ==> IsArgument(Tail(s).0[i])
    ensures Tail(s).1.Some? ==> IsTrailing(Tail(s).1.value) && Tail(s).2 == []
    ensures IsSuffix(Tail(s).2, s)
  {
    ArgumentsRest(s);
    ArgumentsTokens(s);
    TrailingFacts(Arguments(s).1);
    SuffixTrans(Tail(s).2, Arguments(s).1, s);
  }

  /** The message recognised at the start of `input`, and the input left after it,
      before any line end is required. */
  function Parts(input: string): (r: (Message, string)) {
    var h := Head(input);
    var t := Tail(h.3);
    (Message(h.0, h.1, h.2, t.0, t.1), t.2)
  }

  lemma PartsFacts(input: string)
    ensures WellFormed(Parts(input).0)
    ensures IsSuffix(Parts(input).1, input)
    ensures Parts(input).0.trailing.Some? ==> Parts(input).1 == []
  {
    HeadFacts(input);
    TailFacts(Head(input).3);
    SuffixTrans(Parts(input).1, Head(input).3, input);
  }

  /** `line(input, terminated_)`: on success, the input left over and the message.
      Unterminated, it never fails; terminated, it fails on every line with a trailing,
      since the trailing leaves no input for the line end. */
  function Line(input: string, terminated: bool): (r: Result<(string, Message), ParseError>)
    ensures !terminated ==> r.Ok?
    ensures r.Ok? && r.value.1.trailing.Some? ==> !terminated
  {
    var p := Parts(input);
    if terminated then
      match LineEnd(p.1)
      case Some(after) => Ok((after, p.0))
      case None => Err(ExpectedLineEnd(p.1))
    else Ok((p.1, p.0))
  }

  /** Every message `Line` produces is well formed, and what it leaves is a suffix of the
      input, empty when there is a trailing. */
  lemma LineFacts(input: string, terminated: bool)
    requires Line(input, terminated).Ok?
    ensures WellFormed(Line(input, terminated).value.1)
    ensures IsSuffix(Line(input, terminated).value.0, input)
    ensures Line(input, terminated).value.1.trailing.Some? ==> Line(input, terminated).value.0 == []
  {
    PartsFacts(input);
    if terminated {
      SuffixTrans(Line(input, terminated).value.0, Parts(input).1, input);
    }
  }
}
