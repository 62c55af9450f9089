/** Character classes and string helpers shared by the codec, the session and the
    database layer.  Strings are `seq<char>`; case conversion is ASCII only. */
module Text {

  import opened Basics

  // ---------------------------------------------------------------------------
  // Character classes (nom's `is_alphanum`, `digit1`, `space1`, `is_not`)
  // ---------------------------------------------------------------------------

  predicate IsDigit(c: char) { '0' <= c <= '9' }

  predicate IsAlpha(c: char) { 'a' <= c <= 'z' || 'A' <= c <= 'Z' }

  /** A character of a command token: ASCII alphanumeric or `_`. */
  predicate IsCommandChar(c: char) { IsAlpha(c) || IsDigit(c) || c == '_' }

  /** What nom's `space1` accepts: space or tab. */
  predicate IsBlank(c: char) { c == ' ' || c == '\t' }

  /** A character that may occur inside an argument: anything but blank, CR, LF or `:`. */
  predicate IsArgumentChar(c: char) { c != ' ' && c != '\t' && c != '\r' && c != '\n' && c != ':' }

  predicate NotNewline(c: char) { c != '\n' }

  predicate AllChars(s: string, p: char -> bool) {
    forall i :: 0 <= i < |s| ==> p(s[i])
  }

  /** A well-formed argument token: non-empty and free of separators. */
  predicate IsArgument(a: string) {
    |a| > 0 && AllChars(a, IsArgumentChar)
  }

  /** A well-formed command token. */
  predicate IsCommand(c: string) {
    AllChars(c, IsCommandChar)
  }

  // ---------------------------------------------------------------------------
  // Maximal prefixes (nom's `take_while`)
  // ---------------------------------------------------------------------------

  /** Index of the first character at or after `i` that fails `p` (or `|s|`). */
  function SpanFrom(s: string, p: char -> bool, i: nat): (n: nat)
    requires i <= |s|
    ensures i <= n <= |s|
    ensures forall j :: i <= j < n ==> p(s[j])
    ensures n < |s| ==> !p(s[n])
    decreases |s| - i
  {
    if i == |s| || !p(s[i]) then i else SpanFrom(s, p, i + 1)
  }

  /** Length of the longest prefix of `s` whose characters all satisfy `p`. */
  function Span(s: string, p: char -> bool): (n: nat)
    ensures n <= |s|
    ensures forall i :: 0 <= i < n ==> p(s[i])
    ensures n < |s| ==> !p(s[n])
  {
    SpanFrom(s, p, 0)
  }

  /** The span stops exactly at the first character of `b` when `a` is all `p`. */
  lemma {:induction false} SpanOfPrefix(a: string, b: string, p: char -> bool)
    requires AllChars(a, p)
    requires |b| == 0 || !p(b[0])
    ensures Span(a + b, p) == |a|
    decreases |a|
  {
    assert forall i :: 0 <= i < |a| ==> (a + b)[i] == a[i];
    assert |b| > 0 ==> (a + b)[|a|] == b[0];
  }

  // ---------------------------------------------------------------------------
  // ASCII case conversion (Rust's `to_uppercase` / `to_lowercase` on ASCII)
  // ---------------------------------------------------------------------------

  function UpperChar(c: char): char {
    if 'a' <= c <= 'z' then (c as int - 32) as char else c
  }

  function LowerChar(c: char): char {
    if 'A' <= c <= 'Z' then (c as int + 32) as char else c
  }

  function Upper(s: string): (r: string)
    ensures |r| == |s|
    ensures forall i :: 0 <= i < |s| ==> r[i] == UpperChar(s[i])
  {
    seq(|s|, i requires 0 <= i < |s| => UpperChar(s[i]))
  }

  function Lower(s: string): (r: string)
    ensures |r| == |s|
    ensures forall i :: 0 <= i < |s| ==> r[i] == LowerChar(s[i])
  {
    seq(|s|, i requires 0 <= i < |s| => LowerChar(s[i]))
  }

  // ---------------------------------------------------------------------------
  // Decimal numbers (Rust's `Display` for integers and `str::parse`)
  // ---------------------------------------------------------------------------

  const U32_LIMIT: nat := 0x1_0000_0000
  const USIZE_LIMIT: nat := 0x1_0000_0000_0000_0000

  function DigitChar(d: nat): (c: char)
    requires d < 10
    ensures IsDigit(c)
  {
    ('0' as int + d) as char
  }

  function DigitValue(c: char): (d: nat)
    requires IsDigit(c)
    ensures d < 10
  {
    c as int - '0' as int
  }

  /** Decimal rendering without leading zeros. */
  function NatToString(n: nat): (s: string)
    ensures |s| > 0
    ensures AllChars(s, IsDigit)
    ensures |s| > 1 ==> s[0] != '0'
    decreases n
  {
    if n < 10 then [DigitChar(n)] else NatToString(n / 10) + [DigitChar(n % 10)]
  }

  /** The number a string of decimal digits denotes (leading zeros allowed). */
  function DecimalValue(s: string): nat
    requires AllChars(s, IsDigit)
    decreases |s|
  {
    if |s| == 0 then 0 else 10 * DecimalValue(s[..|s| - 1]) + DigitValue(s[|s| - 1])
  }

  /** Reading back a rendered number gives the number. */
  lemma {:induction false} DecimalRoundTrip(n: nat)
    ensures DecimalValue(NatToString(n)) == n
    decreases n
  {
    if n >= 10 {
      var s := NatToString(n);
      assert s[..|s| - 1] == NatToString(n / 10);
      DecimalRoundTrip(n / 10);
    }
  }

  /** Rust's `s.parse::<usize>()`: an optional `+`, then one or more decimal digits
      denoting a value that fits in 64 bits; anything else is an error (`None`). */
  function ParseUsize(s: string): (r: Option<nat>)
    ensures r.Some? ==> r.value < USIZE_LIMIT
    ensures r.Some? ==> |s| > 0
    ensures |s| > 0 && s[0] != '+' && !IsDigit(s[0]) ==> r.None?
  {
    var t := if |s| > 0 && s[0] == '+' then s[1..] else s;
    if |t| > 0 && AllChars(t, IsDigit) && DecimalValue(t) < USIZE_LIMIT
    then Some(DecimalValue(t))
    else None
  }

  /** A rendered number below 2^64 parses back to itself. */
  lemma ParseUsizeOfRendered(n: nat)
    requires n < USIZE_LIMIT
    ensures ParseUsize(NatToString(n)) == Some(n)
  {
    DecimalRoundTrip(n);
  }

  // ---------------------------------------------------------------------------
  // Joining and splitting
  // ---------------------------------------------------------------------------

  function Concat(ss: seq<string>): (r: string)
    ensures |ss| == 0 ==> r == []
    decreases |ss|
  {
    if |ss| == 0 then [] else Concat(ss[..|ss| - 1]) + ss[|ss| - 1]
  }

  lemma {:induction false} ConcatAppend(a: seq<string>, b: seq<string>)
    ensures Concat(a + b) == Concat(a) + Concat(b)
    decreases |b|
  {
    if |b| == 0 {
      AppendEmpty(a, b);
    } else {
      var init, last := b[..|b| - 1], b[|b| - 1];
      DropLastAppend(a, b);
      assert Concat(a + b) == Concat(a + init) + last;
      ConcatAppend(a, init);
      assert Concat(b) == Concat(init) + last;
    }
  }

  /** The running concatenation: element `k` is the first `k + 1` pieces joined. */
  function RunningConcat(ss: seq<string>): (r: seq<string>)
    ensures |r| == |ss|
    decreases |ss|
  {
    if |ss| == 0 then [] else RunningConcat(ss[..|ss| - 1]) + [Concat(ss)]
  }

  lemma {:induction false} RunningConcatAt(ss: seq<string>, k: nat)
    requires k < |ss|
    ensures RunningConcat(ss)[k] == Concat(ss[..k + 1])
    decreases |ss|
  {
    if k == |ss| - 1 {
      assert ss[..k + 1] == ss;
    } else {
      var init := ss[..|ss| - 1];
      assert RunningConcat(ss)[k] == RunningConcat(init)[k];
      RunningConcatAt(init, k);
      assert init[..k + 1] == ss[..k + 1];
    }
  }

  /** Each element of the running concatenation extends the previous one by one piece. */
  lemma RunningConcatStep(ss: seq<string>, k: nat)
    requires 0 < k < |ss|
    ensures RunningConcat(ss)[k] == RunningConcat(ss)[k - 1] + ss[k]
  {
    RunningConcatAt(ss, k);
    RunningConcatAt(ss, k - 1);
    var upto := ss[..k + 1];
    assert upto[..k] == ss[..k] && upto[k] == ss[k];
  }

  /** The running concatenation starts with the first piece, grows one piece at a time
      and ends with all pieces joined. */
  lemma RunningRules(ss: seq<string>)
    ensures |ss| > 0 ==> RunningConcat(ss)[0] == ss[0]
    ensures forall k :: 0 < k < |ss| ==> RunningConcat(ss)[k] == RunningConcat(ss)[k - 1] + ss[k]
    ensures |ss| > 0 ==> RunningConcat(ss)[|ss| - 1] == Concat(ss)
  {
    if |ss| > 0 {
      RunningConcatAt(ss, 0);
      assert ss[..1] == [ss[0]];
      assert Concat([ss[0]]) == Concat([]) + ss[0];
      RunningConcatAt(ss, |ss| - 1);
      assert ss[..|ss|] == ss;
    }
    forall k | 0 < k < |ss|
      ensures RunningConcat(ss)[k] == RunningConcat(ss)[k - 1] + ss[k]
    {
      RunningConcatStep(ss, k);
    }
  }

  /** `f` applied to every element, in order. */
  function Map<A, B>(f: A -> B, xs: seq<A>): (r: seq<B>)
    ensures |r| == |xs|
    ensures forall i :: 0 <= i < |xs| ==> r[i] == f(xs[i])
  {
    seq(|xs|, i requires 0 <= i < |xs| => f(xs[i]))
  }

  lemma MapAppend<A, B>(f: A -> B, a: seq<A>, b: seq<A>)
    ensures Map(f, a + b) == Map(f, a) + Map(f, b)
  {
    var r := Map(f, a + b);
    forall i | 0 <= i < |r| ensures r[i] == (Map(f, a) + Map(f, b))[i] {
      if i < |a| { assert (a + b)[i] == a[i]; } else { assert (a + b)[i] == b[i - |a|]; }
    }
  }

  /** A non-empty sequence is its head followed by its tail. */
  lemma HeadTail<T>(xs: seq<T>)
    requires |xs| > 0
    ensures [xs[0]] + xs[1..] == xs
  {
  }

  lemma AppendEmpty<T>(a: seq<T>, b: seq<T>)
    requires |b| == 0
    ensures a + b == a
  {
  }

  lemma DropLastAppend<T>(a: seq<T>, b: seq<T>)
    requires |b| > 0
    ensures (a + b)[..|a + b| - 1] == a + b[..|b| - 1]
    ensures (a + b)[|a + b| - 1] == b[|b| - 1]
  {
  }

  lemma ConcatCons(x: string, rest: seq<string>)
    ensures Concat([x] + rest) == x + Concat(rest)
  {
    ConcatAppend([x], rest);
    assert Concat([x]) == Concat([]) + x;
  }

  /** Rust's `slice.join(sep)`. */
  function Join(ss: seq<string>, sep: string): (r: string)
    ensures |ss| == 0 ==> r == []
    ensures |ss| == 1 ==> r == ss[0]
    decreases |ss|
  {
    if |ss| == 0 then []
    else if |ss| == 1 then ss[0]
    else ss[0] + sep + Join(ss[1..], sep)
  }

  /** Rust's `str::split(c)` for a single-character pattern: always at least one piece. */
  function Split(s: string, c: char): (r: seq<string>)
    ensures |r| > 0
    ensures forall i :: 0 <= i < |r| ==> c !in r[i]
    decreases |s|
  {
    var k := Span(s, x => x != c);
    if k == |s| then [s] else [s[..k]] + Split(s[k + 1..], c)
  }

  /** Text without the separator is one piece. */
  lemma SplitNone(s: string, c: char)
    requires c !in s
    ensures Split(s, c) == [s]
  {
    assert AllChars(s, x => x != c);
    SpanOfPrefix(s, [], x => x != c);
    assert s + [] == s;
  }

  /** Text up to the first separator is the first piece. */
  lemma SplitFirst(first: string, c: char, rest: string)
    requires c !in first
    ensures Split(first + [c] + rest, c) == [first] + Split(rest, c)
  {
    var s := first + [c] + rest;
    assert AllChars(first, x => x != c);
    SpanOfPrefix(first, [c] + rest, x => x != c);
    assert s == first + ([c] + rest);
    assert s[..|first|] == first && s[|first| + 1..] == rest;
  }

  /** Splitting a joined list gives the list back when no piece holds the separator. */
  lemma {:induction false} SplitJoin(ss: seq<string>, c: char)
    requires |ss| > 0
    requires forall i :: 0 <= i < |ss| ==> c !in ss[i]
    ensures Split(Join(ss, [c]), c) == ss
    decreases |ss|
  {
    if |ss| == 1 {
      SplitNone(ss[0], c);
    } else {
      var rest := Join(ss[1..], [c]);
      assert Join(ss, [c]) == ss[0] + [c] + rest;
      SplitFirst(ss[0], c, rest);
      SplitJoin(ss[1..], c);
      HeadTail(ss);
    }
  }

  /** Keeps the non-empty strings, in order (the `filter_map` over split pieces). */
  function NonEmpty(ss: seq<string>): (r: seq<string>)
    ensures |r| <= |ss|
    ensures forall i :: 0 <= i < |r| ==> |r[i]| > 0
    ensures forall i :: 0 <= i < |r| ==> r[i] in ss
    decreases |ss|
  {
    if |ss| == 0 then []
    else if |ss[0]| == 0 then NonEmpty(ss[1..])
    else [ss[0]] + NonEmpty(ss[1..])
  }

  lemma {:induction false} NonEmptyKeepsAll(ss: seq<string>)
    requires forall i :: 0 <= i < |ss| ==> |ss[i]| > 0
    ensures NonEmpty(ss) == ss
    decreases |ss|
  {
    if |ss| > 0 {
      NonEmptyKeepsAll(ss[1..]);
      HeadTail(ss);
    }
  }

  // ---------------------------------------------------------------------------
  // Rust's `str::lines`
  // ---------------------------------------------------------------------------

  /** Drops one trailing `\r`, as `lines` does for a line that ended in `\n`. */
  function DropCr(s: string): (r: string)
    ensures |s| > 0 && s[|s| - 1] == '\r' ==> r == s[..|s| - 1]
    ensures !(|s| > 0 && s[|s| - 1] == '\r') ==> r == s
  {
    if |s| > 0 && s[|s| - 1] == '\r' then s[..|s| - 1] else s
  }

  /** Rust's `str::lines`: pieces ended by `\n` (with one `\r` before it dropped); a final
      piece without `\n` is kept as it is; no empty piece after a final `\n`. */
  function Lines(s: string): (r: seq<string>)
    ensures |s| == 0 <==> |r| == 0
    ensures forall i :: 0 <= i < |r| ==> '\n' !in r[i]
    decreases |s|
  {
    if |s| == 0 then []
    else
      var k := Span(s, NotNewline);
      if k == |s| then [s] else [DropCr(s[..k])] + Lines(s[k + 1..])
  }

  /** A well-formed single line: no `\n`, and no `\r` that `lines` would drop. */
  predicate IsPlainLine(l: string) {
    '\n' !in l && !(|l| > 0 && l[|l| - 1] == '\r')
  }

  /** Each line followed by the line end `end`: `\n` as `puts` and the body builder write
      lines, `\r\n` as the server writes its frames and the client its handshake. */
  function Terminate(ls: seq<string>, end: string): (r: string)
    ensures |ls| == 0 ==> |r| == 0
    ensures |end| > 0 && |ls| > 0 ==> |r| > 0
    decreases |ls|
  {
    if |ls| == 0 then [] else ls[0] + end + Terminate(ls[1..], end)
  }

  /** Terminating plain lines with `\n` and reading them back with `lines` is the identity. */
  lemma {:induction false} LinesOfTerminated(ls: seq<string>)
    requires forall i :: 0 <= i < |ls| ==> IsPlainLine(ls[i])
    ensures Lines(Terminate(ls, "\n")) == ls
    decreases |ls|
  {
    if |ls| > 0 {
      var s := Terminate(ls, "\n");
      var l := ls[0];
      assert AllChars(l, NotNewline);
      SpanOfPrefix(l, "\n" + Terminate(ls[1..], "\n"), NotNewline);
      assert s == l + ("\n" + Terminate(ls[1..], "\n"));
      assert s[..|l|] == l;
      assert s[|l| + 1..] == Terminate(ls[1..], "\n");
      assert DropCr(l) == l;
      assert Lines(s) == [l] + Lines(Terminate(ls[1..], "\n"));
      LinesOfTerminated(ls[1..]);
      HeadTail(ls);
    }
  }

  /** One more line at the end adds that line and its line end. */
  lemma {:induction false} TerminateAppend(ls: seq<string>, l: string, end: string)
    ensures Terminate(ls + [l], end) == Terminate(ls, end) + l + end
    decreases |ls|
  {
    if |ls| > 0 {
      assert (ls + [l])[1..] == ls[1..] + [l];
      TerminateAppend(ls[1..], l, end);
    } else {
      assert ls + [l] == [l];
    }
  }

  /** `lines` strips the `\r\n` again: reading back CRLF-ended lines without `\n` in
      them gives the lines, a `\r` inside or at the end of a line included. */
  lemma {:induction false} LinesOfCrlf(ls: seq<string>)
    requires forall i :: 0 <= i < |ls| ==> '\n' !in ls[i]
    ensures Lines(Terminate(ls, "\r\n")) == ls
    decreases |ls|
  {
    if |ls| > 0 {
      var s := Terminate(ls, "\r\n");
      var l := ls[0];
      var rest := Terminate(ls[1..], "\r\n");
      assert AllChars(l + "\r", NotNewline);
      SpanOfPrefix(l + "\r", "\n" + rest, NotNewline);
      assert s == (l + "\r") + ("\n" + rest);
      assert s[..|l| + 1] == l + "\r";
      assert (l + "\r")[..|l|] == l;
      assert s[|l| + 2..] == rest;
      LinesOfCrlf(ls[1..]);
      HeadTail(ls);
    }
  }
}
