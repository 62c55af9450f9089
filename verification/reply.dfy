/** The reply envelope the server writes (`reply` in src/bin/notificationd/protocol/mod.rs):
    `[<id> ]<+|-><command>[ <arg> <arg> ...][ : <trailing>]\r\n`. */
module Reply {

  import opened Basics
  import opened Text
  import opened Parser

  function IdText(id: Option<U32>): string {
    match id
    case Some(n) => NatToString(n) + " "
    case None => ""
  }

  function SignChar(success: bool): char {
    if success then '+' else '-'
  }

  function ArgumentsText(arguments: seq<string>): string {
    if |arguments| == 0 then "" else " " + Join(arguments, " ")
  }

  function TrailingText(trailing: Option<string>): string {
    match trailing
    case Some(t) => " : " + t
    case None => ""
  }

  /** Arguments and trailing as rendered after the command. */
  function After(arguments: seq<string>, trailing: Option<string>): string {
    ArgumentsText(arguments) + TrailingText(trailing)
  }

  /** The reply from its sign on, without the line end. */
  function Signed(success: bool, command: string, arguments: seq<string>,
                  trailing: Option<string>): string
  {
    [SignChar(success)] + command + After(arguments, trailing)
  }

  /** The rendered reply. */
  function Format(id: Option<U32>, success: bool, command: string, arguments: seq<string>,
                  trailing: Option<string>): (r: string)
    ensures |r| >= 2 && r[|r| - 2..] == "\r\n"
    ensures id.None? ==> r[0] == (if success then '+' else '-')
    ensures id.Some? ==> && |r| > |NatToString(id.value)| + 1
                         && r[..|NatToString(id.value)| + 1] == NatToString(id.value) + " "
                         && r[|NatToString(id.value)| + 1] == (if success then '+' else '-')
  {
    var head := IdText(id);
    var signed := Signed(success, command, arguments, trailing);
    var r := head + signed + "\r\n";
    assert r[|r| - 2..] == "\r\n";
    assert r[|head|] == signed[0] == SignChar(success);
    assert id.Some? ==> r[..|NatToString(id.value)| + 1] == head;
    r
  }

  /** The text of a reply without its final `\r\n`: what a line reader hands the parser. */
  function Body(r: string): string
    requires |r| >= 2
  {
    r[..|r| - 2]
  }

  /** What a line reader hands the parser for a reply: the id text and the signed part. */
  lemma BodyOfFormat(id: Option<U32>, success: bool, command: string, arguments: seq<string>,
                     trailing: Option<string>)
    ensures Body(Format(id, success, command, arguments, trailing))
         == IdText(id) + Signed(success, command, arguments, trailing)
  {
    var x := IdText(id) + Signed(success, command, arguments, trailing);
    assert Format(id, success, command, arguments, trailing) == x + "\r\n";
    assert (x + "\r\n")[..|x|] == x;
  }

  /** The text after the command: empty exactly when there are no arguments and no
      trailing, otherwise space-led, and ending in ` : ` and the trailing when there is one. */
  lemma AfterLayout(arguments: seq<string>, trailing: Option<string>)
    ensures var a := After(arguments, trailing);
            && (|a| == 0 <==> |arguments| == 0 && trailing.None?)
            && (|a| > 0 ==> a[0] == ' ')
            && (trailing.Some? ==>
                  |a| >= 3 + |trailing.value| && a[|a| - 3 - |trailing.value|..] == " : " + trailing.value)
  {
    var a := After(arguments, trailing);
    if trailing.Some? {
      var t := " : " + trailing.value;
      assert a == ArgumentsText(arguments) + t;
      assert a[|a| - |t|..] == t;
    }
  }

  lemma Regroup(x: string, y: string, z: string, w: string)
    ensures x + (y + z + w) == (x + y + z) + w
  {
  }

  /** Text put after a head keeps the head in front, and the facts about its start and
      its end carry over. */
  lemma AfterHead(b: string, head: string, a: string, bare: bool, trailing: Option<string>)
    requires b == head + a
    requires |a| == 0 <==> bare
    requires |a| > 0 ==> a[0] == ' '
    requires trailing.Some? ==>
               |a| >= 3 + |trailing.value| && a[|a| - 3 - |trailing.value|..] == " : " + trailing.value
    ensures |b| >= |head| && b[..|head|] == head
    ensures |b| == |head| <==> bare
    ensures |b| > |head| ==> b[|head|] == ' '
    ensures trailing.Some? ==>
              |b| >= |head| + 3 + |trailing.value| && b[|b| - 3 - |trailing.value|..] == " : " + trailing.value
  {
    if trailing.Some? {
      var k := 3 + |trailing.value|;
      assert b[|b| - k..] == a[|a| - k..];
    }
  }

  /** Where a reply's parts sit: it opens with the id text, the sign and the command; the
      text after the command is empty exactly when there are no arguments and no trailing,
      and otherwise starts with a space; a trailing is always the last thing before the
      line end, after ` : `. */
  lemma ReplyLayout(id: Option<U32>, success: bool, command: string, arguments: seq<string>,
                    trailing: Option<string>)
    ensures var b := Body(Format(id, success, command, arguments, trailing));
            var head := IdText(id) + [SignChar(success)] + command;
            && |b| >= |head| && b[..|head|] == head
            && (|b| == |head| <==> |arguments| == 0 && trailing.None?)
            && (|b| > |head| ==> b[|head|] == ' ')
            && (trailing.Some? ==>
                  |b| >= |head| + 3 + |trailing.value| && b[|b| - 3 - |trailing.value|..] == " : " + trailing.value)
  {
    BodyOfFormat(id, success, command, arguments, trailing);
    var b := Body(Format(id, success, command, arguments, trailing));
    var head := IdText(id) + [SignChar(success)] + command;
    var a := After(arguments, trailing);
    Regroup(IdText(id), [SignChar(success)], command, a);
    assert b == head + a;
    AfterLayout(arguments, trailing);
    var bare := |arguments| == 0 && trailing.None?;
    AfterHead(b, head, a, bare, trailing);
    assert |b| >= |head| && b[..|head|] == head;
    assert |b| == |head| <==> bare;
    assert |b| > |head| ==> b[|head|] == ' ';
    assert trailing.Some? ==>
              |b| >= |head| + 3 + |trailing.value| && b[|b| - 3 - |trailing.value|..] == " : " + trailing.value;
  }
}
