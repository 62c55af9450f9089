/** The texts the session builds from notifications (src/server/client.rs): the frame
    SEND broadcasts to subscribers, and the reply groups HISTORY writes. */
module Frames {

  import opened Basics
  import opened Text
  import opened Parser
  import opened Reply
  import opened Notifications
  import opened Database

  /** The lines of the frame for a notification from `user` with id `id`, each without
      its `\r\n`: a start line, an optional title line, a tags line when there are tags,
      one line per body line, and an end line; each is `$` and a command line. */
  function FrameLines(user: string, id: nat, d: NotificationDetails): (ls: seq<string>)
    ensures |ls| >= 2
  {
    ["$" + StartText(user, id)]
      + (if d.title.Some? then ["$" + TitleText(d.title.value)] else [])
      + (if |d.tags| > 0 then ["$" + TagsText(d.tags)] else [])
      + (if d.body.Some? then BodyLines(Lines(d.body.value)) else [])
      + ["$" + EndText(id)]
  }

  function StartText(user: string, id: nat): string {
    "NOTIFY_START " + user + " " + NatToString(id)
  }

  function TitleText(title: string): string {
    "TITLE: " + title
  }

  function TagsText(tags: seq<string>): string {
    "TAGS: " + Join(tags, " ")
  }

  function BodyText(line: string): string {
    "BODY: " + line
  }

  function EndText(id: nat): string {
    "NOTIFY_END " + NatToString(id)
  }

  function BodyLines(ls: seq<string>): (r: seq<string>)
    ensures |r| == |ls|
    ensures forall i :: 0 <= i < |ls| ==> r[i] == "$" + BodyText(ls[i])
  {
    seq(|ls|, i requires 0 <= i < |ls| => "$" + BodyText(ls[i]))
  }

  /** The frame text: every line ended by `\r\n`. */
  function Frame(user: string, id: nat, d: NotificationDetails): string {
    Terminate(FrameLines(user, id, d), "\r\n")
  }

  /** Every frame line starts with `$`. */
  lemma FrameLinesStartWithDollar(user: string, id: nat, d: NotificationDetails)
    ensures forall i :: 0 <= i < |FrameLines(user, id, d)| ==>
      var l := FrameLines(user, id, d)[i]; |l| > 0 && l[0] == '$'
  {
  }

  /** A subscriber reading the frame with `lines` gets its lines back, as long as the user
      and the title hold no line feed (a body line never does). */
  lemma FrameLinesReadBack(user: string, id: nat, d: NotificationDetails)
    requires '\n' !in user
    requires d.title.Some? ==> '\n' !in d.title.value
    requires forall i :: 0 <= i < |d.tags| ==> '\n' !in d.tags[i]
    ensures Lines(Frame(user, id, d)) == FrameLines(user, id, d)
  {
    var ls := FrameLines(user, id, d);
    forall i | 0 <= i < |ls| ensures '\n' !in ls[i] {
      FrameLineHasNoLineFeed(user, id, d, i);
    }
    LinesOfCrlf(ls);
  }

  lemma FrameLineHasNoLineFeed(user: string, id: nat, d: NotificationDetails, i: nat)
    requires '\n' !in user
    requires d.title.Some? ==> '\n' !in d.title.value
    requires forall i :: 0 <= i < |d.tags| ==> '\n' !in d.tags[i]
    requires i < |FrameLines(user, id, d)|
    ensures '\n' !in FrameLines(user, id, d)[i]
  {
    var digits := NatToString(id);
    assert forall k :: 0 <= k < |digits| ==> IsDigit(digits[k]);
    JoinHasNo(d.tags, " ", '\n');
    if d.body.Some? {
      var body := Lines(d.body.value);
      assert forall k :: 0 <= k < |body| ==> '\n' !in body[k];
    }
  }

  /** Joining pieces that lack a character, with a separator that lacks it, gives text
      that lacks it. */
  lemma {:induction false} JoinHasNo(ss: seq<string>, sep: string, c: char)
    requires c !in sep
    requires forall i :: 0 <= i < |ss| ==> c !in ss[i]
    ensures c !in Join(ss, sep)
    decreases |ss|
  {
    if |ss| > 1 {
      JoinHasNo(ss[1..], sep, c);
      assert Join(ss, sep) == ss[0] + sep + Join(ss[1..], sep);
    }
  }

  // ---------------------------------------------------------------------------
  // HISTORY
  // ---------------------------------------------------------------------------

  /** The replies HISTORY builds for one stored notification, as `load_all` reads it
      back: a head line with id, user and timestamp (present on every loaded record, so
      the unwraps cannot fail), a title line, a tags line when there are tags, and one
      line per body line. */
  function HistoryGroup(msgId: Option<U32>, row: Row): (r: seq<string>)
    ensures |r| >= 1
  {
    var n := Load(row);
    [Format(msgId, true, "HISTORY", [NatToString(n.id.value), n.user.value], Some(n.timestamp.value))]
      + (if n.title.Some? then [Format(msgId, true, "HISTORY", ["TITLE"], n.title)] else [])
      + (if |n.tags| > 0 then [Format(msgId, true, "HISTORY", ["TAGS"], Some(Join(n.tags, " ")))] else [])
      + (if n.body.Some? then HistoryBody(msgId, Lines(n.body.value)) else [])
  }

  function HistoryBody(msgId: Option<U32>, ls: seq<string>): (r: seq<string>)
    ensures |r| == |ls|
  {
    seq(|ls|, i requires 0 <= i < |ls| => Format(msgId, true, "HISTORY", ["BODY"], Some(ls[i])))
  }

  /** The text of each row's group. */
  function GroupTexts(msgId: Option<U32>, rows: seq<Row>): (r: seq<string>)
    ensures |r| == |rows|
    ensures forall i :: 0 <= i < |rows| ==> r[i] == Concat(HistoryGroup(msgId, rows[i]))
  {
    seq(|rows|, i requires 0 <= i < |rows| => Concat(HistoryGroup(msgId, rows[i])))
  }

  /** The writes HISTORY makes: the reply list is never cleared between notifications,
      so after each notification it writes everything gathered so far. */
  function HistoryWrites(msgId: Option<U32>, rows: seq<Row>): (r: seq<string>)
    ensures |r| == |rows|
  {
    RunningConcat(GroupTexts(msgId, rows))
  }

  /** Write `k` holds the groups of rows 0 to `k`: the first write is the first row's
      group, each later write extends the previous one by the group of its row, and the
      last holds the whole history, so row `k`'s group is written `|rows| - k` times. */
  lemma HistoryCumulative(msgId: Option<U32>, rows: seq<Row>)
    ensures var w, ts := HistoryWrites(msgId, rows), GroupTexts(msgId, rows);
      && (|rows| > 0 ==> w[0] == ts[0])
      && (forall k :: 0 < k < |rows| ==> w[k] == w[k - 1] + ts[k])
      && (|rows| > 0 ==> w[|rows| - 1] == Concat(ts))
  {
    var ts := GroupTexts(msgId, rows);
    RunningRules(ts);
  }
}
