/** The notification store (src/bin/notificationd/server/database.rs), with SQLite
    replaced by an explicit table: its rows in insertion order and the largest row id it
    ever handed out, as `AUTOINCREMENT` keeps it.  Whether a statement succeeds and the
    timestamp the database renders are parameters. */
module Database {

  import opened Basics
  import opened Text
  import opened Notifications

  /** One row of the `notifications` table; `tags` is the stored, joined text. */
  datatype Row = Row(
    id: nat,
    user: string,
    title: Option<string>,
    body: Option<string>,
    tags: string,
    timestamp: string)

  datatype Db = Db(rows: seq<Row>, lastRowid: nat)

  /** Row ids increase in insertion order and never exceed the last one handed out. */
  predicate Valid(db: Db) {
    && (forall i :: 0 <= i < |db.rows| ==> db.rows[i].id <= db.lastRowid)
    && (forall i, j :: 0 <= i < j < |db.rows| ==> db.rows[i].id < db.rows[j].id)
  }

  /** The empty table `setup_database` creates. */
  function Empty(): (db: Db)
    ensures Valid(db) && |db.rows| == 0
  {
    Db([], 0)
  }

  datatype SaveError = NoUser | StatementFailed

  /** Tags as stored: joined by single spaces, so no tags is the empty text. */
  function EncodeTags(tags: seq<string>): string {
    Join(tags, " ")
  }

  /** Tags as loaded: the stored text split on spaces, empty pieces dropped. */
  function DecodeTags(stored: string): (tags: seq<string>)
    ensures forall i :: 0 <= i < |tags| ==> |tags[i]| > 0 && ' ' !in tags[i]
  {
    var pieces := Split(stored, ' ');
    var tags := NonEmpty(pieces);
    assert forall i :: 0 <= i < |tags| ==> tags[i] in pieces;
    tags
  }

  /** A tag the store can hold and give back unchanged. */
  predicate IsTag(t: string) {
    |t| > 0 && ' ' !in t
  }

  /** Decoding what was encoded gives the tags back, when every tag is non-empty and
      free of spaces. */
  lemma DecodeEncode(tags: seq<string>)
    requires forall i :: 0 <= i < |tags| ==> IsTag(tags[i])
    ensures DecodeTags(EncodeTags(tags)) == tags
  {
    if |tags| == 0 {
      assert Split([], ' ') == [[]];
    } else {
      SplitJoin(tags, ' ');
      NonEmptyKeepsAll(tags);
    }
  }

  /** Decoding normalises: encoding decoded tags and decoding again changes nothing. */
  lemma DecodeIdempotent(stored: string)
    ensures DecodeTags(EncodeTags(DecodeTags(stored))) == DecodeTags(stored)
  {
    DecodeEncode(DecodeTags(stored));
  }

  lemma DecodeEmpty()
    ensures DecodeTags("") == []
  {
    assert Split("", ' ') == [""];
  }

  /** A doubled space between two tags is read as one separator: the empty piece
      between the spaces is dropped. */
  lemma DecodeDoubleSpace(a: string, b: string)
    requires IsTag(a) && IsTag(b)
    ensures DecodeTags(a + "  " + b) == [a, b]
  {
    SplitFirst(a, ' ', " " + b);
    assert a + [' '] + (" " + b) == a + "  " + b;
    SplitFirst("", ' ', b);
    assert "" + [' '] + b == " " + b;
    SplitNone(b, ' ');
    var pieces := [a, "", b];
    assert Split(a + "  " + b, ' ') == pieces;
    assert pieces[1..] == ["", b] && pieces[1..][1..] == [b];
    assert NonEmpty([b]) == [b];
    assert NonEmpty(["", b]) == [b];
  }

  /** `save`: inserts the record as a new row with the next row id; fails before touching
      the table when the record has no user, and otherwise when the statement fails. */
  function Save(d: NotificationDetails, db: Db, statementOk: bool, now: string): (r: Result<Db, SaveError>)
    ensures r == Err(NoUser) <==> d.user.None?
    ensures r.Ok? <==> d.user.Some? && statementOk
    ensures r.Ok? ==> |r.value.rows| == |db.rows| + 1 && r.value.rows[..|db.rows|] == db.rows
    ensures r.Ok? ==> r.value.lastRowid > db.lastRowid
    ensures r.Ok? && Valid(db) ==> Valid(r.value)
  {
    match d.user
    case None => Err(NoUser)
    case Some(user) =>
      if !statementOk then Err(StatementFailed)
      else
        var id := db.lastRowid + 1;
        var rows := db.rows + [Row(id, user, d.title, d.body, EncodeTags(d.tags), now)];
        assert rows[..|db.rows|] == db.rows;
        Ok(Db(rows, id))
  }

  /** The row id `last_insert_rowid` reports after a successful `save`. */
  function LastInsertRowid(db: Db): nat {
    db.lastRowid
  }

  /** One row as `load_all` reads it back. */
  function Load(row: Row): (d: NotificationDetails)
    ensures d.id == Some(row.id) && d.user == Some(row.user) && d.timestamp == Some(row.timestamp)
  {
    NotificationDetails(Some(row.id), row.title, row.body, DecodeTags(row.tags), Some(row.user),
                        Some(row.timestamp))
  }

  /** `load_all`: every row in table order, or `None` when the query fails. */
  function LoadAll(db: Db, queryOk: bool): (r: Option<seq<NotificationDetails>>)
    ensures r.Some? <==> queryOk
    ensures r.Some? ==> |r.value| == |db.rows|
    ensures r.Some? ==> forall i :: 0 <= i < |db.rows| ==> r.value[i] == Load(db.rows[i])
  {
    if queryOk then Some(seq(|db.rows|, i requires 0 <= i < |db.rows| => Load(db.rows[i])))
    else None
  }

  /** Saving and loading back: the last record loaded is the one saved, with the new row
      id and the timestamp filled in, when its tags are storable. */
  lemma SaveThenLoad(d: NotificationDetails, db: Db, now: string)
    requires d.user.Some?
    requires forall i :: 0 <= i < |d.tags| ==> IsTag(d.tags[i])
    ensures var saved := Save(d, db, true, now).value;
            var all := LoadAll(saved, true).value;
            && LastInsertRowid(saved) == db.lastRowid + 1
            && all[|all| - 1] == d.(id := Some(LastInsertRowid(saved)), timestamp := Some(now))
  {
    DecodeEncode(d.tags);
  }
}
