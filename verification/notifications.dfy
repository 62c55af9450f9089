/** The notification record every part of the system passes around
    (`NotificationDetails` in src/notifications.rs). */
module Notifications {

  import opened Basics

  /** What is known about one notification.  The id is a Rust `usize`, modelled as an
      unbounded natural number; the timestamp is the text the database renders. */
  datatype NotificationDetails = NotificationDetails(
    id: Option<nat>,
    title: Option<string>,
    body: Option<string>,
    tags: seq<string>,
    user: Option<string>,
    timestamp: Option<string>)

  /** `NotificationDetails::new`: nothing is known yet. */
  function New(): (d: NotificationDetails)
    ensures d.id.None? && d.user.None? && d.timestamp.None?
    ensures d.title.None? && d.body.None?
    ensures |d.tags| == 0
  {
    NotificationDetails(None, None, None, [], None, None)
  }

  /** Any record with no id, title, body, tags, user or timestamp is the fresh one. */
  lemma NewIsUnique(d: NotificationDetails)
    requires d.id.None? && d.user.None? && d.timestamp.None?
    requires d.title.None? && d.body.None? && |d.tags| == 0
    ensures d == New()
  {
  }
}
