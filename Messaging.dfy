/** The push-message service: the notification type a message names, and
    what a data message stores and shows. */
module Messaging {
  import opened Wrappers
  import opened Text

  datatype NotificationType =
    | GENERAL
    | LOCATION_ADDED
    | LOCATION_NEARBY
    | ACHIEVEMENT
    | POINTS_EARNED
    | FRIEND_ACTIVITY
    | SYSTEM

  /** The enum constant's `name`. */
  function Name(t: NotificationType): string {
    match t
    case GENERAL => "GENERAL"
    case LOCATION_ADDED => "LOCATION_ADDED"
    case LOCATION_NEARBY => "LOCATION_NEARBY"
    case ACHIEVEMENT => "ACHIEVEMENT"
    case POINTS_EARNED => "POINTS_EARNED"
    case FRIEND_ACTIVITY => "FRIEND_ACTIVITY"
    case SYSTEM => "SYSTEM"
  }

  /** `parseNotificationType`: by the upper-cased text; a missing or unknown
      type is GENERAL. */
  function ParseNotificationType(t: Option<string>): (r: NotificationType)
    ensures t.None? ==> r == GENERAL
    ensures r != GENERAL ==> t.Some? && Upper(t.value) == Name(r)
  {
    match t
    case None => GENERAL
    case Some(s) =>
      match Upper(s)
      case "LOCATION_ADDED" => LOCATION_ADDED
      case "LOCATION_NEARBY" => LOCATION_NEARBY
      case "ACHIEVEMENT" => ACHIEVEMENT
      case "POINTS_EARNED" => POINTS_EARNED
      case "FRIEND_ACTIVITY" => FRIEND_ACTIVITY
      case "SYSTEM" => SYSTEM
      case _ => GENERAL
  }

  /** No name has a lower-case letter. */
  lemma NameHasNoLowerCase(t: NotificationType)
    ensures forall i :: 0 <= i < |Name(t)| ==> !('a' <= Name(t)[i] <= 'z')
  {
  }

  /** Each name differs from every other: by length, or else by its first letter. */
  lemma NamesDiffer(t: NotificationType)
    ensures forall u: NotificationType :: u != t ==> Name(u) != Name(t)
  {
    forall u: NotificationType | u != t
      ensures Name(u) != Name(t)
    {
      if |Name(u)| == |Name(t)| {
        assert Name(u)[0] != Name(t)[0];
      }
    }
  }

  /** Any text whose upper case is a type's name parses to that type. */
  lemma ParseByUpper(s: string, t: NotificationType)
    requires Upper(s) == Name(t)
    ensures ParseNotificationType(Some(s)) == t
  {
    NamesDiffer(t);
  }

  /** Round trip: every type parses back from its name. */
  lemma ParseName(t: NotificationType)
    ensures ParseNotificationType(Some(Name(t))) == t
  {
    NameHasNoLowerCase(t);
    assert Upper(Name(t)) == Name(t);
    ParseByUpper(Name(t), t);
  }

  lemma UpperOfLowerChar(c: char)
    requires !('a' <= c <= 'z')
    ensures UpperChar(LowerChar(c)) == c
  {
  }

  /** Matching ignores case: the lower-case name parses to the same type. */
  lemma ParseLowerName(t: NotificationType)
    ensures ParseNotificationType(Some(Lower(Name(t)))) == t
  {
    var n := Name(t);
    NameHasNoLowerCase(t);
    forall i | 0 <= i < |n|
      ensures Upper(Lower(n))[i] == n[i]
    {
      UpperOfLowerChar(n[i]);
    }
    assert Upper(Lower(n)) == n;
    ParseByUpper(Lower(n), t);
  }

  /** The record a data message saves for the signed-in user. */
  datatype NotificationData = NotificationData(
    id: string,
    userId: string,
    notificationType: NotificationType,
    title: string,
    message: string,
    locationId: Option<string>,
    locationName: Option<string>,
    isRead: bool,
    timestamp: int,
    data: map<string, string>)

  /** What the system tray shows. */
  datatype Shown = Shown(title: string, message: string)

  function Lookup(data: map<string, string>, key: string): Option<string> {
    if key in data then Some(data[key]) else None
  }

  /** `handleDataMessage`: nothing happens without a signed-in user;
      otherwise the message is saved with its defaults (title
      "Notification", empty message) and shown with the tray's defaults
      (title "GeoQuest", empty message). */
  function HandleDataMessage(uid: Option<string>, data: map<string, string>, now: int)
    : (r: (Option<NotificationData>, Option<Shown>))
    ensures uid.None? <==> r.0.None?
    ensures r.0.None? <==> r.1.None?
    ensures r.0.Some? ==>
      && r.0.value.userId == uid.value
      && r.0.value.notificationType == ParseNotificationType(Lookup(data, "type"))
      && r.0.value.title == Lookup(data, "title").GetOr("Notification")
      && r.0.value.message == Lookup(data, "message").GetOr("")
      && r.0.value.data == data
      && !r.0.value.isRead
    ensures r.1.Some? ==>
      r.1.value == Shown(Lookup(data, "title").GetOr("GeoQuest"), Lookup(data, "message").GetOr(""))
  {
    match uid
    case None => (None, None)
    case Some(userId) =>
      var saved := NotificationData(
        "", userId, ParseNotificationType(Lookup(data, "type")),
        Lookup(data, "title").GetOr("Notification"), Lookup(data, "message").GetOr(""),
        Lookup(data, "locationId"), Lookup(data, "locationName"), false, now, data);
      (Some(saved), Some(Shown(Lookup(data, "title").GetOr("GeoQuest"), Lookup(data, "message").GetOr(""))))
  }

  /** The saved and the shown title agree exactly when the message has a
      title; the text always agrees. */
  lemma SavedAndShownTitles(userId: string, data: map<string, string>, now: int)
    ensures var (saved, shown) := HandleDataMessage(Some(userId), data, now);
      && (saved.value.title == shown.value.title <==> "title" in data)
      && saved.value.message == shown.value.message
  {
  }
}
