// The notification channels: one class per delivery type in the source, here
// one `Channel` class whose constant `kind` says which of the three it is. Only
// the in-app channel keeps state (its log of deliveries); the e-mail and SMS
// channels only write to the console, which is not modelled.
module Channels {
  import opened Prelude
  import opened Domain

  /** One entry of the in-app log: `{ alert, user, timestamp }`. */
  datatype Notification = Notification(alert: Alert, user: User, timestamp: Time)

  class Channel {
    const kind: DeliveryType
    /** The in-app channel's `notifications` array; it stays empty for the
        other kinds. */
    var notifications: seq<Notification>

    constructor (kind: DeliveryType)
      ensures this.kind == kind && notifications == []
    {
      this.kind := kind;
      notifications := [];
    }

    /** `getType()`: the registry key of the channel. */
    function GetType(): (r: string)
      ensures r == DeliveryTypeKey(kind)
      ensures r in {"in_app", "email", "sms"}
    {
      match kind
      case InApp => "in_app"
      case Email => "email"
      case Sms => "sms"
    }

    /** `deliver(alert, user)` at time `now`: the in-app channel appends one
        entry and keeps the earlier ones; the other channels change nothing. */
    method Deliver(alert: Alert, user: User, now: Time)
      modifies this
      ensures notifications ==
                if kind == InApp then old(notifications) + [Notification(alert, user, now)]
                else old(notifications)
    {
      if kind == InApp {
        notifications := notifications + [Notification(alert, user, now)];
      }
    }

    /** `getNotifications()`: the log itself, as `Deliver` builds it. */
    function GetNotifications(): (r: seq<Notification>)
      reads this
      ensures r == notifications
    {
      notifications
    }
  }

  /** The three `getType` values are pairwise distinct, so the type string
      identifies the kind of channel. */
  lemma GetTypeInjective(c: Channel, d: Channel)
    requires c.GetType() == d.GetType()
    ensures c.kind == d.kind
  {
    NamesInjective();
  }

  /** `toUpperCase` on the ASCII letters (the only characters severity names
      contain); other characters are kept. */
  function UpperChar(c: char): (r: char)
    ensures 'a' <= c <= 'z' ==> r as int == c as int - 32
    ensures !('a' <= c <= 'z') ==> r == c
  {
    if 'a' <= c <= 'z' then (c as int - 32) as char else c
  }

  function Upper(s: string): (r: string)
    ensures |r| == |s|
    ensures forall i :: 0 <= i < |s| ==> r[i] == UpperChar(s[i])
  {
    seq(|s|, i requires 0 <= i < |s| => UpperChar(s[i]))
  }

  /** The bracketed tag the e-mail text starts with. */
  function SeverityTag(s: Severity): string {
    "[" + Upper(SeverityName(s)) + "] "
  }

  /** `formatMessage(alert, user)`. */
  function FormatMessage(alert: Alert, user: User): string {
    SeverityTag(alert.severity) + alert.title + "\n\n" + alert.message
    + "\n\nTo: " + user.fullName + " (" + user.email + ")"
  }

  /** The tags are the upper-cased severity names. */
  lemma SeverityTags()
    ensures SeverityTag(Info) == "[INFO] "
    ensures SeverityTag(Warning) == "[WARNING] "
    ensures SeverityTag(Critical) == "[CRITICAL] "
  {
    assert Upper("info") == "INFO";
    assert Upper("warning") == "WARNING";
    assert Upper("critical") == "CRITICAL";
  }

  /** The message starts with the severity tag followed by the title and ends
      with the recipient's e-mail address in parentheses; the tag alone tells
      the severity. */
  lemma FormatMessageLayout(alert: Alert, user: User)
    ensures var m := FormatMessage(alert, user);
            var head := SeverityTag(alert.severity) + alert.title;
            var tail := " (" + user.email + ")";
            |m| >= |head| + |tail| && m[..|head|] == head && m[|m| - |tail|..] == tail
    ensures forall s :: SeverityTag(s) == SeverityTag(alert.severity) ==> s == alert.severity
  {
    var head := SeverityTag(alert.severity) + alert.title;
    var rest := "\n\n" + alert.message + "\n\nTo: " + user.fullName;
    var tail := " (" + user.email + ")";
    assert FormatMessage(alert, user) == head + rest + tail;
    SeverityTags();
  }
}
