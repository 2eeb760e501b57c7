/** Admin notifications: when an audit completes, the enabled rules are
    evaluated against its results; a failed evaluation is stored as a
    notification (the last 100 are kept) and announced by email and webhook. */
module Notifications {
  import opened Text
  import opened Php
  import opened RulesEngine

  /** How many notifications are kept. */
  const MaxKept: nat := 100

  const EnabledOption: string := "perfaudit_pro_notification_enabled"
  const EmailOption: string := "perfaudit_pro_notification_email"
  const WebhookOption: string := "perfaudit_pro_webhook_url"
  const AdminEmailOption: string := "admin_email"

  const NotificationSubject: string := "Site Performance Tracker: Performance Violations Detected"
  const NotificationHeader: string := "Performance violations detected:\n\n"

  /** A stored notification; `read` is `Null` when the key is missing. */
  datatype Notification = Notification(
    id: string,
    kind: string,
    auditId: Value,
    violations: seq<Verdict>,
    timestamp: string,
    read: Value)

  /** A call to `wp_mail` or `wp_remote_post`; their results are ignored. */
  datatype Message =
    | Email(to: Value, subject: string, body: string)
    | Webhook(url: Value, payload: Evaluation)

  /** `get_option(name, default)`. */
  function GetOption(options: map<string, Value>, name: string, default: Value): Value {
    if name in options then options[name] else default
  }

  /** A notification whose `read` is missing or falsy. */
  predicate IsUnread(n: Notification) { Empty(n.read) }

  /** `get_unread_count`. */
  function UnreadCount(list: seq<Notification>): (c: nat)
    ensures c <= |list|
    decreases |list|
  {
    if list == [] then 0
    else UnreadCount(list[..|list| - 1]) + (if IsUnread(list[|list| - 1]) then 1 else 0)
  }

  /** `array_slice($list, -n)`: the last `n` entries, in order. */
  function KeepLast(list: seq<Notification>, n: nat): seq<Notification> {
    if |list| <= n then list else list[|list| - n..]
  }

  /** The record `create_notification` appends. */
  function NewNotification(auditId: Value, evaluation: Evaluation, now: nat, timestamp: string): Notification {
    Notification("notif_" + NatToString(now), "violation", auditId, evaluation.violations, timestamp, Bool(false))
  }

  /** The stored list after appending `n`. */
  function Appended(list: seq<Notification>, n: Notification): seq<Notification> {
    KeepLast(list + [n], MaxKept)
  }

  /** After appending, exactly the last 100 entries remain (all of them when
      there are fewer); the new one is last; the others are the most recent
      old ones, in order; with fewer than 100 before, nothing old is lost;
      and the unread count goes up by one for an unread entry. */
  lemma AppendedKeepsRecent(list: seq<Notification>, n: Notification)
    ensures |Appended(list, n)| == if |list| < MaxKept then |list| + 1 else MaxKept
    ensures var r := Appended(list, n);
      && 1 <= |r| <= MaxKept
      && r[|r| - 1] == n
      && r[..|r| - 1] == list[|list| - (|r| - 1)..]
    ensures |list| < MaxKept ==> Appended(list, n) == list + [n]
    ensures |list| < MaxKept && IsUnread(n) ==> UnreadCount(Appended(list, n)) == UnreadCount(list) + 1
  {
    var s := list + [n];
    var r := Appended(list, n);
    assert r == s[|s| - |r|..];
    assert r[..|r| - 1] == list[|list| - (|r| - 1)..];
    if |list| < MaxKept {
      assert s[..|s| - 1] == list;
    }
  }

  /** A new notification is an unread violation record for the audit. */
  lemma NewNotificationShape(auditId: Value, evaluation: Evaluation, now: nat, timestamp: string)
    ensures var n := NewNotification(auditId, evaluation, now, timestamp);
      && IsUnread(n) && n.kind == "violation" && n.auditId == auditId && n.violations == evaluation.violations
      && n.id[..6] == "notif_"
  {
  }

  /** The rules with a non-empty `enabled` field, in order (`array_filter`). */
  function EnabledRules(rules: seq<Rule>): seq<Rule>
    decreases |rules|
  {
    if rules == [] then []
    else
      var last := rules[|rules| - 1];
      EnabledRules(rules[..|rules| - 1]) + (if !Empty(last.enabled) then [last] else [])
  }

  /** Exactly the enabled rules reach the engine. */
  lemma {:induction false} EnabledRulesExact(rules: seq<Rule>)
    ensures forall r | r in EnabledRules(rules) :: r in rules && !Empty(r.enabled)
    ensures forall r | r in rules && !Empty(r.enabled) :: r in EnabledRules(rules)
    decreases |rules|
  {
    if rules != [] {
      var init := rules[..|rules| - 1];
      EnabledRulesExact(init);
      assert rules == init + [rules[|rules| - 1]];
    }
  }

  lemma {:induction false} EnabledRulesAppend(a: seq<Rule>, b: seq<Rule>)
    ensures EnabledRules(a + b) == EnabledRules(a) + EnabledRules(b)
    decreases |b|
  {
    if b == [] {
      assert a + b == a;
    } else {
      assert (a + b)[..|a + b| - 1] == a + b[..|b| - 1];
      EnabledRulesAppend(a, b[..|b| - 1]);
    }
  }

  /** Adding disabled rules changes nothing about the evaluation. */
  lemma DisabledRulesIgnored(metrics: map<string, Value>, rules: seq<Rule>, disabled: seq<Rule>)
    requires forall k | 0 <= k < |disabled| :: Empty(disabled[k].enabled)
    ensures Evaluated(metrics, EnabledRules(rules + disabled)) == Evaluated(metrics, EnabledRules(rules))
  {
    EnabledRulesAppend(rules, disabled);
    EnabledRulesExact(disabled);
    assert EnabledRules(disabled) == [];
    assert EnabledRules(rules) + [] == EnabledRules(rules);
  }

  /** The notification email body: a header, then "- message" per violation. */
  function NotificationBody(violations: seq<Verdict>): string
    decreases |violations|
  {
    if violations == [] then NotificationHeader
    else NotificationBody(violations[..|violations| - 1]) + "- " + MessageText(violations[|violations| - 1]) + "\n"
  }

  /** With single-line messages the body has the two header line breaks and
      one line per violation. */
  lemma {:induction false} NotificationBodyLineCount(violations: seq<Verdict>)
    requires forall k | 0 <= k < |violations| :: '\n' !in MessageText(violations[k])
    ensures CountChar(NotificationBody(violations), '\n') == 2 + |violations|
    decreases |violations|
  {
    if violations == [] {
      CountCharAbsent("Performance violations detected:", '\n');
      CountCharAppend("Performance violations detected:", "\n\n", '\n');
      assert NotificationHeader == "Performance violations detected:" + "\n\n";
      assert "\n\n"[..1] == "\n";
    } else {
      var init := violations[..|violations| - 1];
      var text := MessageText(violations[|violations| - 1]);
      NotificationBodyLineCount(init);
      assert NotificationBody(violations) == NotificationBody(init) + ("- " + text) + "\n";
      CountCharAbsent("- " + text, '\n');
      CountCharAppend(NotificationBody(init), "- " + text, '\n');
      CountCharAppend(NotificationBody(init) + ("- " + text), "\n", '\n');
    }
  }

  /** The notification-enabled option is truthy. */
  predicate NotificationsEnabled(options: map<string, Value>) {
    !Empty(GetOption(options, EnabledOption, Bool(false)))
  }

  /** The recipient: the notification email option, else the admin email. */
  function Recipient(options: map<string, Value>): Value {
    GetOption(options, EmailOption, GetOption(options, AdminEmailOption, Bool(false)))
  }

  /** The calls `send_notifications` makes: an email when the recipient is
      truthy, then a webhook post when the webhook URL is truthy. */
  function Announcements(options: map<string, Value>, evaluation: Evaluation): seq<Message> {
    var to := Recipient(options);
    var url := GetOption(options, WebhookOption, Str(""));
    (if !Empty(to) then [Email(to, NotificationSubject, NotificationBody(evaluation.violations))] else [])
      + (if !Empty(url) then [Webhook(url, evaluation)] else [])
  }

  /** One email exactly when a recipient is configured, one post exactly when
      a webhook URL is, email first. */
  lemma AnnouncementsGated(options: map<string, Value>, evaluation: Evaluation)
    ensures var ms := Announcements(options, evaluation);
      && |ms| == (if !Empty(Recipient(options)) then 1 else 0)
               + (if !Empty(GetOption(options, WebhookOption, Str(""))) then 1 else 0)
      && (forall m | m in ms && m.Email? :: m.to == Recipient(options) && m.body == NotificationBody(evaluation.violations))
      && (forall m | m in ms && m.Webhook? :: m.url == GetOption(options, WebhookOption, Str("")) && m.payload == evaluation)
      && (|ms| == 2 ==> ms[0].Email? && ms[1].Webhook?)
      && ((exists m | m in ms :: m.Email?) <==> !Empty(Recipient(options)))
      && ((exists m | m in ms :: m.Webhook?) <==> !Empty(GetOption(options, WebhookOption, Str(""))))
  {
    var ms := Announcements(options, evaluation);
    if !Empty(Recipient(options)) {
      assert ms[0].Email?;
    }
    if !Empty(GetOption(options, WebhookOption, Str(""))) {
      assert ms[|ms| - 1].Webhook?;
    }
  }

  /** The options, the stored notification list, and the calls made to the
      outside world. */
  class NotificationCenter {
    var options: map<string, Value>
    var notifications: seq<Notification>
    var outbox: seq<Message>

    constructor(options: map<string, Value>, notifications: seq<Notification>)
      ensures this.options == options && this.notifications == notifications && outbox == []
    {
      this.options := options;
      this.notifications := notifications;
      outbox := [];
    }

    /** `get_unread_count` on the stored list. */
    function GetUnreadCount(): (c: nat)
      reads this
      ensures c <= |notifications|
    {
      UnreadCount(notifications)
    }

    /** `create_notification`. */
    method CreateNotification(auditId: Value, evaluation: Evaluation, now: nat, timestamp: string)
      modifies this
      ensures notifications == Appended(old(notifications), NewNotification(auditId, evaluation, now, timestamp))
      ensures options == old(options) && outbox == old(outbox)
    {
      var list := notifications;
      list := list + [NewNotification(auditId, evaluation, now, timestamp)];
      notifications := KeepLast(list, MaxKept);
    }

    /** `send_email`: the body built line by line, then one mail. */
    method SendEmail(to: Value, evaluation: Evaluation)
      modifies this
      ensures outbox == old(outbox) + [Email(to, NotificationSubject, NotificationBody(evaluation.violations))]
      ensures options == old(options) && notifications == old(notifications)
    {
      var violations := evaluation.violations;
      var message := NotificationHeader;
      for i := 0 to |violations|
        invariant message == NotificationBody(violations[..i])
      {
        assert violations[..i + 1][..i] == violations[..i];
        message := message + "- " + MessageText(violations[i]) + "\n";
      }
      assert violations[..|violations|] == violations;
      outbox := outbox + [Email(to, NotificationSubject, message)];
    }

    /** `send_webhook`. */
    method SendWebhook(url: Value, evaluation: Evaluation)
      modifies this
      ensures outbox == old(outbox) + [Webhook(url, evaluation)]
      ensures options == old(options) && notifications == old(notifications)
    {
      outbox := outbox + [Webhook(url, evaluation)];
    }

    /** `send_notifications`. */
    method SendNotifications(evaluation: Evaluation)
      modifies this
      ensures outbox == old(outbox) + Announcements(options, evaluation)
      ensures options == old(options) && notifications == old(notifications)
    {
      var email := Recipient(options);
      var webhookUrl := GetOption(options, WebhookOption, Str(""));
      if !Empty(email) {
        SendEmail(email, evaluation);
      }
      if !Empty(webhookUrl) {
        SendWebhook(webhookUrl, evaluation);
      }
    }

    /** `check_audit_violations`: nothing unless notifications are enabled;
        otherwise evaluate the enabled rules and, when the evaluation did not
        pass, store a notification and announce it. */
    method CheckAuditViolations(auditId: Value, results: map<string, Value>, rules: seq<Rule>, now: nat, timestamp: string)
      modifies this
      ensures options == old(options)
      ensures !NotificationsEnabled(options) ==> notifications == old(notifications) && outbox == old(outbox)
      ensures NotificationsEnabled(options) && Evaluated(results, EnabledRules(rules)).passed ==>
        notifications == old(notifications) && outbox == old(outbox)
      ensures NotificationsEnabled(options) && !Evaluated(results, EnabledRules(rules)).passed ==>
        var evaluation := Evaluated(results, EnabledRules(rules));
        && notifications == Appended(old(notifications), NewNotification(auditId, evaluation, now, timestamp))
        && outbox == old(outbox) + Announcements(options, evaluation)
    {
      if !NotificationsEnabled(options) {
        return;
      }
      var enabledRules := EnabledRules(rules);
      var evaluation := Evaluate(results, enabledRules);
      if !evaluation.passed {
        CreateNotification(auditId, evaluation, now, timestamp);
        SendNotifications(evaluation);
      }
    }
  }
}
