/** The threshold rules engine: each rule compares one metric of a snapshot
    with a threshold and yields a verdict; the verdicts are sorted into hard
    violations and soft warnings; when there are violations the configured
    notification actions (email, log, webhook) are dispatched. */
module RulesEngine {
  import opened Text
  import opened Php

  // ---------------------------------------------------------------------
  // Rules, operators and verdicts

  /** Tolerance of the `eq` and `neq` operators. */
  const Epsilon: real := 0.0001

  /** A rule as configured; a missing or null `operator`/`enforcement` is `None`,
      a missing `enabled` is `Null`. */
  datatype Rule = Rule(
    metric: string,
    threshold: real,
    operator: Option<string>,
    enforcement: Option<string>,
    enabled: Value)

  /** The comparison operators; any other token is kept as `Unknown`. */
  datatype Operator = Gt | Gte | Lt | Lte | Eq | Neq | Unknown(token: string)

  function ParseOperator(token: string): Operator {
    if token == "gt" then Gt
    else if token == "gte" then Gte
    else if token == "lt" then Lt
    else if token == "lte" then Lte
    else if token == "eq" then Eq
    else if token == "neq" then Neq
    else Unknown(token)
  }

  function OperatorToken(op: Operator): string {
    match op
    case Gt => "gt"
    case Gte => "gte"
    case Lt => "lt"
    case Lte => "lte"
    case Eq => "eq"
    case Neq => "neq"
    case Unknown(t) => t
  }

  /** Parsing keeps the token: the operator stored in a verdict is the configured one. */
  lemma ParseOperatorKeepsToken(token: string)
    ensures OperatorToken(ParseOperator(token)) == token
    ensures ParseOperator(token).Unknown? <==> token !in {"gt", "gte", "lt", "lte", "eq", "neq"}
  {
  }

  function Abs(x: real): (r: real)
    ensures r >= 0.0 && (r == x || r == -x)
  {
    if x < 0.0 then -x else x
  }

  /** `compare`: does `value` stand in relation `op` to `threshold`? */
  function Compare(value: real, threshold: real, op: Operator): bool {
    match op
    case Gt => value > threshold
    case Gte => value >= threshold
    case Lt => value < threshold
    case Lte => value <= threshold
    case Eq => Abs(value - threshold) < Epsilon
    case Neq => Abs(value - threshold) >= Epsilon
    case Unknown(_) => false
  }

  /** The operators pair up as complements; `gte`/`lte` are the non-strict
      versions of `gt`/`lt`; `eq` is symmetric; an unknown operator never triggers. */
  lemma OperatorSemantics(value: real, threshold: real, token: string)
    ensures Compare(value, threshold, Eq) == !Compare(value, threshold, Neq)
    ensures Compare(value, threshold, Gt) == !Compare(value, threshold, Lte)
    ensures Compare(value, threshold, Lt) == !Compare(value, threshold, Gte)
    ensures Compare(value, threshold, Gte) == (Compare(value, threshold, Gt) || value == threshold)
    ensures Compare(value, threshold, Lte) == (Compare(value, threshold, Lt) || value == threshold)
    ensures Compare(value, threshold, Eq) == Compare(threshold, value, Eq)
    ensures value == threshold ==> Compare(value, threshold, Eq)
    ensures token !in {"gt", "gte", "lt", "lte", "eq", "neq"} ==> !Compare(value, threshold, ParseOperator(token))
  {
  }

  /** Equality is within 0.0001, not exact. */
  lemma EqualityTolerance()
    ensures Compare(100.0, 100.0, Eq)
    ensures Compare(100.00005, 100.0, Eq)
    ensures !Compare(100.001, 100.0, Eq)
    ensures Compare(100.001, 100.0, Neq)
  {
  }

  /** The verdict statuses; the soft one is spelled `warning`. */
  datatype Status = Pass | Warning | Fail | Skip {
    function Name(): string {
      match this
      case Pass => "pass"
      case Warning => "warning"
      case Fail => "fail"
      case Skip => "skip"
    }
  }

  /** The result of one rule; absent keys of the PHP array are `None`. */
  datatype Verdict = Verdict(
    status: Status,
    metric: string,
    value: Option<real>,
    threshold: Option<real>,
    operator: Option<string>,
    enforcement: Option<string>,
    message: Option<string>)

  const NotAvailable: string := "Metric not available"

  /** The rule's operator, `gt` when missing. */
  function OperatorOf(rule: Rule): string { rule.operator.GetOr("gt") }

  /** The rule's enforcement, `soft` when missing. */
  function EnforcementOf(rule: Rule): string { rule.enforcement.GetOr("soft") }

  /** The metric is set in the snapshot and its value meets the rule's condition. */
  predicate Triggers(metrics: map<string, Value>, rule: Rule) {
    IssetKey(metrics, rule.metric)
    && Compare(FloatVal(metrics[rule.metric]), rule.threshold, ParseOperator(OperatorOf(rule)))
  }

  /** `evaluate_rule`. */
  function EvaluateRule(metrics: map<string, Value>, rule: Rule): (v: Verdict)
    ensures v.metric == rule.metric
    ensures v.status == Skip <==> !IssetKey(metrics, rule.metric)
    ensures v.status == Skip ==> v.value == None && v.message == Some(NotAvailable)
    ensures v.status == Fail <==> Triggers(metrics, rule) && EnforcementOf(rule) == "hard"
    ensures v.status == Warning <==> Triggers(metrics, rule) && EnforcementOf(rule) != "hard"
    ensures v.status == Pass <==> IssetKey(metrics, rule.metric) && !Triggers(metrics, rule)
    ensures v.status != Skip ==> v.value == Some(FloatVal(metrics[rule.metric]))
    ensures v.status in {Fail, Warning} ==>
      && v.threshold == Some(rule.threshold)
      && v.operator == Some(OperatorOf(rule))
      && v.enforcement == Some(EnforcementOf(rule))
      && v.message == Some(GenerateMessage(rule.metric, FloatVal(metrics[rule.metric]), rule.threshold, OperatorOf(rule)))
    ensures v.status == Pass ==> v.message == None && v.threshold == None
  {
    var op := OperatorOf(rule);
    var enforcement := EnforcementOf(rule);
    if !IssetKey(metrics, rule.metric) then
      Verdict(Skip, rule.metric, None, None, None, None, Some(NotAvailable))
    else
      var value := FloatVal(metrics[rule.metric]);
      if Compare(value, rule.threshold, ParseOperator(op)) then
        Verdict(if enforcement == "hard" then Fail else Warning, rule.metric, Some(value),
                Some(rule.threshold), Some(op), Some(enforcement),
                Some(GenerateMessage(rule.metric, value, rule.threshold, op)))
      else
        Verdict(Pass, rule.metric, Some(value), None, None, None, None)
  }

  /** With no operator the rule triggers when the value is greater than the
      threshold; with no enforcement a triggered rule is only a warning. */
  lemma RuleDefaults(metrics: map<string, Value>, rule: Rule)
    requires IssetKey(metrics, rule.metric)
    ensures rule.operator == None ==>
      (Triggers(metrics, rule) <==> FloatVal(metrics[rule.metric]) > rule.threshold)
    ensures rule.enforcement == None ==> EvaluateRule(metrics, rule).status != Fail
  {
  }

  // ---------------------------------------------------------------------
  // Messages

  function MetricLabel(metric: string): string {
    if metric == "lcp" then "Largest Contentful Paint"
    else if metric == "fid" then "First Input Delay"
    else if metric == "cls" then "Cumulative Layout Shift"
    else if metric == "fcp" then "First Contentful Paint"
    else if metric == "ttfb" then "Time to First Byte"
    else if metric == "performance_score" then "Performance Score"
    else metric
  }

  function OperatorPhrase(op: string): string {
    if op == "gt" then "greater than"
    else if op == "gte" then "greater than or equal to"
    else if op == "lt" then "less than"
    else if op == "lte" then "less than or equal to"
    else op
  }

  /** `generate_message`: "<label> is <phrase> (value: X.XX, threshold: Y.YY)". */
  function GenerateMessage(metric: string, value: real, threshold: real, op: string): string {
    MetricLabel(metric) + " is " + OperatorPhrase(op)
      + " (value: " + FormatFixed2(value) + ", threshold: " + FormatFixed2(threshold) + ")"
  }

  /** Unknown metric keys are their own label; only the four ordering operators
      have a phrase, every other token (`eq`, `neq` included) is printed as is. */
  lemma LabelFallbacks(metric: string, op: string)
    ensures metric !in {"lcp", "fid", "cls", "fcp", "ttfb", "performance_score"} ==> MetricLabel(metric) == metric
    ensures OperatorPhrase(op) == op <==> op !in {"gt", "gte", "lt", "lte"}
    ensures OperatorPhrase("eq") == "eq" && OperatorPhrase("neq") == "neq"
  {
  }

  lemma Digits2600And2500()
    ensures NatToString(2600) == "2600" && NatToString(2500) == "2500"
  {
    assert NatToString(2) == "2";
    assert NatToString(26) == "26";
    assert NatToString(260) == "260";
    assert NatToString(25) == "25";
    assert NatToString(250) == "250";
  }

  /** The documented message for LCP 2600 against a `gt` threshold of 2500. */
  lemma LcpMessage()
    ensures GenerateMessage("lcp", 2600.0, 2500.0, "gt")
      == "Largest Contentful Paint" + " is " + "greater than" + " (value: " + "2600.00" + ", threshold: " + "2500.00" + ")"
  {
    FormatWholeNumber(2600);
    FormatWholeNumber(2500);
    Digits2600And2500();
    assert FormatFixed2(2600.0) == "2600.00";
    assert FormatFixed2(2500.0) == "2500.00";
    assert MetricLabel("lcp") == "Largest Contentful Paint";
    assert OperatorPhrase("gt") == "greater than";
    assert GenerateMessage("lcp", 2600.0, 2500.0, "gt")
      == "Largest Contentful Paint" + " is " + "greater than" + " (value: " + "2600.00" + ", threshold: " + "2500.00" + ")";
  }

  /** A hard `gt` rule on LCP 2600 against 2500 fails with that message. */
  lemma LcpExample()
    ensures EvaluateRule(map["lcp" := Int(2600)], Rule("lcp", 2500.0, Some("gt"), Some("hard"), Bool(true)))
      == Verdict(Fail, "lcp", Some(2600.0), Some(2500.0), Some("gt"), Some("hard"),
                 Some("Largest Contentful Paint" + " is " + "greater than" + " (value: " + "2600.00" + ", threshold: " + "2500.00" + ")"))
  {
    LcpMessage();
    assert FloatVal(Int(2600)) == 2600.0;
  }

  // ---------------------------------------------------------------------
  // Aggregation

  datatype Evaluation = Evaluation(passed: bool, violations: seq<Verdict>, warnings: seq<Verdict>)

  /** One verdict per rule, in rule order. */
  function Verdicts(metrics: map<string, Value>, rules: seq<Rule>): (vs: seq<Verdict>)
    ensures |vs| == |rules|
  {
    seq(|rules|, i requires 0 <= i < |rules| => EvaluateRule(metrics, rules[i]))
  }

  /** The verdicts with status `st`, in order. */
  function OfStatus(vs: seq<Verdict>, st: Status): seq<Verdict>
    decreases |vs|
  {
    if vs == [] then []
    else OfStatus(vs[..|vs| - 1], st) + (if vs[|vs| - 1].status == st then [vs[|vs| - 1]] else [])
  }

  /** What `evaluate` returns: the failing verdicts, the warning verdicts, and
      `passed` exactly when nothing failed. */
  function Evaluated(metrics: map<string, Value>, rules: seq<Rule>): Evaluation {
    var vs := Verdicts(metrics, rules);
    Evaluation(OfStatus(vs, Fail) == [], OfStatus(vs, Fail), OfStatus(vs, Warning))
  }

  /** `evaluate`: one pass over the rules, appending each failing verdict to
      the violations (clearing `passed`) and each warning to the warnings. */
  method Evaluate(metrics: map<string, Value>, rules: seq<Rule>) returns (results: Evaluation)
    ensures results == Evaluated(metrics, rules)
  {
    results := Evaluation(true, [], []);
    for i := 0 to |rules|
      invariant results == Evaluated(metrics, rules[..i])
    {
      var evaluation := EvaluateRule(metrics, rules[i]);
      ghost var done := Verdicts(metrics, rules[..i]);
      assert Verdicts(metrics, rules[..i + 1]) == done + [evaluation];
      assert (done + [evaluation])[..|done|] == done;
      if evaluation.status == Fail {
        results := results.(passed := false, violations := results.violations + [evaluation]);
      } else if evaluation.status == Warning {
        results := results.(warnings := results.warnings + [evaluation]);
      }
    }
    assert rules[..|rules|] == rules;
  }

  lemma {:induction false} OfStatusAppend(a: seq<Verdict>, b: seq<Verdict>, st: Status)
    ensures OfStatus(a + b, st) == OfStatus(a, st) + OfStatus(b, st)
    decreases |b|
  {
    if b == [] {
      assert a + b == a;
    } else {
      var b' := b[..|b| - 1];
      assert (a + b)[..|a + b| - 1] == a + b';
      OfStatusAppend(a, b', st);
    }
  }

  /** The filter keeps exactly the verdicts of that status, and nothing else. */
  lemma {:induction false} OfStatusMembers(vs: seq<Verdict>, st: Status)
    ensures forall v | v in OfStatus(vs, st) :: v in vs && v.status == st
    ensures forall v | v in vs && v.status == st :: v in OfStatus(vs, st)
    ensures OfStatus(vs, st) == [] <==> forall k | 0 <= k < |vs| :: vs[k].status != st
    decreases |vs|
  {
    if vs != [] {
      var init := vs[..|vs| - 1];
      OfStatusMembers(init, st);
      assert vs == init + [vs[|vs| - 1]];
      forall k | 0 <= k < |init| ensures init[k] == vs[k] { }
    }
  }

  /** Every verdict has exactly one status, so the four filters partition the verdicts. */
  lemma {:induction false} StatusPartition(vs: seq<Verdict>)
    ensures |OfStatus(vs, Fail)| + |OfStatus(vs, Warning)| + |OfStatus(vs, Pass)| + |OfStatus(vs, Skip)| == |vs|
    decreases |vs|
  {
    if vs != [] {
      StatusPartition(vs[..|vs| - 1]);
    }
  }

  /** Violations hold only failing verdicts and warnings only warning verdicts,
      both taken from the rules' verdicts; pass and skip verdicts appear in
      neither; together with them they account for every rule. */
  lemma EvaluatedClassifies(metrics: map<string, Value>, rules: seq<Rule>)
    ensures var e := Evaluated(metrics, rules);
      && (forall v | v in e.violations :: v.status == Fail && v in Verdicts(metrics, rules))
      && (forall v | v in e.warnings :: v.status == Warning && v in Verdicts(metrics, rules))
      && |e.violations| + |e.warnings| <= |rules|
  {
    var vs := Verdicts(metrics, rules);
    OfStatusMembers(vs, Fail);
    OfStatusMembers(vs, Warning);
    StatusPartition(vs);
  }

  /** The evaluation passes exactly when no rule is a triggered hard rule;
      warnings and skipped metrics do not matter. */
  lemma PassedIffNoHardTrigger(metrics: map<string, Value>, rules: seq<Rule>)
    ensures Evaluated(metrics, rules).passed <==>
      forall k | 0 <= k < |rules| :: !(Triggers(metrics, rules[k]) && EnforcementOf(rules[k]) == "hard")
  {
    var vs := Verdicts(metrics, rules);
    OfStatusMembers(vs, Fail);
    forall k | 0 <= k < |rules|
      ensures vs[k].status == Fail <==> Triggers(metrics, rules[k]) && EnforcementOf(rules[k]) == "hard"
    {
      assert vs[k] == EvaluateRule(metrics, rules[k]);
    }
  }

  /** Evaluating a concatenation of rule lists concatenates the results. */
  lemma EvaluatedAppend(metrics: map<string, Value>, r1: seq<Rule>, r2: seq<Rule>)
    ensures Evaluated(metrics, r1 + r2).violations == Evaluated(metrics, r1).violations + Evaluated(metrics, r2).violations
    ensures Evaluated(metrics, r1 + r2).warnings == Evaluated(metrics, r1).warnings + Evaluated(metrics, r2).warnings
    ensures Evaluated(metrics, r1 + r2).passed == (Evaluated(metrics, r1).passed && Evaluated(metrics, r2).passed)
  {
    assert Verdicts(metrics, r1 + r2) == Verdicts(metrics, r1) + Verdicts(metrics, r2);
    OfStatusAppend(Verdicts(metrics, r1), Verdicts(metrics, r2), Fail);
    OfStatusAppend(Verdicts(metrics, r1), Verdicts(metrics, r2), Warning);
  }

  /** Adding rules that are not hard never changes `passed` or the violations. */
  lemma SoftRulesKeepVerdict(metrics: map<string, Value>, rules: seq<Rule>, soft: seq<Rule>)
    requires forall k | 0 <= k < |soft| :: EnforcementOf(soft[k]) != "hard"
    ensures Evaluated(metrics, rules + soft).passed == Evaluated(metrics, rules).passed
    ensures Evaluated(metrics, rules + soft).violations == Evaluated(metrics, rules).violations
  {
    EvaluatedAppend(metrics, rules, soft);
    OfStatusMembers(Verdicts(metrics, soft), Fail);
  }

  // ---------------------------------------------------------------------
  // Actions

  /** An action as configured; absent or null keys are `None`. */
  datatype Action = Action(
    kind: Option<string>,
    to: Option<string>,
    subject: Option<string>,
    url: Option<string>)

  /** What `wp_remote_post` gives back: a transport error or a response status. */
  datatype HttpReply = TransportError | Reply(status: int)

  /** The outside world: the site's admin address, `wp_mail` and `wp_remote_post`. */
  datatype Collaborators = Collaborators(
    adminEmail: string,
    mail: (string, string, string) -> bool,
    post: (string, Evaluation) -> HttpReply)

  /** A call made to the outside world; logged and posted payloads are the
      evaluation before JSON encoding. */
  datatype Effect =
    | Mailed(to: string, subject: string, body: string)
    | Logged(payload: Evaluation)
    | Posted(url: string, payload: Evaluation)

  /** One action result: `{type, success, recipient|url|error}`. */
  datatype Outcome =
    | EmailSent(sent: bool, recipient: string)
    | LogWritten
    | WebhookCalled(ok: bool, url: string)
    | WebhookNotConfigured
  {
    function Type(): string {
      match this
      case EmailSent(_, _) => "email"
      case LogWritten => "log"
      case WebhookCalled(_, _) => "webhook"
      case WebhookNotConfigured => "webhook"
    }

    predicate Success() {
      match this
      case EmailSent(sent, _) => sent
      case LogWritten => true
      case WebhookCalled(ok, _) => ok
      case WebhookNotConfigured => false
    }
  }

  /** An executed action: its result and the outside call it made, if any. */
  datatype Step = Step(outcome: Outcome, effect: Option<Effect>)

  const DefaultSubject: string := "Performance Audit Violation"
  const EmailHeader: string := "Performance audit violations detected:\n\n"

  function MessageText(v: Verdict): string { v.message.GetOr("") }

  function ViolationLine(v: Verdict): string {
    "- " + v.metric + ": " + MessageText(v) + "\n"
  }

  /** The email body: the header, then one line per violation in order. */
  function EmailBody(violations: seq<Verdict>): string
    decreases |violations|
  {
    if violations == [] then EmailHeader
    else EmailBody(violations[..|violations| - 1]) + ViolationLine(violations[|violations| - 1])
  }

  /** `format_email_message`. */
  method FormatEmailMessage(violations: seq<Verdict>) returns (message: string)
    ensures message == EmailBody(violations)
  {
    message := EmailHeader;
    for i := 0 to |violations|
      invariant message == EmailBody(violations[..i])
    {
      assert violations[..i + 1][..i] == violations[..i];
      message := message + ViolationLine(violations[i]);
    }
    assert violations[..|violations|] == violations;
  }

  function CountChar(s: string, c: char): nat
    decreases |s|
  {
    if s == [] then 0 else CountChar(s[..|s| - 1], c) + (if s[|s| - 1] == c then 1 else 0)
  }

  lemma {:induction false} CountCharAppend(a: string, b: string, c: char)
    ensures CountChar(a + b, c) == CountChar(a, c) + CountChar(b, c)
    decreases |b|
  {
    if b == [] {
      assert a + b == a;
    } else {
      assert (a + b)[..|a + b| - 1] == a + b[..|b| - 1];
      CountCharAppend(a, b[..|b| - 1], c);
    }
  }

  lemma {:induction false} CountCharAbsent(s: string, c: char)
    requires c !in s
    ensures CountChar(s, c) == 0
    decreases |s|
  {
    if s != [] {
      assert s[..|s| - 1] <= s;
      CountCharAbsent(s[..|s| - 1], c);
    }
  }

  /** With single-line metric names and messages, the body has the two header
      line breaks and exactly one line per violation. */
  lemma {:induction false} EmailBodyLineCount(violations: seq<Verdict>)
    requires forall k | 0 <= k < |violations| :: '\n' !in violations[k].metric && '\n' !in MessageText(violations[k])
    ensures CountChar(EmailBody(violations), '\n') == 2 + |violations|
    decreases |violations|
  {
    if violations == [] {
      assert CountChar(EmailHeader, '\n') == 2 by {
        var h := EmailHeader;
        assert h == "Performance audit violations detected:" + "\n\n";
        CountCharAbsent("Performance audit violations detected:", '\n');
        CountCharAppend("Performance audit violations detected:", "\n\n", '\n');
        assert "\n\n"[..1] == "\n";
      }
    } else {
      var v := violations[|violations| - 1];
      EmailBodyLineCount(violations[..|violations| - 1]);
      CountCharAppend(EmailBody(violations[..|violations| - 1]), ViolationLine(v), '\n');
      CountCharAbsent("- " + v.metric + ": " + MessageText(v), '\n');
      CountCharAppend("- " + v.metric + ": " + MessageText(v), "\n", '\n');
    }
  }

  /** `send_email`: mail the formatted body to `to` (the admin address when
      missing) under `subject` (a fixed subject when missing). */
  function EmailStep(action: Action, results: Evaluation, env: Collaborators): (s: Step)
    ensures s.outcome.Type() == "email"
    ensures var to := action.to.GetOr(env.adminEmail);
      var subject := action.subject.GetOr(DefaultSubject);
      && s.effect == Some(Mailed(to, subject, EmailBody(results.violations)))
      && (s.outcome.Success() <==> env.mail(to, subject, EmailBody(results.violations)))
  {
    var to := action.to.GetOr(env.adminEmail);
    var subject := action.subject.GetOr(DefaultSubject);
    var body := EmailBody(results.violations);
    Step(EmailSent(env.mail(to, subject, body), to), Some(Mailed(to, subject, body)))
  }

  /** `send_email`, building the body with `format_email_message`. */
  method SendEmail(action: Action, results: Evaluation, env: Collaborators) returns (s: Step)
    ensures s == EmailStep(action, results, env)
  {
    var to := action.to.GetOr(env.adminEmail);
    var subject := action.subject.GetOr(DefaultSubject);
    var message := FormatEmailMessage(results.violations);
    var sent := env.mail(to, subject, message);
    s := Step(EmailSent(sent, to), Some(Mailed(to, subject, message)));
  }

  /** `log_violation`: writes the evaluation to the error log and always succeeds. */
  function LogViolation(results: Evaluation): (s: Step)
    ensures s.outcome.Type() == "log" && s.outcome.Success()
    ensures s.effect == Some(Logged(results))
  {
    Step(LogWritten, Some(Logged(results)))
  }

  /** `send_webhook`: an empty URL fails without a request; otherwise the
      evaluation is posted and the outcome succeeds only on HTTP 200. */
  function SendWebhook(action: Action, results: Evaluation, env: Collaborators): (s: Step)
    ensures s.outcome.Type() == "webhook"
    ensures Empty(Str(action.url.GetOr(""))) ==> s.effect == None && !s.outcome.Success()
    ensures !Empty(Str(action.url.GetOr(""))) ==>
      && s.effect == Some(Posted(action.url.value, results))
      && (s.outcome.Success() <==> env.post(action.url.value, results) == Reply(200))
  {
    var url := action.url.GetOr("");
    if Empty(Str(url)) then Step(WebhookNotConfigured, None)
    else Step(WebhookCalled(env.post(url, results) == Reply(200), url), Some(Posted(url, results)))
  }

  predicate IsKnownKind(kind: string) { kind in {"email", "log", "webhook"} }

  function KindOf(action: Action): string { action.kind.GetOr("") }

  /** `execute_action`: dispatch on the type; an unknown or missing type gives nothing. */
  function Dispatch(action: Action, results: Evaluation, env: Collaborators): (r: Option<Step>)
    ensures r.Some? <==> IsKnownKind(KindOf(action))
    ensures r.Some? ==> r.value.outcome.Type() == KindOf(action)
  {
    var kind := KindOf(action);
    if kind == "email" then Some(EmailStep(action, results, env))
    else if kind == "log" then Some(LogViolation(results))
    else if kind == "webhook" then Some(SendWebhook(action, results, env))
    else None
  }

  /** `execute_action`. */
  method ExecuteAction(action: Action, results: Evaluation, env: Collaborators) returns (r: Option<Step>)
    ensures r == Dispatch(action, results, env)
  {
    var kind := KindOf(action);
    if kind == "email" {
      var s := SendEmail(action, results, env);
      r := Some(s);
    } else if kind == "log" {
      r := Some(LogViolation(results));
    } else if kind == "webhook" {
      r := Some(SendWebhook(action, results, env));
    } else {
      r := None;
    }
  }

  /** The steps of the actions with a known type, in action order. */
  function Steps(results: Evaluation, actions: seq<Action>, env: Collaborators): seq<Step>
    decreases |actions|
  {
    if actions == [] then []
    else
      var last := Dispatch(actions[|actions| - 1], results, env);
      Steps(results, actions[..|actions| - 1], env) + (if last.Some? then [last.value] else [])
  }

  function Outcomes(steps: seq<Step>): (os: seq<Outcome>)
    ensures |os| == |steps|
  {
    seq(|steps|, k requires 0 <= k < |steps| => steps[k].outcome)
  }

  function Effects(steps: seq<Step>): seq<Effect>
    decreases |steps|
  {
    if steps == [] then []
    else
      var last := steps[|steps| - 1];
      Effects(steps[..|steps| - 1]) + (if last.effect.Some? then [last.effect.value] else [])
  }

  /** Actions run only for a failed evaluation that has violations. */
  predicate Fires(results: Evaluation) { !results.passed && results.violations != [] }

  /** `execute_actions`: nothing unless the evaluation failed with violations;
      then every action in order, collecting the result of each known type
      whether or not earlier actions succeeded. */
  method ExecuteActions(results: Evaluation, actions: seq<Action>, env: Collaborators)
    returns (outcomes: seq<Outcome>, effects: seq<Effect>)
    ensures !Fires(results) ==> outcomes == [] && effects == []
    ensures Fires(results) ==> outcomes == Outcomes(Steps(results, actions, env))
    ensures Fires(results) ==> effects == Effects(Steps(results, actions, env))
  {
    outcomes, effects := [], [];
    if !results.passed && results.violations != [] {
      for i := 0 to |actions|
        invariant outcomes == Outcomes(Steps(results, actions[..i], env))
        invariant effects == Effects(Steps(results, actions[..i], env))
      {
        ghost var before := Steps(results, actions[..i], env);
        assert actions[..i + 1][..i] == actions[..i];
        var r := ExecuteAction(actions[i], results, env);
        if r.Some? {
          assert Steps(results, actions[..i + 1], env) == before + [r.value];
          assert (before + [r.value])[..|before|] == before;
          outcomes := outcomes + [r.value.outcome];
          if r.value.effect.Some? {
            effects := effects + [r.value.effect.value];
          }
        } else {
          assert Steps(results, actions[..i + 1], env) == before;
        }
      }
      assert actions[..|actions|] == actions;
    }
  }

  /** The actions whose type is known, in order. */
  function KnownActions(actions: seq<Action>): seq<Action>
    decreases |actions|
  {
    if actions == [] then []
    else
      var last := actions[|actions| - 1];
      KnownActions(actions[..|actions| - 1]) + (if IsKnownKind(KindOf(last)) then [last] else [])
  }

  /** Exactly one result per action of known type, in order, each being that
      action's own result: unknown types are dropped and nothing else is. */
  lemma {:induction false} StepsFollowKnownActions(results: Evaluation, actions: seq<Action>, env: Collaborators)
    ensures var steps := Steps(results, actions, env);
      var known := KnownActions(actions);
      && |steps| == |known|
      && forall k | 0 <= k < |steps| :: Dispatch(known[k], results, env) == Some(steps[k])
    decreases |actions|
  {
    if actions != [] {
      StepsFollowKnownActions(results, actions[..|actions| - 1], env);
    }
  }

  /** The steps of later actions do not depend on earlier ones: running a
      list of actions is running its parts one after the other. */
  lemma {:induction false} StepsAppend(results: Evaluation, a: seq<Action>, b: seq<Action>, env: Collaborators)
    ensures Steps(results, a + b, env) == Steps(results, a, env) + Steps(results, b, env)
    decreases |b|
  {
    if b == [] {
      assert a + b == a;
    } else {
      assert (a + b)[..|a + b| - 1] == a + b[..|b| - 1];
      StepsAppend(results, a, b[..|b| - 1], env);
    }
  }

  /** No request is ever posted to an empty webhook URL. */
  lemma {:induction false} NoPostWithoutUrl(results: Evaluation, actions: seq<Action>, env: Collaborators)
    ensures forall e | e in Effects(Steps(results, actions, env)) && e.Posted? :: !Empty(Str(e.url))
    decreases |actions|
  {
    if actions != [] {
      var init := actions[..|actions| - 1];
      NoPostWithoutUrl(results, init, env);
      var before := Steps(results, init, env);
      var last := Dispatch(actions[|actions| - 1], results, env);
      if last.None? {
        assert Steps(results, actions, env) == before;
      }
      if last.Some? {
        var step := last.value;
        assert Steps(results, actions, env) == before + [step];
        assert (before + [step])[..|before|] == before;
        assert Effects(before + [step]) == Effects(before) + (if step.effect.Some? then [step.effect.value] else []);
        var action := actions[|actions| - 1];
        assert step.effect.Some? && step.effect.value.Posted? ==> !Empty(Str(step.effect.value.url)) by {
          if KindOf(action) == "email" {
            assert step == EmailStep(action, results, env);
          } else if KindOf(action) == "log" {
            assert step == LogViolation(results);
          } else {
            assert step == SendWebhook(action, results, env);
          }
        }
        forall e | e in Effects(Steps(results, actions, env)) && e.Posted? ensures !Empty(Str(e.url)) {
          if e !in Effects(before) {
            assert step.effect.Some? && e == step.effect.value;
          }
        }
      }
    }
  }

  /** A failing email does not stop a later webhook: with a mailer that
      always fails and a server that answers 200, both outcomes are reported. */
  lemma FailedEmailThenWebhook(results: Evaluation)
    requires Fires(results)
    ensures var env := Collaborators("admin@example.org", (to, subject, body) => false, (url, payload) => Reply(200));
      var actions := [Action(Some("email"), None, None, None), Action(Some("webhook"), None, None, Some("https://hook"))];
      Outcomes(Steps(results, actions, env)) == [EmailSent(false, "admin@example.org"), WebhookCalled(true, "https://hook")]
  {
    var env := Collaborators("admin@example.org", (to, subject, body) => false, (url, payload) => Reply(200));
    var actions := [Action(Some("email"), None, None, None), Action(Some("webhook"), None, None, Some("https://hook"))];
    assert actions[..1] == [actions[0]];
    assert actions[..1][..0] == [];
  }
}
