# PerfAuditPro core, modelled in Dafny

PerfAuditPro is a WordPress plugin. It runs synthetic PageSpeed audits and
collects real-user Web Vitals. It checks those metrics against configurable
threshold rules and notifies site owners when a rule is violated. This
project models the parts of the plugin that hold its logic and proves what
they promise:

- **Rules engine** (`rules_engine.dfy`). It covers per-rule evaluation,
  the comparison operators with their 0.0001 tolerance for `eq`/`neq`, the
  violation messages, and the aggregation into `passed` / `violations` /
  `warnings`. It also covers action dispatch (email, log, webhook), which
  runs only when there are hard violations. `evaluate`, `execute_actions`
  and `format_email_message` are loops in the source, so here they are
  methods with loop invariants. Each is proved against a function that
  specifies it.
- **Input validators** (`validator.dfy`): the device, audit-type and status
  enumerations, the integer and float range checks, and the audit-ID list
  filter with its `array_unique` deduplication.
- **Sanitiser** (`sanitizer.dfy`). It covers the allowlist filter over RUM
  metrics, and the shapes of `sanitize_ip` and `sanitize_json` with the
  foreign validator, decoder and encoder as parameters.
- **Notifications** (`notifications.dfy`). A class holds the options, the
  stored notification list (the last 100 are kept) and an outbox of sent
  messages. Audit-completion handling is gated by the options.
- **Autoloader** (`autoloader.dfy`): the mapping from a class name to the
  relative path of its file.
- **Settings page** (`settings_page.dfy`): the `sanitize_callback` closures
  registered for the numeric options.
- **Audit worker** (`php_worker.dfy`). A class holds the audits table and
  the results handed to the repository. It models batch selection (at most
  five pending audits, oldest first) and the status transitions. It also
  models the PageSpeed-to-record extraction, the fallback decision and the
  fallback score.

Two shared modules model the PHP behaviour the core relies on. `php.dfy`
models loosely typed values, `isset`/`empty`, `floatval`, `is_numeric`,
`(int)`, `absint`, `round` and `sprintf('%.2f')`. `text.dfy` models
`strtolower`, `str_replace`, `explode`/`implode` and decimal rendering.
Mail, HTTP, JSON, IP validation, clocks and the database are function
parameters or recorded effects.

Three points of the code's behaviour that the model follows:

- The soft verdict status is `'warning'`.
- Any enforcement other than `'hard'` yields a warning.
- `execute_actions` has no try/catch. A failed outcome does not stop later
  actions, and the modelled collaborators cannot throw.

## Model

| member | source | states |
|---|---|---|
| RulesEngine.ParseOperatorKeepsToken | includes/rules/class-rules-engine.php:96-113 | An operator token outside gt/gte/lt/lte/eq/neq is exactly an unknown operator, and reading a token never loses it. |
| RulesEngine.OperatorSemantics | includes/rules/class-rules-engine.php:96-113 | `eq` and `neq` are complements for every value and threshold. `gt` is the complement of `lte` and `lt` of `gte`. `gte` is `gt` or equality, `lte` is `lt` or equality. `eq` is symmetric and reflexive. An unknown operator never triggers. |
| RulesEngine.EqualityTolerance | includes/rules/class-rules-engine.php:106-109 | `eq` holds within a difference below 0.0001 and fails at 0.001, where `neq` holds. |
| RulesEngine.EvaluateRule | includes/rules/class-rules-engine.php:52-86 | The status is skip iff the metric is absent or null, with message "Metric not available" and no value. It is fail iff the rule triggers and enforcement is 'hard', warning iff it triggers under any other enforcement, and pass iff the metric is present and the rule does not trigger. A triggered verdict carries the value, threshold, operator (default gt), enforcement (default soft) and the generated message. |
| RulesEngine.RuleDefaults | includes/rules/class-rules-engine.php:55-56 | A rule with no operator triggers exactly when the value exceeds the threshold. A rule with no enforcement never fails. |
| RulesEngine.LabelFallbacks | includes/rules/class-rules-engine.php:124-151 | Unknown metric keys are used verbatim as labels. The operator phrase is the raw token exactly when the operator is not gt/gte/lt/lte, which includes eq and neq. |
| RulesEngine.LcpMessage | includes/rules/class-rules-engine.php:124-151 | LCP 2600 against 2500 with gt reads "Largest Contentful Paint is greater than (value: 2600.00, threshold: 2500.00)". |
| RulesEngine.LcpExample | includes/rules/class-rules-engine.php:52-86 | That hard rule on that metric yields a fail verdict with every field set. |
| RulesEngine.Evaluate | includes/rules/class-rules-engine.php:24-43 | The loop produces the specified evaluation: passed iff no fail verdict, fail verdicts in violations and warning verdicts in warnings, in rule order. |
| RulesEngine.OfStatusMembers | includes/rules/class-rules-engine.php:31-40 | A status filter keeps exactly the verdicts of that status, and it is empty iff no verdict has it. |
| RulesEngine.StatusPartition | includes/rules/class-rules-engine.php:31-40 | Every verdict lands in exactly one of fail, warning, pass or skip. |
| RulesEngine.EvaluatedClassifies | includes/rules/class-rules-engine.php:24-43 | Violations are fail verdicts of the rules and warnings are warning verdicts. Together they number at most the rules. |
| RulesEngine.PassedIffNoHardTrigger | includes/rules/class-rules-engine.php:24-43 | `passed` holds iff no rule both triggers and is enforced 'hard'. Warnings never change it. |
| RulesEngine.EvaluatedAppend | includes/rules/class-rules-engine.php:24-43 | Evaluating two rule lists in sequence concatenates their violations and warnings and conjoins `passed`, so the lists keep rule order. |
| RulesEngine.SoftRulesKeepVerdict | includes/rules/class-rules-engine.php:34-39 | Adding rules that are not 'hard' changes neither `passed` nor the violations. |
| RulesEngine.FormatEmailMessage | includes/rules/class-rules-engine.php:273-285 | The loop builds the header followed by one "- metric: message" line per violation, in order. |
| RulesEngine.EmailBodyLineCount | includes/rules/class-rules-engine.php:273-285 | The email body has exactly two header newlines plus one line per violation. |
| RulesEngine.EmailStep | includes/rules/class-rules-engine.php:204-216 | An email action mails the recipient (default admin email) with the subject (default subject) and the formatted body. Its success is the mailer's answer. |
| RulesEngine.SendEmail | includes/rules/class-rules-engine.php:204-216 | The method yields exactly that email step. |
| RulesEngine.LogViolation | includes/rules/class-rules-engine.php:225-232 | Logging records the evaluation and always succeeds. |
| RulesEngine.SendWebhook | includes/rules/class-rules-engine.php:241-265 | An empty URL fails without posting. Otherwise the evaluation is posted, and success holds iff the reply is a status of exactly 200. |
| RulesEngine.Dispatch | includes/rules/class-rules-engine.php:182-195 | Only email, log and webhook actions give an outcome, of their own type. A missing or unknown type gives none. |
| RulesEngine.ExecuteAction | includes/rules/class-rules-engine.php:182-195 | The method yields exactly the dispatched step. |
| RulesEngine.ExecuteActions | includes/rules/class-rules-engine.php:160-173 | With `passed` true or no violations, nothing runs and nothing is returned. Otherwise there is one outcome per known action, in order, with the effects of those actions only. |
| RulesEngine.StepsFollowKnownActions | includes/rules/class-rules-engine.php:160-173 | The outcomes correspond one to one and in order to the actions of known type. Unknown ones are dropped and failed ones do not stop the loop. |
| RulesEngine.StepsAppend | includes/rules/class-rules-engine.php:160-173 | Running two action lists in sequence concatenates their steps. |
| RulesEngine.NoPostWithoutUrl | includes/rules/class-rules-engine.php:241-265 | No POST is ever made to an empty URL. |
| RulesEngine.FailedEmailThenWebhook | includes/rules/class-rules-engine.php:164-169 | A failed email does not stop the following webhook from running and succeeding. |
| Validator.ValidateDevice | includes/utils/class-validator.php:73-79 | A string that case-insensitively equals desktop or mobile comes back lower-cased. Anything else gives the default. |
| Validator.ValidateAuditType | includes/utils/class-validator.php:98-104 | The result is 'lighthouse' for any casing of it, else the default. |
| Validator.EnumerationsIgnoreCase | includes/utils/class-validator.php:62-115 | Device, audit-type and status membership ignore case. |
| Validator.ValidateDeviceIdempotent | includes/utils/class-validator.php:73-79 | A validated device validates to itself. |
| Validator.NonStringsRejected | includes/utils/class-validator.php:62-115 | Non-strings are never a valid device, audit type or status. |
| Validator.ValidatePositiveInt | includes/utils/class-validator.php:152-158 | A numeric value whose `(int)` lies in [min, max] gives that integer, with max unbounded when null. Anything else gives the default. |
| Validator.PositiveIntOfDecimal | includes/utils/class-validator.php:125-141 | A decimal string is a positive int iff its number lies in range, and then it validates to that number. |
| Validator.ValidateNonNegativeFloat | includes/utils/class-validator.php:181-187 | A numeric value with non-negative `floatval` gives that float. Anything else gives the default. |
| Validator.NonNegativeFloatOfDecimal | includes/utils/class-validator.php:166-187 | A decimal string validates to its number. |
| Validator.IsValidAuditIds | includes/utils/class-validator.php:195-211 | The early-return loop holds iff the input is a non-empty array whose every element is a numeric value of at least 1. |
| Validator.ValidateAuditIds | includes/utils/class-validator.php:219-232 | The loop keeps the integer of each valid element, deduplicated by `array_unique`. A non-array gives []. |
| Validator.ValidIdsExact | includes/utils/class-validator.php:219-232 | The kept IDs are exactly the `(int)` values of the valid elements, all at least 1. |
| Validator.ArrayUniqueFirstOccurrences | includes/utils/class-validator.php:231 | Deduplication keeps each value once, at its first occurrence and original index, in order. |
| Validator.ValidatedIdsSummary | includes/utils/class-validator.php:219-232 | The output is duplicate-free, all at least 1, and contains every valid input ID. |
| Sanitizer.SanitizeMetrics | includes/security/class-sanitizer.php:25-40 | The loop yields the allowlist filter of the metrics. |
| Sanitizer.FilteredExact | includes/security/class-sanitizer.php:33-37 | An allowed key appears iff it is set and non-null, with value `floatval` of the input. |
| Sanitizer.FilteredInKeyOrder | includes/security/class-sanitizer.php:31-37 | Output keys follow the allowlist order, not the input order. |
| Sanitizer.FilteredCongruent | includes/security/class-sanitizer.php:33-35 | Inputs that agree on which allowed keys are set and on their float values sanitise alike. |
| Sanitizer.SanitizeIdempotent | includes/security/class-sanitizer.php:31-39 | Sanitising a sanitised map gives it back unchanged. |
| Sanitizer.SanitizedKeys | includes/security/class-sanitizer.php:31-37 | Output keys are among lcp, fid, cls, fcp and ttfb, in that order. |
| Sanitizer.SanitizeIp | includes/security/class-sanitizer.php:71-73 | A valid IP comes back unchanged. Anything invalid becomes 0.0.0.0. |
| Sanitizer.SanitizeIpIdempotent | includes/security/class-sanitizer.php:71-73 | Sanitising twice is sanitising once. |
| Sanitizer.SanitizeJson | includes/security/class-sanitizer.php:50-61 | A non-string or undecodable input gives false. Otherwise the result is the re-encoded decoded value. |
| Sanitizer.SanitizeJsonStable | includes/security/class-sanitizer.php:50-61 | When encoding round-trips through decoding, sanitised JSON is a fixed point. |
| Notifications.UnreadCount | includes/admin/class-notifications.php:84-89 | The count of entries whose `read` is missing or falsy never exceeds the list length. |
| Notifications.AppendedKeepsRecent | includes/admin/class-notifications.php:117-128 | After appending, the list has exactly min(old length + 1, 100) entries, the new one last, preceded by the most recent old entries in order (the last 99 once 100 or more were stored). Below 100 old entries, all are kept and the unread count rises by one. |
| Notifications.NewNotificationShape | includes/admin/class-notifications.php:119-126 | The new record is unread, of type 'violation', with the given audit id and violations, and an id starting with "notif_". |
| Notifications.EnabledRulesExact | includes/admin/class-notifications.php:102-104 | Exactly the rules with a non-empty `enabled` field are kept. |
| Notifications.EnabledRulesAppend | includes/admin/class-notifications.php:102-104 | The filter keeps rule order. |
| Notifications.DisabledRulesIgnored | includes/admin/class-notifications.php:101-106 | Disabled rules never affect the evaluation. |
| Notifications.NotificationBodyLineCount | includes/admin/class-notifications.php:149-156 | The notification email has the header plus one "- message" line per violation, without the metric. |
| Notifications.AnnouncementsGated | includes/admin/class-notifications.php:133-144 | An email is sent iff the recipient option is non-empty, and a webhook post iff the URL option is non-empty; the message count is the number of such options. The email goes first, with the right recipient and body, and the post carries the URL and the evaluation. |
| Notifications.NotificationCenter.GetUnreadCount | includes/admin/class-notifications.php:84-89 | The unread count of the stored list is at most its length. |
| Notifications.NotificationCenter.CreateNotification | includes/admin/class-notifications.php:117-128 | The stored list becomes the old list plus the new record, truncated to the last 100. Nothing else changes. |
| Notifications.NotificationCenter.SendEmail | includes/admin/class-notifications.php:149-156 | Exactly one email with the fixed subject and the formatted body is sent. |
| Notifications.NotificationCenter.SendWebhook | includes/admin/class-notifications.php:161-167 | Exactly one webhook with the evaluation is sent. |
| Notifications.NotificationCenter.SendNotifications | includes/admin/class-notifications.php:133-144 | The messages sent are exactly the gated announcements. |
| Notifications.NotificationCenter.CheckAuditViolations | includes/admin/class-notifications.php:94-112 | With notifications disabled, or an evaluation of the enabled rules that passes, nothing changes. Otherwise one notification is stored and the gated messages are sent. |
| Autoloader.ClassFilePath | includes/class-autoloader.php:37-62 | Names outside `PerfAuditPro\` give no path. Others give "includes/" + directory + file name. |
| Autoloader.FileNameShape | includes/class-autoloader.php:48-49 | The file name has no upper-case letter, no backslash and no underscore. |
| Autoloader.DirectoryShape | includes/class-autoloader.php:52-55 | The directory is lower-case and either empty or ends in '/'. |
| Autoloader.PathShape | includes/class-autoloader.php:57 | Every path starts with "includes/", ends with ".php" and has no upper-case letter or backslash. |
| Autoloader.StripRoot | includes/class-autoloader.php:42 | Removing the root namespace from a root-level name leaves the class name. |
| Autoloader.StripNamespaced | includes/class-autoloader.php:42 | Only the leading root prefix goes in front of a sub-namespace, and the rest is still scanned. |
| Autoloader.RootClassPath | includes/class-autoloader.php:37-62 | A class in the root namespace maps to "includes/class-<name>.php" with an empty directory. |
| Autoloader.NamespacedClassPath | includes/class-autoloader.php:37-62 | A class in one sub-namespace maps to "includes/<lower-case namespace>/class-<name>.php". |
| Autoloader.RepeatedRootNamespace | includes/class-autoloader.php:42 | Every occurrence of `PerfAuditPro\` is removed, not only the leading one. |
| Autoloader.DashOneUnderscore | includes/class-autoloader.php:48 | An underscore becomes a dash. |
| Autoloader.RestApiFileName | includes/class-autoloader.php:47-49 | Rest_API maps to class-rest-api.php. |
| SettingsPage.ThresholdCallback | includes/admin/class-settings-page.php:54-89 | Each threshold is stored as the float `floatval` of the input. |
| SettingsPage.WorkerIntCallback | includes/admin/class-settings-page.php:106-117 | Worker interval and concurrency are non-negative integers: `(int)` of the input when that is non-negative, and its absolute value when it is negative. |
| SettingsPage.SampleRateClamped | includes/admin/class-settings-page.php:124-130 | The sample rate lies in [0, 1]. It equals the input's float inside that range, and is the int 0 or 1 at or beyond the ends. |
| SettingsPage.SampleRateIdempotent | includes/admin/class-settings-page.php:124-130 | Re-sanitising a sample rate changes nothing. |
| SettingsPage.RetentionClamped | includes/admin/class-settings-page.php:133-148 | Retention days lie in [7, 365]. An in-range `absint` is kept, so a negative input counts by its absolute value. Smaller values become 7 and larger ones 365. |
| SettingsPage.RetentionIdempotent | includes/admin/class-settings-page.php:133-148 | Re-sanitising retention changes nothing. |
| SettingsPage.SanitizeOption | includes/admin/class-settings-page.php:42-153 | Per option, the registered callback gives floats for thresholds, non-negative ints for worker settings, [7, 365] for retention and [0, 1] for the sample rate. An option without a callback is stored unchanged. |
| SettingsPage.NumericSettingsStable | includes/admin/class-settings-page.php:42-153 | Every numeric callback is idempotent. |
| PhpWorker.PendingRowsExact | includes/worker/class-php-worker.php:36 | The pending rows are exactly the table's rows with status 'pending'. |
| PhpWorker.SortByCreationSorts | includes/worker/class-php-worker.php:36 | The ordering is ascending in created_at and a permutation of its input. |
| PhpWorker.PendingBatchChoice | includes/worker/class-php-worker.php:34-41 | The batch holds min(5, pending) pending rows of the table, in ascending created_at, and takes no row more often than the table holds it. |
| PhpWorker.PendingBatchOldestFirst | includes/worker/class-php-worker.php:36 | No pending row left out of the batch is older than a row taken. |
| PhpWorker.NoPendingEmptyBatch | includes/worker/class-php-worker.php:43-45 | With no pending row the batch is empty, so the run changes nothing. |
| PhpWorker.TimingsCopied | includes/worker/class-php-worker.php:169-188 | Each of the six timings is stored under its renamed key, such as interactive under time_to_interactive. It is null iff the audit's numericValue is missing, else copied unchanged. |
| PhpWorker.PerformanceScoreRange | includes/worker/class-php-worker.php:165-167 | A missing score gives null. A numeric score in [0, 1] gives a rounded value in [0, 100]. Only an array or a non-numeric string throws. |
| PhpWorker.ExtractPsiMetrics | includes/worker/class-php-worker.php:160-193 | A record keeps the Lighthouse result and the six timings. Its score is null iff missing. A throw comes only from a non-numeric score. |
| PhpWorker.FallbackScoreRange | includes/worker/class-php-worker.php:223-226 | The fallback score is a whole number in [0, 100]. It is 100 for no delay and 0 from one second on, and it never rises as the response slows. |
| PhpWorker.RunFallbackAudit | includes/worker/class-php-worker.php:201-231 | A transport error gives a WP_Error whose message is "Failed to fetch URL: " + the error. Otherwise a fallback record with a score in [0, 100]. |
| PhpWorker.RunPagespeedAudit | includes/worker/class-php-worker.php:117-152 | It falls back iff there is a transport error, the decoded body is falsy or lighthouseResult is not set. Otherwise it returns the extracted record, or the throw. |
| PhpWorker.SingleAuditEffect | includes/worker/class-php-worker.php:64-109 | One audit changes only its own rows. The worker's own writes leave them 'failed' on a WP_Error and 'processing' otherwise, including after a throw. Results are handed to the repository only on success. |
| PhpWorker.RunBatchStopsAtThrow | includes/worker/class-php-worker.php:47-49 | Once an audit throws, later audits are not processed. |
| PhpWorker.RunBatchEffect | includes/worker/class-php-worker.php:47-49 | A batch changes only the rows of its audits. If nothing threw, the worker's own writes leave each of them 'processing' or 'failed'. |
| PhpWorker.Worker.ProcessSingleAudit | includes/worker/class-php-worker.php:64-109 | The row is marked processing first. Then results are stored, the row is marked failed, or the throw escapes. |
| PhpWorker.Worker.ProcessPendingAudits | includes/worker/class-php-worker.php:28-50 | The batch is read once from the old table and processed in order until a throw. |

## Left out

- Numbers: IEEE double rounding and the 64-bit integer range are not modelled. Metric values, thresholds and scores are exact reals, and `(int)` of a huge float does not saturate.
- `sprintf('%.2f')` formats the exact real. A value exactly halfway between two hundredths rounds to the even hundredth. PHP formats the nearest binary double instead, so its result on such ties can differ.
- Rule shape: a rule's threshold is a number and its operator and enforcement are strings. An action's `type`, `to`, `subject` and `url` are strings too, when present. PHP's loose `switch` matching of non-string operators and action types (a boolean `true` type matching `'email'`) is not modelled.
- JSON: `json_decode` and `wp_json_encode` are parameters of `Sanitizer.SanitizeJson`. The PageSpeed body arrives already decoded. Webhook payloads and `lighthouse_json` are kept as the values they encode.
- `filter_var` (IP and URL validation) is a parameter. `is_valid_url`, `validate_url` and the `escape_*` helpers are WordPress escapers and validators and are not modelled.
- Mail and HTTP: `wp_mail`, `wp_remote_post` and `wp_remote_get` are function parameters. Request URLs, headers, timeouts, the API key option and `add_query_arg` are not modelled. The PageSpeed oracle takes the audited URL.
- `wp_remote_retrieve_header` returning an array for a repeated header is not modelled. The header is a single value.
- Database: the audits table is a sequence of rows. `update_audit_results` is recorded as an (audit id, record) pair. The repository's own behaviour and the audit-completed hook are not part of this model.
- Rows with equal created_at are kept in table order. MySQL leaves their order unspecified.
- Clocks: `microtime` timing, `time()` and `current_time('mysql')` are parameters.
- Options: `get_option`/`update_option` act on a map held by the notification class. The rules list that `Rules_Page::get_rules` returns is a parameter, because Rules_Page is not part of this model.
- Throws: the only throw modelled is PHP 8's TypeError from `score * 100` on an array or a non-numeric string. The worker's catch clause names `PerfAuditPro\Worker\Exception`, so that throw escapes. The row stays 'processing' and the batch stops. Throws from unseen code and the `error_log` call in the catch are not modelled.
- A string `lighthouseResult` is read as having no audits or categories. PHP's string-offset reading is not modelled.
- The body length uses one character per byte.
- `sanitize_metrics` is declared to take an array, so its non-array branch cannot be reached and is not modelled.
- Admin and lifecycle glue is not modelled: menus, `render_page`, `update_notifications`, capability and nonce checks, and setting registration. The worker's `init`, `start`, `stop`, `is_running` and `process_pending_audits_cron` are left out too. The foreign sanitizers (`sanitize_text_field`, `sanitize_email`, `rest_sanitize_boolean`, `esc_url_raw`) are a parameter.
- Autoloader: the plugin directory prefix, `file_exists`, `require_once` and `spl_autoload_register` are left out. The model returns the relative path.
- Autoloader.ClassFilePath: its value on a given class name is stated by general lemmas over the name's shape, not by worked literal examples.
- The logger's text and the log channel of `log_violation` are not modelled. The log step records the evaluation.
