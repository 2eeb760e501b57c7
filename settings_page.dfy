/** The sanitise callbacks registered with the settings: thresholds read as
    floats, worker settings as non-negative integers, the RUM sample rate
    clamped to [0, 1] and the retention periods to [7, 365] days. */
module SettingsPage {
  import opened Php

  /** PHP `min` of two numbers: the smaller by value, the first on a tie. */
  function Min(a: Value, b: Value): Value {
    if FloatVal(b) < FloatVal(a) then b else a
  }

  /** PHP `max` of two numbers: the larger by value, the first on a tie. */
  function Max(a: Value, b: Value): Value {
    if FloatVal(b) > FloatVal(a) then b else a
  }

  /** The threshold callbacks: `floatval`. */
  function ThresholdCallback(v: Value): (r: Value)
    ensures r.Float? && r.f == FloatVal(v)
  {
    Float(FloatVal(v))
  }

  /** The worker interval and concurrency callbacks: `absint`. */
  function WorkerIntCallback(v: Value): (r: Value)
    ensures r.Int? && r.i >= 0
    ensures IntVal(v) >= 0 ==> r.i == IntVal(v)
    ensures IntVal(v) < 0 ==> r.i == -IntVal(v)
  {
    Int(AbsInt(v))
  }

  /** The sample-rate callback: `max(0, min(1, floatval(v)))`. */
  function SampleRateCallback(v: Value): Value {
    Max(Int(0), Min(Int(1), Float(FloatVal(v))))
  }

  /** The sample rate lies in [0, 1]; a rate already there is kept; below
      and above it become the integers 0 and 1, because PHP's `min`/`max`
      return their first argument on a tie. */
  lemma SampleRateClamped(v: Value)
    ensures 0.0 <= FloatVal(SampleRateCallback(v)) <= 1.0
    ensures 0.0 <= FloatVal(v) <= 1.0 ==> FloatVal(SampleRateCallback(v)) == FloatVal(v)
    ensures FloatVal(v) <= 0.0 ==> SampleRateCallback(v) == Int(0)
    ensures FloatVal(v) >= 1.0 ==> SampleRateCallback(v) == Int(1)
    ensures 0.0 < FloatVal(v) < 1.0 ==> SampleRateCallback(v) == Float(FloatVal(v))
  {
  }

  /** Sanitising a sanitised sample rate changes nothing. */
  lemma SampleRateIdempotent(v: Value)
    ensures SampleRateCallback(SampleRateCallback(v)) == SampleRateCallback(v)
  {
    SampleRateClamped(v);
  }

  /** The retention callbacks: `max(7, min(365, absint(v)))`. */
  function RetentionCallback(v: Value): Value {
    Max(Int(7), Min(Int(365), Int(AbsInt(v))))
  }

  /** The retention period is a whole number of days in [7, 365]; `absint`
      of the input is kept when it lies there, so a negative input counts by
      its absolute value. */
  lemma RetentionClamped(v: Value)
    ensures RetentionCallback(v).Int? && 7 <= RetentionCallback(v).i <= 365
    ensures 7 <= AbsInt(v) <= 365 ==> RetentionCallback(v) == Int(AbsInt(v))
    ensures IntVal(v) < 0 && 7 <= -IntVal(v) <= 365 ==> RetentionCallback(v) == Int(-IntVal(v))
    ensures AbsInt(v) < 7 ==> RetentionCallback(v) == Int(7)
    ensures AbsInt(v) > 365 ==> RetentionCallback(v) == Int(365)
  {
  }

  /** Sanitising a sanitised retention period changes nothing. */
  lemma RetentionIdempotent(v: Value)
    ensures RetentionCallback(RetentionCallback(v)) == RetentionCallback(v)
  {
    RetentionClamped(v);
  }

  /** What each registered option is sanitised with. */
  datatype Callback =
    | ToFloat
    | ToAbsInt
    | ClampSampleRate
    | ClampRetention
    | Foreign(name: string)
    | NoCallback

  const ThresholdOptions: set<string> := {
    "perfaudit_pro_threshold_lcp", "perfaudit_pro_threshold_fid", "perfaudit_pro_threshold_cls",
    "perfaudit_pro_threshold_fcp", "perfaudit_pro_threshold_ttfb", "perfaudit_pro_threshold_performance_score"}

  const WorkerOptions: set<string> := {"perfaudit_pro_worker_interval", "perfaudit_pro_worker_max_concurrent"}

  const RetentionOptions: set<string> := {"perfaudit_pro_audit_retention_days", "perfaudit_pro_rum_retention_days"}

  /** `register_settings`: the callback registered for each option. */
  function CallbackFor(option: string): Callback {
    if option in ThresholdOptions then ToFloat
    else if option in WorkerOptions then ToAbsInt
    else if option == "perfaudit_pro_rum_sample_rate" then ClampSampleRate
    else if option in RetentionOptions then ClampRetention
    else if option in {"perfaudit_pro_psi_api_key", "perfaudit_pro_api_token"} then Foreign("sanitize_text_field")
    else if option == "perfaudit_pro_notification_email" then Foreign("sanitize_email")
    else if option in {"perfaudit_pro_notification_enabled", "perfaudit_pro_rum_enabled"} then Foreign("rest_sanitize_boolean")
    else if option == "perfaudit_pro_webhook_url" then Foreign("esc_url_raw")
    else NoCallback
  }

  /** The value stored for `option` when `v` is submitted; WordPress's own
      sanitisers are the parameter `foreign`. */
  function SanitizeOption(option: string, v: Value, foreign: (string, Value) -> Value): (r: Value)
    ensures option in ThresholdOptions ==> r == Float(FloatVal(v))
    ensures option in WorkerOptions ==> r.Int? && r.i >= 0
    ensures option in RetentionOptions ==> r.Int? && 7 <= r.i <= 365
    ensures option == "perfaudit_pro_rum_sample_rate" ==> 0.0 <= FloatVal(r) <= 1.0
    ensures CallbackFor(option) == NoCallback ==> r == v
  {
    match CallbackFor(option)
    case ToFloat => ThresholdCallback(v)
    case ToAbsInt => WorkerIntCallback(v)
    case ClampSampleRate => SampleRateClamped(v); SampleRateCallback(v)
    case ClampRetention => RetentionClamped(v); RetentionCallback(v)
    case Foreign(name) => foreign(name, v)
    case NoCallback => v
  }

  /** The options with a numeric callback are stable: storing a stored
      value again changes nothing. */
  lemma NumericSettingsStable(option: string, v: Value, foreign: (string, Value) -> Value)
    requires option in ThresholdOptions || option in WorkerOptions || option in RetentionOptions
      || option == "perfaudit_pro_rum_sample_rate"
    ensures SanitizeOption(option, SanitizeOption(option, v, foreign), foreign) == SanitizeOption(option, v, foreign)
  {
    if option in RetentionOptions {
      RetentionIdempotent(v);
    } else if option == "perfaudit_pro_rum_sample_rate" {
      SampleRateIdempotent(v);
    }
  }
}
