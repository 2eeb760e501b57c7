/** The sanitiser: the metric allowlist filter, and the IP and JSON
    sanitisers with the foreign validators and codecs as parameters. */
module Sanitizer {
  import opened Php

  /** The metric keys that survive sanitising, in output order. */
  const AllowedKeys: seq<string> := ["lcp", "fid", "cls", "fcp", "ttfb"]

  predicate Distinct(keys: seq<string>) {
    forall i, j | 0 <= i < j < |keys| :: keys[i] != keys[j]
  }

  /** The allowlist filter over `keys`: each key set in `metrics`, with its
      value read as a float, in the order of `keys`. */
  function Filtered(keys: seq<string>, metrics: map<string, Value>): seq<(string, real)>
    decreases |keys|
  {
    if keys == [] then []
    else
      var key := keys[|keys| - 1];
      Filtered(keys[..|keys| - 1], metrics)
        + (if IssetKey(metrics, key) then [(key, FloatVal(metrics[key]))] else [])
  }

  /** `sanitize_metrics`: the allowed keys that are set, as floats. */
  method SanitizeMetrics(metrics: map<string, Value>) returns (sanitized: seq<(string, real)>)
    ensures sanitized == Filtered(AllowedKeys, metrics)
  {
    sanitized := [];
    var allowed := AllowedKeys;
    for k := 0 to |allowed|
      invariant sanitized == Filtered(allowed[..k], metrics)
    {
      assert allowed[..k + 1][..k] == allowed[..k];
      var key := allowed[k];
      if IssetKey(metrics, key) {
        sanitized := sanitized + [(key, FloatVal(metrics[key]))];
      }
    }
    assert allowed[..|allowed|] == allowed;
  }

  /** A key is in the output exactly when it is allowed and set in the input,
      and its value is then the input value read as a float. */
  lemma {:induction false} FilteredExact(keys: seq<string>, metrics: map<string, Value>)
    ensures forall p | p in Filtered(keys, metrics) ::
      p.0 in keys && IssetKey(metrics, p.0) && p.1 == FloatVal(metrics[p.0])
    ensures forall key | key in keys && IssetKey(metrics, key) ::
      (key, FloatVal(metrics[key])) in Filtered(keys, metrics)
    decreases |keys|
  {
    if keys != [] {
      var init := keys[..|keys| - 1];
      FilteredExact(init, metrics);
      assert keys == init + [keys[|keys| - 1]];
    }
  }

  /** Position of a key in the allowlist. */
  function IndexOf(keys: seq<string>, key: string): (i: nat)
    requires key in keys
    ensures i < |keys| && keys[i] == key && key !in keys[..i]
  {
    if keys[0] == key then 0
    else
      var j := IndexOf(keys[1..], key);
      assert keys[..j + 1] == [keys[0]] + keys[1..][..j];
      j + 1
  }

  /** The output follows the order of the allowlist, whatever the input order. */
  lemma {:induction false} FilteredInKeyOrder(keys: seq<string>, metrics: map<string, Value>)
    requires Distinct(keys)
    ensures forall i, j | 0 <= i < j < |Filtered(keys, metrics)| ::
      && Filtered(keys, metrics)[i].0 in keys
      && Filtered(keys, metrics)[j].0 in keys
      && IndexOf(keys, Filtered(keys, metrics)[i].0) < IndexOf(keys, Filtered(keys, metrics)[j].0)
    decreases |keys|
  {
    if keys != [] {
      var n := |keys| - 1;
      var init := keys[..n];
      FilteredInKeyOrder(init, metrics);
      FilteredExact(init, metrics);
      var fi := Filtered(init, metrics);
      var f := Filtered(keys, metrics);
      forall key | key in init ensures IndexOf(keys, key) == IndexOf(init, key) && IndexOf(keys, key) < n {
        assert keys[IndexOf(init, key)] == key;
      }
      if IssetKey(metrics, keys[n]) {
        assert IndexOf(keys, keys[n]) == n;
        forall i, j | 0 <= i < j < |f|
          ensures f[i].0 in keys && f[j].0 in keys && IndexOf(keys, f[i].0) < IndexOf(keys, f[j].0)
        {
          assert fi[i] in fi;
          if j < |fi| {
            assert fi[j] in fi;
          }
        }
      } else {
        forall i, j | 0 <= i < j < |f|
          ensures f[i].0 in keys && f[j].0 in keys && IndexOf(keys, f[i].0) < IndexOf(keys, f[j].0)
        {
          assert fi[i] in fi && fi[j] in fi;
        }
      }
    }
  }

  /** Inputs that agree on which allowed keys are set, and on their float
      values, sanitise to the same output. */
  lemma {:induction false} FilteredCongruent(keys: seq<string>, m1: map<string, Value>, m2: map<string, Value>)
    requires forall key | key in keys :: IssetKey(m1, key) == IssetKey(m2, key)
    requires forall key | key in keys && IssetKey(m1, key) && IssetKey(m2, key) :: FloatVal(m1[key]) == FloatVal(m2[key])
    ensures Filtered(keys, m1) == Filtered(keys, m2)
    decreases |keys|
  {
    if keys != [] {
      FilteredCongruent(keys[..|keys| - 1], m1, m2);
    }
  }

  /** The sanitised metrics as the PHP array they are: allowed keys to floats. */
  function AsArray(keys: seq<string>, metrics: map<string, Value>): map<string, Value> {
    map key | key in keys && IssetKey(metrics, key) :: Float(FloatVal(metrics[key]))
  }

  /** Sanitising is idempotent: sanitising the sanitised array changes nothing. */
  lemma SanitizeIdempotent(metrics: map<string, Value>)
    ensures Filtered(AllowedKeys, AsArray(AllowedKeys, metrics)) == Filtered(AllowedKeys, metrics)
  {
    FilteredCongruent(AllowedKeys, AsArray(AllowedKeys, metrics), metrics);
  }

  /** Every output key is one of the five allowed metric keys, in allowlist order. */
  lemma SanitizedKeys(metrics: map<string, Value>)
    ensures forall p | p in Filtered(AllowedKeys, metrics) :: p.0 in {"lcp", "fid", "cls", "fcp", "ttfb"}
    ensures forall i, j | 0 <= i < j < |Filtered(AllowedKeys, metrics)| ::
      IndexOf(AllowedKeys, Filtered(AllowedKeys, metrics)[i].0) < IndexOf(AllowedKeys, Filtered(AllowedKeys, metrics)[j].0)
  {
    FilteredExact(AllowedKeys, metrics);
    FilteredInKeyOrder(AllowedKeys, metrics);
  }

  /** `sanitize_ip`: the address when the validator accepts it (and it is
      not falsy), otherwise `0.0.0.0`. */
  function SanitizeIp(ip: string, isValidIp: string -> bool): (r: string)
    ensures isValidIp(ip) && !Empty(Str(ip)) ==> r == ip
    ensures !isValidIp(ip) ==> r == "0.0.0.0"
  {
    if isValidIp(ip) && !Empty(Str(ip)) then ip else "0.0.0.0"
  }

  /** When the validator accepts `0.0.0.0`, sanitising twice is sanitising once. */
  lemma SanitizeIpIdempotent(ip: string, isValidIp: string -> bool)
    requires isValidIp("0.0.0.0")
    ensures SanitizeIp(SanitizeIp(ip, isValidIp), isValidIp) == SanitizeIp(ip, isValidIp)
  {
  }

  /** `sanitize_json`: `None` stands for `false` (a non-string, undecodable
      text, or a failed re-encoding); `decode` gives `None` on a JSON error. */
  function SanitizeJson(json: Value, decode: string -> Option<Value>, encode: Value -> Option<string>): (r: Option<string>)
    ensures !json.Str? ==> r == None
    ensures json.Str? && decode(json.s).None? ==> r == None
    ensures json.Str? && decode(json.s).Some? ==> r == encode(decode(json.s).value)
  {
    if !json.Str? then None
    else
      match decode(json.s)
      case None => None
      case Some(decoded) => encode(decoded)
  }

  /** With a codec whose decoding undoes its encoding, sanitised JSON is a
      fixed point of the sanitiser. */
  lemma SanitizeJsonStable(json: Value, decode: string -> Option<Value>, encode: Value -> Option<string>)
    requires forall v :: encode(v).Some? ==> decode(encode(v).value) == Some(v)
    requires SanitizeJson(json, decode, encode).Some?
    ensures SanitizeJson(Str(SanitizeJson(json, decode, encode).value), decode, encode) == SanitizeJson(json, decode, encode)
  {
    var decoded := decode(json.s).value;
    assert encode(decoded).Some?;
  }
}
