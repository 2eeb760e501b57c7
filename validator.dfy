/** Input validators: enumerations checked case-insensitively, integer
    ranges, non-negative numbers, and the audit-id list filter. */
module Validator {
  import opened Text
  import opened Php

  // ---------------------------------------------------------------------
  // Enumerations

  /** `is_valid_device`: a string that lower-cases to `desktop` or `mobile`. */
  predicate IsValidDevice(v: Value) {
    v.Str? && ToLower(v.s) in {"desktop", "mobile"}
  }

  /** `validate_device`. */
  function ValidateDevice(v: Value, default: string): (r: string)
    ensures IsValidDevice(v) ==> r == ToLower(v.s) && r in {"desktop", "mobile"}
    ensures !IsValidDevice(v) ==> r == default
  {
    if !IsValidDevice(v) then default else ToLower(v.s)
  }

  /** `is_valid_audit_type`: only `lighthouse`, in any case. */
  predicate IsValidAuditType(v: Value) {
    v.Str? && ToLower(v.s) in {"lighthouse"}
  }

  /** `validate_audit_type`. */
  function ValidateAuditType(v: Value, default: string): (r: string)
    ensures IsValidAuditType(v) ==> r == "lighthouse"
    ensures !IsValidAuditType(v) ==> r == default
  {
    if !IsValidAuditType(v) then default else ToLower(v.s)
  }

  /** `is_valid_status`. */
  predicate IsValidStatus(v: Value) {
    v.Str? && ToLower(v.s) in {"pending", "processing", "completed", "failed"}
  }

  /** The enumeration checks ignore case: a string is accepted exactly when
      its lower-case form is. */
  lemma EnumerationsIgnoreCase(s: string)
    ensures IsValidDevice(Str(s)) <==> IsValidDevice(Str(ToLower(s)))
    ensures IsValidAuditType(Str(s)) <==> IsValidAuditType(Str(ToLower(s)))
    ensures IsValidStatus(Str(s)) <==> IsValidStatus(Str(ToLower(s)))
  {
    LowerIdempotent(s);
  }

  /** Validating an already validated device gives it back, whatever the default. */
  lemma ValidateDeviceIdempotent(v: Value, default: string, other: string)
    requires IsValidDevice(v)
    ensures ValidateDevice(Str(ValidateDevice(v, default)), other) == ValidateDevice(v, default)
  {
    LowerIdempotent(v.s);
  }

  /** Non-strings are never valid, whatever they would print as. */
  lemma NonStringsRejected(v: Value)
    requires !v.Str?
    ensures ValidateDevice(v, "desktop") == "desktop"
    ensures ValidateAuditType(v, "lighthouse") == "lighthouse"
    ensures !IsValidStatus(v)
  {
  }

  // ---------------------------------------------------------------------
  // Numbers

  /** `is_positive_int`: numeric, and its integer part at least `min` and at
      most `max` when a maximum is given. */
  predicate IsPositiveInt(v: Value, min: int, max: Option<int>) {
    IsNumeric(v) && min <= IntVal(v) && (max.None? || IntVal(v) <= max.value)
  }

  /** `validate_positive_int`. */
  function ValidatePositiveInt(v: Value, default: int, min: int, max: Option<int>): (r: int)
    ensures IsPositiveInt(v, min, max) ==> r == IntVal(v) && min <= r && (max.Some? ==> r <= max.value)
    ensures !IsPositiveInt(v, min, max) ==> r == default
  {
    if !IsPositiveInt(v, min, max) then default else IntVal(v)
  }

  /** A decimal string is accepted exactly when its number is in range, and
      then validates to that number. */
  lemma PositiveIntOfDecimal(n: nat, default: int, min: int, max: Option<int>)
    ensures IsPositiveInt(Str(NatToString(n)), min, max) <==> min <= n && (max.None? || n <= max.value)
    ensures min <= n && (max.None? || n <= max.value) ==>
      ValidatePositiveInt(Str(NatToString(n)), default, min, max) == n
  {
    NumericTextOfNat(n);
  }

  /** `is_non_negative_float`. */
  predicate IsNonNegativeFloat(v: Value) {
    IsNumeric(v) && FloatVal(v) >= 0.0
  }

  /** `validate_non_negative_float`: the default, or a number that is not negative. */
  function ValidateNonNegativeFloat(v: Value, default: real): (r: real)
    ensures IsNonNegativeFloat(v) ==> r == FloatVal(v) && r >= 0.0
    ensures !IsNonNegativeFloat(v) ==> r == default
  {
    if !IsNonNegativeFloat(v) then default else FloatVal(v)
  }

  /** A decimal string always validates to its own number. */
  lemma NonNegativeFloatOfDecimal(n: nat, default: real)
    ensures ValidateNonNegativeFloat(Str(NatToString(n)), default) == n as real
  {
    NumericTextOfNat(n);
  }

  // ---------------------------------------------------------------------
  // Audit id lists

  /** An id accepted by `is_positive_int` with the default bounds. */
  predicate IsId(v: Value) { IsPositiveInt(v, 1, None) }

  /** `is_valid_audit_ids`: a non-empty array whose every element is an id. */
  method IsValidAuditIds(ids: Value) returns (ok: bool)
    ensures ok <==> ids.Arr? && |ids.entries| > 0 && forall k | 0 <= k < |ids.entries| :: IsId(ids.entries[k].1)
  {
    if !ids.Arr? {
      return false;
    }
    if Empty(ids) {
      return false;
    }
    for k := 0 to |ids.entries|
      invariant forall j | 0 <= j < k :: IsId(ids.entries[j].1)
    {
      if !IsId(ids.entries[k].1) {
        return false;
      }
    }
    return true;
  }

  /** The integer values of the entries that are ids, in order. */
  function ValidIds(entries: seq<(Key, Value)>): seq<int>
    decreases |entries|
  {
    if entries == [] then []
    else
      var last := entries[|entries| - 1].1;
      ValidIds(entries[..|entries| - 1]) + (if IsId(last) then [IntVal(last)] else [])
  }

  /** PHP `array_unique` on a list: the first occurrence of each value, with
      its original index as key, in order. */
  function ArrayUnique(xs: seq<int>): seq<(nat, int)>
    decreases |xs|
  {
    if xs == [] then []
    else
      var n := |xs| - 1;
      ArrayUnique(xs[..n]) + (if xs[n] in xs[..n] then [] else [(n, xs[n])])
  }

  /** `validate_audit_ids`: collect the ids of an array, then drop repeats. */
  method ValidateAuditIds(ids: Value) returns (unique: seq<(nat, int)>)
    ensures unique == if ids.Arr? then ArrayUnique(ValidIds(ids.entries)) else []
  {
    if !ids.Arr? {
      return [];
    }
    var valid: seq<int> := [];
    for k := 0 to |ids.entries|
      invariant valid == ValidIds(ids.entries[..k])
    {
      assert ids.entries[..k + 1][..k] == ids.entries[..k];
      if IsId(ids.entries[k].1) {
        valid := valid + [IntVal(ids.entries[k].1)];
      }
    }
    assert ids.entries[..|ids.entries|] == ids.entries;
    unique := ArrayUnique(valid);
  }

  /** Every collected id is at least 1 and comes from an entry that is an id;
      every entry that is an id is collected. */
  lemma {:induction false} ValidIdsExact(entries: seq<(Key, Value)>)
    ensures forall x | x in ValidIds(entries) :: x >= 1
    ensures forall x | x in ValidIds(entries) ::
      exists k | 0 <= k < |entries| :: IsId(entries[k].1) && IntVal(entries[k].1) == x
    ensures forall k | 0 <= k < |entries| && IsId(entries[k].1) :: IntVal(entries[k].1) in ValidIds(entries)
    decreases |entries|
  {
    if entries != [] {
      var n := |entries| - 1;
      var init := entries[..n];
      ValidIdsExact(init);
      forall x | x in ValidIds(entries)
        ensures exists k | 0 <= k < |entries| :: IsId(entries[k].1) && IntVal(entries[k].1) == x
      {
        if x in ValidIds(init) {
          var k :| 0 <= k < |init| && IsId(init[k].1) && IntVal(init[k].1) == x;
          assert entries[k] == init[k];
        } else {
          assert IsId(entries[n].1) && IntVal(entries[n].1) == x;
        }
      }
      forall k | 0 <= k < |entries| && IsId(entries[k].1)
        ensures IntVal(entries[k].1) in ValidIds(entries)
      {
        if k < n {
          assert entries[k] == init[k];
        }
      }
    }
  }

  /** `array_unique` keeps exactly the first occurrences: each kept pair is
      an index and its value, that value does not occur earlier, indices
      increase, no value is kept twice, and every value of the input is kept. */
  lemma {:induction false} ArrayUniqueFirstOccurrences(xs: seq<int>)
    ensures forall i | 0 <= i < |ArrayUnique(xs)| ::
      && ArrayUnique(xs)[i].0 < |xs|
      && xs[ArrayUnique(xs)[i].0] == ArrayUnique(xs)[i].1
      && ArrayUnique(xs)[i].1 !in xs[..ArrayUnique(xs)[i].0]
    ensures forall i, j | 0 <= i < j < |ArrayUnique(xs)| ::
      ArrayUnique(xs)[i].0 < ArrayUnique(xs)[j].0 && ArrayUnique(xs)[i].1 != ArrayUnique(xs)[j].1
    ensures forall x | x in xs :: exists i | 0 <= i < |ArrayUnique(xs)| :: ArrayUnique(xs)[i].1 == x
    decreases |xs|
  {
    if xs != [] {
      var n := |xs| - 1;
      var init := xs[..n];
      ArrayUniqueFirstOccurrences(init);
      var ui := ArrayUnique(init);
      var u := ArrayUnique(xs);
      assert u == ui + (if xs[n] in init then [] else [(n, xs[n])]);
      forall i | 0 <= i < |ui|
        ensures ui[i].0 < n && xs[ui[i].0] == ui[i].1 && ui[i].1 !in xs[..ui[i].0] && ui[i].1 in init
      {
        assert init[..ui[i].0] == xs[..ui[i].0];
        assert init[ui[i].0] == xs[ui[i].0];
      }
      forall x | x in xs ensures exists i | 0 <= i < |u| :: u[i].1 == x {
        if x in init {
          var i :| 0 <= i < |ui| && ui[i].1 == x;
          assert u[i] == ui[i];
        } else {
          assert x == xs[n];
          assert u[|u| - 1].1 == x;
        }
      }
    }
  }

  /** What `validate_audit_ids` returns for an array: distinct ids, each at
      least 1 and taken from an id entry, with every id entry represented. */
  lemma ValidatedIdsSummary(entries: seq<(Key, Value)>)
    ensures forall i | 0 <= i < |ArrayUnique(ValidIds(entries))| :: ArrayUnique(ValidIds(entries))[i].1 >= 1
    ensures forall i, j | 0 <= i < j < |ArrayUnique(ValidIds(entries))| ::
      ArrayUnique(ValidIds(entries))[i].1 != ArrayUnique(ValidIds(entries))[j].1
    ensures forall k | 0 <= k < |entries| && IsId(entries[k].1) ::
      exists i | 0 <= i < |ArrayUnique(ValidIds(entries))| :: ArrayUnique(ValidIds(entries))[i].1 == IntVal(entries[k].1)
  {
    var ids := ValidIds(entries);
    ValidIdsExact(entries);
    ArrayUniqueFirstOccurrences(ids);
    var u := ArrayUnique(ids);
    forall i | 0 <= i < |u| ensures u[i].1 >= 1 {
      assert ids[u[i].0] in ids;
    }
  }
}
