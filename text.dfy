/** ASCII text helpers shared by the model: character classes, decimal digits,
    and the PHP string builtins the core relies on (strtolower, str_replace,
    explode, implode, strpos(...) === 0). */
module Text {

  predicate IsDigit(c: char) { '0' <= c <= '9' }

  predicate IsUpper(c: char) { 'A' <= c <= 'Z' }

  predicate AllDigits(s: string) { forall c | c in s :: IsDigit(c) }

  /** No ASCII upper-case letter occurs in `s`. */
  predicate NoUpper(s: string) { forall c | c in s :: !IsUpper(c) }

  function DigitValue(c: char): (d: nat)
    requires IsDigit(c)
    ensures d < 10
  {
    c as int - '0' as int
  }

  function DigitChar(d: nat): (c: char)
    requires d < 10
    ensures IsDigit(c) && DigitValue(c) == d
  {
    ('0' as int + d) as char
  }

  /** Decimal rendering of a natural number, most significant digit first. */
  function NatToString(n: nat): (s: string)
    ensures |s| >= 1 && AllDigits(s)
    decreases n
  {
    if n < 10 then [DigitChar(n)] else NatToString(n / 10) + [DigitChar(n % 10)]
  }

  /** The number a run of decimal digits denotes. */
  function DigitsValue(s: string): nat
    requires AllDigits(s)
    decreases |s|
  {
    if s == [] then 0 else DigitsValue(s[..|s| - 1]) * 10 + DigitValue(s[|s| - 1])
  }

  /** Reading back a rendered number gives the number. */
  lemma {:induction false} DigitsValueOfNatToString(n: nat)
    ensures DigitsValue(NatToString(n)) == n
    decreases n
  {
    if n >= 10 {
      DigitsValueOfNatToString(n / 10);
      var s := NatToString(n / 10) + [DigitChar(n % 10)];
      assert s[..|s| - 1] == NatToString(n / 10);
    }
  }

  /** PHP 8 strtolower: ASCII letters only. */
  function ToLowerChar(c: char): (r: char)
    ensures !IsUpper(r)
    ensures r == c <==> !IsUpper(c)
  {
    if IsUpper(c) then (c as int + 32) as char else c
  }

  function ToLower(s: string): (r: string)
    ensures |r| == |s|
    ensures forall i | 0 <= i < |s| :: r[i] == ToLowerChar(s[i])
  {
    seq(|s|, i requires 0 <= i < |s| => ToLowerChar(s[i]))
  }

  /** strtolower leaves no upper-case letter. */
  lemma LowerHasNoUpper(s: string)
    ensures NoUpper(ToLower(s))
  {
    var r := ToLower(s);
    forall x | x in r ensures !IsUpper(x) {
      var i :| 0 <= i < |r| && r[i] == x;
    }
  }

  /** strtolower never produces a character that is not a letter unless it was there. */
  lemma LowerKeepsAbsent(s: string, c: char)
    requires !IsUpper(c) && !('a' <= c <= 'z')
    requires c !in s
    ensures c !in ToLower(s)
  {
    var r := ToLower(s);
    forall i | 0 <= i < |r| ensures r[i] != c {
      assert s[i] != c;
    }
  }

  /** strtolower leaves lower-case text alone, so it is idempotent. */
  lemma LowerOfNoUpper(s: string)
    requires NoUpper(s)
    ensures ToLower(s) == s
  {
    forall i | 0 <= i < |s| ensures ToLower(s)[i] == s[i] {
      assert s[i] in s;
    }
  }

  lemma LowerIdempotent(s: string)
    ensures ToLower(ToLower(s)) == ToLower(s)
  {
    LowerHasNoUpper(s);
    LowerOfNoUpper(ToLower(s));
  }

  predicate StartsWith(s: string, prefix: string) {
    |prefix| <= |s| && s[..|prefix|] == prefix
  }

  /** PHP str_replace with one search string: one left-to-right pass that
      replaces non-overlapping occurrences; an empty search string changes nothing. */
  function Replace(s: string, search: string, repl: string): string
    decreases |s|
  {
    if search == [] || |s| < |search| then s
    else if s[..|search|] == search then repl + Replace(s[|search|..], search, repl)
    else [s[0]] + Replace(s[1..], search, repl)
  }

  /** Replacing a one-character search string removes that character, provided
      the replacement does not contain it. */
  lemma {:induction false} ReplaceCharRemoves(s: string, c: char, repl: string)
    requires c !in repl
    ensures c !in Replace(s, [c], repl)
    decreases |s|
  {
    if |s| >= 1 {
      ReplaceCharRemoves(s[1..], c, repl);
      if s[..1] != [c] {
        assert s[0] != c;
      }
    }
  }

  /** str_replace introduces only characters of the subject or the replacement. */
  lemma {:induction false} ReplaceKeepsAbsent(s: string, search: string, repl: string, c: char)
    requires c !in s && c !in repl
    ensures c !in Replace(s, search, repl)
    decreases |s|
  {
    if search == [] || |s| < |search| {
    } else if s[..|search|] == search {
      ReplaceKeepsAbsent(s[|search|..], search, repl, c);
    } else {
      assert c != s[0];
      ReplaceKeepsAbsent(s[1..], search, repl, c);
    }
  }

  /** `search` occurs in `s` at index `i`. */
  predicate OccursAt(s: string, i: nat, search: string) {
    i + |search| <= |s| && s[i..i + |search|] == search
  }

  /** str_replace changes nothing when the search string does not occur. */
  lemma {:induction false} ReplaceNoOccurrence(s: string, search: string, repl: string)
    requires search != []
    requires forall i | 0 <= i < |s| :: !OccursAt(s, i, search)
    ensures Replace(s, search, repl) == s
    decreases |s|
  {
    if |s| >= |search| {
      assert !OccursAt(s, 0, search);
      forall i | 0 <= i < |s[1..]| ensures !OccursAt(s[1..], i, search) {
        assert !OccursAt(s, i + 1, search);
        if i + |search| <= |s[1..]| {
          assert s[1..][i..i + |search|] == s[i + 1..i + 1 + |search|];
        }
      }
      ReplaceNoOccurrence(s[1..], search, repl);
    }
  }

  /** str_replace copies a prefix in which no occurrence starts. */
  lemma {:induction false} ReplaceSkips(a: string, b: string, search: string, repl: string)
    requires search != []
    requires forall i | 0 <= i < |a| :: !OccursAt(a + b, i, search)
    ensures Replace(a + b, search, repl) == a + Replace(b, search, repl)
    decreases |a|
  {
    if a != [] {
      var s := a + b;
      assert !OccursAt(s, 0, search);
      assert s[1..] == a[1..] + b;
      forall i | 0 <= i < |a[1..]| ensures !OccursAt(a[1..] + b, i, search) {
        assert !OccursAt(s, i + 1, search);
        if i + |search| <= |s[1..]| {
          assert s[1..][i..i + |search|] == s[i + 1..i + 1 + |search|];
        }
      }
      ReplaceSkips(a[1..], b, search, repl);
      if |s| >= |search| {
        assert s[..|search|] != search;
        assert Replace(s, search, repl) == [a[0]] + Replace(a[1..] + b, search, repl);
      } else {
        assert Replace(b, search, repl) == b;
      }
      assert [a[0]] + (a[1..] + Replace(b, search, repl)) == a + Replace(b, search, repl);
    } else {
      assert a + b == b;
    }
  }

  /** An occurrence at the start is replaced and the rest is processed. */
  lemma ReplaceAtStart(search: string, b: string, repl: string)
    requires search != []
    ensures Replace(search + b, search, repl) == repl + Replace(b, search, repl)
  {
    assert (search + b)[..|search|] == search;
    assert (search + b)[|search|..] == b;
  }

  /** A string lacking some character of the search string contains no occurrence. */
  lemma NoOccurrenceWithout(s: string, search: string, c: char)
    requires c in search && c !in s
    ensures forall i | 0 <= i < |s| :: !OccursAt(s, i, search)
  {
    var k :| 0 <= k < |search| && search[k] == c;
    forall i | 0 <= i < |s| ensures !OccursAt(s, i, search) {
      if i + |search| <= |s| {
        assert s[i..i + |search|][k] == s[i + k];
      }
    }
  }

  /** Index of the first occurrence of `c` in `s`. */
  function FirstIndex(s: string, c: char): (i: nat)
    requires c in s
    ensures i < |s| && s[i] == c && c !in s[..i]
  {
    if s[0] == c then 0
    else
      var j := FirstIndex(s[1..], c);
      assert s[..j + 1] == [s[0]] + s[1..][..j];
      j + 1
  }

  /** PHP explode with a one-character delimiter: the pieces between delimiters,
      always at least one. */
  function Explode(sep: char, s: string): (parts: seq<string>)
    ensures |parts| >= 1
    ensures forall k | 0 <= k < |parts| :: sep !in parts[k]
    decreases |s|
  {
    if sep !in s then [s]
    else
      var i := FirstIndex(s, sep);
      [s[..i]] + Explode(sep, s[i + 1..])
  }

  /** PHP implode: the pieces joined by `glue`. */
  function Implode(glue: string, parts: seq<string>): string
    decreases |parts|
  {
    if |parts| == 0 then ""
    else if |parts| == 1 then parts[0]
    else parts[0] + glue + Implode(glue, parts[1..])
  }

  /** implode undoes explode. */
  lemma {:induction false} ImplodeExplode(sep: char, s: string)
    ensures Implode([sep], Explode(sep, s)) == s
    decreases |s|
  {
    if sep in s {
      var i := FirstIndex(s, sep);
      var rest := Explode(sep, s[i + 1..]);
      ImplodeExplode(sep, s[i + 1..]);
      assert Explode(sep, s) == [s[..i]] + rest;
      assert ([s[..i]] + rest)[1..] == rest;
      assert s == s[..i] + [sep] + s[i + 1..];
    }
  }

  /** Joining pieces that avoid `c` with glue that avoids `c` avoids `c`. */
  lemma {:induction false} ImplodeKeepsAbsent(glue: string, parts: seq<string>, c: char)
    requires c !in glue
    requires forall k | 0 <= k < |parts| :: c !in parts[k]
    ensures c !in Implode(glue, parts)
    decreases |parts|
  {
    if |parts| > 1 {
      ImplodeKeepsAbsent(glue, parts[1..], c);
    }
  }
}
