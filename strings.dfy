/** The string operations of Rust's standard library that the core relies on:
    decimal `Display` of unsigned integers, `str::find`, `str::split`,
    `str::splitn(2, _)`, `str::trim` and `str::replace`, each stated over
    `seq<char>` with its meaning as a contract. */
module Strings {
  import opened Wrappers

  /** Rust's `str::find`/`str::replace` matching: `pat` starts at index `i` of `s`. */
  ghost predicate OccursAt(s: string, pat: string, i: nat)
  {
    i + |pat| <= |s| && s[i..i + |pat|] == pat
  }

  ghost predicate Contains(s: string, pat: string)
  {
    exists i: nat :: OccursAt(s, pat, i)
  }

  predicate IsPrefix(p: string, s: string)
  {
    |p| <= |s| && s[..|p|] == p
  }

  lemma ContainsMiddle(a: string, t: string, b: string)
    ensures Contains(a + t + b, t)
  {
    assert (a + t + b)[|a|..|a| + |t|] == t;
    assert OccursAt(a + t + b, t, |a|);
  }

  lemma ContainsTrans(s: string, t: string, p: string)
    requires Contains(s, t) && Contains(t, p)
    ensures Contains(s, p)
  {
    var i: nat :| OccursAt(s, t, i);
    var j: nat :| OccursAt(t, p, j);
    assert forall k :: 0 <= k < |p| ==> s[i + j..i + j + |p|][k] == t[j + k] == p[k];
    assert s[i + j..i + j + |p|] == p;
    assert OccursAt(s, p, i + j);
  }

  // ---------------------------------------------------------------------------
  // Decimal formatting (`{}` / `to_string` on `usize`, `u8`)
  // ---------------------------------------------------------------------------

  predicate IsDigit(c: char)
  {
    '0' <= c <= '9'
  }

  function DigitChar(d: nat): (c: char)
    requires d < 10
    ensures IsDigit(c) && DigitValue(c) == d
  {
    ('0' as int + d) as char
  }

  function DigitValue(c: char): nat
    requires IsDigit(c)
  {
    assert '0' as int <= c as int;
    c as int - '0' as int
  }

  /** The number a string of decimal digits denotes, read left to right. */
  function DecimalValue(s: string): nat
    requires forall i :: 0 <= i < |s| ==> IsDigit(s[i])
  {
    if s == [] then 0
    else DecimalValue(s[..|s| - 1]) * 10 + DigitValue(s[|s| - 1])
  }

  /** Rust's `Display` for an unsigned integer: the shortest decimal string. */
  function NatToString(n: nat): (r: string)
    ensures |r| >= 1
    ensures forall i :: 0 <= i < |r| ==> IsDigit(r[i])
    ensures DecimalValue(r) == n
    ensures r[0] == '0' ==> n == 0 && r == "0"
  {
    if n < 10 then [DigitChar(n)]
    else
      var prefix := NatToString(n / 10);
      var r := prefix + [DigitChar(n % 10)];
      assert r[..|r| - 1] == prefix;
      r
  }

  lemma NatToStringInjective(a: nat, b: nat)
    requires NatToString(a) == NatToString(b)
    ensures a == b
  {
  }

  // ---------------------------------------------------------------------------
  // `str::find`
  // ---------------------------------------------------------------------------

  function FindFrom(s: string, pat: string, from: nat): (r: Option<nat>)
    requires from <= |s|
    ensures r.Some? ==> from <= r.value && OccursAt(s, pat, r.value)
    ensures r.Some? ==> forall j: nat :: from <= j < r.value ==> !OccursAt(s, pat, j)
    ensures r.None? ==> forall j: nat :: from <= j ==> !OccursAt(s, pat, j)
    decreases |s| - from
  {
    if from + |pat| > |s| then None
    else if s[from..from + |pat|] == pat then Some(from)
    else FindFrom(s, pat, from + 1)
  }

  /** The index of the first occurrence of `pat` in `s`, as Rust's `str::find`. */
  function Find(s: string, pat: string): (r: Option<nat>)
    ensures r.Some? ==> OccursAt(s, pat, r.value)
    ensures r.Some? ==> forall j: nat :: j < r.value ==> !OccursAt(s, pat, j)
    ensures r.None? <==> !Contains(s, pat)
  {
    FindFrom(s, pat, 0)
  }

  /** `find` returns the first occurrence, whichever that is. */
  lemma FindFirst(s: string, pat: string, i: nat)
    requires OccursAt(s, pat, i)
    requires forall j: nat :: j < i ==> !OccursAt(s, pat, j)
    ensures Find(s, pat) == Some(i)
  {
    var r := Find(s, pat);
    assert Contains(s, pat);
    assert !(r.value < i);
  }

  // ---------------------------------------------------------------------------
  // `str::split` on a one-character separator, and its inverse
  // ---------------------------------------------------------------------------

  /** `parts[0] + sep + parts[1] + sep + ...`, the string a split came from. */
  function Join(parts: seq<string>, sep: string): string
    requires |parts| >= 1
  {
    if |parts| == 1 then parts[0] else parts[0] + sep + Join(parts[1..], sep)
  }

  /** Rust's `s.split(sep)`: the pieces between separators, empty pieces
      included, so a string with k separators gives k + 1 pieces. */
  function Split(s: string, sep: char): (r: seq<string>)
    ensures |r| >= 1
    ensures forall i :: 0 <= i < |r| ==> sep !in r[i]
    ensures Join(r, [sep]) == s
  {
    if s == [] then [""]
    else if s[0] == sep then
      var t := Split(s[1..], sep);
      assert s == [sep] + Join(t, [sep]);
      [""] + t
    else
      var t := Split(s[1..], sep);
      var r := [[s[0]] + t[0]] + t[1..];
      assert Join(r, [sep]) == [s[0]] + Join(t, [sep]) by {
        if |t| > 1 {
          assert r[1..] == t[1..];
        }
      }
      assert s == [s[0]] + s[1..];
      r
  }

  /** The result of Rust's `s.splitn(2, c)`: the text before the first `c`,
      and the text after it when there is one. */
  datatype KeyValue = KeyValue(key: string, value: Option<string>)

  function SplitOnce(s: string, c: char): (r: KeyValue)
    ensures c !in r.key
    ensures r.value.None? <==> c !in s
    ensures r.value.None? ==> r.key == s
    ensures r.value.Some? ==> s == r.key + [c] + r.value.value
  {
    if s == [] then KeyValue("", None)
    else if s[0] == c then KeyValue("", Some(s[1..]))
    else
      var t := SplitOnce(s[1..], c);
      assert s == [s[0]] + s[1..];
      KeyValue([s[0]] + t.key, t.value)
  }

  // ---------------------------------------------------------------------------
  // `str::trim`
  // ---------------------------------------------------------------------------

  /** Rust's `char::is_whitespace`: the Unicode `White_Space` property. */
  predicate IsWhitespace(c: char)
  {
    c == ' ' || c == '\t' || c == '\n' || c == '\r' || c == '\U{000B}' || c == '\U{000C}'
    || c == '\U{0085}' || c == '\U{00A0}' || c == '\U{1680}'
    || ('\U{2000}' <= c <= '\U{200A}')
    || c == '\U{2028}' || c == '\U{2029}' || c == '\U{202F}' || c == '\U{205F}' || c == '\U{3000}'
  }

  predicate AllWhitespace(t: string)
  {
    forall i :: 0 <= i < |t| ==> IsWhitespace(t[i])
  }

  function TrimStart(s: string): (r: string)
    ensures |r| <= |s| && r == s[|s| - |r|..]
    ensures AllWhitespace(s[..|s| - |r|])
    ensures r != [] ==> !IsWhitespace(r[0])
    decreases |s|
  {
    if s != [] && IsWhitespace(s[0]) then
      var r := TrimStart(s[1..]);
      assert s[..|s| - |r|] == [s[0]] + s[1..][..|s| - 1 - |r|];
      r
    else s
  }

  function TrimEnd(s: string): (r: string)
    ensures |r| <= |s| && r == s[..|r|]
    ensures AllWhitespace(s[|r|..])
    ensures r != [] ==> !IsWhitespace(r[|r| - 1])
    decreases |s|
  {
    if s != [] && IsWhitespace(s[|s| - 1]) then
      var r := TrimEnd(s[..|s| - 1]);
      assert s[|r|..] == s[..|s| - 1][|r|..] + [s[|s| - 1]];
      r
    else s
  }

  /** Rust's `str::trim`: `s` without its leading and trailing whitespace. */
  function Trim(s: string): (r: string)
    ensures exists a: nat, b: nat :: (a <= b <= |s| && r == s[a..b] && AllWhitespace(s[..a]) && AllWhitespace(s[b..]))
    ensures r != [] ==> !IsWhitespace(r[0]) && !IsWhitespace(r[|r| - 1])
  {
    var t := TrimStart(s);
    var r := TrimEnd(t);
    TrimSlices(s, t, r);
    r
  }

  lemma TrimSlices(s: string, t: string, r: string)
    requires |t| <= |s| && t == s[|s| - |t|..] && AllWhitespace(s[..|s| - |t|])
    requires |r| <= |t| && r == t[..|r|] && AllWhitespace(t[|r|..])
    ensures var a := |s| - |t|; r == s[a..a + |r|] && AllWhitespace(s[..a]) && AllWhitespace(s[a + |r|..])
  {
    var a := |s| - |t|;
    assert s[a + |r|..] == t[|r|..];
  }

  /** Trailing whitespace, such as the `\r` a CRLF line keeps after a split
      on `\n`, never survives a trim. */
  lemma {:induction false} TrimEndDropsTrailing(s: string, w: string)
    requires AllWhitespace(w)
    ensures TrimEnd(s + w) == TrimEnd(s)
    decreases |w|
  {
    if w != [] {
      var w' := w[..|w| - 1];
      assert (s + w)[..|s + w| - 1] == s + w';
      assert AllWhitespace(w') by {
        assert forall i :: 0 <= i < |w'| ==> w'[i] == w[i];
      }
      TrimEndDropsTrailing(s, w');
    } else {
      assert s + w == s;
    }
  }

  lemma {:induction false} TrimStartOfSuffixed(s: string, w: string)
    requires TrimStart(s) != []
    ensures TrimStart(s + w) == TrimStart(s) + w
    decreases |s|
  {
    assert (s + w)[0] == s[0];
    if IsWhitespace(s[0]) {
      assert (s + w)[1..] == s[1..] + w;
      TrimStartOfSuffixed(s[1..], w);
    }
  }

  lemma TrimDropsTrailingWhitespace(s: string, w: string)
    requires AllWhitespace(w)
    ensures Trim(s + w) == Trim(s)
  {
    if TrimStart(s) != [] {
      TrimStartOfSuffixed(s, w);
      TrimEndDropsTrailing(TrimStart(s), w);
    } else {
      assert s[..|s|] == s;
      assert forall i :: 0 <= i < |s + w| ==> (s + w)[i] == if i < |s| then s[i] else w[i - |s|];
      AllWhitespaceTrimsEmpty(s + w);
    }
  }

  lemma {:induction false} AllWhitespaceTrimsEmpty(s: string)
    requires AllWhitespace(s)
    ensures TrimStart(s) == []
    decreases |s|
  {
    if s != [] {
      assert forall i :: 0 <= i < |s| - 1 ==> s[1..][i] == s[i + 1];
      AllWhitespaceTrimsEmpty(s[1..]);
    }
  }

  // ---------------------------------------------------------------------------
  // `str::replace`
  // ---------------------------------------------------------------------------

  /** Rust's `s.replace(pat, rep)`: scanning left to right, each
      non-overlapping occurrence of `pat` is replaced by `rep`. */
  function ReplaceAll(s: string, pat: string, rep: string): string
    requires |pat| > 0
    decreases |s|
  {
    if |s| < |pat| then s
    else if s[..|pat|] == pat then rep + ReplaceAll(s[|pat|..], pat, rep)
    else [s[0]] + ReplaceAll(s[1..], pat, rep)
  }

  lemma SliceOfTail(s: string, i: nat, n: nat)
    requires i + n < |s|
    ensures s[1..][i..i + n] == s[i + 1..i + 1 + n]
  {
    assert s[1..][i..i + n] == s[i + 1..i + 1 + n];
  }

  /** Where `pat` does not occur, replacing it changes nothing. */
  lemma {:induction false} ReplaceAbsent(s: string, pat: string, rep: string)
    requires |pat| > 0
    requires !Contains(s, pat)
    ensures ReplaceAll(s, pat, rep) == s
    decreases |s|
  {
    if |s| >= |pat| {
      assert !OccursAt(s, pat, 0);
      forall i: nat ensures OccursAt(s[1..], pat, i) ==> OccursAt(s, pat, i + 1) {
        if i + |pat| <= |s[1..]| {
          SliceOfTail(s, i, |pat|);
        }
      }
      ReplaceAbsent(s[1..], pat, rep);
      assert s == [s[0]] + s[1..];
    }
  }

  /** The leftmost occurrence is the first one replaced and the text in front
      of it is kept as it is; the scan then resumes after the occurrence. */
  lemma {:induction false} ReplaceLeftmost(a: string, pat: string, b: string, rep: string)
    requires |pat| > 0
    requires forall i: nat :: i < |a| ==> !OccursAt(a + pat + b, pat, i)
    ensures ReplaceAll(a + pat + b, pat, rep) == a + rep + ReplaceAll(b, pat, rep)
    decreases |a|
  {
    var s := a + pat + b;
    if a == [] {
      assert s == pat + b;
      assert s[..|pat|] == pat;
      assert s[|pat|..] == b;
    } else {
      var t := a[1..] + pat + b;
      assert s[1..] == t;
      assert !OccursAt(s, pat, 0);
      TailKeepsNoOccurrence(a, pat, b);
      ReplaceLeftmost(a[1..], pat, b, rep);
      calc {
        ReplaceAll(s, pat, rep);
        [s[0]] + ReplaceAll(t, pat, rep);
        [a[0]] + (a[1..] + rep + ReplaceAll(b, pat, rep));
        { assert a == [a[0]] + a[1..]; }
        a + rep + ReplaceAll(b, pat, rep);
      }
    }
  }

  lemma TailKeepsNoOccurrence(a: string, pat: string, b: string)
    requires a != []
    requires forall i: nat :: i < |a| ==> !OccursAt(a + pat + b, pat, i)
    ensures forall i: nat :: i < |a| - 1 ==> !OccursAt(a[1..] + pat + b, pat, i)
  {
    var s := a + pat + b;
    assert s[1..] == a[1..] + pat + b;
    forall i: nat | i < |a| - 1 ensures !OccursAt(s[1..], pat, i) {
      assert !OccursAt(s, pat, i + 1);
      if i + |pat| <= |s[1..]| {
        SliceOfTail(s, i, |pat|);
      }
    }
  }
}
