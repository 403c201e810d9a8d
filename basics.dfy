/** Values and string operations shared by every model in this project.
    Strings are `seq<char>`; case mapping covers ASCII letters only. */
module Basics {

  datatype Option<T> = None | Some(value: T) {
    /** `o || d` in the source languages, for an optional value. */
    function GetOr(d: T): T {
      match this
      case Some(v) => v
      case None => d
    }
  }

  /** A string that is present and non-empty (JavaScript and Python truthiness). */
  predicate Truthy(o: Option<string>) {
    o.Some? && o.value != ""
  }

  /** `o || d` for an optional string: an empty string falls back too. */
  function StrOr(o: Option<string>, d: string): (r: string)
    ensures Truthy(o) ==> r == o.value
    ensures !Truthy(o) ==> r == d
  {
    if Truthy(o) then o.value else d
  }

  // ---------------------------------------------------------------- characters

  /** The two whitespace sets the sources rely on. */
  datatype Dialect = Js | Py

  /** JavaScript `\s` and `String.prototype.trim`: WhiteSpace and LineTerminator. */
  predicate IsJsSpace(c: char) {
    c == ' ' || c == '\t' || c == '\n' || c == '\r' || c == '\U{000B}' || c == '\U{000C}'
    || c == '\U{00A0}' || c == '\U{FEFF}' || c == '\U{1680}' || ('\U{2000}' <= c <= '\U{200A}')
    || c == '\U{2028}' || c == '\U{2029}' || c == '\U{202F}' || c == '\U{205F}' || c == '\U{3000}'
  }

  /** Python `str.strip()` and `re`'s `\s` on str patterns. */
  predicate IsPySpace(c: char) {
    c == ' ' || c == '\t' || c == '\n' || c == '\r' || c == '\U{000B}' || c == '\U{000C}'
    || ('\U{001C}' <= c <= '\U{001F}') || c == '\U{0085}' || c == '\U{00A0}' || c == '\U{1680}'
    || ('\U{2000}' <= c <= '\U{200A}') || c == '\U{2028}' || c == '\U{2029}' || c == '\U{202F}'
    || c == '\U{205F}' || c == '\U{3000}'
  }

  predicate IsSpace(d: Dialect, c: char) {
    match d
    case Js => IsJsSpace(c)
    case Py => IsPySpace(c)
  }

  /** JavaScript line terminators: what `.` does not match and where `^`/`$` match under the `m` flag. */
  predicate IsLineTerminator(c: char) {
    c == '\n' || c == '\r' || c == '\U{2028}' || c == '\U{2029}'
  }

  predicate IsDigit(c: char) { '0' <= c <= '9' }

  predicate IsLowerAlnumOrDash(c: char) { ('a' <= c <= 'z') || IsDigit(c) || c == '-' }

  /** Regex `\w` without the unicode flag. */
  predicate IsWordChar(c: char) {
    ('a' <= c <= 'z') || ('A' <= c <= 'Z') || IsDigit(c) || c == '_'
  }

  function LowerChar(c: char): (r: char)
    ensures !('A' <= r <= 'Z')
    ensures !('A' <= c <= 'Z') ==> r == c
  {
    if 'A' <= c <= 'Z' then (c as int + 32) as char else c
  }

  function UpperChar(c: char): (r: char)
    ensures !('a' <= r <= 'z')
    ensures !('a' <= c <= 'z') ==> r == c
  {
    if 'a' <= c <= 'z' then (c as int - 32) as char else c
  }

  // ---------------------------------------------------------------- strings

  function Lower(s: string): (r: string)
    ensures |r| == |s|
    ensures forall i :: 0 <= i < |s| ==> r[i] == LowerChar(s[i])
  {
    if s == [] then [] else [LowerChar(s[0])] + Lower(s[1..])
  }

  function Upper(s: string): (r: string)
    ensures |r| == |s|
    ensures forall i :: 0 <= i < |s| ==> r[i] == UpperChar(s[i])
  {
    if s == [] then [] else [UpperChar(s[0])] + Upper(s[1..])
  }

  /** Case-insensitive equality of two strings (ASCII folding). */
  predicate EqualsIgnoreCase(a: string, b: string) {
    |a| == |b| && forall i :: 0 <= i < |a| ==> LowerChar(a[i]) == LowerChar(b[i])
  }

  /** `t` occurs in `s` as a contiguous substring (`t in s`, `s.includes(t)`). */
  predicate Contains(s: string, t: string) {
    t <= s || (s != [] && Contains(s[1..], t))
  }

  /** `t` occurs in `s` starting at index `i`. */
  predicate OccursAt(s: string, t: string, i: int) {
    0 <= i <= |s| - |t| && s[i..i + |t|] == t
  }

  /** Where `Contains` finds `t` in `s`. */
  lemma {:induction false} ContainsWitness(s: string, t: string) returns (i: int)
    requires Contains(s, t)
    ensures OccursAt(s, t, i)
  {
    if t <= s {
      i := 0;
    } else {
      var j := ContainsWitness(s[1..], t);
      assert s[1..][j..j + |t|] == s[j + 1..j + 1 + |t|];
      i := j + 1;
    }
  }

  /** An occurrence at any index is found by `Contains`. */
  lemma {:induction false} OccursContains(s: string, t: string, i: int)
    requires OccursAt(s, t, i)
    ensures Contains(s, t)
    decreases i
  {
    if i > 0 {
      assert s[1..][i - 1..i - 1 + |t|] == s[i..i + |t|];
      OccursContains(s[1..], t, i - 1);
    }
  }

  /** `Contains` is substring occurrence at some index. */
  lemma ContainsIffAt(s: string, t: string)
    ensures Contains(s, t) <==> exists i :: OccursAt(s, t, i)
  {
    if Contains(s, t) {
      var i := ContainsWitness(s, t);
    }
    if exists i :: OccursAt(s, t, i) {
      var i :| OccursAt(s, t, i);
      OccursContains(s, t, i);
    }
  }

  /** Whatever contains `u` contains every substring of `u`. */
  lemma ContainsTransitive(s: string, u: string, t: string)
    requires Contains(s, u) && Contains(u, t)
    ensures Contains(s, t)
  {
    ContainsIffAt(s, u);
    ContainsIffAt(u, t);
    var i :| OccursAt(s, u, i);
    var j :| OccursAt(u, t, j);
    forall k | 0 <= k < |t|
      ensures s[i + j + k] == t[k]
    {
      assert s[i..i + |u|][j + k] == u[j + k];
      assert u[j..j + |t|][k] == u[j + k];
    }
    assert OccursAt(s, t, i + j);
    ContainsIffAt(s, t);
  }

  /** Every string contains itself. */
  lemma ContainsSelf(s: string)
    ensures Contains(s, s)
  {
  }

  /** The middle of a concatenation occurs in it. */
  lemma ContainsInfix(a: string, b: string, c: string)
    ensures Contains(a + b + c, b)
  {
    assert (a + b + c)[|a|..|a| + |b|] == b;
    assert OccursAt(a + b + c, b, |a|);
    ContainsIffAt(a + b + c, b);
  }

  /** Every character of an occurring string occurs in the text. */
  lemma ContainsChar(s: string, t: string, k: nat)
    requires Contains(s, t) && k < |t|
    ensures t[k] in s
  {
    ContainsIffAt(s, t);
    var i :| OccursAt(s, t, i);
    assert s[i..i + |t|][k] == s[i + k];
  }

  predicate EndsWith(s: string, suffix: string) {
    |suffix| <= |s| && s[|s| - |suffix|..] == suffix
  }

  /** The first position at or after `i` that does not hold whitespace (or the end). */
  function LeadEnd(d: Dialect, s: string, i: nat): (k: nat)
    requires i <= |s|
    ensures i <= k <= |s|
    decreases |s| - i
  {
    if i < |s| && IsSpace(d, s[i]) then LeadEnd(d, s, i + 1) else i
  }

  lemma {:induction false} LeadEndFacts(d: Dialect, s: string, i: nat)
    requires i <= |s|
    ensures forall j :: i <= j < LeadEnd(d, s, i) ==> IsSpace(d, s[j])
    ensures LeadEnd(d, s, i) < |s| ==> !IsSpace(d, s[LeadEnd(d, s, i)])
    decreases |s| - i
  {
    if i < |s| && IsSpace(d, s[i]) {
      LeadEndFacts(d, s, i + 1);
    }
  }

  /** The start of the run of whitespace that ends at `hi`, not going below `lo`. */
  function TrailStart(d: Dialect, s: string, lo: nat, hi: nat): (k: nat)
    requires lo <= hi <= |s|
    ensures lo <= k <= hi
    decreases hi - lo
  {
    if lo < hi && IsSpace(d, s[hi - 1]) then TrailStart(d, s, lo, hi - 1) else hi
  }

  lemma {:induction false} TrailStartFacts(d: Dialect, s: string, lo: nat, hi: nat)
    requires lo <= hi <= |s|
    ensures forall j :: TrailStart(d, s, lo, hi) <= j < hi ==> IsSpace(d, s[j])
    ensures lo < TrailStart(d, s, lo, hi) ==> !IsSpace(d, s[TrailStart(d, s, lo, hi) - 1])
    decreases hi - lo
  {
    if lo < hi && IsSpace(d, s[hi - 1]) {
      TrailStartFacts(d, s, lo, hi - 1);
    }
  }

  /** `s.trim()` (JavaScript) or `s.strip()` (Python): `s` without its leading and trailing
      whitespace (lemmas `TrimEdges` and `TrimIsSlice`). */
  function Trim(d: Dialect, s: string): (r: string)
    ensures |r| <= |s|
  {
    var a := LeadEnd(d, s, 0);
    s[a..TrailStart(d, s, a, |s|)]
  }

  /** A trimmed string has no whitespace at either end. */
  lemma TrimEdges(d: Dialect, s: string)
    ensures var r := Trim(d, s); r == [] || (!IsSpace(d, r[0]) && !IsSpace(d, r[|r| - 1]))
  {
    var a := LeadEnd(d, s, 0);
    LeadEndFacts(d, s, 0);
    TrailStartFacts(d, s, a, |s|);
  }

  /** Trimming keeps a contiguous slice. */
  lemma TrimIsSlice(d: Dialect, s: string)
    ensures exists i, j :: 0 <= i <= j <= |s| && Trim(d, s) == s[i..j]
  {
    var a := LeadEnd(d, s, 0);
    assert Trim(d, s) == s[a..TrailStart(d, s, a, |s|)];
  }

  /** Trimming a string that has no whitespace at either end changes nothing. */
  lemma TrimIdentity(d: Dialect, s: string)
    requires s == [] || (!IsSpace(d, s[0]) && !IsSpace(d, s[|s| - 1]))
    ensures Trim(d, s) == s
  {
    assert LeadEnd(d, s, 0) == 0;
    assert s[0..|s|] == s;
  }

  /** Python `s.split(c)[0]`: the text before the first occurrence of `c` (all of `s` if none). */
  function TakeUntil(s: string, c: char): (r: string)
    ensures r <= s
    ensures c !in r
    ensures |r| < |s| ==> s[|r|] == c
  {
    if s == [] || s[0] == c then [] else [s[0]] + TakeUntil(s[1..], c)
  }

  /** The concatenation of all parts, in order (`''.join(parts)`). */
  function Concat(parts: seq<string>): string
    decreases |parts|
  {
    if parts == [] then "" else parts[0] + Concat(parts[1..])
  }

  lemma ContainsInLeft(a: string, b: string, t: string)
    requires Contains(a, t)
    ensures Contains(a + b, t)
  {
    ContainsIffAt(a, t);
    var i :| OccursAt(a, t, i);
    assert (a + b)[i..i + |t|] == a[i..i + |t|];
    assert OccursAt(a + b, t, i);
    ContainsIffAt(a + b, t);
  }

  lemma ContainsInRight(a: string, b: string, t: string)
    requires Contains(b, t)
    ensures Contains(a + b, t)
  {
    ContainsIffAt(b, t);
    var i :| OccursAt(b, t, i);
    assert (a + b)[|a| + i..|a| + i + |t|] == b[i..i + |t|];
    assert OccursAt(a + b, t, |a| + i);
    ContainsIffAt(a + b, t);
  }

  lemma ContainsInFirst(a: string, b: string, c: string, t: string)
    requires Contains(a, t)
    ensures Contains(a + b + c, t)
  {
    ContainsInLeft(a, b, t);
    ContainsInLeft(a + b, c, t);
  }

  lemma ContainsInMiddle(a: string, b: string, c: string, t: string)
    requires Contains(b, t)
    ensures Contains(a + b + c, t)
  {
    ContainsInRight(a, b, t);
    ContainsInLeft(a + b, c, t);
  }

  /** Every part, and every two adjacent parts together, occur in the concatenation. */
  lemma {:induction false} ConcatContainsParts(parts: seq<string>, k: nat)
    requires k < |parts|
    ensures Contains(Concat(parts), parts[k])
    ensures k + 1 < |parts| ==> Contains(Concat(parts), parts[k] + parts[k + 1])
    decreases |parts|
  {
    var rest := Concat(parts[1..]);
    if k == 0 {
      ContainsSelf(parts[0]);
      ContainsInLeft(parts[0], rest, parts[0]);
      if 1 < |parts| {
        assert Concat(parts[1..]) == parts[1] + Concat(parts[2..]);
        assert Concat(parts) == parts[0] + parts[1] + Concat(parts[2..]);
        ContainsSelf(parts[0] + parts[1]);
        ContainsInLeft(parts[0] + parts[1], Concat(parts[2..]), parts[0] + parts[1]);
      }
    } else {
      ConcatContainsParts(parts[1..], k - 1);
      ContainsInRight(parts[0], rest, parts[k]);
      if k + 1 < |parts| {
        ContainsInRight(parts[0], rest, parts[k] + parts[k + 1]);
      }
    }
  }

  /** `s.split(sep)` for a non-empty literal separator (Python `str.split(sep)` and JavaScript `split`
      with a string argument agree): non-overlapping occurrences from the left. */
  function SplitOn(s: string, sep: string): (r: seq<string>)
    requires sep != []
    ensures |r| >= 1
    decreases |s|
  {
    if sep <= s then [""] + SplitOn(s[|sep|..], sep)
    else if s == [] then [""]
    else
      var rest := SplitOn(s[1..], sep);
      [[s[0]] + rest[0]] + rest[1..]
  }

  /** `sep.join(parts)` / `parts.join(sep)`. */
  function Join(parts: seq<string>, sep: string): string {
    if parts == [] then ""
    else if |parts| == 1 then parts[0]
    else parts[0] + sep + Join(parts[1..], sep)
  }

  /** Python `s.replace(pat, '')` and JavaScript `s.replace(/pat/g, "")` for a literal pattern. */
  function RemoveAll(s: string, pat: string): (r: string)
    requires pat != []
    ensures |r| <= |s|
    decreases |s|
  {
    if pat <= s then RemoveAll(s[|pat|..], pat)
    else if s == [] then []
    else [s[0]] + RemoveAll(s[1..], pat)
  }

  /** Removing a single character leaves no occurrence of it. */
  lemma {:induction false} RemoveAllCharGone(s: string, c: char)
    ensures c !in RemoveAll(s, [c])
  {
    if s != [] {
      RemoveAllCharGone(s[1..], c);
    }
  }

  /** Removing a pattern that does not occur changes nothing. */
  lemma {:induction false} RemoveAllAbsent(s: string, pat: string)
    requires pat != [] && !Contains(s, pat)
    ensures RemoveAll(s, pat) == s
  {
    if s != [] {
      RemoveAllAbsent(s[1..], pat);
    }
  }

  /** A leading occurrence of the pattern is removed and the rest is processed alone. */
  lemma RemoveAllLeading(pat: string, s: string)
    requires pat != []
    ensures RemoveAll(pat + s, pat) == RemoveAll(s, pat)
  {
    assert pat <= pat + s;
    assert (pat + s)[|pat|..] == s;
  }

  /** `s.filter(keep)` on characters. */
  function FilterChars(s: string, keep: char -> bool): (r: string)
    ensures |r| <= |s|
    ensures forall i :: 0 <= i < |r| ==> keep(r[i])
  {
    if s == [] then []
    else if keep(s[0]) then [s[0]] + FilterChars(s[1..], keep)
    else FilterChars(s[1..], keep)
  }

  /** Filtering a string whose characters are all kept changes nothing. */
  lemma {:induction false} FilterCharsAllKept(s: string, keep: char -> bool)
    requires forall i :: 0 <= i < |s| ==> keep(s[i])
    ensures FilterChars(s, keep) == s
  {
    if s != [] {
      FilterCharsAllKept(s[1..], keep);
    }
  }

  /** Replace every character satisfying `hit` by `by`. */
  function MapChars(s: string, hit: char -> bool, repl: char): (r: string)
    ensures |r| == |s|
    ensures forall i :: 0 <= i < |s| ==> r[i] == if hit(s[i]) then repl else s[i]
  {
    if s == [] then [] else [if hit(s[0]) then repl else s[0]] + MapChars(s[1..], hit, repl)
  }

  /** JavaScript `s.substring(0, n)` / Python `s[:n]` for `n >= 0`. */
  function Prefix<T>(s: seq<T>, n: nat): (r: seq<T>)
    ensures |r| == if n < |s| then n else |s|
    ensures r <= s
  {
    if n < |s| then s[..n] else s
  }

  /** Number of elements of `s` satisfying `p`. */
  function Count<T>(s: seq<T>, p: T -> bool): (n: nat)
    ensures n <= |s|
  {
    if s == [] then 0 else (if p(s[0]) then 1 else 0) + Count(s[1..], p)
  }

  lemma {:induction false} CountAppend<T>(a: seq<T>, b: seq<T>, p: T -> bool)
    ensures Count(a + b, p) == Count(a, p) + Count(b, p)
  {
    if a == [] {
      assert a + b == b;
    } else {
      assert (a + b)[1..] == a[1..] + b;
      CountAppend(a[1..], b, p);
    }
  }

  /** `s.filter(p)` on a sequence. */
  function Filter<T>(s: seq<T>, p: T -> bool): (r: seq<T>)
    ensures |r| == Count(s, p)
    ensures forall x :: x in r ==> x in s && p(x)
    ensures forall x :: x in s && p(x) ==> x in r
  {
    if s == [] then [] else (if p(s[0]) then [s[0]] else []) + Filter(s[1..], p)
  }

  /** `s.some(p)`. */
  predicate Any<T>(s: seq<T>, p: T -> bool) {
    exists i :: 0 <= i < |s| && p(s[i])
  }

  // ---------------------------------------------------------------- numbers

  function DigitChar(d: nat): (c: char)
    requires d < 10
    ensures IsDigit(c)
  {
    ('0' as int + d) as char
  }

  /** Decimal rendering of a natural number (`str(n)`, `${n}`). */
  function NatToString(n: nat): (s: string)
    ensures |s| >= 1
    ensures forall i :: 0 <= i < |s| ==> IsDigit(s[i])
  {
    if n < 10 then [DigitChar(n)] else NatToString(n / 10) + [DigitChar(n % 10)]
  }

  /** Value of a string of decimal digits (`int(s)`). */
  function DigitsValue(s: string): nat
    requires forall i :: 0 <= i < |s| ==> IsDigit(s[i])
  {
    if s == [] then 0
    else
      assert IsDigit(s[|s| - 1]);
      10 * DigitsValue(s[..|s| - 1]) + (s[|s| - 1] as int - '0' as int)
  }

  /** Length of the longest prefix of `s` made of decimal digits. */
  function DigitRun(s: string): (n: nat)
    ensures n <= |s|
    ensures forall i :: 0 <= i < n ==> IsDigit(s[i])
    ensures n < |s| ==> !IsDigit(s[n])
  {
    if s != [] && IsDigit(s[0]) then 1 + DigitRun(s[1..]) else 0
  }

  /** Concatenation regroups freely; proved apart from any caller's context, where the solver
      would otherwise search through every definition in scope. */
  lemma AppendAssoc<T>(a: seq<T>, b: seq<T>, c: seq<T>)
    ensures a + b + c == a + (b + c)
  {
  }

  // ---------------------------------------------------------------- newest-first sorting

  /** `a.slice(lo, hi)` for non-negative bounds: clamped to the sequence. */
  function Slice<T>(s: seq<T>, lo: nat, hi: nat): (r: seq<T>)
    ensures lo <= hi && hi <= |s| ==> r == s[lo..hi]
    ensures lo >= |s| || hi <= lo ==> r == []
    ensures |r| <= hi - lo || hi <= lo
  {
    var h := if hi <= |s| then hi else |s|;
    if lo < h then s[lo..h] else []
  }

  /** Every element at least as new as the ones after it, by `key`. */
  ghost predicate NewestFirst<T>(s: seq<T>, key: T -> int) {
    forall i, j :: 0 <= i < j < |s| ==> key(s[i]) >= key(s[j])
  }

  /** Insert `x` after every element at least as new: the placement a stable sort by
      `(a, b) => key(b) - key(a)` gives. */
  function InsertNewest<T(==)>(s: seq<T>, x: T, key: T -> int): (r: seq<T>)
    ensures multiset(r) == multiset(s) + multiset{x} && |r| == |s| + 1
  {
    if s == [] then [x]
    else if key(s[0]) < key(x) then [x] + s
    else
      assert s == [s[0]] + s[1..];
      [s[0]] + InsertNewest(s[1..], x, key)
  }

  /** `s.sort((a, b) => key(b) - key(a))`, a stable sort newest first. */
  function SortNewestFirst<T(==)>(s: seq<T>, key: T -> int): (r: seq<T>)
    ensures multiset(r) == multiset(s) && |r| == |s|
  {
    if s == [] then []
    else
      assert s == s[..|s| - 1] + [s[|s| - 1]];
      InsertNewest(SortNewestFirst(s[..|s| - 1], key), s[|s| - 1], key)
  }

  lemma {:induction false} InsertNewestSorted<T>(s: seq<T>, x: T, key: T -> int)
    requires NewestFirst(s, key)
    ensures NewestFirst(InsertNewest(s, x, key), key)
  {
    if s != [] && key(s[0]) >= key(x) {
      var rest := s[1..];
      assert NewestFirst(rest, key) by {
        forall i, j | 0 <= i < j < |rest| ensures key(rest[i]) >= key(rest[j]) {
          assert rest[i] == s[i + 1] && rest[j] == s[j + 1];
        }
      }
      InsertNewestSorted(rest, x, key);
      var r := InsertNewest(s, x, key);
      forall j | 0 < j < |r| ensures key(r[0]) >= key(r[j]) {
        assert r[j] in multiset(InsertNewest(rest, x, key));
        if r[j] != x {
          assert r[j] in multiset(rest);
          var k :| 0 <= k < |rest| && rest[k] == r[j];
          assert s[k + 1] == r[j];
        }
      }
    }
  }

  /** The sorted sequence is newest first. */
  lemma {:induction false} SortNewestFirstSorted<T>(s: seq<T>, key: T -> int)
    ensures NewestFirst(SortNewestFirst(s, key), key)
  {
    if s != [] {
      SortNewestFirstSorted(s[..|s| - 1], key);
      InsertNewestSorted(SortNewestFirst(s[..|s| - 1], key), s[|s| - 1], key);
    }
  }

  /** A slice of a newest-first sequence is newest first. */
  lemma SliceNewestFirst<T>(s: seq<T>, lo: nat, hi: nat, key: T -> int)
    requires NewestFirst(s, key)
    ensures NewestFirst(Slice(s, lo, hi), key)
  {
    var r := Slice(s, lo, hi);
    if r != [] {
      var h := if hi <= |s| then hi else |s|;
      forall i, j | 0 <= i < j < |r| ensures key(r[i]) >= key(r[j]) {
        assert r[i] == s[lo + i] && r[j] == s[lo + j];
      }
    }
  }

  // ---------------------------------------------------------------- reordering

  /** A value counted twice in a sequence sits at two positions. */
  lemma {:induction false} TwoPositions<T>(s: seq<T>, x: T) returns (i: nat, j: nat)
    requires multiset(s)[x] >= 2
    ensures i < j < |s| && s[i] == x && s[j] == x
  {
    assert s == [s[0]] + s[1..];
    if s[0] == x {
      assert x in multiset(s[1..]);
      var k :| 0 <= k < |s[1..]| && s[1..][k] == x;
      i, j := 0, k + 1;
    } else {
      var i1, j1 := TwoPositions(s[1..], x);
      i, j := i1 + 1, j1 + 1;
    }
  }

  /** Two positions of a reordering come from two distinct positions of the original. */
  lemma DistinctPositions<T>(a: seq<T>, b: seq<T>, i: nat, j: nat) returns (i': nat, j': nat)
    requires multiset(a) == multiset(b) && i < j < |b|
    ensures i' < |a| && j' < |a| && i' != j' && a[i'] == b[i] && a[j'] == b[j]
  {
    if b[i] == b[j] {
      assert b == b[..j] + b[j..];
      assert b[i] in multiset(b[..j]) && b[j] in multiset(b[j..]);
      assert multiset(a)[b[i]] >= 2;
      i', j' := TwoPositions(a, b[i]);
    } else {
      assert b[i] in multiset(a) && b[j] in multiset(a);
      i' :| 0 <= i' < |a| && a[i'] == b[i];
      j' :| 0 <= j' < |a| && a[j'] == b[j];
    }
  }

  /** Keys that are distinct along a sequence stay distinct along any reordering of it. */
  lemma ReorderKeepsKeysDistinct<T, K>(a: seq<T>, b: seq<T>, key: T -> K)
    requires multiset(a) == multiset(b)
    requires forall i, j :: 0 <= i < j < |a| ==> key(a[i]) != key(a[j])
    ensures forall i, j :: 0 <= i < j < |b| ==> key(b[i]) != key(b[j])
  {
    forall i, j | 0 <= i < j < |b| ensures key(b[i]) != key(b[j]) {
      var i', j' := DistinctPositions(a, b, i, j);
      if i' < j' { assert key(a[i']) != key(a[j']); } else { assert key(a[j']) != key(a[i']); }
    }
  }
}
