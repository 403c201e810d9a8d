/** Building blocks for the regular expressions of the markdown ingestion code. A JavaScript
    `String.prototype.match` without the `g` flag returns the leftmost match: the first start
    position at which the anchored pattern succeeds, with greedy and lazy parts resolved by
    backtracking. Each pattern is modelled as a function of its start position, and the search
    tries the start positions from left to right. */
module MarkdownPatterns {
  import opened Basics

  // ---------------------------------------------------------------- positions

  /** `^` under the `m` flag: the start of the text or just after a line terminator. */
  predicate LineStart(s: string, i: nat) {
    i <= |s| && (i == 0 || IsLineTerminator(s[i - 1]))
  }

  /** `$` under the `m` flag: the end of the text or just before a line terminator. */
  predicate LineEnd(s: string, i: nat) {
    i <= |s| && (i == |s| || IsLineTerminator(s[i]))
  }

  /** The literal `key` occurs at position `i`. */
  predicate At(s: string, i: nat, key: string) {
    i + |key| <= |s| && forall k :: 0 <= k < |key| ==> s[i + k] == key[k]
  }

  /** The literal `key` occurs at position `i` under the `i` flag. */
  predicate AtIgnoreCase(s: string, i: nat, key: string) {
    i + |key| <= |s| && forall k :: 0 <= k < |key| ==> LowerChar(s[i + k]) == LowerChar(key[k])
  }

  lemma AtAtIgnoreCase(s: string, i: nat, key: string)
    requires At(s, i, key)
    ensures AtIgnoreCase(s, i, key)
  {
  }

  /** `s.indexOf(t, i)` as an option: the first occurrence of `t` at or after `i`. */
  function FindFrom(s: string, t: string, i: nat): (j: Option<nat>)
    ensures j.Some? ==> i <= j.value && At(s, j.value, t)
    ensures j.Some? ==> forall k :: i <= k < j.value ==> !At(s, k, t)
    ensures j.None? ==> forall k :: i <= k ==> !At(s, k, t)
    decreases |s| + 1 - i
  {
    if i > |s| then None
    else if At(s, i, t) then Some(i)
    else FindFrom(s, t, i + 1)
  }

  /** A slice inside which `t` never starts holds no occurrence of `t`. */
  lemma SliceAvoids(s: string, lo: nat, hi: nat, t: string)
    requires lo <= hi <= |s| && t != []
    requires forall k :: lo <= k < hi ==> !At(s, k, t)
    ensures !Contains(s[lo..hi], t)
  {
    var u := s[lo..hi];
    ContainsIffAt(u, t);
    if Contains(u, t) {
      var q :| OccursAt(u, t, q);
      forall k | 0 <= k < |t|
        ensures s[lo + q + k] == t[k]
      {
        assert u[q..q + |t|][k] == u[q + k];
      }
      assert s[lo + q..lo + q + |t|] == t;
      assert At(s, lo + q, t);
      assert false;
    }
  }

  /** A string without `t` stays without it once trimmed. */
  lemma TrimAvoids(d: Dialect, u: string, t: string)
    requires !Contains(u, t)
    ensures !Contains(Trim(d, u), t)
  {
    var r := Trim(d, u);
    TrimIsSlice(d, u);
    var i, j :| 0 <= i <= j <= |u| && r == u[i..j];
    if Contains(r, t) {
      ContainsIffAt(u, r);
      assert OccursAt(u, r, i);
      ContainsTransitive(u, r, t);
    }
  }

  // ---------------------------------------------------------------- runs

  /** Length of the run of JavaScript whitespace (`\s`) starting at `p`. */
  function SpacesFrom(s: string, p: nat): (n: nat)
    requires p <= |s|
    ensures p + n <= |s|
    ensures forall k :: p <= k < p + n ==> IsJsSpace(s[k])
    ensures p + n < |s| ==> !IsJsSpace(s[p + n])
    decreases |s| - p
  {
    if p < |s| && IsJsSpace(s[p]) then 1 + SpacesFrom(s, p + 1) else 0
  }

  /** The two "rest of the line" classes: `[^\n]` and `.` (which excludes every line terminator). */
  datatype LineClass = NotNewline | NotTerminator

  predicate Stops(cls: LineClass, c: char) {
    match cls
    case NotNewline => c == '\n'
    case NotTerminator => IsLineTerminator(c)
  }

  /** Length of the run of characters of the class starting at `p`. */
  function LineRunFrom(s: string, p: nat, cls: LineClass): (n: nat)
    requires p <= |s|
    ensures p + n <= |s|
    ensures forall k :: p <= k < p + n ==> !Stops(cls, s[k])
    ensures p + n < |s| ==> Stops(cls, s[p + n])
    decreases |s| - p
  {
    if p < |s| && !Stops(cls, s[p]) then 1 + LineRunFrom(s, p + 1, cls) else 0
  }

  /** The last position in `[lo, hi)` holding a character of the class. */
  function LastInClass(s: string, cls: LineClass, lo: nat, hi: nat): (k: Option<nat>)
    requires lo <= hi <= |s|
    ensures k.Some? ==> lo <= k.value < hi && !Stops(cls, s[k.value])
    ensures k.Some? ==> forall j :: k.value < j < hi ==> Stops(cls, s[j])
    ensures k.None? ==> forall j :: lo <= j < hi ==> Stops(cls, s[j])
    decreases hi - lo
  {
    if lo == hi then None
    else if !Stops(cls, s[hi - 1]) then Some(hi - 1)
    else LastInClass(s, cls, lo, hi - 1)
  }

  /** The last '\n' in `[lo, hi)`. */
  function LastNewline(s: string, lo: nat, hi: nat): (k: Option<nat>)
    requires lo <= hi <= |s|
    ensures k.Some? ==> lo <= k.value < hi && s[k.value] == '\n'
    ensures k.Some? ==> forall j :: k.value < j < hi ==> s[j] != '\n'
    ensures k.None? ==> forall j :: lo <= j < hi ==> s[j] != '\n'
    decreases hi - lo
  {
    if lo == hi then None
    else if s[hi - 1] == '\n' then Some(hi - 1)
    else LastNewline(s, lo, hi - 1)
  }

  // ---------------------------------------------------------------- captures

  /** `\s*(X+)` (when `least` is 0) or `\s+(X+)` (when `least` is 1) matched at `p`, X being the
      class: the bounds of the captured text. The greedy whitespace run is taken whole when a
      character follows it (that character is not whitespace, so it starts the capture and the
      capture runs to the end of the line). When the run reaches the end of the text the engine
      gives characters back: the capture is then the last whitespace character of the class. */
  function CaptureAfter(s: string, p: nat, least: nat, cls: LineClass): (m: Option<(nat, nat)>)
    requires p <= |s| && least <= 1
    ensures m.Some? ==> p + least <= m.value.0 < m.value.1 <= |s|
    ensures m.Some? ==> forall k :: p <= k < m.value.0 ==> IsJsSpace(s[k])
    ensures m.Some? ==> forall k :: m.value.0 <= k < m.value.1 ==> !Stops(cls, s[k])
    ensures m.Some? ==> LineEnd(s, m.value.1) && (m.value.1 == |s| || Stops(cls, s[m.value.1]))
  {
    var e := p + SpacesFrom(s, p);
    if e < p + least then None
    else if e < |s| then
      assert !Stops(cls, s[e]);
      var n := LineRunFrom(s, e, cls);
      Some((e, e + n))
    else
      match LastInClass(s, cls, p + least, e)
      case None => None
      case Some(k) => Some((k, k + 1))
  }

  /** A text that starts with non-whitespace and has no class-stopping character, placed after
      some whitespace and followed by a stopping character, is captured whole. */
  lemma CaptureReadsLine(s: string, p: nat, least: nat, cls: LineClass, ws: nat, v: nat)
    requires least <= 1 && least <= ws && p + ws + v < |s| && v > 0
    requires forall k :: p <= k < p + ws ==> IsJsSpace(s[k])
    requires !IsJsSpace(s[p + ws])
    requires forall k :: p + ws <= k < p + ws + v ==> !Stops(cls, s[k])
    requires Stops(cls, s[p + ws + v])
    ensures CaptureAfter(s, p, least, cls) == Some((p + ws, p + ws + v))
  {
    SpacesExactly(s, p, ws);
    LineRunExactly(s, p + ws, cls, v);
  }

  lemma {:induction false} SpacesExactly(s: string, p: nat, n: nat)
    requires p + n < |s|
    requires forall k :: p <= k < p + n ==> IsJsSpace(s[k])
    requires !IsJsSpace(s[p + n])
    ensures SpacesFrom(s, p) == n
    decreases n
  {
    if n > 0 {
      SpacesExactly(s, p + 1, n - 1);
    }
  }

  lemma {:induction false} LineRunExactly(s: string, p: nat, cls: LineClass, n: nat)
    requires p + n < |s|
    requires forall k :: p <= k < p + n ==> !Stops(cls, s[k])
    requires Stops(cls, s[p + n])
    ensures LineRunFrom(s, p, cls) == n
    decreases n
  {
    if n > 0 {
      LineRunExactly(s, p + 1, cls, n - 1);
    }
  }

  // ---------------------------------------------------------------- the title line

  /** `^#\s+(.+)` under the `m` flag, anchored at `i`. (`^#\s+(.+)$` matches the same text: the
      capture always ends at a line end.) */
  function TitleAt(s: string, i: nat): (m: Option<(nat, nat)>)
    requires i <= |s|
    ensures m.Some? ==> LineStart(s, i) && i < |s| && s[i] == '#' && i + 1 < m.value.0 < m.value.1 <= |s|
    ensures m.Some? ==> LineEnd(s, m.value.1)
    ensures m.Some? ==> forall k :: m.value.0 <= k < m.value.1 ==> !IsLineTerminator(s[k])
  {
    if LineStart(s, i) && i < |s| && s[i] == '#' then CaptureAfter(s, i + 1, 1, NotTerminator) else None
  }

  /** The first title match at or after `i`. */
  function TitleFrom(s: string, i: nat): (m: Option<(nat, nat)>)
    requires i <= |s|
    ensures m.Some? ==> i + 1 < m.value.0 < m.value.1 <= |s| && LineEnd(s, m.value.1)
    ensures m.Some? ==> forall k :: m.value.0 <= k < m.value.1 ==> !IsLineTerminator(s[k])
    decreases |s| - i
  {
    var m := TitleAt(s, i);
    if m.Some? then m
    else if i == |s| then None
    else TitleFrom(s, i + 1)
  }

  /** The text of the first title line, untrimmed. */
  function Title(s: string): (t: Option<string>)
    ensures t.Some? ==> forall k :: 0 <= k < |t.value| ==> !IsLineTerminator(t.value[k])
  {
    match TitleFrom(s, 0)
    case None => None
    case Some(m) => Some(s[m.0..m.1])
  }

  /** No `#` at the start of a line from `i` on: no title from `i` on. */
  lemma {:induction false} NoHashNoTitleFrom(s: string, i: nat)
    requires i <= |s|
    requires forall j :: i <= j < |s| && LineStart(s, j) ==> s[j] != '#'
    ensures TitleFrom(s, i) == None
    decreases |s| - i
  {
    assert TitleAt(s, i) == None;
    if i < |s| {
      NoHashNoTitleFrom(s, i + 1);
    }
  }

  /** No `#` at the start of a line: no title. */
  lemma NoHashNoTitle(s: string)
    requires forall j :: 0 <= j < |s| && LineStart(s, j) ==> s[j] != '#'
    ensures Title(s) == None
  {
    NoHashNoTitleFrom(s, 0);
  }

  /** A text that starts with `# ` followed by a name on the first line has that title. */
  lemma TitleOfFirstLine(name: string, rest: string)
    requires name != [] && !IsJsSpace(name[0])
    requires forall k :: 0 <= k < |name| ==> !IsLineTerminator(name[k])
    ensures Title("# " + name + "\n" + rest) == Some(name)
  {
    var s := "# " + name + "\n" + rest;
    assert s[2..2 + |name|] == name;
    CaptureReadsLine(s, 1, 1, NotTerminator, 1, |name|);
    var end: nat := 2 + |name|;
    assert TitleAt(s, 0) == Some((2, end));
  }
}
