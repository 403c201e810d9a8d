/** The stand-alone ingestion script: it parses one generated permission page into the record
    that is upserted by permission name (server/scripts/ingestGraphPermissions.ts). Its regular
    expressions differ from the ingestion service's: `.` instead of `[^\n]`, a section pattern
    under the `m` flag, and a title that is required. */
module GraphPermissionScript {
  import opened Basics
  import opened MarkdownPatterns

  // ================================================================ extractField

  /** The literal text that precedes a labelled field: `**Label**:`. */
  function FieldKey(field: string): string { "**" + field + "**:" }

  /** `\*\*Label\*\*:\s*(.+)` (flag `i`) anchored at `i`: the bounds of the captured value. */
  function FieldAt(content: string, key: string, i: nat): (m: Option<(nat, nat)>)
    requires i <= |content|
    ensures m.Some? ==> AtIgnoreCase(content, i, key) && i + |key| <= m.value.0 < m.value.1 <= |content|
  {
    if AtIgnoreCase(content, i, key) then CaptureAfter(content, i + |key|, 0, NotTerminator) else None
  }

  /** The leftmost match of the field pattern for `key` at or after `i`. */
  function FieldMatchFrom(content: string, key: string, i: nat): (m: Option<(nat, nat)>)
    requires i <= |content|
    ensures m.Some? ==> i <= m.value.0 < m.value.1 <= |content|
    ensures m.Some? ==> forall k :: m.value.0 <= k < m.value.1 ==> !IsLineTerminator(content[k])
    decreases |content| - i
  {
    var m := FieldAt(content, key, i);
    if m.Some? then m
    else if i == |content| then None
    else FieldMatchFrom(content, key, i + 1)
  }

  /** Start positions where the key does not match are skipped. */
  lemma {:induction false} FieldMatchSkips(content: string, key: string, i: nat, at: nat)
    requires i <= at <= |content|
    requires forall j :: i <= j < at ==> !AtIgnoreCase(content, j, key)
    ensures FieldMatchFrom(content, key, i) == FieldMatchFrom(content, key, at)
    decreases at - i
  {
    if i < at {
      assert FieldAt(content, key, i) == None;
      FieldMatchSkips(content, key, i + 1, at);
    }
  }

  /** Trimming a text without line terminators leaves none. */
  lemma TrimNoTerminator(u: string)
    requires forall k :: 0 <= k < |u| ==> !IsLineTerminator(u[k])
    ensures forall k :: 0 <= k < |Trim(Js, u)| ==> !IsLineTerminator(Trim(Js, u)[k])
  {
    var r := Trim(Js, u);
    TrimIsSlice(Js, u);
    var i, j :| 0 <= i <= j <= |u| && r == u[i..j];
    forall k | 0 <= k < |r|
      ensures !IsLineTerminator(r[k])
    {
      assert r[k] == u[i + k];
    }
  }

  /** `extractField(content, field)`: the rest of the line after the first `**Label**:` (compared
      ignoring case), trimmed; `None` when no such field matches. */
  function ExtractField(content: string, field: string): (v: Option<string>)
    ensures v.Some? ==> forall k :: 0 <= k < |v.value| ==> !IsLineTerminator(v.value[k])
    ensures v.Some? ==> v.value == [] || (!IsJsSpace(v.value[0]) && !IsJsSpace(v.value[|v.value| - 1]))
  {
    match FieldMatchFrom(content, FieldKey(field), 0)
    case None => None
    case Some(m) =>
      TrimNoTerminator(content[m.0..m.1]);
      TrimEdges(Js, content[m.0..m.1]);
      Some(Trim(Js, content[m.0..m.1]))
  }

  /** A text in which the field never occurs has no such field. */
  lemma ExtractFieldAbsent(content: string, field: string)
    requires forall i :: 0 <= i <= |content| ==> !AtIgnoreCase(content, i, FieldKey(field))
    ensures ExtractField(content, field) == None
  {
    FieldMatchSkips(content, FieldKey(field), 0, |content|);
  }

  /** At `at` sits the key, then `ws` whitespace characters, then `w` value characters (the
      first not whitespace, none a line terminator), then a line terminator. */
  predicate FieldLineAt(s: string, key: string, at: nat, ws: nat, w: nat) {
    && at + |key| + ws + w < |s| && w > 0
    && AtIgnoreCase(s, at, key)
    && (forall k :: at + |key| <= k < at + |key| + ws ==> IsJsSpace(s[k]))
    && !IsJsSpace(s[at + |key| + ws])
    && (forall k :: at + |key| + ws <= k < at + |key| + ws + w ==> !IsLineTerminator(s[k]))
    && IsLineTerminator(s[at + |key| + ws + w])
  }

  /** The first key followed by whitespace and a value line is the match, and its capture is
      exactly the value characters. */
  lemma FieldMatchAt(s: string, key: string, at: nat, ws: nat, w: nat)
    requires FieldLineAt(s, key, at, ws, w)
    requires forall i :: 0 <= i < at ==> !AtIgnoreCase(s, i, key)
    ensures FieldMatchFrom(s, key, 0) == Some((at + |key| + ws, at + |key| + ws + w))
  {
    var b := at + |key| + ws;
    CaptureReadsLine(s, at + |key|, 0, NotTerminator, ws, w);
    assert FieldAt(s, key, at) == Some((b, b + w));
    FieldMatchSkips(s, key, 0, at);
  }

  /** The first `**Label**:` (ignoring case) followed by whitespace and a value line yields that
      line, trimmed. */
  lemma ExtractFieldReadsLine(field: string, s: string, at: nat, ws: nat, w: nat)
    requires FieldLineAt(s, FieldKey(field), at, ws, w)
    requires forall i :: 0 <= i < at ==> !AtIgnoreCase(s, i, FieldKey(field))
    ensures var b := at + |FieldKey(field)| + ws;
      ExtractField(s, field) == Some(Trim(Js, s[b..b + w]))
  {
    FieldMatchAt(s, FieldKey(field), at, ws, w);
  }

  // ================================================================ extractSection

  /** The literal start of a section heading line: `## Heading`. */
  function HeadingKey(heading: string): string { "## " + heading }

  /** Where the lazy body of `^## Heading\s*\n([\s\S]*?)(^## |\n$)` (flag `m`) may stop: at a
      line that starts with `## `, or at a newline that ends a line followed by the end of the
      text or by another line terminator, that is, at a blank line. */
  predicate BodyStop(s: string, p: nat) {
    p <= |s| && ((LineStart(s, p) && At(s, p, "## ")) || (p < |s| && s[p] == '\n' && LineEnd(s, p + 1)))
  }

  /** The first stop at or after `p`. */
  function BodyEndFrom(s: string, p: nat): (e: Option<nat>)
    requires p <= |s|
    ensures e.Some? ==> p <= e.value <= |s| && BodyStop(s, e.value)
    decreases |s| - p
  {
    if BodyStop(s, p) then Some(p)
    else if p == |s| then None
    else BodyEndFrom(s, p + 1)
  }

  /** No stop lies between `p` and the stop found (or the end, when none is found). */
  lemma {:induction false} BodyEndFirst(s: string, p: nat, k: nat)
    requires p <= k <= |s|
    requires BodyEndFrom(s, p).None? || k < BodyEndFrom(s, p).value
    ensures !BodyStop(s, k)
    decreases k - p
  {
    if p < k {
      BodyEndFirst(s, p + 1, k);
    }
  }

  /** A stop at `p` is the one found from `p`. */
  lemma BodyEndAt(s: string, p: nat)
    requires BodyStop(s, p)
    ensures BodyEndFrom(s, p) == Some(p)
  {
  }

  /** `\s*\n` followed by the lazy body, where the greedy whitespace run covers `[lo, hi)`: the
      engine gives the run back one character at a time, so the newline that ends it is tried
      from the last one backwards, and the first that lets the body reach a stop wins. */
  function BodyFrom(s: string, lo: nat, hi: nat): (m: Option<(nat, nat)>)
    requires lo <= hi <= |s|
    ensures m.Some? ==> lo < m.value.0 <= m.value.1 <= |s| && m.value.0 <= hi
    ensures m.Some? ==> BodyEndFrom(s, m.value.0) == Some(m.value.1)
    decreases hi - lo
  {
    if lo == hi then None
    else if s[hi - 1] == '\n' && BodyEndFrom(s, hi).Some? then Some((hi, BodyEndFrom(s, hi).value))
    else BodyFrom(s, lo, hi - 1)
  }

  /** The section pattern anchored at `i`: the bounds of the body. */
  function SectionAt(s: string, key: string, i: nat): (m: Option<(nat, nat)>)
    requires i <= |s|
    ensures m.Some? ==> i < m.value.0 <= m.value.1 <= |s|
    ensures m.Some? ==> BodyEndFrom(s, m.value.0) == Some(m.value.1)
  {
    if LineStart(s, i) && At(s, i, key) then
      var a := i + |key|;
      BodyFrom(s, a, a + SpacesFrom(s, a))
    else None
  }

  /** The leftmost match of the section pattern at or after `i`. */
  function SectionMatchFrom(s: string, key: string, i: nat): (m: Option<(nat, nat)>)
    requires i <= |s|
    ensures m.Some? ==> i < m.value.0 <= m.value.1 <= |s|
    ensures m.Some? ==> BodyEndFrom(s, m.value.0) == Some(m.value.1)
    decreases |s| - i
  {
    var m := SectionAt(s, key, i);
    if m.Some? then m
    else if i == |s| then None
    else SectionMatchFrom(s, key, i + 1)
  }

  /** Start positions where no heading line begins are skipped. */
  lemma {:induction false} SectionMatchSkips(s: string, key: string, i: nat, at: nat)
    requires i <= at <= |s|
    requires forall j :: i <= j < at ==> !(LineStart(s, j) && At(s, j, key))
    ensures SectionMatchFrom(s, key, i) == SectionMatchFrom(s, key, at)
    decreases at - i
  {
    if i < at {
      assert SectionAt(s, key, i) == None;
      SectionMatchSkips(s, key, i + 1, at);
    }
  }

  /** `extractSection(content, heading)`: the body of the first matching section, trimmed. */
  function ExtractSection(content: string, heading: string): (r: Option<string>)
    ensures r.Some? ==> r.value == [] || (!IsJsSpace(r.value[0]) && !IsJsSpace(r.value[|r.value| - 1]))
  {
    match SectionMatchFrom(content, HeadingKey(heading), 0)
    case None => None
    case Some(m) =>
      TrimEdges(Js, content[m.0..m.1]);
      Some(Trim(Js, content[m.0..m.1]))
  }

  /** A text without a `## Heading` line has no such section. */
  lemma ExtractSectionAbsent(content: string, heading: string)
    requires forall i :: 0 <= i <= |content| ==> !(LineStart(content, i) && At(content, i, HeadingKey(heading)))
    ensures ExtractSection(content, heading) == None
  {
    SectionMatchSkips(content, HeadingKey(heading), 0, |content|);
  }

  /** No newline in `u` is followed by another line terminator: `u` holds no blank line. */
  predicate NoBlankLine(u: string) {
    forall k :: 0 <= k < |u| - 1 ==> !(u[k] == '\n' && IsLineTerminator(u[k + 1]))
  }

  /** A body found by the lazy search holds no blank line. */
  lemma BodyNoBlankLine(s: string, b: nat, e: nat)
    requires b <= e <= |s| && BodyEndFrom(s, b) == Some(e)
    ensures NoBlankLine(s[b..e])
  {
    var u := s[b..e];
    forall k | 0 <= k < |u| - 1
      ensures !(u[k] == '\n' && IsLineTerminator(u[k + 1]))
    {
      assert u[k] == s[b + k] && u[k + 1] == s[b + k + 1];
      BodyEndFirst(s, b, b + k);
    }
  }

  /** Trimming keeps a text free of blank lines. */
  lemma TrimNoBlankLine(u: string)
    requires NoBlankLine(u)
    ensures NoBlankLine(Trim(Js, u))
  {
    var r := Trim(Js, u);
    TrimIsSlice(Js, u);
    var i, j :| 0 <= i <= j <= |u| && r == u[i..j];
    forall k | 0 <= k < |r| - 1
      ensures !(r[k] == '\n' && IsLineTerminator(r[k + 1]))
    {
      assert r[k] == u[i + k] && r[k + 1] == u[i + k + 1];
    }
  }

  /** The section stops at the first blank line: its text never holds a newline followed by
      another line terminator, so a section is at most one paragraph. */
  lemma SectionHasNoBlankLine(content: string, heading: string)
    ensures var r := ExtractSection(content, heading);
      r.Some? ==> NoBlankLine(r.value)
  {
    var m := SectionMatchFrom(content, HeadingKey(heading), 0);
    if m.Some? {
      BodyNoBlankLine(content, m.value.0, m.value.1);
      TrimNoBlankLine(content[m.value.0..m.value.1]);
    }
  }

  /** A `## Heading` line (the first one), a newline, a body that starts with non-whitespace and
      holds no stop, then a stop: the section is that body, trimmed. */
  lemma ExtractSectionReadsBody(heading: string, s: string, at: nat, w: nat)
    requires LineStart(s, at) && At(s, at, HeadingKey(heading))
    requires forall i :: 0 <= i < at ==> !(LineStart(s, i) && At(s, i, HeadingKey(heading)))
    requires at + |HeadingKey(heading)| + 1 + w <= |s| && w > 0
    requires s[at + |HeadingKey(heading)|] == '\n' && !IsJsSpace(s[at + |HeadingKey(heading)| + 1])
    requires forall k :: at + |HeadingKey(heading)| + 1 <= k < at + |HeadingKey(heading)| + 1 + w ==> !BodyStop(s, k)
    requires BodyStop(s, at + |HeadingKey(heading)| + 1 + w)
    ensures var b := at + |HeadingKey(heading)| + 1;
      ExtractSection(s, heading) == Some(Trim(Js, s[b..b + w]))
  {
    var key := HeadingKey(heading);
    var a := at + |key|;
    var b := a + 1;
    SpacesExactly(s, a, 1);
    BodyEndSkips(s, b, b + w);
    assert BodyFrom(s, a, b) == Some((b, b + w));
    assert SectionAt(s, key, at) == Some((b, b + w));
    SectionMatchSkips(s, key, 0, at);
  }

  /** Positions without a stop are skipped by the body search. */
  lemma {:induction false} BodyEndSkips(s: string, p: nat, e: nat)
    requires p <= e <= |s| && BodyStop(s, e)
    requires forall k :: p <= k < e ==> !BodyStop(s, k)
    ensures BodyEndFrom(s, p) == Some(e)
    decreases e - p
  {
    if p < e {
      BodyEndSkips(s, p + 1, e);
    }
  }

  // ================================================================ extractDescription

  /** `s.replace(/\n+/g, "\n")`: every run of newlines becomes one newline. */
  function CollapseNewlines(s: string): (r: string)
    ensures s != [] ==> r != [] && r[0] == s[0]
    ensures forall k :: 0 <= k < |r| - 1 ==> !(r[k] == '\n' && r[k + 1] == '\n')
  {
    if s == [] then []
    else if |s| >= 2 && s[0] == '\n' && s[1] == '\n' then CollapseNewlines(s[1..])
    else [s[0]] + CollapseNewlines(s[1..])
  }

  /** A text without two newlines in a row is left as it is. */
  lemma {:induction false} CollapseNewlinesIdentity(s: string)
    requires forall k :: 0 <= k < |s| - 1 ==> !(s[k] == '\n' && s[k + 1] == '\n')
    ensures CollapseNewlines(s) == s
  {
    if s != [] {
      CollapseNewlinesIdentity(s[1..]);
      assert [s[0]] + s[1..] == s;
    }
  }

  /** `extractDescription(content)`: the Description section with newline runs collapsed,
      trimmed; `None` when the section is missing or empty. */
  function ExtractDescription(content: string): (r: Option<string>)
    ensures r.Some? ==> r.value == [] || (!IsJsSpace(r.value[0]) && !IsJsSpace(r.value[|r.value| - 1]))
  {
    var section := ExtractSection(content, "Description");
    if Truthy(section) then
      TrimEdges(Js, CollapseNewlines(section.value));
      Some(Trim(Js, CollapseNewlines(section.value)))
    else None
  }

  /** The collapse never has work to do: since a section stops at its first blank line, the
      description is the Description section itself (or `None` when that is empty). */
  lemma DescriptionIsSection(content: string)
    ensures var section := ExtractSection(content, "Description");
      ExtractDescription(content) == if Truthy(section) then section else None
  {
    var section := ExtractSection(content, "Description");
    if Truthy(section) {
      SectionHasNoBlankLine(content, "Description");
      CollapseNewlinesIdentity(section.value);
      TrimIdentity(Js, section.value);
    }
  }

  // ================================================================ extractRiskLevel

  /** The heading the risk level follows. */
  function RiskKey(): string { "### Risk Level" }

  /** `[\s\S]*?\n([^\n]+)` from `q`: the first newline at or after `q` that is followed by a
      character other than a newline, and the rest of that next line. */
  function RiskLineFrom(s: string, q: nat): (m: Option<(nat, nat)>)
    requires q <= |s|
    ensures m.Some? ==> q < m.value.0 < m.value.1 <= |s| && s[m.value.0 - 1] == '\n'
    ensures m.Some? ==> forall k :: m.value.0 <= k < m.value.1 ==> s[k] != '\n'
    ensures m.Some? ==> m.value.1 == |s| || s[m.value.1] == '\n'
    decreases |s| - q
  {
    if q + 1 < |s| && s[q] == '\n' && s[q + 1] != '\n' then
      Some((q + 1, q + 1 + LineRunFrom(s, q + 1, NotNewline)))
    else if q + 1 >= |s| then None
    else RiskLineFrom(s, q + 1)
  }

  /** `### Risk Level[\s\S]*?\n([^\n]+)` anchored at `i`. */
  function RiskAt(s: string, i: nat): (m: Option<(nat, nat)>)
    requires i <= |s|
    ensures m.Some? ==> At(s, i, RiskKey()) && i + |RiskKey()| < m.value.0 < m.value.1 <= |s|
    ensures m.Some? ==> forall k :: m.value.0 <= k < m.value.1 ==> s[k] != '\n'
  {
    if At(s, i, RiskKey()) then RiskLineFrom(s, i + |RiskKey()|) else None
  }

  /** The leftmost match of the risk pattern at or after `i`. */
  function RiskMatchFrom(s: string, i: nat): (m: Option<(nat, nat)>)
    requires i <= |s|
    ensures m.Some? ==> i < m.value.0 < m.value.1 <= |s|
    ensures m.Some? ==> forall k :: m.value.0 <= k < m.value.1 ==> s[k] != '\n'
    decreases |s| - i
  {
    var m := RiskAt(s, i);
    if m.Some? then m
    else if i == |s| then None
    else RiskMatchFrom(s, i + 1)
  }

  lemma {:induction false} RiskMatchSkips(s: string, i: nat, at: nat)
    requires i <= at <= |s|
    requires forall j :: i <= j < at ==> !At(s, j, RiskKey())
    ensures RiskMatchFrom(s, i) == RiskMatchFrom(s, at)
    decreases at - i
  {
    if i < at {
      assert RiskAt(s, i) == None;
      RiskMatchSkips(s, i + 1, at);
    }
  }

  /** The coloured circles of `[⚪🟢🟡🟠🔴]`. */
  predicate IsRiskMarker(c: char) {
    c == '\U{26AA}' || c == '\U{1F7E2}' || c == '\U{1F7E1}' || c == '\U{1F7E0}' || c == '\U{1F534}'
  }

  /** `.replace(/[⚪🟢🟡🟠🔴]/g, "")`. */
  function RemoveMarkers(s: string): (r: string)
    ensures |r| <= |s|
    ensures forall k :: 0 <= k < |r| ==> !IsRiskMarker(r[k]) && r[k] in s
  {
    if s == [] then []
    else if IsRiskMarker(s[0]) then RemoveMarkers(s[1..])
    else [s[0]] + RemoveMarkers(s[1..])
  }

  /** No two stars in a row. */
  predicate NoDoubleStar(u: string) {
    forall k :: 0 <= k < |u| - 1 ==> !(u[k] == '*' && u[k + 1] == '*')
  }

  /** `RemoveAll(s, "**")` keeps the first character of a text that does not start with `**`. */
  lemma StarsKeepHead(s: string)
    requires s != [] && !("**" <= s)
    ensures RemoveAll(s, "**") != [] && RemoveAll(s, "**")[0] == s[0]
  {
  }

  /** Removing every `**` leaves none: a removal never brings two stars together, since
      the scan would have matched earlier. */
  lemma {:induction false} StarsGone(s: string)
    ensures NoDoubleStar(RemoveAll(s, "**"))
    decreases |s|
  {
    if "**" <= s {
      StarsGone(s[2..]);
    } else if s != [] {
      StarsGone(s[1..]);
      var rest := RemoveAll(s[1..], "**");
      assert RemoveAll(s, "**") == [s[0]] + rest;
      if |s| > 1 {
        if s[0] == '*' {
          assert s[1] != '*';
          StarsKeepHead(s[1..]);
        }
      }
    }
  }

  /** Removing a pattern only drops characters. */
  lemma {:induction false} RemoveAllKeepsOut(s: string, pat: string, c: char)
    requires pat != [] && c !in s
    ensures c !in RemoveAll(s, pat)
    decreases |s|
  {
    if pat <= s {
      RemoveAllKeepsOut(s[|pat|..], pat, c);
    } else if s != [] {
      RemoveAllKeepsOut(s[1..], pat, c);
    }
  }

  /** A slice of a text without markers and without `**` has neither. */
  lemma SliceClean(v: string, i: nat, j: nat)
    requires i <= j <= |v| && NoDoubleStar(v)
    requires forall k :: 0 <= k < |v| ==> !IsRiskMarker(v[k])
    ensures NoDoubleStar(v[i..j]) && forall k :: 0 <= k < j - i ==> !IsRiskMarker(v[i..j][k])
  {
    var r := v[i..j];
    forall k | 0 <= k < |r| - 1
      ensures !(r[k] == '*' && r[k + 1] == '*')
    {
      assert r[k] == v[i + k] && r[k + 1] == v[i + k + 1];
    }
  }

  /** Removing `**` from a text without markers leaves none. */
  lemma StarsRemovedClean(u: string)
    requires forall k :: 0 <= k < |u| ==> !IsRiskMarker(u[k])
    ensures forall k :: 0 <= k < |RemoveAll(u, "**")| ==> !IsRiskMarker(RemoveAll(u, "**")[k])
  {
    var v := RemoveAll(u, "**");
    forall k | 0 <= k < |v|
      ensures !IsRiskMarker(v[k])
    {
      if IsRiskMarker(v[k]) {
        RemoveAllKeepsOut(u, "**", v[k]);
      }
    }
  }

  /** What is left after the markers and every `**` are removed and the rest trimmed has no
      marker, no `**` and no whitespace at either end. */
  lemma CleanRiskFacts(line: string)
    ensures var r := Trim(Js, RemoveAll(RemoveMarkers(line), "**"));
      && (forall k :: 0 <= k < |r| ==> !IsRiskMarker(r[k]))
      && NoDoubleStar(r)
      && (r == [] || (!IsJsSpace(r[0]) && !IsJsSpace(r[|r| - 1])))
  {
    var u := RemoveMarkers(line);
    var v := RemoveAll(u, "**");
    StarsGone(u);
    StarsRemovedClean(u);
    TrimEdges(Js, v);
    TrimIsSlice(Js, v);
    var i, j :| 0 <= i <= j <= |v| && Trim(Js, v) == v[i..j];
    SliceClean(v, i, j);
  }

  /** The markers, then every `**`, removed from the risk line, and the rest trimmed. */
  function CleanRisk(line: string): (r: string)
    ensures forall k :: 0 <= k < |r| ==> !IsRiskMarker(r[k])
    ensures NoDoubleStar(r)
    ensures r == [] || (!IsJsSpace(r[0]) && !IsJsSpace(r[|r| - 1]))
  {
    CleanRiskFacts(line);
    Trim(Js, RemoveAll(RemoveMarkers(line), "**"))
  }

  /** `extractRiskLevel(content)`: the first line with content after `### Risk Level`, without
      its coloured markers and `**`, trimmed; `None` when the heading never occurs. */
  function ExtractRiskLevel(content: string): (r: Option<string>)
    ensures r.Some? ==> forall k :: 0 <= k < |r.value| ==> !IsRiskMarker(r.value[k])
    ensures r.Some? ==> NoDoubleStar(r.value)
    ensures r.Some? ==> r.value == [] || (!IsJsSpace(r.value[0]) && !IsJsSpace(r.value[|r.value| - 1]))
  {
    match RiskMatchFrom(content, 0)
    case None => None
    case Some(m) => Some(CleanRisk(content[m.0..m.1]))
  }

  /** Without the heading there is no risk level. */
  lemma ExtractRiskLevelAbsent(content: string)
    requires forall i :: 0 <= i <= |content| ==> !At(content, i, RiskKey())
    ensures ExtractRiskLevel(content) == None
  {
    RiskMatchSkips(content, 0, |content|);
  }

  /** At `at` sits the heading, then a newline, then a line of `w` characters ended by a
      newline. */
  predicate RiskLineAt(s: string, at: nat, w: nat) {
    && at + |RiskKey()| + 1 + w < |s| && w > 0
    && At(s, at, RiskKey())
    && s[at + |RiskKey()|] == '\n' && s[at + |RiskKey()| + 1 + w] == '\n'
    && (forall k :: at + |RiskKey()| + 1 <= k < at + |RiskKey()| + 1 + w ==> s[k] != '\n')
  }

  /** The heading does not occur before `at`. */
  predicate NoRiskKeyBefore(s: string, at: nat) {
    forall i :: 0 <= i < at ==> !At(s, i, RiskKey())
  }

  /** The first heading, its newline, then a line of `w` characters ended by a newline: the
      risk level is that line, cleaned. */
  lemma ExtractRiskLevelReadsLine(s: string, at: nat, w: nat)
    requires RiskLineAt(s, at, w) && NoRiskKeyBefore(s, at)
    ensures ExtractRiskLevel(s) == Some(CleanRisk(s[at + |RiskKey()| + 1..at + |RiskKey()| + 1 + w]))
  {
    RiskAtLine(s, at, w);
    RiskMatchSkips(s, 0, at);
    RiskFromMatch(s, (at + |RiskKey()| + 1, at + |RiskKey()| + 1 + w));
  }

  /** The heading at `at` followed by a line of `w` characters matches that line. */
  lemma RiskAtLine(s: string, at: nat, w: nat)
    requires RiskLineAt(s, at, w)
    ensures RiskMatchFrom(s, at) == Some((at + |RiskKey()| + 1, at + |RiskKey()| + 1 + w))
  {
    var q := at + |RiskKey()|;
    LineRunExactly(s, q + 1, NotNewline, w);
    assert RiskLineFrom(s, q) == Some((q + 1, q + 1 + w));
    assert RiskAt(s, at) == Some((q + 1, q + 1 + w));
  }

  /** The risk level read from the first match of the heading pattern. */
  lemma RiskFromMatch(s: string, m: (nat, nat))
    requires RiskMatchFrom(s, 0) == Some(m)
    ensures m.0 <= m.1 <= |s| && ExtractRiskLevel(s) == Some(CleanRisk(s[m.0..m.1]))
  {
  }

  // ================================================================ parseAssignedDate

  /** `parseAssignedDate(raw)`, with `parseDate` standing for `new Date(raw)` (`None` for an
      invalid date, otherwise its time in milliseconds): `None` for a missing or empty value or
      an unparseable one, otherwise the parsed time. */
  function ParseAssignedDate(raw: Option<string>, parseDate: string -> Option<int>): (d: Option<int>)
    ensures !Truthy(raw) ==> d == None
    ensures Truthy(raw) ==> d == parseDate(raw.value)
  {
    if !Truthy(raw) then None else parseDate(raw.value)
  }

  // ================================================================ extractUseCases

  /** Removing the pattern `^[-*]\s*`: one leading dash or star and the whitespace after it. */
  function StripMarker(line: string): (r: string)
    ensures |r| <= |line|
  {
    if line != [] && (line[0] == '-' || line[0] == '*') then line[1 + SpacesFrom(line, 1)..] else line
  }

  /** One use case line: the marker stripped, then trimmed. */
  function UseCaseOf(line: string): (r: string)
    ensures r == [] || (!IsJsSpace(r[0]) && !IsJsSpace(r[|r| - 1]))
  {
    TrimEdges(Js, StripMarker(line));
    Trim(Js, StripMarker(line))
  }

  /** Text that is not empty and has no white space at either end. */
  predicate TrimmedText(u: string) {
    u != [] && !IsJsSpace(u[0]) && !IsJsSpace(u[|u| - 1])
  }

  /** The use cases of the section's lines, in order, without the empty ones. */
  function UseCasesOfLines(lines: seq<string>): (r: seq<string>)
    ensures |r| <= |lines|
    ensures forall k :: 0 <= k < |r| ==> TrimmedText(r[k])
  {
    if lines == [] then []
    else
      var u := UseCaseOf(lines[0]);
      (if u != [] then [u] else []) + UseCasesOfLines(lines[1..])
  }

  /** `extractUseCases(content)`: `[]` when the Use Cases section is missing or empty, otherwise
      its lines with their markers stripped, trimmed, the empty ones dropped. */
  function ExtractUseCases(content: string): (r: seq<string>)
    ensures forall k :: 0 <= k < |r| ==> TrimmedText(r[k])
  {
    var section := ExtractSection(content, "Use Cases");
    if !Truthy(section) then [] else
      var lines := SplitOn(section.value, "\n");
      UseCasesOfLines(lines)
  }

  /** A bullet `- text` or `* text` gives its text. */
  lemma UseCaseOfBullet(marker: char, text: string)
    requires marker == '-' || marker == '*'
    requires text != [] && !IsJsSpace(text[0]) && !IsJsSpace(text[|text| - 1])
    ensures UseCaseOf([marker, ' '] + text) == text
  {
    var line := [marker, ' '] + text;
    SpacesExactly(line, 1, 1);
    assert line[2..] == text;
    TrimIdentity(Js, text);
  }

  /** Each line yields one use case, except the ones that are empty once cleaned. */
  lemma {:induction false} UseCasesCount(lines: seq<string>)
    ensures |UseCasesOfLines(lines)| + |Filter(lines, (l: string) => UseCaseOf(l) == [])| == |lines|
  {
    if lines != [] {
      UseCasesCount(lines[1..]);
    }
  }

  // ================================================================ parsePermission

  /** The record the script upserts by name. Dates are milliseconds since the epoch. */
  datatype ParsedPermission = ParsedPermission(
    name: string,
    displayName: Option<string>,
    permissionId: Option<string>,
    permissionType: Option<string>,
    scope: Option<string>,
    adminConsentRequired: bool,
    assignedDate: Option<int>,
    description: Option<string>,
    riskLevel: Option<string>,
    useCases: seq<string>,
    sourceFile: string)

  /** A parsed page, or the error thrown for a page without a name. */
  datatype Result<T> = Ok(value: T) | Err(message: string)

  /** The trimmed text of the first `# ` title line; `None` when there is none or it is blank. */
  function PermissionName(content: string): (n: Option<string>)
    ensures n.Some? ==> n.value != [] && !IsJsSpace(n.value[0]) && !IsJsSpace(n.value[|n.value| - 1])
    ensures n.Some? ==> forall k :: 0 <= k < |n.value| ==> !IsLineTerminator(n.value[k])
  {
    match Title(content)
    case None => None
    case Some(t) =>
      TrimEdges(Js, t);
      TrimNoTerminator(t);
      var name := Trim(Js, t);
      if name == [] then None else Some(name)
  }

  /** `/yes/i.test(value)`. */
  predicate SaysYes(value: string) {
    Contains(Lower(value), "yes")
  }

  /** `value?.replace(/`/g, "")`: a present value loses every backtick. */
  function WithoutBackticks(value: Option<string>): (r: Option<string>)
    ensures r.Some? <==> value.Some?
    ensures r.Some? ==> '`' !in r.value && |r.value| <= |value.value|
  {
    match value
    case None => None
    case Some(v) =>
      RemoveAllCharGone(v, '`');
      Some(RemoveAll(v, "`"))
  }

  /** `parsePermission(content, sourceFile)`: the error for a page without a name; otherwise
      the page's fields. */
  function ParsePermission(content: string, sourceFile: string, parseDate: string -> Option<int>): (r: Result<ParsedPermission>)
    ensures r.Err? <==> PermissionName(content).None?
    ensures r.Err? ==> r.message == "Unable to determine permission name for " + sourceFile
    ensures r.Ok? ==> r.value.name == PermissionName(content).value && r.value.sourceFile == sourceFile
    ensures r.Ok? ==> var raw := ExtractField(content, "Admin Consent Required");
      (r.value.adminConsentRequired <==> raw.Some? && SaysYes(raw.value))
    ensures r.Ok? && r.value.permissionId.Some? ==> '`' !in r.value.permissionId.value
  {
    match PermissionName(content)
    case None => Err("Unable to determine permission name for " + sourceFile)
    case Some(name) =>
      var adminConsentRaw := ExtractField(content, "Admin Consent Required");
      var assignedDateRaw := ExtractField(content, "Assigned Date");
      Ok(ParsedPermission(
        name,
        ExtractField(content, "Display Name"),
        WithoutBackticks(ExtractField(content, "Permission ID")),
        ExtractField(content, "Type"),
        ExtractField(content, "Scope"),
        SaysYes(StrOr(adminConsentRaw, "")),
        ParseAssignedDate(assignedDateRaw, parseDate),
        ExtractDescription(content),
        ExtractRiskLevel(content),
        ExtractUseCases(content),
        sourceFile))
  }

  /** A page with no `#` at the start of any line is rejected with the script's message. */
  lemma NoTitleIsRejected(content: string, sourceFile: string, parseDate: string -> Option<int>)
    requires forall j :: 0 <= j < |content| && LineStart(content, j) ==> content[j] != '#'
    ensures ParsePermission(content, sourceFile, parseDate) == Err("Unable to determine permission name for " + sourceFile)
  {
    NoHashNoTitle(content);
  }

  /** A page that starts with `# name` is accepted under that name. */
  lemma TitledPageIsAccepted(name: string, rest: string, sourceFile: string, parseDate: string -> Option<int>)
    requires name != [] && !IsJsSpace(name[0]) && !IsJsSpace(name[|name| - 1])
    requires forall k :: 0 <= k < |name| ==> !IsLineTerminator(name[k])
    ensures var r := ParsePermission("# " + name + "\n" + rest, sourceFile, parseDate);
      r.Ok? && r.value.name == name
  {
    TitleOfFirstLine(name, rest);
    TrimIdentity(Js, name);
  }

  /** Without an Admin Consent Required field, admin consent is not required. */
  lemma AdminConsentDefaultsToFalse(content: string, sourceFile: string, parseDate: string -> Option<int>)
    requires forall i :: 0 <= i <= |content| ==> !AtIgnoreCase(content, i, FieldKey("Admin Consent Required"))
    ensures var r := ParsePermission(content, sourceFile, parseDate);
      r.Ok? ==> !r.value.adminConsentRequired
  {
    ExtractFieldAbsent(content, "Admin Consent Required");
  }
}
