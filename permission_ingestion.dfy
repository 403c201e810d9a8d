/** The markdown ingestion service: it reads the generated permission pages and the category
    index, and decides which category each page is stored under
    (server/services/permissionIngestion.ts). */
module PermissionIngestion {
  import opened Basics
  import opened MarkdownPatterns

  // ================================================================ extractValue

  /** The literal text that precedes a labelled value: `**Label**:`. */
  function ValueKey(field: string): string { "**" + field + "**:" }

  /** `\*\*Label\*\*:\s*([^\n]+)` (flag `i`) anchored at `i`: the bounds of the captured value. */
  function ValueAt(content: string, key: string, i: nat): (m: Option<(nat, nat)>)
    requires i <= |content|
    ensures m.Some? ==> AtIgnoreCase(content, i, key) && i + |key| <= m.value.0 < m.value.1 <= |content|
  {
    if AtIgnoreCase(content, i, key) then CaptureAfter(content, i + |key|, 0, NotNewline) else None
  }

  /** The leftmost match of the value pattern for `key` at or after `i`: the bounds of its
      captured text. */
  function ValueMatchFrom(content: string, key: string, i: nat): (m: Option<(nat, nat)>)
    requires i <= |content|
    ensures m.Some? ==> i <= m.value.0 < m.value.1 <= |content|
    decreases |content| - i
  {
    var m := ValueAt(content, key, i);
    if m.Some? then m
    else if i == |content| then None
    else ValueMatchFrom(content, key, i + 1)
  }

  /** Start positions where the key does not match are skipped. */
  lemma {:induction false} ValueMatchSkips(content: string, key: string, i: nat, at: nat)
    requires i <= at <= |content|
    requires forall j :: i <= j < at ==> !AtIgnoreCase(content, j, key)
    ensures ValueMatchFrom(content, key, i) == ValueMatchFrom(content, key, at)
    decreases at - i
  {
    if i < at {
      assert ValueAt(content, key, i) == None;
      ValueMatchSkips(content, key, i + 1, at);
    }
  }

  /** `raw.replace(/`/g, "").trim()`: no backtick is left and no whitespace at either end. */
  function CleanValue(raw: string): (r: string)
    ensures '`' !in r
    ensures r == [] || (!IsJsSpace(r[0]) && !IsJsSpace(r[|r| - 1]))
  {
    var u := RemoveAll(raw, "`");
    RemoveAllCharGone(raw, '`');
    TrimKeepsOut(u, '`');
    TrimEdges(Js, u);
    Trim(Js, u)
  }

  /** `extractValue(field, content)`: the rest of the line after the first `**Label**:` (compared
      ignoring case), with every backtick removed, trimmed; `None` when no such field matches. */
  function ExtractValue(field: string, content: string): (v: Option<string>)
    ensures v.Some? ==> '`' !in v.value
    ensures v.Some? ==> v.value == [] || (!IsJsSpace(v.value[0]) && !IsJsSpace(v.value[|v.value| - 1]))
  {
    match ValueMatchFrom(content, ValueKey(field), 0)
    case None => None
    case Some(m) => Some(CleanValue(content[m.0..m.1]))
  }

  /** Trimming only removes characters. */
  lemma TrimKeepsOut(u: string, c: char)
    requires c !in u
    ensures c !in Trim(Js, u)
  {
    var r := Trim(Js, u);
    TrimIsSlice(Js, u);
    var i, j :| 0 <= i <= j <= |u| && r == u[i..j];
    forall k | 0 <= k < |r|
      ensures r[k] != c
    {
      assert r[k] == u[i + k] && u[i + k] in u;
    }
  }

  /** No match of `key` (ignoring case) starts before position `n`. */
  predicate NoKeyBefore(s: string, key: string, n: nat) {
    forall i :: 0 <= i < n ==> !AtIgnoreCase(s, i, key)
  }

  /** At `at` sits the key, then `ws` whitespace characters, then `w` value characters (the
      first not whitespace, none a newline), then a newline. */
  predicate ValueLineAt(s: string, key: string, at: nat, ws: nat, w: nat) {
    && at + |key| + ws + w < |s| && w > 0
    && AtIgnoreCase(s, at, key)
    && (forall k :: at + |key| <= k < at + |key| + ws ==> IsJsSpace(s[k]))
    && !IsJsSpace(s[at + |key| + ws])
    && (forall k :: at + |key| + ws <= k < at + |key| + ws + w ==> s[k] != '\n')
    && s[at + |key| + ws + w] == '\n'
  }

  /** The first match of the key, followed by whitespace and a value line, is the match and
      captures exactly the value characters. */
  lemma ValueMatchAt(s: string, key: string, at: nat, ws: nat, w: nat)
    requires ValueLineAt(s, key, at, ws, w) && NoKeyBefore(s, key, at)
    ensures ValueMatchFrom(s, key, 0) == Some((at + |key| + ws, at + |key| + ws + w))
  {
    var b := at + |key| + ws;
    CaptureReadsLine(s, at + |key|, 0, NotNewline, ws, w);
    assert ValueAt(s, key, at) == Some((b, b + w));
    assert ValueMatchFrom(s, key, at) == Some((b, b + w));
    ValueMatchSkips(s, key, 0, at);
  }

  /** The first `**Label**:` (ignoring case), followed by whitespace and a value line, yields the
      value line without backticks and trimmed. */
  lemma ExtractValueReadsLine(field: string, s: string, at: nat, ws: nat, w: nat)
    requires ValueLineAt(s, ValueKey(field), at, ws, w) && NoKeyBefore(s, ValueKey(field), at)
    ensures ExtractValue(field, s)
      == Some(CleanValue(s[at + |ValueKey(field)| + ws..at + |ValueKey(field)| + ws + w]))
  {
    ValueMatchAt(s, ValueKey(field), at, ws, w);
  }

  // ================================================================ extractSection

  /** `## Heading\s*\n([\s\S]*?)(\n## |$)` (flag `i`, no `m`) anchored at `i`: the bounds of the
      section body. The greedy whitespace run after the heading gives characters back until its
      last newline, where the body starts; the lazy body ends at the first `\n## ` or at the end
      of the text. */
  function SectionAt(content: string, key: string, i: nat): (m: Option<(nat, nat)>)
    requires i <= |content|
    ensures m.Some? ==> AtIgnoreCase(content, i, key) && i + |key| < m.value.0 <= m.value.1 <= |content|
  {
    if !AtIgnoreCase(content, i, key) then None
    else
      var p := i + |key|;
      var e := p + SpacesFrom(content, p);
      match LastNewline(content, p, e)
      case None => None
      case Some(k) =>
        match FindFrom(content, "\n## ", k + 1)
        case None => Some((k + 1, |content|))
        case Some(j) => Some((k + 1, j))
  }

  /** The leftmost match of the section pattern for `key` at or after `i`: the bounds of the
      body. */
  function SectionMatchFrom(content: string, key: string, i: nat): (m: Option<(nat, nat)>)
    requires i <= |content|
    ensures m.Some? ==> m.value.0 <= m.value.1 <= |content|
    decreases |content| - i
  {
    var m := SectionAt(content, key, i);
    if m.Some? then m
    else if i == |content| then None
    else SectionMatchFrom(content, key, i + 1)
  }

  /** The body of a section match holds no `\n## `: the lazy body stops at the first one. */
  lemma SectionAtAvoidsBreak(content: string, key: string, i: nat)
    requires i <= |content| && SectionAt(content, key, i).Some?
    ensures var m := SectionAt(content, key, i).value;
      forall k :: m.0 <= k < m.1 ==> !At(content, k, "\n## ")
  {
  }

  lemma {:induction false} SectionMatchAvoidsBreak(content: string, key: string, i: nat)
    requires i <= |content| && SectionMatchFrom(content, key, i).Some?
    ensures var m := SectionMatchFrom(content, key, i).value;
      forall k :: m.0 <= k < m.1 ==> !At(content, k, "\n## ")
    decreases |content| - i
  {
    if SectionAt(content, key, i).Some? {
      SectionAtAvoidsBreak(content, key, i);
    } else {
      SectionMatchAvoidsBreak(content, key, i + 1);
    }
  }

  /** Start positions where the key does not match are skipped. */
  lemma {:induction false} SectionMatchSkips(content: string, key: string, i: nat, at: nat)
    requires i <= at <= |content|
    requires forall j :: i <= j < at ==> !AtIgnoreCase(content, j, key)
    ensures SectionMatchFrom(content, key, i) == SectionMatchFrom(content, key, at)
    decreases at - i
  {
    if i < at {
      assert SectionAt(content, key, i) == None;
      SectionMatchSkips(content, key, i + 1, at);
    }
  }

  /** `extractSection(content, heading)`: the trimmed body of the first `## Heading` section
      (heading compared ignoring case), which stops before the next `\n## `. */
  function ExtractSection(content: string, heading: string): (r: Option<string>)
    ensures r.Some? ==> !Contains(r.value, "\n## ")
    ensures r.Some? ==> r.value == [] || (!IsJsSpace(r.value[0]) && !IsJsSpace(r.value[|r.value| - 1]))
  {
    match SectionMatchFrom(content, "## " + heading, 0)
    case None => None
    case Some(m) =>
      SectionMatchAvoidsBreak(content, "## " + heading, 0);
      SliceAvoids(content, m.0, m.1, "\n## ");
      TrimAvoids(Js, content[m.0..m.1], "\n## ");
      TrimEdges(Js, content[m.0..m.1]);
      Some(Trim(Js, content[m.0..m.1]))
  }

  /** At `at` sits the heading key, then a newline, then a body of `w` characters that starts
      with a non-space character, holds no `\n## ` and is followed by `\n## ` or the end. */
  predicate SectionLineAt(s: string, key: string, at: nat, w: nat) {
    && at + |key| + 1 + w <= |s| && w > 0
    && AtIgnoreCase(s, at, key)
    && s[at + |key|] == '\n' && !IsJsSpace(s[at + |key| + 1])
    && (forall k :: at + |key| + 1 <= k < at + |key| + 1 + w ==> !At(s, k, "\n## "))
    && (at + |key| + 1 + w == |s| || At(s, at + |key| + 1 + w, "\n## "))
  }

  /** The first match of the heading key, followed by its body, is the match. */
  lemma SectionMatchAt(s: string, key: string, at: nat, w: nat)
    requires SectionLineAt(s, key, at, w) && NoKeyBefore(s, key, at)
    ensures SectionMatchFrom(s, key, 0) == Some((at + |key| + 1, at + |key| + 1 + w))
  {
    SectionAtIs(s, key, at, w);
    SectionMatchSkips(s, key, 0, at);
  }

  /** The section pattern anchored at a heading line followed by its body. */
  lemma SectionAtIs(s: string, key: string, at: nat, w: nat)
    requires SectionLineAt(s, key, at, w)
    ensures SectionAt(s, key, at) == Some((at + |key| + 1, at + |key| + 1 + w))
  {
    var p := at + |key|;
    var b := p + 1;
    SpacesExactly(s, p, 1);
    assert LastNewline(s, p, p + 1) == Some(p);
    if b + w == |s| {
      assert FindFrom(s, "\n## ", b) == None;
    } else {
      assert FindFrom(s, "\n## ", b) == Some(b + w);
    }
  }

  /** The first `## Heading` (ignoring case) followed by a newline and its body yields that
      body, trimmed; the body runs to the next `\n## ` or to the end of the text. */
  lemma ExtractSectionReadsBody(heading: string, s: string, at: nat, w: nat)
    requires SectionLineAt(s, "## " + heading, at, w) && NoKeyBefore(s, "## " + heading, at)
    ensures ExtractSection(s, heading) == Some(Trim(Js, s[at + |heading| + 4..at + |heading| + 4 + w]))
  {
    var key := "## " + heading;
    assert |key| + 1 == |heading| + 4;
    SectionMatchAt(s, key, at, w);
    SectionFromMatch(heading, s, at + |key| + 1, at + |key| + 1 + w);
  }

  /** The section is the trimmed body of the match. */
  lemma SectionFromMatch(heading: string, s: string, a: nat, b: nat)
    requires SectionMatchFrom(s, "## " + heading, 0) == Some((a, b))
    ensures a <= b <= |s| && ExtractSection(s, heading) == Some(Trim(Js, s[a..b]))
  {
  }

  /** Without any `**Label**:` (ignoring case) there is no value. */
  lemma ExtractValueAbsent(field: string, content: string)
    requires forall i :: 0 <= i <= |content| ==> !AtIgnoreCase(content, i, ValueKey(field))
    ensures ExtractValue(field, content) == None
  {
    ValueMatchSkips(content, ValueKey(field), 0, |content|);
  }

  /** Without any `## Heading` (ignoring case) there is no section. */
  lemma ExtractSectionAbsent(content: string, heading: string)
    requires forall i :: 0 <= i <= |content| ==> !AtIgnoreCase(content, i, "## " + heading)
    ensures ExtractSection(content, heading) == None
  {
    SectionMatchSkips(content, "## " + heading, 0, |content|);
  }

  // ================================================================ parseApiEndpoints

  /** One parsed endpoint: an optional upper-cased HTTP method and a path. */
  datatype Endpoint = Endpoint(httpMethod: Option<string>, path: string)

  /** The five methods of `(GET|POST|PUT|PATCH|DELETE)`. */
  predicate IsHttpMethod(w: string) {
    w == "GET" || w == "POST" || w == "PUT" || w == "PATCH" || w == "DELETE"
  }

  predicate IsUpperWord(w: string) {
    forall k :: 0 <= k < |w| ==> 'A' <= w[k] <= 'Z'
  }

  /** The alternation `(GET|POST|PUT|PATCH|DELETE)` at `p` (flag `i`): the first alternative,
      in that order, that matches ignoring case. */
  function MethodAt(line: string, p: nat): (m: Option<string>)
    ensures m.Some? ==> IsHttpMethod(m.value) && IsUpperWord(m.value) && AtIgnoreCase(line, p, m.value)
  {
    if AtIgnoreCase(line, p, "GET") then Some("GET")
    else if AtIgnoreCase(line, p, "POST") then Some("POST")
    else if AtIgnoreCase(line, p, "PUT") then Some("PUT")
    else if AtIgnoreCase(line, p, "PATCH") then Some("PATCH")
    else if AtIgnoreCase(line, p, "DELETE") then Some("DELETE")
    else None
  }

  /** Upper-casing text that equals an upper-case word ignoring case gives that word. */
  lemma UpperOfMatch(s: string, p: nat, w: string)
    requires AtIgnoreCase(s, p, w) && IsUpperWord(w)
    ensures Upper(s[p..p + |w|]) == w
  {
    var u := Upper(s[p..p + |w|]);
    forall k | 0 <= k < |w|
      ensures u[k] == w[k]
    {
      assert LowerChar(s[p + k]) == LowerChar(w[k]);
    }
  }

  /** Length of the run of characters from `[:\s-]` starting at `p`. */
  function SeparatorsFrom(s: string, p: nat): (n: nat)
    requires p <= |s|
    ensures p + n <= |s|
    ensures p + n < |s| ==> !(s[p + n] == ':' || s[p + n] == '-' || IsJsSpace(s[p + n]))
    decreases |s| - p
  {
    if p < |s| && (s[p] == ':' || s[p] == '-' || IsJsSpace(s[p])) then 1 + SeparatorsFrom(s, p + 1) else 0
  }

  /** Length of the run of non-whitespace characters (`[^\s]`) starting at `p`. */
  function NonSpacesFrom(s: string, p: nat): (n: nat)
    requires p <= |s|
    ensures p + n <= |s|
    ensures forall k :: p <= k < p + n ==> !IsJsSpace(s[k])
    decreases |s| - p
  {
    if p < |s| && !IsJsSpace(s[p]) then 1 + NonSpacesFrom(s, p + 1) else 0
  }

  /** One trimmed line of the API Endpoints section against `-\s*(GET|POST|PUT|PATCH|DELETE)?[:\s-]*([^\s]+)?`
      (flag `i`), matched at the leading `-`. Every part after the dash is optional, so the first
      attempt succeeds and nothing is given back: the whitespace, the first method alternative
      that matches, the separators and the path are each taken greedily. A line yields an
      endpoint only when it starts with `-` and the path group took at least one character. */
  function EndpointOfLine(line: string): (e: Option<Endpoint>)
    ensures e.Some? ==> line != [] && line[0] == '-'
    ensures e.Some? ==> e.value.path != [] && forall k :: 0 <= k < |e.value.path| ==> !IsJsSpace(e.value.path[k])
    ensures e.Some? && e.value.httpMethod.Some? ==> IsHttpMethod(e.value.httpMethod.value)
  {
    if line == [] || line[0] != '-' then None
    else
      var p := 1 + SpacesFrom(line, 1);
      var m := MethodAt(line, p);
      var q := if m.Some? then p + |m.value| else p;
      var r := q + SeparatorsFrom(line, q);
      var path := NonSpaceRun(line, r);
      if path == [] then None
      else if m.Some? then
        UpperOfMatch(line, p, m.value);
        Some(Endpoint(Some(Upper(line[p..q])), path))
      else Some(Endpoint(None, path))
  }

  /** The run of non-whitespace characters starting at `p`. */
  function NonSpaceRun(s: string, p: nat): (run: string)
    requires p <= |s|
    ensures forall k :: 0 <= k < |run| ==> !IsJsSpace(run[k])
  {
    s[p..p + NonSpacesFrom(s, p)]
  }

  /** `section.split(/\r?\n/).map(line => line.trim())`. Splitting on `\n` alone gives the same
      trimmed lines: the only difference is a `\r` at the end of a piece, which trimming drops. */
  function EndpointLines(section: string): seq<string> {
    TrimmedPieces(section, "\n")
  }

  /** The pieces of a text between the occurrences of a separator, each trimmed. */
  function TrimmedPieces(text: string, sep: string): (ps: seq<string>)
    requires sep != []
    ensures |ps| >= 1
  {
    var pieces := SplitOn(text, sep);
    seq(|pieces|, i requires 0 <= i < |pieces| => Trim(Js, pieces[i]))
  }

  /** The endpoints of a sequence of lines, in line order. */
  function CollectEndpoints(lines: seq<string>): (r: seq<Endpoint>)
    ensures |r| <= |lines|
  {
    if lines == [] then []
    else
      var last := lines[|lines| - 1];
      CollectEndpoints(lines[..|lines| - 1]) + (match EndpointOfLine(last) case Some(e) => [e] case None => [])
  }

  /** `parseApiEndpoints(section)`: nothing for a missing or empty section, otherwise the
      endpoints of its lines in order. */
  function EndpointsOf(section: Option<string>): (r: seq<Endpoint>)
    ensures !Truthy(section) ==> r == []
  {
    if !Truthy(section) then [] else CollectEndpoints(EndpointLines(section.value))
  }

  /** `parseApiEndpoints`: the loop over the trimmed lines, pushing each endpoint found. */
  method ParseApiEndpoints(section: Option<string>) returns (endpoints: seq<Endpoint>)
    ensures endpoints == EndpointsOf(section)
  {
    if !Truthy(section) {
      return [];
    }
    var lines := EndpointLines(section.value);
    endpoints := [];
    var i := 0;
    while i < |lines|
      invariant 0 <= i <= |lines|
      invariant endpoints == CollectEndpoints(lines[..i])
    {
      assert lines[..i + 1][..i] == lines[..i];
      match EndpointOfLine(lines[i]) {
        case Some(e) => endpoints := endpoints + [e];
        case None =>
      }
      i := i + 1;
    }
    assert lines[..|lines|] == lines;
  }

  /** Every endpoint comes from a line that starts with `-`; its path is non-empty and has no
      whitespace, and its method, when present, is one of the five methods, upper-cased. */
  lemma {:induction false} EndpointsFromDashLines(lines: seq<string>)
    ensures forall e :: e in CollectEndpoints(lines) ==>
      exists l :: l in lines && l != [] && l[0] == '-' && EndpointOfLine(l) == Some(e)
    ensures forall e :: e in CollectEndpoints(lines) ==>
      e.path != [] && (e.httpMethod.Some? ==> IsHttpMethod(e.httpMethod.value))
  {
    if lines != [] {
      var init := lines[..|lines| - 1];
      var last := lines[|lines| - 1];
      EndpointsFromDashLines(init);
      forall e | e in CollectEndpoints(lines)
        ensures exists l :: l in lines && l != [] && l[0] == '-' && EndpointOfLine(l) == Some(e)
      {
        if e in CollectEndpoints(init) {
          var l :| l in init && l != [] && l[0] == '-' && EndpointOfLine(l) == Some(e);
          assert l in lines;
        } else {
          assert EndpointOfLine(last) == Some(e);
          assert last in lines;
        }
      }
    }
  }

  /** In `- METHOD ...`, the alternation picks that method: no earlier alternative matches. */
  lemma MethodChoice(line: string, w: string)
    requires IsHttpMethod(w) && At(line, 2, w)
    ensures MethodAt(line, 2) == Some(w)
  {
    AtAtIgnoreCase(line, 2, w);
    assert line[2] == w[0] && line[3] == w[1];
    if w != "GET" {
      Mismatch(line, 2, "GET", 0);
      if w != "POST" {
        if w == "DELETE" { Mismatch(line, 2, "POST", 0); } else { Mismatch(line, 2, "POST", 1); }
        if w != "PUT" {
          if w == "PATCH" { Mismatch(line, 2, "PUT", 1); } else { Mismatch(line, 2, "PUT", 0); }
          if w != "PATCH" {
            Mismatch(line, 2, "PATCH", 0);
          }
        }
      }
    }
  }

  /** One differing character rules a match out. */
  lemma Mismatch(s: string, i: nat, key: string, k: nat)
    requires k < |key| && i + k < |s| && LowerChar(s[i + k]) != LowerChar(key[k])
    ensures !AtIgnoreCase(s, i, key)
  {
  }

  /** A suffix without whitespace is one run of non-whitespace characters. */
  lemma {:induction false} NonSpacesToEnd(s: string, p: nat)
    requires p <= |s|
    requires forall j :: p <= j < |s| ==> !IsJsSpace(s[j])
    ensures NonSpacesFrom(s, p) == |s| - p
    decreases |s| - p
  {
    if p < |s| {
      NonSpacesToEnd(s, p + 1);
    }
  }

  /** A dash, a space, one of the methods, a space and a path without whitespace that does not
      start with a separator. */
  predicate BulletLine(line: string, w: string) {
    && IsHttpMethod(w) && |line| > 3 + |w|
    && line[0] == '-' && line[1] == ' ' && At(line, 2, w) && line[2 + |w|] == ' '
    && (forall j :: 3 + |w| <= j < |line| ==> !IsJsSpace(line[j]))
    && line[3 + |w|] != ':' && line[3 + |w|] != '-'
  }

  /** How each part of the endpoint pattern reads a bullet line. */
  lemma BulletParts(line: string, w: string)
    requires BulletLine(line, w)
    ensures SpacesFrom(line, 1) == 1 && MethodAt(line, 2) == Some(w)
    ensures SeparatorsFrom(line, 2 + |w|) == 1 && NonSpacesFrom(line, 3 + |w|) == |line| - (3 + |w|)
    ensures Upper(line[2..2 + |w|]) == w
  {
    assert line[2] == w[0] && !IsJsSpace(w[0]);
    SpacesExactly(line, 1, 1);
    MethodChoice(line, w);
    NonSpacesToEnd(line, 3 + |w|);
    UpperOfMatch(line, 2, w);
  }

  /** A bullet `- METHOD path` yields that method and that path. */
  lemma EndpointOfBullet(line: string, w: string)
    requires BulletLine(line, w)
    ensures EndpointOfLine(line) == Some(Endpoint(Some(w), line[3 + |w|..]))
  {
    BulletParts(line, w);
    assert line[3 + |w|..3 + |w| + NonSpacesFrom(line, 3 + |w|)] == line[3 + |w|..];
  }

  // ================================================================ parseExamples

  /** One fenced code example: its language tag and its trimmed code. */
  datatype Example = Example(language: string, code: string)

  /** The positions of one match: where its opening fence starts, where its tag ends (at the
      newline) and where its closing fence starts. */
  datatype Block = Block(start: nat, tagEnd: nat, close: nat)

  predicate ValidBlock(s: string, b: Block) {
    b.start + 3 < b.tagEnd < b.close && b.close + 3 <= |s|
  }

  /** Length of the run of word characters (`\w`) starting at `p`. */
  function WordsFrom(s: string, p: nat): (n: nat)
    requires p <= |s|
    ensures p + n <= |s|
    ensures forall k :: p <= k < p + n ==> IsWordChar(s[k])
    ensures p + n < |s| ==> !IsWordChar(s[p + n])
    decreases |s| - p
  {
    if p < |s| && IsWordChar(s[p]) then 1 + WordsFrom(s, p + 1) else 0
  }

  /** A fence, three backticks, starts at `i`. */
  predicate FenceAt(s: string, i: nat) {
    i + 3 <= |s| && s[i] == '`' && s[i + 1] == '`' && s[i + 2] == '`'
  }

  lemma FenceIsAt(s: string, i: nat)
    ensures FenceAt(s, i) <==> At(s, i, "```")
  {
    if At(s, i, "```") {
      assert s[i + 0] == "```"[0] && s[i + 1] == "```"[1] && s[i + 2] == "```"[2];
    }
  }

  /** The first fence at or after `i`. */
  function NextFence(s: string, i: nat): (j: Option<nat>)
    requires i <= |s|
    ensures j.Some? ==> i <= j.value && j.value + 3 <= |s|
    decreases |s| - i
  {
    if FenceAt(s, i) then Some(i)
    else if i == |s| then None
    else NextFence(s, i + 1)
  }

  /** No fence starts between `i` and the fence found. */
  lemma {:induction false} NextFenceFirst(s: string, i: nat)
    requires i <= |s| && NextFence(s, i).Some?
    ensures forall k :: i <= k < NextFence(s, i).value ==> !FenceAt(s, k)
    decreases |s| - i
  {
    if !FenceAt(s, i) {
      NextFenceFirst(s, i + 1);
    }
  }

  /** `` ```(\w+)\n([\s\S]*?)``` `` anchored at `i`: the end of the language tag and the start of the
      closing fence. The greedy `\w+` is followed by a newline, which is not a word character,
      so giving characters back never helps: the tag is the whole word run. The lazy body ends
      at the first fence after the newline. */
  function BlockAt(s: string, i: nat): (m: Option<(nat, nat)>)
    requires i <= |s|
    ensures m.Some? ==> i + 3 < m.value.0 < m.value.1 && m.value.1 + 3 <= |s|
  {
    if !FenceAt(s, i) then None
    else
      var e := i + 3 + WordsFrom(s, i + 3);
      if e == i + 3 || e == |s| || s[e] != '\n' then None
      else
        match NextFence(s, e + 1)
        case None => None
        case Some(j) => Some((e, j))
  }

  /** The tag of a block is a non-empty run of word characters and its body holds no fence. */
  lemma BlockAtParts(s: string, i: nat)
    requires i <= |s| && BlockAt(s, i).Some?
    ensures var m := BlockAt(s, i).value;
      (forall k :: i + 3 <= k < m.0 ==> IsWordChar(s[k])) && (forall k :: m.0 < k < m.1 ==> !At(s, k, "```"))
  {
    var m := BlockAt(s, i).value;
    NextFenceFirst(s, m.0 + 1);
    forall k | m.0 < k < m.1
      ensures !At(s, k, "```")
    {
      FenceIsAt(s, k);
    }
  }

  /** The leftmost block at or after `i`: its start, the end of its tag and its closing fence. */
  function BlockFrom(s: string, i: nat): (m: Option<Block>)
    requires i <= |s|
    ensures m.Some? ==> i <= m.value.start && ValidBlock(s, m.value)
    decreases |s| - i
  {
    var b := BlockAt(s, i);
    if b.Some? then Some(Block(i, b.value.0, b.value.1))
    else if i == |s| then None
    else BlockFrom(s, i + 1)
  }

  /** The search stops at a block. */
  lemma {:induction false} BlockFromIsBlock(s: string, i: nat)
    requires i <= |s| && BlockFrom(s, i).Some?
    ensures var b := BlockFrom(s, i).value; BlockAt(s, b.start) == Some((b.tagEnd, b.close))
    decreases |s| - i
  {
    if BlockAt(s, i).None? {
      BlockFromIsBlock(s, i + 1);
    }
  }

  /** The blocks found by `regex.exec` with the `g` flag from `lastIndex = i` on: each search
      resumes just after the closing fence of the previous match. */
  function BlocksFrom(s: string, i: nat): (r: seq<Block>)
    requires i <= |s|
    ensures forall n :: 0 <= n < |r| ==> ValidBlock(s, r[n])
    decreases |s| - i
  {
    var m := BlockFrom(s, i);
    if m.None? then [] else [m.value] + BlocksFrom(s, m.value.close + 3)
  }

  /** The blocks from `i` are the first block found, then the blocks after its closing fence. */
  lemma BlocksFromStep(s: string, i: nat)
    requires i <= |s|
    ensures BlockFrom(s, i).None? ==> BlocksFrom(s, i) == []
    ensures BlockFrom(s, i).Some? ==>
      BlocksFrom(s, i) == [BlockFrom(s, i).value] + BlocksFrom(s, BlockFrom(s, i).value.close + 3)
  {
  }

  /** One step of the search: the blocks seen so far, the block found and the blocks after it. */
  lemma BlocksAdvance(s: string, i: nat, done: seq<Block>, all: seq<Block>, done': seq<Block>, i': nat)
    requires i <= |s| && BlockFrom(s, i).Some? && done + BlocksFrom(s, i) == all
    requires done' == done + [BlockFrom(s, i).value] && i' == BlockFrom(s, i).value.close + 3
    ensures i' <= |s| && done' + BlocksFrom(s, i') == all
  {
    BlocksFromStep(s, i);
    AppendAssoc(done, [BlockFrom(s, i).value], BlocksFrom(s, i'));
  }

  /** The example a block yields: its tag, and its body trimmed. */
  function BlockExample(s: string, b: Block): Example
    requires ValidBlock(s, b)
  {
    Example(s[b.start + 3..b.tagEnd], Trim(Js, s[b.tagEnd + 1..b.close]))
  }

  /** `parseExamples(content)`: the `regex.exec` loop, pushing one example per match. */
  method ParseExamples(content: string) returns (examples: seq<Example>)
    ensures var bs := BlocksFrom(content, 0);
      |examples| == |bs| && forall n :: 0 <= n < |bs| ==> examples[n] == BlockExample(content, bs[n])
  {
    examples := [];
    var lastIndex: nat := 0;
    ghost var done: seq<Block> := [];
    ghost var all := BlocksFrom(content, 0);
    while true
      invariant lastIndex <= |content|
      invariant done + BlocksFrom(content, lastIndex) == all
      invariant |examples| == |done|
      invariant forall n :: 0 <= n < |done| ==> ValidBlock(content, done[n]) && examples[n] == BlockExample(content, done[n])
      decreases |content| - lastIndex
    {
      var m := BlockFrom(content, lastIndex);
      if m.None? {
        BlocksFromStep(content, lastIndex);
        break;
      }
      ghost var done0, i0 := done, lastIndex;
      examples := examples + [BlockExample(content, m.value)];
      done := done + [m.value];
      lastIndex := m.value.close + 3;
      BlocksAdvance(content, i0, done0, all, done, lastIndex);
    }
    assert done + [] == done;
  }

  /** A well-formed example: its tag is a non-empty word, and its code is trimmed and holds no
      fence. */
  predicate WellFormedExample(x: Example) {
    && x.language != [] && (forall k :: 0 <= k < |x.language| ==> IsWordChar(x.language[k]))
    && !Contains(x.code, "```")
    && (x.code == [] || (!IsJsSpace(x.code[0]) && !IsJsSpace(x.code[|x.code| - 1])))
  }

  /** The example of a block is well formed. */
  lemma BlockWellFormed(s: string, k: nat)
    requires k <= |s| && BlockAt(s, k).Some?
    ensures var m := BlockAt(s, k).value; WellFormedExample(BlockExample(s, Block(k, m.0, m.1)))
  {
    var m := BlockAt(s, k).value;
    BlockAtParts(s, k);
    SliceAvoids(s, m.0 + 1, m.1, "```");
    TrimAvoids(Js, s[m.0 + 1..m.1], "```");
    TrimEdges(Js, s[m.0 + 1..m.1]);
    var lang := s[k + 3..m.0];
    forall q | 0 <= q < |lang|
      ensures IsWordChar(lang[q])
    {
      assert lang[q] == s[k + 3 + q];
    }
  }

  /** Every block found is a match of the pattern. */
  lemma {:induction false} BlocksAreBlocks(s: string, i: nat)
    requires i <= |s|
    ensures forall b :: b in BlocksFrom(s, i) ==> BlockAt(s, b.start) == Some((b.tagEnd, b.close))
    decreases |s| - i
  {
    var m := BlockFrom(s, i);
    BlocksFromStep(s, i);
    if m.Some? {
      BlockFromIsBlock(s, i);
      BlocksAreBlocks(s, m.value.close + 3);
    }
  }

  /** Every example `parseExamples` yields is well formed: the example of each block found. */
  lemma ExamplesWellFormed(s: string)
    ensures var bs := BlocksFrom(s, 0);
      forall n :: 0 <= n < |bs| ==> WellFormedExample(BlockExample(s, bs[n]))
  {
    var bs := BlocksFrom(s, 0);
    BlocksAreBlocks(s, 0);
    forall n | 0 <= n < |bs|
      ensures WellFormedExample(BlockExample(s, bs[n]))
    {
      assert bs[n] in bs;
      BlockWellFormed(s, bs[n].start);
    }
  }

  /** The examples of a text, one per block, in order. */
  function ExamplesIn(s: string): (r: seq<Example>)
  {
    var bs := BlocksFrom(s, 0);
    seq(|bs|, n requires 0 <= n < |bs| => BlockExample(s, bs[n]))
  }

  // ================================================================ parsePermissionDocument

  /** What `parsePermissionDocument` extracts from one permission page. The assigned date is
      kept as the raw text handed to `new Date`. */
  datatype PermissionDoc = PermissionDoc(
    name: string,
    displayName: Option<string>,
    permissionId: Option<string>,
    permissionType: Option<string>,
    scope: Option<string>,
    adminConsentRequired: Option<bool>,
    assignedDate: Option<string>,
    description: Option<string>,
    riskLevel: Option<string>,
    endpoints: seq<Endpoint>,
    examples: seq<Example>)

  /** `nameMatch ? nameMatch[1].trim() : "Unknown"`. */
  function NameOf(content: string): string
  {
    match Title(content)
    case None => "Unknown"
    case Some(t) => Trim(Js, t)
  }

  /** `adminConsent?.toLowerCase().includes("yes")`: absent when the field is absent, and true
      exactly when the value holds "yes" in any case. */
  function AdminConsentOf(value: Option<string>): (r: Option<bool>)
    ensures r.None? <==> value.None?
    ensures r == Some(true) <==> value.Some? && Contains(Lower(value.value), "yes")
  {
    match value
    case None => None
    case Some(v) => Some(Contains(Lower(v), "yes"))
  }

  /** `assignedDateRaw ? new Date(assignedDateRaw) : undefined`: present for a non-empty value. */
  function AssignedDateOf(raw: Option<string>): (r: Option<string>)
    ensures r.Some? <==> Truthy(raw)
  {
    if Truthy(raw) then raw else None
  }

  /** The three risk words of `(HIGH|MEDIUM|LOW)`. */
  predicate IsRiskWord(w: string) {
    w == "HIGH" || w == "MEDIUM" || w == "LOW"
  }

  /** Two asterisks at `i`. */
  predicate StarsAt(s: string, i: nat) {
    i + 2 <= |s| && s[i] == '*' && s[i + 1] == '*'
  }

  /** The risk word of `\*\*(HIGH|MEDIUM|LOW)\*\*` (flag `i`) between the asterisks at `p`. The
      three words start with different letters, so at most one alternative can match. */
  function RiskWordAt(s: string, p: nat): (w: Option<string>)
    ensures w.Some? ==> IsRiskWord(w.value) && AtIgnoreCase(s, p, w.value) && StarsAt(s, p + |w.value|)
  {
    if AtIgnoreCase(s, p, "HIGH") && StarsAt(s, p + 4) then Some("HIGH")
    else if AtIgnoreCase(s, p, "MEDIUM") && StarsAt(s, p + 6) then Some("MEDIUM")
    else if AtIgnoreCase(s, p, "LOW") && StarsAt(s, p + 3) then Some("LOW")
    else None
  }

  /** The leftmost risk marker at or after `i`: where its word starts, and the word. */
  function RiskFrom(s: string, i: nat): (m: Option<(nat, string)>)
    requires i <= |s|
    ensures m.Some? ==> i + 2 <= m.value.0 && StarsAt(s, m.value.0 - 2)
    ensures m.Some? ==> IsRiskWord(m.value.1) && AtIgnoreCase(s, m.value.0, m.value.1)
    decreases |s| - i
  {
    var w := if StarsAt(s, i) then RiskWordAt(s, i + 2) else None;
    if w.Some? then Some((i + 2, w.value))
    else if i == |s| then None
    else RiskFrom(s, i + 1)
  }

  /** `riskLevelMatch ? riskLevelMatch[1].toUpperCase() : undefined`: the matched word, upper-cased,
      which is always one of HIGH, MEDIUM and LOW. */
  function RiskLevelOf(content: string): (r: Option<string>)
    ensures r.Some? ==> IsRiskWord(r.value)
  {
    match RiskFrom(content, 0)
    case None => None
    case Some((p, w)) =>
      assert IsUpperWord(w);
      UpperOfMatch(content, p, w);
      Some(Upper(content[p..p + |w|]))
  }

  /** `section.split(/\n\n/).map(p => p.trim())`. */
  function Paragraphs(section: string): seq<string> {
    TrimmedPieces(section, "\n\n")
  }

  /** The index of the first non-empty string (`.filter(Boolean)[0]`). */
  function FirstNonEmpty(ps: seq<string>, i: nat): (k: Option<nat>)
    requires i <= |ps|
    ensures k.Some? ==> i <= k.value < |ps| && ps[k.value] != []
    decreases |ps| - i
  {
    if i == |ps| then None
    else if ps[i] != [] then Some(i)
    else FirstNonEmpty(ps, i + 1)
  }

  /** Strings before the first non-empty one are empty, and without one all are empty. */
  lemma {:induction false} FirstNonEmptyIsFirst(ps: seq<string>, i: nat)
    requires i <= |ps|
    ensures var k := FirstNonEmpty(ps, i);
      forall j :: i <= j < (if k.Some? then k.value else |ps|) ==> ps[j] == []
    decreases |ps| - i
  {
    if i < |ps| && ps[i] == [] {
      FirstNonEmptyIsFirst(ps, i + 1);
    }
  }

  /** The description: the first non-empty trimmed paragraph of the Description section. It is
      non-empty and trimmed. */
  function DescriptionOf(section: Option<string>): (r: Option<string>)
    ensures r.Some? ==> r.value != [] && !IsJsSpace(r.value[0]) && !IsJsSpace(r.value[|r.value| - 1])
  {
    match section
    case None => None
    case Some(t) =>
      var ps := Paragraphs(t);
      match FirstNonEmpty(ps, 0)
      case None => None
      case Some(k) =>
        ParagraphEdges(t, k);
        Some(ps[k])
  }

  /** A paragraph is trimmed at both ends. */
  lemma ParagraphEdges(t: string, k: nat)
    requires k < |Paragraphs(t)|
    ensures var p := Paragraphs(t)[k]; p == [] || (!IsJsSpace(p[0]) && !IsJsSpace(p[|p| - 1]))
  {
    var pieces := SplitOn(t, "\n\n");
    assert Paragraphs(t)[k] == Trim(Js, pieces[k]);
    TrimEdges(Js, pieces[k]);
  }

  /** `parsePermissionDocument(content)`. */
  function DocumentOf(content: string): PermissionDoc
  {
    PermissionDoc(
      NameOf(content),
      ExtractValue("Display Name", content),
      ExtractValue("Permission ID", content),
      ExtractValue("Type", content),
      ExtractValue("Scope", content),
      AdminConsentOf(ExtractValue("Admin Consent Required", content)),
      AssignedDateOf(ExtractValue("Assigned Date", content)),
      DescriptionOf(ExtractSection(content, "Description")),
      RiskLevelOf(content),
      EndpointsOf(ExtractSection(content, "API Endpoints")),
      ExamplesIn(content))
  }

  /** `parsePermissionDocument`, running the two parsing loops. */
  method ParsePermissionDocument(content: string) returns (doc: PermissionDoc)
    ensures doc == DocumentOf(content)
  {
    var endpoints := ParseApiEndpoints(ExtractSection(content, "API Endpoints"));
    var examples := ParseExamples(content);
    assert examples == ExamplesIn(content);
    doc := PermissionDoc(
      NameOf(content),
      ExtractValue("Display Name", content),
      ExtractValue("Permission ID", content),
      ExtractValue("Type", content),
      ExtractValue("Scope", content),
      AdminConsentOf(ExtractValue("Admin Consent Required", content)),
      AssignedDateOf(ExtractValue("Assigned Date", content)),
      DescriptionOf(ExtractSection(content, "Description")),
      RiskLevelOf(content),
      endpoints,
      examples);
  }

  /** A page without any `#` at the start of a line is named "Unknown". */
  lemma UntitledDocument(content: string)
    requires forall j :: 0 <= j < |content| && LineStart(content, j) ==> content[j] != '#'
    ensures DocumentOf(content).name == "Unknown"
  {
    NoHashNoTitle(content);
  }

  /** A page whose first line is `# Name` is named Name. */
  lemma TitledDocument(name: string, rest: string)
    requires name != [] && !IsJsSpace(name[0]) && !IsJsSpace(name[|name| - 1])
    requires forall k :: 0 <= k < |name| ==> !IsLineTerminator(name[k])
    ensures DocumentOf("# " + name + "\n" + rest).name == name
  {
    TitleOfFirstLine(name, rest);
    TrimIdentity(Js, name);
  }

  // ================================================================ parseCategoryIndex

  /** `content.split(/\r?\n/)`: the pieces between newlines, each losing one `\r` just before
      its newline (the last piece has no newline after it and keeps its `\r`). */
  function IndexLines(content: string): (lines: seq<string>)
    ensures |lines| >= 1
  {
    var pieces := SplitOn(content, "\n");
    seq(|pieces|, i requires 0 <= i < |pieces| =>
      var piece := pieces[i];
      if i + 1 < |pieces| && piece != [] && piece[|piece| - 1] == '\r' then piece[..|piece| - 1] else piece)
  }

  /** `\s+\(` at `p`: a non-empty whitespace run and then `(`. A shorter run would leave a
      whitespace character where `(` must be, so only the whole run can succeed. */
  predicate HeaderTail(line: string, p: nat) {
    p <= |line| && SpacesFrom(line, p) > 0 && p + SpacesFrom(line, p) < |line| && line[p + SpacesFrom(line, p)] == '('
  }

  /** The lazy `(.+?)` starting at `g`, currently `t` characters long: the first length whose
      characters are all non-terminators and after which `\s+\(` matches. */
  function HeaderLazy(line: string, g: nat, t: nat): (r: Option<nat>)
    requires 1 <= t && g + t <= |line|
    ensures r.Some? ==> t <= r.value && g + r.value <= |line|
    decreases |line| - (g + t)
  {
    if IsLineTerminator(line[g + t - 1]) then None
    else if HeaderTail(line, g + t) then Some(t)
    else if g + t < |line| then HeaderLazy(line, g, t + 1)
    else None
  }

  /** The greedy `\s+` after `####`, tried with `n` characters, then fewer, down to one. */
  function HeaderRuns(line: string, n: nat): (r: Option<(nat, nat)>)
    requires 4 + n <= |line|
    ensures r.Some? ==> 1 <= r.value.0 <= n && 4 + r.value.0 + r.value.1 <= |line| && r.value.1 >= 1
    decreases n
  {
    if n == 0 then None
    else
      var lazy := if 4 + n < |line| then HeaderLazy(line, 4 + n, 1) else None;
      if lazy.Some? then Some((n, lazy.value)) else HeaderRuns(line, n - 1)
  }

  /** `line.match(/^####\s+(.+?)\s+\(/)`, the category name `categoryMatch[1].trim()`. */
  function HeaderName(line: string): (r: Option<string>)
  {
    if !At(line, 0, "####") then None
    else
      var n := SpacesFrom(line, 4);
      if n > 0 && n <= |line| - 4 then
        match HeaderRuns(line, n)
        case None => None
        case Some((k, t)) => Some(Trim(Js, line[4 + k..4 + k + t]))
      else None
  }

  /** The lazy `(.+?)\)` of the file name starting at `q`, currently ending before `k`: the
      first `)` after at least one character, with no line terminator before it. */
  function FileEnd(line: string, q: nat, k: nat): (r: Option<nat>)
    requires q < k
    ensures r.Some? ==> k <= r.value < |line| && line[r.value] == ')'
    decreases |line| - k
  {
    if k >= |line| || IsLineTerminator(line[k - 1]) then None
    else if line[k] == ')' then Some(k)
    else FileEnd(line, q, k + 1)
  }

  /** The lazy label `(.+?)` of `^- \[(.+?)\]\(\.\/(.+?)\)`, currently `t` characters long: the
      first length at which `](./` follows and a file name can be read; otherwise the label
      grows over another non-terminator. */
  function EntryLazy(line: string, t: nat): (r: Option<(nat, nat)>)
    requires 1 <= t && 3 + t <= |line|
    ensures r.Some? ==> 3 + t + 4 <= r.value.0 < r.value.1 < |line|
    decreases |line| - (3 + t)
  {
    if IsLineTerminator(line[3 + t - 1]) then None
    else
      var q := 3 + t + 4;
      var close := if At(line, 3 + t, "](./") then FileEnd(line, q, q + 1) else None;
      if close.Some? then Some((q, close.value))
      else if 3 + t < |line| then EntryLazy(line, t + 1)
      else None
  }

  /** `line.match(/^- \[(.+?)\]\(\.\/(.+?)\)/)`, the file name `permissionMatch[2]`. */
  function EntryFile(line: string): (r: Option<string>)
    ensures r.Some? ==> r.value != []
  {
    if !At(line, 0, "- [") || |line| < 4 then None
    else
      match EntryLazy(line, 1)
      case None => None
      case Some((q, e)) => Some(line[q..e])
  }

  /** The variables of the index loop: the category set, the file-to-category map and
      `currentCategory`. */
  datatype IndexState = IndexState(categories: set<string>, fileMap: map<string, string>, current: Option<string>)

  function EmptyIndex(): IndexState { IndexState({}, map[], None) }

  /** One line of the index: a header opens (and adds) a category; otherwise an entry maps its
      file to the open category, when that category is a non-empty name. */
  function IndexStep(st: IndexState, line: string): IndexState
  {
    match HeaderName(line)
    case Some(name) => IndexState(st.categories + {name}, st.fileMap, Some(name))
    case None =>
      match EntryFile(line)
      case Some(file) =>
        if Truthy(st.current) then st.(fileMap := st.fileMap[file := st.current.value]) else st
      case None => st
  }

  /** The state after a sequence of lines. */
  function IndexRun(lines: seq<string>): IndexState
  {
    if lines == [] then EmptyIndex() else IndexStep(IndexRun(lines[..|lines| - 1]), lines[|lines| - 1])
  }

  /** `parseCategoryIndex` once the file is read: the loop over the index lines. */
  method ParseCategoryIndex(content: string) returns (categories: set<string>, fileMap: map<string, string>)
    ensures categories == IndexRun(IndexLines(content)).categories
    ensures fileMap == IndexRun(IndexLines(content)).fileMap
  {
    var lines := IndexLines(content);
    categories := {};
    fileMap := map[];
    var current: Option<string> := None;
    var i := 0;
    while i < |lines|
      invariant 0 <= i <= |lines|
      invariant IndexState(categories, fileMap, current) == IndexRun(lines[..i])
    {
      assert lines[..i + 1][..i] == lines[..i];
      var line := lines[i];
      var header := HeaderName(line);
      if header.Some? {
        current := header;
        categories := categories + {header.value};
      } else {
        var entry := EntryFile(line);
        if entry.Some? && current.Some? && current.value != "" {
          fileMap := fileMap[entry.value := current.value];
        }
      }
      i := i + 1;
    }
    assert lines[..|lines|] == lines;
  }

  /** What the index loop keeps: every mapped category is a non-empty member of the set, and
      the open category is a member too. */
  ghost predicate IndexInv(st: IndexState) {
    && (forall f :: f in st.fileMap ==> st.fileMap[f] in st.categories && st.fileMap[f] != "")
    && (st.current.Some? ==> st.current.value in st.categories)
  }

  lemma IndexStepInv(st: IndexState, line: string)
    requires IndexInv(st)
    ensures IndexInv(IndexStep(st, line))
  {
  }

  /** After any lines, every file maps to a non-empty category that was added to the set. */
  lemma {:induction false} IndexRunInv(lines: seq<string>)
    ensures IndexInv(IndexRun(lines))
  {
    if lines != [] {
      IndexRunInv(lines[..|lines| - 1]);
      IndexStepInv(IndexRun(lines[..|lines| - 1]), lines[|lines| - 1]);
    }
  }

  /** Entries before the first header map nothing: without any header line there is no
      category and no mapping. */
  lemma {:induction false} NoHeaderNoMapping(lines: seq<string>)
    requires forall k :: 0 <= k < |lines| ==> HeaderName(lines[k]).None?
    ensures IndexRun(lines) == EmptyIndex()
  {
    if lines != [] {
      NoHeaderNoMapping(lines[..|lines| - 1]);
    }
  }

  /** A later entry for a file overwrites the earlier one: after an entry line under a
      non-empty open category, the file maps to that category and every other file keeps its
      category. */
  lemma EntryOverwrites(lines: seq<string>, line: string, file: string)
    requires HeaderName(line).None? && EntryFile(line) == Some(file) && Truthy(IndexRun(lines).current)
    ensures IndexRun(lines + [line]).fileMap[file] == IndexRun(lines).current.value
    ensures forall g :: g in IndexRun(lines).fileMap && g != file ==>
      g in IndexRun(lines + [line]).fileMap && IndexRun(lines + [line]).fileMap[g] == IndexRun(lines).fileMap[g]
  {
    assert (lines + [line])[..|lines|] == lines;
  }

  /** A header line opens its category and adds it to the set. */
  lemma HeaderOpens(lines: seq<string>, line: string, name: string)
    requires HeaderName(line) == Some(name)
    ensures IndexRun(lines + [line]).current == Some(name)
    ensures IndexRun(lines + [line]).categories == IndexRun(lines).categories + {name}
    ensures IndexRun(lines + [line]).fileMap == IndexRun(lines).fileMap
  {
    assert (lines + [line])[..|lines|] == lines;
  }

  /** A whitespace run stops at the first non-whitespace character. */
  lemma SpacesStopAt(s: string, p: nat, k: nat)
    requires p <= k < |s| && !IsJsSpace(s[k])
    ensures p + SpacesFrom(s, p) <= k
  {
  }

  /** The lazy name can grow over position `p - 1`, and `\s+\(` does not match at `p`. */
  predicate HeaderGrows(line: string, p: nat) {
    1 <= p <= |line| && !IsLineTerminator(line[p - 1]) && !HeaderTail(line, p)
  }

  lemma {:induction false} HeaderLazySkips(line: string, g: nat, t: nat, w: nat)
    requires 1 <= t <= w && g + w <= |line|
    requires forall p :: g + t <= p < g + w ==> HeaderGrows(line, p)
    ensures HeaderLazy(line, g, t) == HeaderLazy(line, g, w)
    decreases w - t
  {
    if t < w {
      assert HeaderGrows(line, g + t);
      HeaderLazySkips(line, g, t + 1, w);
    }
  }

  /** `#### Name (...)`: the header names its category. The name is non-empty, has no `(` and
      no line terminator, and starts and ends with a non-space character. */
  lemma HeaderOfLine(line: string, w: nat)
    requires 6 + w < |line| && w >= 1 && At(line, 0, "####") && line[4] == ' '
    requires forall k :: 5 <= k < 5 + w ==> line[k] != '(' && !IsLineTerminator(line[k])
    requires !IsJsSpace(line[5]) && !IsJsSpace(line[4 + w])
    requires line[5 + w] == ' ' && line[6 + w] == '('
    ensures HeaderName(line) == Some(line[5..5 + w])
  {
    SpacesExactly(line, 4, 1);
    forall p | 6 <= p < 5 + w
      ensures HeaderGrows(line, p)
    {
      SpacesStopAt(line, p, 4 + w);
    }
    HeaderLazySkips(line, 5, 1, w);
    SpacesExactly(line, 5 + w, 1);
    assert HeaderTail(line, 5 + w);
    assert HeaderRuns(line, 1) == Some((1, w));
    TrimIdentity(Js, line[5..5 + w]);
  }

  lemma {:induction false} FileEndSkips(line: string, q: nat, k: nat, e: nat)
    requires q < k <= e < |line|
    requires forall j :: k <= j < e ==> line[j] != ')'
    requires forall j :: k - 1 <= j < e - 1 ==> !IsLineTerminator(line[j])
    ensures FileEnd(line, q, k) == FileEnd(line, q, e)
    decreases e - k
  {
    if k < e {
      FileEndSkips(line, q, k + 1, e);
    }
  }

  lemma {:induction false} EntryLazySkips(line: string, t: nat, a: nat)
    requires 1 <= t <= a && 3 + a <= |line|
    requires forall p :: 3 + t <= p < 3 + a ==> !IsLineTerminator(line[p - 1]) && !At(line, p, "](./")
    ensures EntryLazy(line, t) == EntryLazy(line, a)
    decreases a - t
  {
    if t < a {
      assert !IsLineTerminator(line[3 + t - 1]) && !At(line, 3 + t, "](./");
      EntryLazySkips(line, t + 1, a);
    }
  }

  /** `- [Label](./file)`: the entry names its file. The label is non-empty with no `]` and no
      line terminator; the file name is non-empty with no `)` and no line terminator. */
  lemma EntryOfLine(line: string, a: nat, f: nat)
    requires a >= 1 && f >= 1 && 7 + a + f < |line| && At(line, 0, "- [")
    requires forall k :: 3 <= k < 3 + a ==> line[k] != ']' && !IsLineTerminator(line[k])
    requires At(line, 3 + a, "](./")
    requires forall k :: 7 + a <= k < 7 + a + f ==> line[k] != ')' && !IsLineTerminator(line[k])
    requires line[7 + a + f] == ')'
    ensures EntryFile(line) == Some(line[7 + a..7 + a + f])
  {
    forall p | 4 <= p < 3 + a
      ensures !IsLineTerminator(line[p - 1]) && !At(line, p, "](./")
    {
      assert line[p + 0] != "](./"[0];
    }
    EntryLazySkips(line, 1, a);
    var q := 7 + a;
    FileEndSkips(line, q, q + 1, q + f);
    assert FileEnd(line, q, q + f) == Some(q + f);
    assert EntryLazy(line, a) == Some((q, q + f));
  }

  // ================================================================ ingestGraphPermissionDocs

  /** The fallback category for pages the index does not list. */
  function Fallback(): string { "Uncategorized" }

  /** The loop skips every name that does not end in `.md` and the index `README.md` in any
      case. */
  predicate IsPermissionFile(file: string) {
    EndsWith(file, ".md") && Lower(file) != "readme.md"
  }

  /** `permissionCategoryMap.get(file) || "Uncategorized"`. */
  function CategoryFor(fileMap: map<string, string>, file: string): string
  {
    StrOr(if file in fileMap then Some(fileMap[file]) else None, Fallback())
  }

  /** What one processed page is stored as: its file, its category and the parsed page. */
  datatype Stored = Stored(file: string, category: string, doc: PermissionDoc)

  /** The counters `ingestGraphPermissionDocs` returns. */
  datatype IngestStats = IngestStats(
    categoriesUpserted: nat,
    permissionsProcessed: nat,
    endpointsProcessed: nat,
    examplesProcessed: nat)

  /** The pages stored for a directory listing, in listing order; `read` gives each file's text. */
  function StoredRun(fileMap: map<string, string>, files: seq<string>, read: string -> string): (r: seq<Stored>)
    ensures |r| <= |files|
  {
    if files == [] then []
    else
      var prev := StoredRun(fileMap, files[..|files| - 1], read);
      var file := files[|files| - 1];
      if IsPermissionFile(file) then prev + [Stored(file, CategoryFor(fileMap, file), DocumentOf(read(file)))]
      else prev
  }

  /** The total number of endpoints, and of examples, of the stored pages. */
  function EndpointTotal(stored: seq<Stored>): nat
  {
    if stored == [] then 0 else EndpointTotal(stored[..|stored| - 1]) + |stored[|stored| - 1].doc.endpoints|
  }

  function ExampleTotal(stored: seq<Stored>): nat
  {
    if stored == [] then 0 else ExampleTotal(stored[..|stored| - 1]) + |stored[|stored| - 1].doc.examples|
  }

  /** The category upsert loop: every category is upserted once and counted. */
  method UpsertCategories(categories: set<string>) returns (upserted: set<string>, count: nat)
    ensures upserted == categories && count == |categories|
  {
    var remaining := categories;
    upserted := {};
    count := 0;
    while remaining != {}
      invariant remaining <= categories && upserted == categories - remaining
      invariant count == |upserted|
      decreases |remaining|
    {
      var name :| name in remaining;
      upserted := upserted + {name};
      remaining := remaining - {name};
      count := count + 1;
    }
  }

  /** The file loop: each permission file of the listing is parsed and stored under its
      category, and the counters grow by one page and by its endpoints and examples. */
  method StoreFiles(fileMap: map<string, string>, files: seq<string>, read: string -> string)
    returns (stored: seq<Stored>, permissionsProcessed: nat, endpointsProcessed: nat, examplesProcessed: nat)
    ensures stored == StoredRun(fileMap, files, read)
    ensures permissionsProcessed == |stored|
    ensures endpointsProcessed == EndpointTotal(stored) && examplesProcessed == ExampleTotal(stored)
  {
    stored := [];
    permissionsProcessed, endpointsProcessed, examplesProcessed := 0, 0, 0;
    var i := 0;
    while i < |files|
      invariant 0 <= i <= |files|
      invariant stored == StoredRun(fileMap, files[..i], read)
      invariant permissionsProcessed == |stored|
      invariant endpointsProcessed == EndpointTotal(stored) && examplesProcessed == ExampleTotal(stored)
    {
      assert files[..i + 1][..i] == files[..i];
      var file := files[i];
      if IsPermissionFile(file) {
        var parsed := ParsePermissionDocument(read(file));
        var entry := Stored(file, CategoryFor(fileMap, file), parsed);
        assert (stored + [entry])[..|stored|] == stored;
        stored := stored + [entry];
        permissionsProcessed := permissionsProcessed + 1;
        endpointsProcessed := endpointsProcessed + |parsed.endpoints|;
        examplesProcessed := examplesProcessed + |parsed.examples|;
      }
      i := i + 1;
    }
    assert files[..|files|] == files;
  }

  /** `ingestGraphPermissionDocs` once the index text, the directory listing and the file
      reader are given: it upserts every category of the index plus the fallback, then stores
      each permission page under its category, counting what it stored. The endpoint and
      example counts are those of the parsed pages. */
  method IngestGraphPermissionDocs(index: string, files: seq<string>, read: string -> string)
    returns (stats: IngestStats, upserted: set<string>, stored: seq<Stored>)
    ensures upserted == IndexRun(IndexLines(index)).categories + {Fallback()}
    ensures stored == StoredRun(IndexRun(IndexLines(index)).fileMap, files, read)
    ensures stats == IngestStats(|upserted|, |stored|, EndpointTotal(stored), ExampleTotal(stored))
  {
    var categories, fileMap := ParseCategoryIndex(index);
    var categoriesUpserted;
    upserted, categoriesUpserted := UpsertCategories(categories + {Fallback()});
    var permissionsProcessed, endpointsProcessed, examplesProcessed;
    stored, permissionsProcessed, endpointsProcessed, examplesProcessed := StoreFiles(fileMap, files, read);
    stats := IngestStats(categoriesUpserted, permissionsProcessed, endpointsProcessed, examplesProcessed);
  }

  /** Every stored page comes from a permission file of the listing, and is filed under the
      index's category for it, or under the fallback when the index has none. */
  lemma {:induction false} StoredPages(fileMap: map<string, string>, files: seq<string>, read: string -> string)
    ensures forall x :: x in StoredRun(fileMap, files, read) ==>
      x.file in files && IsPermissionFile(x.file) && x.category == CategoryFor(fileMap, x.file)
  {
    if files != [] {
      StoredPages(fileMap, files[..|files| - 1], read);
      var file := files[|files| - 1];
      assert file in files;
      forall x | x in StoredRun(fileMap, files[..|files| - 1], read)
        ensures x.file in files
      {
        assert x.file in files[..|files| - 1];
      }
    }
  }

  /** The pages stored for a listing include those stored for any prefix of it, and a last
      file that is a permission file is stored too. */
  lemma StoredRunSnoc(fileMap: map<string, string>, files: seq<string>, read: string -> string)
    requires files != []
    ensures forall x :: x in StoredRun(fileMap, files[..|files| - 1], read) ==> x in StoredRun(fileMap, files, read)
    ensures IsPermissionFile(files[|files| - 1]) ==>
      exists x :: x in StoredRun(fileMap, files, read) && x.file == files[|files| - 1]
  {
    var r := StoredRun(fileMap, files, read);
    var prev := StoredRun(fileMap, files[..|files| - 1], read);
    if IsPermissionFile(files[|files| - 1]) {
      assert r == prev + [r[|r| - 1]] && r[|r| - 1].file == files[|files| - 1];
      assert r[|r| - 1] in r;
    }
  }

  /** Every permission file of the listing is stored. */
  lemma {:induction false} PermissionFilesStored(fileMap: map<string, string>, files: seq<string>, read: string -> string)
    ensures forall k :: 0 <= k < |files| && IsPermissionFile(files[k]) ==>
      exists x :: x in StoredRun(fileMap, files, read) && x.file == files[k]
  {
    if files != [] {
      var init := files[..|files| - 1];
      PermissionFilesStored(fileMap, init, read);
      StoredRunSnoc(fileMap, files, read);
      forall k | 0 <= k < |files| && IsPermissionFile(files[k])
        ensures exists x :: x in StoredRun(fileMap, files, read) && x.file == files[k]
      {
        if k < |init| {
          assert files[k] == init[k];
          var x :| x in StoredRun(fileMap, init, read) && x.file == init[k];
          assert x in StoredRun(fileMap, files, read);
        }
      }
    }
  }

  /** The category of a page is always one of the upserted categories, so its category id is
      always found; a page the index does not list goes to "Uncategorized". */
  lemma StoredCategoriesUpserted(index: string, files: seq<string>, read: string -> string)
    ensures var st := IndexRun(IndexLines(index));
      forall x :: x in StoredRun(st.fileMap, files, read) ==>
        x.category in st.categories + {Fallback()} && (x.file !in st.fileMap ==> x.category == Fallback())
  {
    var st := IndexRun(IndexLines(index));
    IndexRunInv(IndexLines(index));
    StoredPages(st.fileMap, files, read);
  }
}
