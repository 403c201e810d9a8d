/** Linking meeting-summary emails to meetings (server/services/meetingEmailLink.ts): a tiered
    classifier over three families of patterns, a title extractor, a word-overlap title
    similarity, a best-candidate selection with a two-condition threshold, the per-email link
    decision and the batch counters. The regular expressions of the pattern families are
    parameters (tests on text); confidences and scores are real numbers; times are
    milliseconds. */
module MeetingEmailLink {
  import opened Basics
  import opened MarkdownPatterns

  // ================================================================ detectMeetingSummaryType

  /** One regular expression of a pattern family, as its `test` on a text. */
  type Test = string -> bool

  /** `OTTER_PATTERNS`, `MS_RECAP_PATTERNS` and `GENERIC_SUMMARY_PATTERNS`. */
  datatype Families = Families(otter: seq<Test>, msRecap: seq<Test>, generic: seq<Test>)

  /** `patterns.some(p => p.test(text))`. */
  predicate AnyMatch(tests: seq<Test>, text: string) {
    tests != [] && (tests[0](text) || AnyMatch(tests[1..], text))
  }

  /** `patterns.filter(p => p.test(text)).length`. */
  function MatchCount(tests: seq<Test>, text: string): (n: nat)
    ensures n <= |tests|
    ensures n > 0 <==> AnyMatch(tests, text)
  {
    if tests == [] then 0
    else
      var rest := MatchCount(tests[1..], text);
      if tests[0](text) then 1 + rest else rest
  }

  /** The stored email fields the linker reads. A missing `to` or `cc` list is empty. */
  datatype Email = Email(
    id: string,
    subject: Option<string>,
    from: Option<string>,
    body: Option<string>,
    to: seq<string>,
    cc: seq<string>,
    receivedAt: int,
    linkedMeetingId: Option<string>,
    linkType: Option<string>,
    linkConfidence: Option<real>)

  /** The three link types. */
  datatype LinkKind = OtterSummary | MsRecap | MeetingNotes

  function KindName(k: LinkKind): string {
    match k
    case OtterSummary => "otter_summary"
    case MsRecap => "ms_recap"
    case MeetingNotes => "meeting_notes"
  }

  datatype Detection = Detection(isMeetingSummary: bool, linkType: Option<LinkKind>, confidence: real)

  /** The number of body characters the classifier looks at. */
  const BodyWindow: nat := 5000

  /** The text the classifier reads: subject, sender and the start of the body. */
  function SubjectOf(e: Email): string { StrOr(e.subject, "") }
  function FromOf(e: Email): string { StrOr(e.from, "") }
  function BodyHead(e: Email, n: nat): string { Prefix(StrOr(e.body, ""), n) }

  /** `detectMeetingSummaryType(email)`: the Otter family first (sender or subject 0.95, body
      0.85), then the Microsoft recap family (0.9, 0.8), then the generic ladder on the number
      of generic patterns matched (two in the subject 0.75, one 0.65, three in the body 0.6,
      two 0.5); otherwise not a summary. */
  function DetectMeetingSummaryType(f: Families, email: Email): (d: Detection)
    ensures d.isMeetingSummary <==> d.linkType.Some?
    ensures d.linkType.Some? <==> d.confidence > 0.0
    ensures 0.0 <= d.confidence < 1.0
  {
    var subject := SubjectOf(email);
    var from := FromOf(email);
    var head := BodyHead(email, BodyWindow);
    if AnyMatch(f.otter, from) || AnyMatch(f.otter, subject) then Detection(true, Some(OtterSummary), 0.95)
    else if AnyMatch(f.otter, head) then Detection(true, Some(OtterSummary), 0.85)
    else if AnyMatch(f.msRecap, from) || AnyMatch(f.msRecap, subject) then Detection(true, Some(MsRecap), 0.9)
    else if AnyMatch(f.msRecap, head) then Detection(true, Some(MsRecap), 0.8)
    else
      var subjectMatches := MatchCount(f.generic, subject);
      var bodyMatches := MatchCount(f.generic, head);
      if subjectMatches >= 2 then Detection(true, Some(MeetingNotes), 0.75)
      else if subjectMatches >= 1 then Detection(true, Some(MeetingNotes), 0.65)
      else if bodyMatches >= 3 then Detection(true, Some(MeetingNotes), 0.6)
      else if bodyMatches >= 2 then Detection(true, Some(MeetingNotes), 0.5)
      else Detection(false, None, 0.0)
  }

  /** The Otter family decides first: an Otter summary exactly when an Otter pattern matches the
      sender, the subject or the start of the body, with the higher confidence when the match
      is in the sender or subject. */
  lemma OtterDecidesFirst(f: Families, email: Email)
    ensures var d := DetectMeetingSummaryType(f, email);
      d.linkType == Some(OtterSummary) <==>
        AnyMatch(f.otter, FromOf(email)) || AnyMatch(f.otter, SubjectOf(email)) || AnyMatch(f.otter, BodyHead(email, BodyWindow))
    ensures var d := DetectMeetingSummaryType(f, email);
      d.linkType == Some(OtterSummary) ==>
        (d.confidence == 0.95 <==> AnyMatch(f.otter, FromOf(email)) || AnyMatch(f.otter, SubjectOf(email)))
  {
  }

  /** A Microsoft recap only when no Otter pattern matched and a recap pattern did. */
  lemma RecapOnlyWithoutOtter(f: Families, email: Email)
    ensures var d := DetectMeetingSummaryType(f, email);
      d.linkType == Some(MsRecap) <==>
        && !(AnyMatch(f.otter, FromOf(email)) || AnyMatch(f.otter, SubjectOf(email)) || AnyMatch(f.otter, BodyHead(email, BodyWindow)))
        && (AnyMatch(f.msRecap, FromOf(email)) || AnyMatch(f.msRecap, SubjectOf(email)) || AnyMatch(f.msRecap, BodyHead(email, BodyWindow)))
  {
  }

  /** Meeting notes only when neither specific family matched and the generic ladder fires:
      at least one generic pattern in the subject or at least two in the start of the body. */
  lemma GenericLadder(f: Families, email: Email)
    ensures var d := DetectMeetingSummaryType(f, email);
      var specific := AnyMatch(f.otter, FromOf(email)) || AnyMatch(f.otter, SubjectOf(email)) || AnyMatch(f.otter, BodyHead(email, BodyWindow))
        || AnyMatch(f.msRecap, FromOf(email)) || AnyMatch(f.msRecap, SubjectOf(email)) || AnyMatch(f.msRecap, BodyHead(email, BodyWindow));
      d.linkType == Some(MeetingNotes) <==>
        !specific && (MatchCount(f.generic, SubjectOf(email)) >= 1 || MatchCount(f.generic, BodyHead(email, BodyWindow)) >= 2)
  {
  }

  /** Only the first 5000 body characters matter: two emails that agree on sender, subject and
      those characters are classified alike. */
  lemma OnlyBodyHeadMatters(f: Families, e1: Email, e2: Email)
    requires FromOf(e1) == FromOf(e2) && SubjectOf(e1) == SubjectOf(e2)
    requires BodyHead(e1, BodyWindow) == BodyHead(e2, BodyWindow)
    ensures DetectMeetingSummaryType(f, e1) == DetectMeetingSummaryType(f, e2)
  {
  }

  // ================================================================ extractMeetingTitleFromEmail

  /** One title pattern, as the text of its first capture group when it matches. */
  type Capture = string -> Option<string>

  /** The number of body characters the title patterns look at. */
  const TitleWindow: nat := 1000

  /** The pattern loop: for each pattern in order, the subject and then the start of the body;
      the first capture found, trimmed. */
  function TitleFromPatterns(patterns: seq<Capture>, subject: string, head: string): (r: Option<string>)
    ensures r.Some? ==> r.value == [] || (!IsJsSpace(r.value[0]) && !IsJsSpace(r.value[|r.value| - 1]))
  {
    if patterns == [] then None
    else match patterns[0](subject)
      case Some(c) => TrimEdges(Js, c); Some(Trim(Js, c))
      case None =>
        match patterns[0](head)
        case Some(c) => TrimEdges(Js, c); Some(Trim(Js, c))
        case None => TitleFromPatterns(patterns[1..], subject, head)
  }

  /** The first pattern that captures anything, in the subject or the body, decides, and for
      that pattern the subject is read before the body. */
  lemma {:induction false} FirstPatternDecides(patterns: seq<Capture>, subject: string, head: string, k: nat)
    requires k < |patterns|
    requires forall j :: 0 <= j < k ==> patterns[j](subject).None? && patterns[j](head).None?
    requires patterns[k](subject).Some? || patterns[k](head).Some?
    ensures TitleFromPatterns(patterns, subject, head)
      == if patterns[k](subject).Some? then Some(Trim(Js, patterns[k](subject).value))
         else Some(Trim(Js, patterns[k](head).value))
  {
    if k > 0 {
      FirstPatternDecides(patterns[1..], subject, head, k - 1);
    }
  }

  /** When no pattern captures anything there is no title from the patterns. */
  lemma {:induction false} NoPatternNoTitle(patterns: seq<Capture>, subject: string, head: string)
    requires forall j :: 0 <= j < |patterns| ==> patterns[j](subject).None? && patterns[j](head).None?
    ensures TitleFromPatterns(patterns, subject, head) == None
  {
    if patterns != [] {
      NoPatternNoTitle(patterns[1..], subject, head);
    }
  }

  /** The first position at or after `i` where `key` occurs, ignoring case. */
  function FindIgnoreCase(s: string, key: string, i: nat): (j: Option<nat>)
    requires i <= |s|
    ensures j.Some? ==> i <= j.value && AtIgnoreCase(s, j.value, key)
    decreases |s| - i
  {
    if AtIgnoreCase(s, i, key) then Some(i)
    else if i == |s| then None
    else FindIgnoreCase(s, key, i + 1)
  }

  /** `s.replace(/key/i, "")`: the first occurrence, ignoring case, removed. */
  function RemoveFirstIgnoreCase(s: string, key: string): (r: string)
    ensures |r| <= |s|
  {
    match FindIgnoreCase(s, key, 0)
    case None => s
    case Some(j) => s[..j] + s[j + |key|..]
  }

  /** The dashes of `[-–—]`. */
  predicate IsDash(c: char) { c == '-' || c == '–' || c == '—' }

  /** `.replace(/meeting notes from/i, "").replace(/otter\.ai/i, "")`. */
  function WithoutOtterWords(subject: string): string
  {
    RemoveFirstIgnoreCase(RemoveFirstIgnoreCase(subject, "meeting notes from"), "otter.ai")
  }

  /** `.replace(/[-–—]/g, " ").trim()`: no dash is left. */
  function DashesToSpacesTrimmed(u: string): (r: string)
    ensures forall k :: 0 <= k < |r| ==> !IsDash(r[k])
  {
    var v := MapChars(u, IsDash, ' ');
    var r := Trim(Js, v);
    TrimIsSlice(Js, v);
    var i, j :| 0 <= i <= j <= |v| && r == v[i..j];
    assert forall k :: 0 <= k < |r| ==> r[k] == v[i + k];
    r
  }

  /** The cleaned subject of the Otter fallback: "meeting notes from" and "otter.ai" removed
      once each (ignoring case), dashes turned into spaces, trimmed. */
  function CleanOtterSubject(subject: string): (r: string)
    ensures forall k :: 0 <= k < |r| ==> !IsDash(r[k])
  {
    DashesToSpacesTrimmed(WithoutOtterWords(subject))
  }

  /** `extractMeetingTitleFromEmail(email, linkType)`: the first capture of the title patterns;
      failing that, for an Otter summary, the cleaned subject when it is longer than three
      characters; otherwise `None`. */
  function ExtractMeetingTitleFromEmail(patterns: seq<Capture>, email: Email, linkType: string): (r: Option<string>)
    ensures TitleFromPatterns(patterns, SubjectOf(email), BodyHead(email, TitleWindow)).Some? ==>
      r == TitleFromPatterns(patterns, SubjectOf(email), BodyHead(email, TitleWindow))
    ensures r.Some? && TitleFromPatterns(patterns, SubjectOf(email), BodyHead(email, TitleWindow)).None? ==>
      linkType == "otter_summary" && |r.value| > 3 && r.value == CleanOtterSubject(SubjectOf(email))
  {
    var found := TitleFromPatterns(patterns, SubjectOf(email), BodyHead(email, TitleWindow));
    if found.Some? then found
    else if linkType == "otter_summary" then
      var clean := CleanOtterSubject(SubjectOf(email));
      if |clean| > 3 then Some(clean) else None
    else None
  }

  // ================================================================ calculateTitleSimilarity

  /** The characters `normalize` keeps: `[a-z0-9\s]`. */
  predicate IsKept(c: char) { ('a' <= c <= 'z') || IsDigit(c) || IsJsSpace(c) }

  /** `normalize(s)`: lower-cased, every character outside `[a-z0-9\s]` removed, trimmed. */
  function Normalize(s: string): (r: string)
    ensures forall k :: 0 <= k < |r| ==> IsKept(r[k])
  {
    var u := FilterChars(Lower(s), IsKept);
    var r := Trim(Js, u);
    TrimIsSlice(Js, u);
    var i, j :| 0 <= i <= j <= |u| && r == u[i..j];
    assert forall k :: 0 <= k < |r| ==> r[k] == u[i + k];
    r
  }

  /** The length of the run of non-whitespace characters at the start of `s`. */
  function WordLength(s: string): (n: nat)
    ensures n <= |s|
    ensures forall k :: 0 <= k < n ==> !IsJsSpace(s[k])
  {
    if s == [] || IsJsSpace(s[0]) then 0 else 1 + WordLength(s[1..])
  }

  /** `t.split(/\s+/)` without its empty pieces: the maximal runs of non-whitespace. (The empty
      pieces are dropped by the length filter that follows in any case.) */
  function Words(s: string): (ws: seq<string>)
    ensures forall k :: 0 <= k < |ws| ==> ws[k] != []
    decreases |s|
  {
    if s == [] then []
    else if IsJsSpace(s[0]) then Words(s[1..])
    else
      var n := WordLength(s);
      [s[..n]] + Words(s[n..])
  }

  predicate IsLongWord(w: string) { |w| > 2 }

  /** `t.split(/\s+/).filter(w => w.length > 2)`. */
  function LongWords(t: string): (ws: seq<string>)
    ensures forall w :: w in ws ==> |w| > 2
  {
    Filter(Words(t), IsLongWord)
  }

  /** `words1.filter(w => words2.includes(w)).length`: words of the first list found in the
      second, each occurrence in the first list counted. */
  function CommonCount(words1: seq<string>, words2: seq<string>): (n: nat)
    ensures n <= |words1|
  {
    if words1 == [] then 0
    else (if words1[0] in words2 then 1 else 0) + CommonCount(words1[1..], words2)
  }

  /** Twice the common words (counted from the first list) over the total word count. */
  function CommonWordRatio(words1: seq<string>, words2: seq<string>): (r: real)
    requires words1 != [] && words2 != []
    ensures 0.0 <= r < 2.0
  {
    var c, n := CommonCount(words1, words2), |words1| + |words2|;
    assert (2 * c) as real < 2.0 * n as real;
    (2 * c) as real / n as real
  }

  /** `calculateTitleSimilarity(title1, title2)` as written: 1 for equal normalised titles, 0.9
      when one contains the other, 0 when either has no word longer than two characters, and
      otherwise the common-word ratio. */
  function TitleSimilarityAsWritten(title1: string, title2: string): (r: real)
    ensures 0.0 <= r < 2.0
  {
    var t1 := Normalize(title1);
    var t2 := Normalize(title2);
    if t1 == t2 then 1.0
    else if Contains(t1, t2) || Contains(t2, t1) then 0.9
    else
      var words1 := LongWords(t1);
      var words2 := LongWords(t2);
      if |words1| == 0 || |words2| == 0 then 0.0
      else CommonWordRatio(words1, words2)
  }

  /** A word, a space and the rest split into that word and the words of the rest. */
  lemma WordsCons(w: string, rest: string)
    requires w != [] && forall k :: 0 <= k < |w| ==> !IsJsSpace(w[k])
    ensures Words(w + " " + rest) == [w] + Words(rest)
  {
    var s := w + " " + rest;
    WordLengthOf(w, " " + rest);
    assert s == w + (" " + rest);
    assert s[..|w|] == w;
    assert s[|w|..] == " " + rest;
    assert IsJsSpace((" " + rest)[0]);
    assert (" " + rest)[1..] == rest;
    assert Words(" " + rest) == Words(rest);
  }

  lemma {:induction false} WordLengthOf(w: string, rest: string)
    requires forall k :: 0 <= k < |w| ==> !IsJsSpace(w[k])
    requires rest != [] && IsJsSpace(rest[0])
    ensures WordLength(w + rest) == |w|
    decreases |w|
  {
    if w != [] {
      assert (w + rest)[1..] == w[1..] + rest;
      WordLengthOf(w[1..], rest);
    }
  }

  /** A single word is its only word. */
  lemma WordsOne(w: string)
    requires w != [] && forall k :: 0 <= k < |w| ==> !IsJsSpace(w[k])
    ensures Words(w) == [w]
  {
    WordLengthOf(w, " ");
    assert (w + " ")[..|w|] == w;
    WordsCons(w, "");
    assert Words(w + " ") == [w];
    WordLengthAll(w);
    assert w[..|w|] == w;
    assert w[|w|..] == [];
  }

  lemma {:induction false} WordLengthAll(w: string)
    requires forall k :: 0 <= k < |w| ==> !IsJsSpace(w[k])
    ensures WordLength(w) == |w|
  {
    if w != [] {
      WordLengthAll(w[1..]);
    }
  }

  /** Filtering a list whose elements all pass changes nothing. */
  lemma {:induction false} FilterAllPass(ws: seq<string>)
    requires forall k :: 0 <= k < |ws| ==> IsLongWord(ws[k])
    ensures Filter(ws, IsLongWord) == ws
  {
    if ws != [] {
      FilterAllPass(ws[1..]);
      assert [ws[0]] + ws[1..] == ws;
    }
  }

  /** A word of at least three lower-case letters or digits. */
  predicate PlainWord(w: string) {
    |w| >= 3 && forall k :: 0 <= k < |w| ==> ('a' <= w[k] <= 'z') || IsDigit(w[k])
  }

  predicate PlainWords(ws: seq<string>) {
    forall k :: 0 <= k < |ws| ==> PlainWord(ws[k])
  }

  /** Plain words joined by single spaces split back into the same words. */
  lemma {:induction false} WordsOfJoin(ws: seq<string>)
    requires ws != [] && PlainWords(ws)
    ensures Words(Join(ws, " ")) == ws
  {
    if |ws| == 1 {
      WordsOne(ws[0]);
    } else {
      WordsOfJoin(ws[1..]);
      WordsCons(ws[0], Join(ws[1..], " "));
      assert [ws[0]] + ws[1..] == ws;
    }
  }

  /** Plain words joined by single spaces: letters, digits and inner spaces only. */
  lemma {:induction false} JoinIsPlain(ws: seq<string>)
    requires ws != [] && PlainWords(ws)
    ensures var t := Join(ws, " ");
      && t != [] && t[0] != ' ' && t[|t| - 1] != ' '
      && forall k :: 0 <= k < |t| ==> ('a' <= t[k] <= 'z') || IsDigit(t[k]) || t[k] == ' '
  {
    if |ws| > 1 {
      JoinIsPlain(ws[1..]);
      var t := Join(ws, " ");
      var rest := Join(ws[1..], " ");
      assert t == ws[0] + " " + rest;
      forall k | 0 <= k < |t|
        ensures ('a' <= t[k] <= 'z') || IsDigit(t[k]) || t[k] == ' '
      {
        if k < |ws[0]| {
          assert t[k] == ws[0][k];
        } else if k > |ws[0]| {
          assert t[k] == rest[k - |ws[0]| - 1];
        }
      }
    }
  }

  /** A character that is not a space and occurs in none of the words does not occur in their
      join. */
  lemma {:induction false} JoinAvoids(ws: seq<string>, c: char)
    requires c != ' ' && forall k :: 0 <= k < |ws| ==> c !in ws[k]
    ensures c !in Join(ws, " ")
  {
    if |ws| > 1 {
      JoinAvoids(ws[1..], c);
    }
  }

  /** The normalised text and the long words of plain words joined by spaces. */
  lemma PlainTitle(ws: seq<string>)
    requires ws != [] && PlainWords(ws)
    ensures Normalize(Join(ws, " ")) == Join(ws, " ")
    ensures LongWords(Join(ws, " ")) == ws
  {
    JoinIsPlain(ws);
    NormalizeIdentity(Join(ws, " "));
    WordsOfJoin(ws);
    FilterAllPass(ws);
  }

  /** Two normalised titles neither of which contains the other, both with long words, are
      compared by the common-word ratio. */
  lemma SimilarityByWords(t1: string, t2: string)
    requires Normalize(t1) == t1 && Normalize(t2) == t2
    requires !Contains(t1, t2) && !Contains(t2, t1)
    requires LongWords(t1) != [] && LongWords(t2) != []
    ensures TitleSimilarityAsWritten(t1, t2) == CommonWordRatio(LongWords(t1), LongWords(t2))
  {
    ContainsSelf(t1);
  }

  /** Four `a` and a `b` against `a` and `c`: four common words out of seven. */
  lemma RepeatedWordCount(a: string, b: string, c: string)
    requires a != c && b != a && b != c
    ensures CommonWordRatio([a, a, a, a, b], [a, c]) == 8.0 / 7.0
  {
    var ws2 := [a, c];
    assert b !in ws2;
    assert CommonCount([b], ws2) == 1 + CommonCount([], ws2) - 1;
    assert CommonCount([a, b], ws2) == 1 + CommonCount([b], ws2);
    assert CommonCount([a, a, b], ws2) == 1 + CommonCount([a, b], ws2);
    assert CommonCount([a, a, a, b], ws2) == 1 + CommonCount([a, a, b], ws2);
    assert CommonCount([a, a, a, a, b], ws2) == 1 + CommonCount([a, a, a, b], ws2);
  }

  /** For plain words `a`, `b` and `c`, where `c` shares no character with `a` or `b`, and `b`
      none with `a` or `c`, the as-written ratio of "a a a a b" against "a c" is 8/7. */
  lemma RepeatedWordRatio(a: string, b: string, c: string)
    requires PlainWord(a) && PlainWord(b) && PlainWord(c)
    requires c[0] !in a && c[0] !in b && b[0] !in a && b[0] !in c
    ensures TitleSimilarityAsWritten(Join([a, a, a, a, b], " "), Join([a, c], " ")) == 8.0 / 7.0
  {
    var ws1, ws2 := [a, a, a, a, b], [a, c];
    var t1, t2 := Join(ws1, " "), Join(ws2, " ");
    PlainTitle(ws1);
    PlainTitle(ws2);
    JoinAvoids(ws1, c[0]);
    JoinAvoids(ws2, b[0]);
    JoinHas(ws2, 1);
    JoinHas(ws1, 4);
    MissingCharNotContainedIn(t1, t2, c[0]);
    MissingCharNotContainedIn(t2, t1, b[0]);
    SimilarityByWords(t1, t2);
    assert a != c && b != a && b != c;
    RepeatedWordCount(a, b, c);
  }

  /** The first character of every word occurs in the join. */
  lemma {:induction false} JoinHas(ws: seq<string>, k: nat)
    requires k < |ws| && ws[k] != []
    ensures ws[k][0] in Join(ws, " ")
  {
    if |ws| > 1 {
      if k == 0 {
        assert Join(ws, " ")[0] == ws[0][0];
      } else {
        JoinHas(ws[1..], k - 1);
        var rest := Join(ws[1..], " ");
        var i :| 0 <= i < |rest| && rest[i] == ws[k][0];
        assert Join(ws, " ")[|ws[0]| + 1 + i] == rest[i];
      }
    } else {
      assert Join(ws, " ") == ws[0];
    }
  }

  /** As written, a repeated word is counted once per repetition in the first title, so the
      ratio can exceed 1: four "abc" and one "xyz" against "abc" and "qqq" give 8/7. */
  lemma SimilarityCanExceedOne()
    ensures TitleSimilarityAsWritten(Join(["abc", "abc", "abc", "abc", "xyz"], " "), Join(["abc", "qqq"], " ")) == 8.0 / 7.0
  {
    RepeatedWordRatio("abc", "xyz", "qqq");
  }

  /** A text lacking a character of `t` does not contain `t`. */
  lemma MissingCharNotContainedIn(s: string, t: string, c: char)
    requires c in t && c !in s
    ensures !Contains(s, t)
  {
    var k :| 0 <= k < |t| && t[k] == c;
    MissingCharNotContained(s, t, k);
  }

  /** A text lacking one of the characters of `t` does not contain `t`. */
  lemma MissingCharNotContained(s: string, t: string, k: nat)
    requires k < |t| && t[k] !in s
    ensures !Contains(s, t)
  {
    if Contains(s, t) {
      ContainsChar(s, t, k);
      assert false;
    }
  }

  /** A text made only of lower-case letters, digits and single inner spaces normalises to
      itself. */
  lemma NormalizeIdentity(t: string)
    requires forall k :: 0 <= k < |t| ==> ('a' <= t[k] <= 'z') || IsDigit(t[k]) || t[k] == ' '
    requires t != [] && t[0] != ' ' && t[|t| - 1] != ' '
    ensures Normalize(t) == t
  {
    assert Lower(t) == t;
    FilterCharsAllKept(t, IsKept);
    TrimIdentity(Js, t);
  }

  /** As written, a title that normalises to the empty text is contained in every text, so it
      scores 0.9 against any title with a letter or digit. */
  lemma EmptyTitleMatchesAnything(title1: string, title2: string)
    requires Normalize(title1) == [] && Normalize(title2) != []
    ensures TitleSimilarityAsWritten(title1, title2) == 0.9
  {
    assert [] <= Normalize(title2);
  }

  /** "!!!" normalises to the empty text. */
  lemma PunctuationNormalizesToEmpty()
    ensures Normalize("!!!") == []
  {
    assert Lower("!!!") == "!!!";
    assert FilterChars("!!!", IsKept) == [];
  }

  /** `"!!!"` against any title with a letter or digit: 0.9, a strong title match. */
  lemma PunctuationTitleMatchesAnything(title: string)
    requires Normalize(title) != []
    ensures TitleSimilarityAsWritten("!!!", title) == 0.9
  {
    PunctuationNormalizesToEmpty();
    EmptyTitleMatchesAnything("!!!", title);
  }

  // ---------------------------------------------------------------- corrected similarity

  /** The Dice coefficient of two word lists: twice the size of their multiset intersection
      over the total word count, so that a repeated word is common at most as often as it
      occurs in both lists. */
  function SharedWordRatio(words1: seq<string>, words2: seq<string>): (r: real)
    requires words1 != [] && words2 != []
    ensures 0.0 <= r <= 1.0
  {
    var c := |multiset(words1) * multiset(words2)|;
    IntersectionBound(multiset(words1), multiset(words2));
    HalfRatioBound(c, |words1|, |words2|);
    (2 * c) as real / (|words1| + |words2|) as real
  }

  /** An intersection is no larger than either side. */
  lemma IntersectionBound(a: multiset<string>, b: multiset<string>)
    ensures |a * b| <= |a| && |a * b| <= |b|
  {
    assert a == (a * b) + (a - b);
    assert b == (a * b) + (b - a);
  }

  /** Twice a count bounded by two positive totals is at most their sum. */
  lemma HalfRatioBound(c: nat, n1: nat, n2: nat)
    requires c <= n1 && c <= n2 && n1 + n2 > 0
    ensures 0.0 <= (2 * c) as real / (n1 + n2) as real <= 1.0
  {
    assert (2 * c) as real <= (n1 + n2) as real;
  }

  /** The title similarity as intended: 0 when either title has no letter or digit, 1 for
      equal normalised titles, 0.9 when one contains the other, 0 when either has no word
      longer than two characters, and otherwise the Dice coefficient of the long words. */
  function TitleSimilarity(title1: string, title2: string): (r: real)
    ensures 0.0 <= r <= 1.0
    ensures Normalize(title1) == [] || Normalize(title2) == [] ==> r == 0.0
    ensures Normalize(title1) != [] && Normalize(title1) == Normalize(title2) ==> r == 1.0
  {
    var t1 := Normalize(title1);
    var t2 := Normalize(title2);
    if t1 == [] || t2 == [] then 0.0
    else if t1 == t2 then 1.0
    else if Contains(t1, t2) || Contains(t2, t1) then 0.9
    else
      var words1 := LongWords(t1);
      var words2 := LongWords(t2);
      if |words1| == 0 || |words2| == 0 then 0.0
      else SharedWordRatio(words1, words2)
  }

  /** The intended similarity does not depend on the order of the titles. */
  lemma TitleSimilaritySymmetric(title1: string, title2: string)
    ensures TitleSimilarity(title1, title2) == TitleSimilarity(title2, title1)
  {
    var t1, t2 := Normalize(title1), Normalize(title2);
    var w1, w2 := LongWords(t1), LongWords(t2);
    if w1 != [] && w2 != [] {
      assert multiset(w1) * multiset(w2) == multiset(w2) * multiset(w1);
    }
  }

  /** Without repeated words in the first list, counting common words from the first list is
      the size of the multiset intersection. */
  lemma {:induction false} CommonCountDistinct(words1: seq<string>, words2: seq<string>)
    requires forall i, j :: 0 <= i < j < |words1| ==> words1[i] != words1[j]
    ensures CommonCount(words1, words2) == |multiset(words1) * multiset(words2)|
  {
    if words1 != [] {
      var x, rest := words1[0], words1[1..];
      CommonCountDistinct(rest, words2);
      assert words1 == [x] + rest;
      assert x !in rest;
      var b := multiset(words2);
      var r := multiset(rest) * b;
      assert r[x] == 0;
      if x in words2 {
        assert multiset(words1) * b == r + multiset{x};
      } else {
        assert multiset(words1) * b == r;
      }
    }
  }

  /** The intended similarity agrees with the one as written on titles with a letter or digit
      whose first list of long words has no repeated word. */
  lemma SimilarityAgreesWithoutRepeats(title1: string, title2: string)
    requires Normalize(title1) != [] && Normalize(title2) != []
    requires var w := LongWords(Normalize(title1)); forall i, j :: 0 <= i < j < |w| ==> w[i] != w[j]
    ensures TitleSimilarity(title1, title2) == TitleSimilarityAsWritten(title1, title2)
  {
    var w1, w2 := LongWords(Normalize(title1)), LongWords(Normalize(title2));
    CommonCountDistinct(w1, w2);
  }

  /** Which title similarity the matcher runs: `calculateTitleSimilarity` as written, or the
      intended one. */
  datatype SimilarityVersion = AsWritten | Intended

  /** The title similarity of a version: below 2 as written, at most 1 as intended. */
  function Similarity(v: SimilarityVersion, title1: string, title2: string): (r: real)
    ensures 0.0 <= r < 2.0
    ensures v.Intended? ==> r <= 1.0
  {
    match v
    case AsWritten => TitleSimilarityAsWritten(title1, title2)
    case Intended => TitleSimilarity(title1, title2)
  }

  // ================================================================ findMatchingMeeting

  /** The stored meeting fields the matcher reads; a missing attendee list is empty. */
  datatype Meeting = Meeting(id: string, title: Option<string>, meetingDate: int, attendees: seq<string>)

  /** A meeting's score and its number of signals. */
  datatype Score = Score(score: real, signals: nat)

  function Plus(a: Score, b: Score): Score { Score(a.score + b.score, a.signals + b.signals) }

  const HourMs: int := 3600000

  /** The timing signal: during the meeting (taken as one hour long) 0.35, up to half an hour
      before 0.3, up to a day before 0.15 without a signal, up to 4 hours after the end 0.35,
      up to a day after 0.25, up to 3 days after 0.15 and up to 7 days after 0.08 (the last two
      without a signal). The hour thresholds are compared in milliseconds. */
  function TimeScore(receivedAt: int, meetingDate: int): (sc: Score)
    ensures sc.signals <= 1 && 0.0 <= sc.score <= 0.35
  {
    var sinceStart := receivedAt - meetingDate;
    var sinceEnd := sinceStart - HourMs;
    if sinceStart >= 0 && sinceEnd <= 0 then Score(0.35, 1)
    else if sinceStart < 0 && 2 * sinceStart >= -HourMs then Score(0.3, 1)
    else if sinceStart < 0 && sinceStart >= -24 * HourMs then Score(0.15, 0)
    else if sinceEnd >= 0 && sinceEnd <= 4 * HourMs then Score(0.35, 1)
    else if sinceEnd > 4 * HourMs && sinceEnd <= 24 * HourMs then Score(0.25, 1)
    else if sinceEnd > 24 * HourMs && sinceEnd <= 72 * HourMs then Score(0.15, 0)
    else if sinceEnd > 72 * HourMs && sinceEnd <= 168 * HourMs then Score(0.08, 0)
    else Score(0.0, 0)
  }

  /** The extracted-title signal: similarity at least 0.9 gives 0.55 and two signals, at least
      0.6 gives 0.4 and one, at least 0.3 gives 0.25 and none. */
  function TitleScore(v: SimilarityVersion, extracted: Option<string>, meetingTitle: Option<string>): (sc: Score)
    ensures sc.signals <= 2 && 0.0 <= sc.score <= 0.55
    ensures !Truthy(extracted) || !Truthy(meetingTitle) ==> sc == Score(0.0, 0)
    ensures sc.signals == 2 <==> Truthy(extracted) && Truthy(meetingTitle) && Similarity(v, extracted.value, meetingTitle.value) >= 0.9
  {
    if Truthy(extracted) && Truthy(meetingTitle) then
      var sim := Similarity(v, extracted.value, meetingTitle.value);
      if sim >= 0.9 then Score(0.55, 2)
      else if sim >= 0.6 then Score(0.4, 1)
      else if sim >= 0.3 then Score(0.25, 0)
      else Score(0.0, 0)
    else Score(0.0, 0)
  }

  /** The subject signal, read only when no title was extracted: similarity s of at least 0.6
      gives 0.4·s and one signal, at least 0.4 gives 0.3·s and none. The intended similarity
      keeps it at 0.4; as written it stays below 0.8. */
  function SubjectScore(v: SimilarityVersion, extracted: Option<string>, subject: Option<string>, meetingTitle: Option<string>)
    : (sc: Score)
    ensures sc.signals <= 1 && 0.0 <= sc.score < 0.8
    ensures v.Intended? ==> sc.score <= 0.4
    ensures Truthy(extracted) ==> sc == Score(0.0, 0)
  {
    if !Truthy(extracted) && Truthy(subject) && Truthy(meetingTitle) then
      var sim := Similarity(v, subject.value, meetingTitle.value);
      if sim >= 0.6 then Score(sim * 0.4, 1)
      else if sim >= 0.4 then Score(sim * 0.3, 0)
      else Score(0.0, 0)
    else Score(0.0, 0)
  }

  /** An attendee is common when some lower-cased recipient contains it or is contained in it. */
  predicate SharesRecipient(recipients: seq<string>, attendee: string) {
    exists r :: r in recipients && (Contains(r, attendee) || Contains(attendee, r))
  }

  function LowerAll(xs: seq<string>): (r: seq<string>)
    ensures |r| == |xs| && forall i :: 0 <= i < |xs| ==> r[i] == Lower(xs[i])
  {
    if xs == [] then [] else [Lower(xs[0])] + LowerAll(xs[1..])
  }

  function Min(x: real, y: real): real { if x <= y then x else y }

  /** The attendee signal: with c common attendees out of n, two or more (or one of at most
      three) give 0.3·min(c/n, 1) and one signal; any other overlap 0.15·min(c/n, 1) and none. */
  function AttendeeScore(email: Email, attendees: seq<string>): (sc: Score)
    ensures sc.signals <= 1 && 0.0 <= sc.score <= 0.3
  {
    if |attendees| > 0 then
      var recipients := LowerAll(email.to + email.cc);
      var c := Count(LowerAll(attendees), a => SharesRecipient(recipients, a));
      var share := Min(c as real / |attendees| as real, 1.0);
      if c >= 2 || (c == 1 && |attendees| <= 3) then Score(share * 0.3, 1)
      else if c > 0 then Score(share * 0.15, 0)
      else Score(0.0, 0)
    else Score(0.0, 0)
  }

  /** The score of one candidate meeting: the sum of the four signals. The title and subject
      signals exclude each other, so the score stays below 1.45 (at most 1.2 with the intended
      similarity) and there are at most four signals. */
  function MeetingScore(v: SimilarityVersion, email: Email, extracted: Option<string>, m: Meeting): (sc: Score)
    ensures 0.0 <= sc.score < 1.45 && sc.signals <= 4
    ensures v.Intended? ==> sc.score <= 1.2
  {
    Plus(Plus(TimeScore(email.receivedAt, m.meetingDate), TitleScore(v, extracted, m.title)),
         Plus(SubjectScore(v, extracted, email.subject, m.title), AttendeeScore(email, m.attendees)))
  }

  /** The two-condition threshold: a score of at least 0.25 and at least two signals. */
  predicate Qualifies(sc: Score) { sc.score >= 0.25 && sc.signals >= 2 }

  /** `f` applied to each element, in order: the candidates' scores, and the outcomes of a
      batch of emails. */
  function Pointwise<A, B>(f: A -> B, xs: seq<A>): (r: seq<B>)
    ensures |r| == |xs| && forall i :: 0 <= i < |xs| ==> r[i] == f(xs[i])
  {
    seq(|xs|, i requires 0 <= i < |xs| => f(xs[i]))
  }

  /** How `findMatchingMeeting` rates a candidate for an email and its extracted title. */
  function Rating(v: SimilarityVersion, email: Email, extracted: Option<string>): Meeting -> Score {
    m => MeetingScore(v, email, extracted, m)
  }

  /** The selection rule: scanning in order, a qualifying candidate replaces the best so far
      only with a strictly higher score. */
  function Select(scores: seq<Score>): (r: Option<nat>)
    ensures r.Some? ==> r.value < |scores| && Qualifies(scores[r.value])
  {
    if scores == [] then None
    else
      var last := |scores| - 1;
      var prev := Select(scores[..last]);
      if Qualifies(scores[last]) && (prev.None? || scores[last].score > scores[prev.value].score) then Some(last)
      else prev
  }

  /** Nothing is selected exactly when no candidate qualifies. */
  lemma {:induction false} SelectNoneIff(scores: seq<Score>)
    ensures Select(scores).None? <==> forall i :: 0 <= i < |scores| ==> !Qualifies(scores[i])
  {
    if scores != [] {
      var last := |scores| - 1;
      SelectNoneIff(scores[..last]);
      assert forall i :: 0 <= i < last ==> scores[..last][i] == scores[i];
    }
  }

  /** The selected candidate has the highest score among the qualifying ones, and every
      qualifying candidate before it scores strictly less: the earliest candidate wins ties. */
  lemma {:induction false} SelectIsFirstBest(scores: seq<Score>)
    ensures var r := Select(scores);
      r.Some? ==>
        && (forall i :: 0 <= i < |scores| && Qualifies(scores[i]) ==> scores[i].score <= scores[r.value].score)
        && (forall i :: 0 <= i < r.value && Qualifies(scores[i]) ==> scores[i].score < scores[r.value].score)
  {
    if scores != [] {
      var last := |scores| - 1;
      var init := scores[..last];
      SelectIsFirstBest(init);
      SelectNoneIff(init);
      assert forall i :: 0 <= i < last ==> init[i] == scores[i];
    }
  }

  /** The matcher's answer: the selected meeting with its score capped at 1, or none with 0. */
  datatype Match = Match(meeting: Option<Meeting>, confidence: real)

  /** The answer `findMatchingMeeting` gives for the candidates in the date window. */
  function MatchFor(v: SimilarityVersion, patterns: seq<Capture>, email: Email, linkType: string, meetings: seq<Meeting>)
    : (m: Match)
    ensures m.meeting.None? ==> m.confidence == 0.0
    ensures m.meeting.Some? ==> m.meeting.value in meetings && 0.25 <= m.confidence <= 1.0
  {
    BestOf(Rating(v, email, ExtractMeetingTitleFromEmail(patterns, email, linkType)), meetings)
  }

  /** The selected candidate under any rating, with its score capped at 1. */
  function BestOf(rate: Meeting -> Score, meetings: seq<Meeting>): (m: Match)
    ensures m.meeting.None? ==> m.confidence == 0.0
    ensures m.meeting.Some? ==> m.meeting.value in meetings && 0.25 <= m.confidence <= 1.0
  {
    var scores := Pointwise(rate, meetings);
    var r := Select(scores);
    if r.Some? then Match(Some(meetings[r.value]), Min(scores[r.value].score, 1.0))
    else Match(None, 0.0)
  }

  /** One more candidate is selected exactly when it qualifies and beats the best so far. */
  lemma SelectStep(scores: seq<Score>, i: nat)
    requires i < |scores|
    ensures var prev := Select(scores[..i]);
      Select(scores[..i + 1]) ==
        if Qualifies(scores[i]) && (prev.None? || scores[i].score > scores[prev.value].score) then Some(i) else prev
  {
    assert scores[..i + 1][..i] == scores[..i];
  }

  /** The scan of `findMatchingMeeting`: score every candidate in order and keep a qualifying
      one only when it beats the best so far. */
  method ScanCandidates(v: SimilarityVersion, email: Email, extracted: Option<string>, meetings: seq<Meeting>)
    returns (best: Option<nat>, bestScore: real)
    ensures best == Select(Pointwise(Rating(v, email, extracted), meetings))
    ensures best.Some? ==> bestScore == Pointwise(Rating(v, email, extracted), meetings)[best.value].score
  {
    ghost var scores := Pointwise(Rating(v, email, extracted), meetings);
    best, bestScore := None, 0.0;
    var i := 0;
    while i < |meetings|
      invariant 0 <= i <= |meetings|
      invariant best == Select(scores[..i])
      invariant best.Some? ==> bestScore == scores[best.value].score
    {
      var sc := MeetingScore(v, email, extracted, meetings[i]);
      assert sc == scores[i];
      SelectStep(scores, i);
      if Qualifies(sc) && (best.None? || sc.score > bestScore) {
        best := Some(i);
        bestScore := sc.score;
      }
      i := i + 1;
    }
    assert scores[..i] == scores;
  }

  /** `findMatchingMeeting(email, linkType)` over the meetings the store returns for the window
      from seven days before to two hours after the email. */
  method FindMatchingMeeting(v: SimilarityVersion, patterns: seq<Capture>, email: Email, linkType: string, meetings: seq<Meeting>)
    returns (meeting: Option<Meeting>, confidence: real)
    ensures Match(meeting, confidence) == MatchFor(v, patterns, email, linkType, meetings)
    ensures meetings == [] ==> meeting.None? && confidence == 0.0
  {
    if |meetings| == 0 {
      return None, 0.0;
    }
    var extracted := ExtractMeetingTitleFromEmail(patterns, email, linkType);
    var best, bestScore := ScanCandidates(v, email, extracted, meetings);
    if best.None? {
      return None, 0.0;
    }
    meeting := Some(meetings[best.value]);
    confidence := Min(bestScore, 1.0);
  }

  /** In terms of the candidates: nothing matches exactly when no candidate qualifies, and a
      match is a qualifying candidate with the highest score, ahead of every earlier candidate
      with the same score, its confidence being that score capped at 1. */
  lemma MatchIsFirstBest(v: SimilarityVersion, patterns: seq<Capture>, email: Email, linkType: string, meetings: seq<Meeting>)
    ensures var extracted := ExtractMeetingTitleFromEmail(patterns, email, linkType);
      var rate := Rating(v, email, extracted);
      var m := MatchFor(v, patterns, email, linkType, meetings);
      && (m.meeting.None? <==> forall i :: 0 <= i < |meetings| ==> !Qualifies(rate(meetings[i])))
      && (m.meeting.Some? ==> exists k :: (
            && 0 <= k < |meetings| && m.meeting.value == meetings[k]
            && Qualifies(rate(meetings[k]))
            && m.confidence == Min(rate(meetings[k]).score, 1.0)
            && (forall i :: 0 <= i < |meetings| && Qualifies(rate(meetings[i])) ==> rate(meetings[i]).score <= rate(meetings[k]).score)
            && (forall i :: 0 <= i < k && Qualifies(rate(meetings[i])) ==> rate(meetings[i]).score < rate(meetings[k]).score)))
  {
    BestOfIsFirstBest(Rating(v, email, ExtractMeetingTitleFromEmail(patterns, email, linkType)), meetings);
  }

  /** The same for any rating. */
  lemma BestOfIsFirstBest(rate: Meeting -> Score, meetings: seq<Meeting>)
    ensures var m := BestOf(rate, meetings);
      && (m.meeting.None? <==> forall i :: 0 <= i < |meetings| ==> !Qualifies(rate(meetings[i])))
      && (m.meeting.Some? ==> exists k :: (
            && 0 <= k < |meetings| && m.meeting.value == meetings[k]
            && Qualifies(rate(meetings[k]))
            && m.confidence == Min(rate(meetings[k]).score, 1.0)
            && (forall i :: 0 <= i < |meetings| && Qualifies(rate(meetings[i])) ==> rate(meetings[i]).score <= rate(meetings[k]).score)
            && (forall i :: 0 <= i < k && Qualifies(rate(meetings[i])) ==> rate(meetings[i]).score < rate(meetings[k]).score)))
  {
    var scores := Pointwise(rate, meetings);
    SelectNoneIff(scores);
    SelectIsFirstBest(scores);
  }

  // ---------------------------------------------------------------- the two matchers compared

  /** A title with a letter or digit is not empty. */
  lemma NormalizedNonEmpty(t: string)
    requires Normalize(t) != []
    ensures t != []
  {
  }

  /** As written, an extracted title of punctuation only ("!!!") is a strong title match for
      every meeting title with a letter or digit; with the intended similarity it adds
      nothing. */
  lemma PunctuationTitleScores(meetingTitle: string)
    requires Normalize(meetingTitle) != []
    ensures TitleScore(AsWritten, Some("!!!"), Some(meetingTitle)) == Score(0.55, 2)
    ensures TitleScore(Intended, Some("!!!"), Some(meetingTitle)) == Score(0.0, 0)
  {
    NormalizedNonEmpty(meetingTitle);
    PunctuationTitleMatchesAnything(meetingTitle);
    PunctuationNormalizesToEmpty();
  }

  /** So, as written, every candidate whose title has a letter or digit qualifies for such an
      email. */
  lemma PunctuationTitleQualifies(email: Email, m: Meeting)
    requires m.title.Some? && Normalize(m.title.value) != []
    ensures Qualifies(Rating(AsWritten, email, Some("!!!"))(m))
  {
    PunctuationTitleScores(m.title.value);
    assert SubjectScore(AsWritten, Some("!!!"), email.subject, m.title) == Score(0.0, 0);
  }

  /** And the as-written matcher picks a meeting for such an email whenever one candidate in
      the window has a title with a letter or digit, whatever the timing and the attendees. */
  lemma PunctuationTitleAlwaysMatches(email: Email, meetings: seq<Meeting>, k: nat)
    requires k < |meetings| && meetings[k].title.Some? && Normalize(meetings[k].title.value) != []
    ensures Select(Pointwise(Rating(AsWritten, email, Some("!!!")), meetings)).Some?
  {
    var scores := Pointwise(Rating(AsWritten, email, Some("!!!")), meetings);
    PunctuationTitleQualifies(email, meetings[k]);
    assert Qualifies(scores[k]);
    SelectNoneIff(scores);
  }

  /** A subject that scores 8/7 as written against a meeting title adds 0.4 · 8/7 when no title
      was extracted. */
  lemma SubjectScoreOfRatio(subject: string, meetingTitle: string)
    requires subject != [] && meetingTitle != []
    requires TitleSimilarityAsWritten(subject, meetingTitle) == 8.0 / 7.0
    ensures SubjectScore(AsWritten, None, Some(subject), Some(meetingTitle)) == Score(8.0 / 7.0 * 0.4, 1)
  {
  }

  /** As written, the subject signal can exceed the 0.4 it is scaled to: a subject "abc abc abc
      abc xyz" against the meeting title "abc qqq", with no extracted title, adds 0.4 · 8/7. */
  lemma SubjectScoreCanExceedCap()
    ensures var subject, title := Join(["abc", "abc", "abc", "abc", "xyz"], " "), Join(["abc", "qqq"], " ");
      SubjectScore(AsWritten, None, Some(subject), Some(title)).score > 0.4
  {
    var ws1, ws2 := ["abc", "abc", "abc", "abc", "xyz"], ["abc", "qqq"];
    SimilarityCanExceedOne();
    JoinHas(ws1, 0);
    JoinHas(ws2, 0);
    SubjectScoreOfRatio(Join(ws1, " "), Join(ws2, " "));
  }

  // ================================================================ linkEmailToMeeting

  /** What `linkEmailToMeeting` reports for one email. */
  datatype LinkResult = LinkResult(emailId: string, meetingId: Option<string>, linkType: Option<string>, confidence: real)

  /** The link it asks the store to record. */
  datatype LinkWrite = LinkWrite(emailId: string, meetingId: string, linkType: string, confidence: real)

  datatype LinkOutcome = LinkOutcome(result: LinkResult, write: Option<LinkWrite>)

  /** The result of the catch-all error path and of the early exits without a link. */
  function NoLink(emailId: string, linkType: Option<string>, confidence: real): LinkResult {
    LinkResult(emailId, None, linkType, confidence)
  }

  /** `linkEmailToMeeting(emailId)`: `found` is what the store returns for the id, `meetings`
      the candidates in the email's date window, and `writeFails` whether recording the link
      throws. An email not found, or not a meeting summary, gets no link; an email already
      linked keeps its link (confidence 1 when none or 0 was stored); otherwise the matcher's
      meeting is recorded, and a failing write ends in the catch-all result. */
  function LinkEmailToMeeting(v: SimilarityVersion, f: Families, patterns: seq<Capture>, emailId: string,
                              found: Option<Email>, meetings: seq<Meeting>, writeFails: bool): (o: LinkOutcome)
    ensures o.result.emailId == emailId
  {
    if found.None? then LinkOutcome(NoLink(emailId, None, 0.0), None)
    else
      var email := found.value;
      if Truthy(email.linkedMeetingId) then
        var confidence := if email.linkConfidence.Some? && email.linkConfidence.value != 0.0 then email.linkConfidence.value else 1.0;
        var linkType := if Truthy(email.linkType) then email.linkType else None;
        LinkOutcome(LinkResult(emailId, email.linkedMeetingId, linkType, confidence), None)
      else
        var d := DetectMeetingSummaryType(f, email);
        if !d.isMeetingSummary then LinkOutcome(NoLink(emailId, None, 0.0), None)
        else
          var kind := KindName(d.linkType.value);
          var m := MatchFor(v, patterns, email, kind, meetings);
          if m.meeting.Some? && m.confidence >= 0.25 then
            if writeFails then LinkOutcome(NoLink(emailId, None, 0.0), None)
            else LinkOutcome(LinkResult(emailId, Some(m.meeting.value.id), Some(kind), m.confidence),
                             Some(LinkWrite(emailId, m.meeting.value.id, kind, m.confidence)))
          else LinkOutcome(NoLink(emailId, Some(kind), m.confidence), None)
  }

  /** The decisions of `linkEmailToMeeting`: not found or not a summary gives no link; an
      already linked email keeps its link, confidence never 0; a link is written exactly when a
      summary email without a link has a matching meeting and the write succeeds, and the
      result then names that meeting with the matcher's confidence. */
  lemma LinkDecisions(v: SimilarityVersion, f: Families, patterns: seq<Capture>, emailId: string, found: Option<Email>,
                      meetings: seq<Meeting>, writeFails: bool)
    ensures var o := LinkEmailToMeeting(v, f, patterns, emailId, found, meetings, writeFails);
      && (found.None? ==> o == LinkOutcome(NoLink(emailId, None, 0.0), None))
      && (found.Some? && Truthy(found.value.linkedMeetingId) ==>
         && o.write.None?
         && o.result.meetingId == found.value.linkedMeetingId
         && (Truthy(found.value.linkType) ==> o.result.linkType == found.value.linkType)
         && (!Truthy(found.value.linkType) ==> o.result.linkType.None?)
         && o.result.confidence != 0.0)
      && (found.Some? && !Truthy(found.value.linkedMeetingId) && !DetectMeetingSummaryType(f, found.value).isMeetingSummary ==>
         o == LinkOutcome(NoLink(emailId, None, 0.0), None))
      && (o.write.Some? <==>
         && found.Some? && !Truthy(found.value.linkedMeetingId)
         && DetectMeetingSummaryType(f, found.value).isMeetingSummary
         && !writeFails
         && var d := DetectMeetingSummaryType(f, found.value);
            MatchFor(v, patterns, found.value, KindName(d.linkType.value), meetings).meeting.Some?)
      && (o.write.Some? ==>
         && var d := DetectMeetingSummaryType(f, found.value);
            var m := MatchFor(v, patterns, found.value, KindName(d.linkType.value), meetings);
            && o.write.value == LinkWrite(emailId, m.meeting.value.id, KindName(d.linkType.value), m.confidence)
            && o.result == LinkResult(emailId, Some(m.meeting.value.id), Some(KindName(d.linkType.value)), m.confidence))
  {
  }

  /** A result with a meeting either keeps an earlier link or comes with the write that records
      it: no link is reported that is not in the store. */
  lemma ReportedLinksAreStored(v: SimilarityVersion, f: Families, patterns: seq<Capture>, emailId: string,
                               found: Option<Email>, meetings: seq<Meeting>, writeFails: bool)
    ensures var o := LinkEmailToMeeting(v, f, patterns, emailId, found, meetings, writeFails);
      o.result.meetingId.Some? ==>
        (found.Some? && Truthy(found.value.linkedMeetingId)) || (o.write.Some? && o.result.meetingId == Some(o.write.value.meetingId))
  {
  }

  // ================================================================ linkAllUnlinkedEmails

  /** The batch counters. */
  datatype LinkingStats = LinkingStats(processed: nat, linked: nat, unlinked: nat, errors: nat)

  /** The link step the batch applies to each email, the email being found again by its id. */
  function Linker(v: SimilarityVersion, f: Families, patterns: seq<Capture>, meetingsFor: Email -> seq<Meeting>,
                  writeFails: string -> bool): Email -> LinkOutcome
  {
    (e: Email) => LinkEmailToMeeting(v, f, patterns, e.id, Some(e), meetingsFor(e), writeFails(e.id))
  }

  predicate IsLinked(o: LinkOutcome) { Truthy(o.result.meetingId) }

  /** The writes of a sequence of outcomes, in order. */
  function WritesOf(outcomes: seq<LinkOutcome>): (ws: seq<LinkWrite>)
    ensures |ws| <= |outcomes|
  {
    if outcomes == [] then []
    else
      var init := outcomes[..|outcomes| - 1];
      var last := outcomes[|outcomes| - 1];
      WritesOf(init) + (if last.write.Some? then [last.write.value] else [])
  }

  lemma WritesOfSnoc(outcomes: seq<LinkOutcome>, o: LinkOutcome)
    ensures WritesOf(outcomes + [o]) == WritesOf(outcomes) + (if o.write.Some? then [o.write.value] else [])
  {
    assert (outcomes + [o])[..|outcomes|] == outcomes;
  }

  /** `linkAllUnlinkedEmails()` over the unlinked summary emails the store returns: each email
      is processed once and counted as linked when its result names a meeting and as unlinked
      otherwise. Every per-email failure is caught inside the link step, so the error counter
      stays 0. */
  method LinkAllUnlinkedEmails(v: SimilarityVersion, f: Families, patterns: seq<Capture>, emails: seq<Email>,
                               meetingsFor: Email -> seq<Meeting>, writeFails: string -> bool)
    returns (stats: LinkingStats, writes: seq<LinkWrite>)
    ensures stats.processed == |emails|
    ensures stats.processed == stats.linked + stats.unlinked + stats.errors
    ensures stats.errors == 0
    ensures var outcomes := Pointwise(Linker(v, f, patterns, meetingsFor, writeFails), emails);
      stats.linked == Count(outcomes, IsLinked) && writes == WritesOf(outcomes)
  {
    stats, writes := LinkEach(Linker(v, f, patterns, meetingsFor, writeFails), emails);
  }

  /** What the outcome at `i` adds to the linked count and the writes of the prefix before it. */
  lemma PrefixStep(outcomes: seq<LinkOutcome>, i: nat)
    requires i < |outcomes|
    ensures Count(outcomes[..i + 1], IsLinked) == Count(outcomes[..i], IsLinked) + (if IsLinked(outcomes[i]) then 1 else 0)
    ensures WritesOf(outcomes[..i + 1]) == WritesOf(outcomes[..i]) + (if outcomes[i].write.Some? then [outcomes[i].write.value] else [])
  {
    assert outcomes[..i + 1] == outcomes[..i] + [outcomes[i]];
    CountAppend(outcomes[..i], [outcomes[i]], IsLinked);
    WritesOfSnoc(outcomes[..i], outcomes[i]);
  }

  /** The batch loop for any link step. */
  method LinkEach(link: Email -> LinkOutcome, emails: seq<Email>) returns (stats: LinkingStats, writes: seq<LinkWrite>)
    ensures stats.processed == |emails|
    ensures stats.processed == stats.linked + stats.unlinked + stats.errors
    ensures stats.errors == 0
    ensures var outcomes := Pointwise(link, emails);
      stats.linked == Count(outcomes, IsLinked) && writes == WritesOf(outcomes)
  {
    ghost var outcomes := Pointwise(link, emails);
    stats := LinkingStats(0, 0, 0, 0);
    writes := [];
    var i := 0;
    while i < |emails|
      invariant 0 <= i <= |emails|
      invariant stats.processed == i
      invariant stats.processed == stats.linked + stats.unlinked + stats.errors
      invariant stats.errors == 0
      invariant stats.linked == Count(outcomes[..i], IsLinked)
      invariant writes == WritesOf(outcomes[..i])
    {
      var email := emails[i];
      stats := stats.(processed := stats.processed + 1);
      var o := link(email);
      PrefixStep(outcomes, i);
      if o.write.Some? {
        writes := writes + [o.write.value];
      }
      if IsLinked(o) {
        stats := stats.(linked := stats.linked + 1);
      } else {
        stats := stats.(unlinked := stats.unlinked + 1);
      }
      i := i + 1;
    }
    assert outcomes[..i] == outcomes;
  }
}
