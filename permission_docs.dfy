// Model of docs/api-permissions/generate-docs.py: the inventory parser, the slug, the risk
// classifier, the text generators for one permission, the category page and the driver that
// writes one page per category without overwriting existing pages.

module PermissionDocs {
  import opened Basics

  // ================================================================ inventory lines

  /** Number of whitespace characters of `s` starting at position `p`. */
  function SpacesFrom(s: string, p: nat): (n: nat)
    requires p <= |s|
    ensures p + n <= |s|
    ensures forall k :: p <= k < p + n ==> IsPySpace(s[k])
    ensures p + n < |s| ==> !IsPySpace(s[p + n])
    decreases |s| - p
  {
    if p < |s| && IsPySpace(s[p]) then 1 + SpacesFrom(s, p + 1) else 0
  }

  /** Number of decimal digits of `s` starting at position `p`. */
  function DigitsFrom(s: string, p: nat): (n: nat)
    requires p <= |s|
    ensures p + n <= |s|
    ensures forall k :: p <= k < p + n ==> IsDigit(s[k])
    ensures p + n < |s| ==> !IsDigit(s[p + n])
    decreases |s| - p
  {
    if p < |s| && IsDigit(s[p]) then 1 + DigitsFrom(s, p + 1) else 0
  }

  /** The tail `\s+-\s+(\d+)\s+permission` of a category header, matched at position `p`; the
      result is the declared count. Every part is forced: a whitespace run must be taken whole
      to reach the '-' and a digit run whole to reach the whitespace after it. */
  function TailCount(line: string, p: nat): Option<nat>
    requires p <= |line|
  {
    var a := SpacesFrom(line, p);
    if a == 0 || p + a == |line| || line[p + a] != '-' then None
    else
      var b := SpacesFrom(line, p + a + 1);
      if b == 0 then None
      else
        var d := DigitsFrom(line, p + a + 1 + b);
        if d == 0 then None
        else
          var e := p + a + 1 + b + d;
          var c := SpacesFrom(line, e);
          if c == 0 || !("permission" <= line[e + c..]) then None
          else
            var digits := line[p + a + 1 + b..e];
            assert forall k :: 0 <= k < d ==> digits[k] == line[p + a + 1 + b + k];
            Some(DigitsValue(digits))
  }

  /** The lazy group `(.+?)` starting at `j`: the end `q` of the shortest name `r[j..q]` (no
      line break in it) after which the tail matches. */
  function LazyName(r: string, j: nat, p: nat): (q: Option<nat>)
    requires j < p <= |r| + 1
    requires '\n' !in r[j..p - 1]
    ensures q.Some? ==> p <= q.value <= |r| && TailCount(r, q.value).Some? && '\n' !in r[j..q.value]
    decreases |r| + 1 - p
  {
    if p > |r| || r[p - 1] == '\n' then None
    else
      assert r[j..p] == r[j..p - 1] + [r[p - 1]];
      if TailCount(r, p).Some? then Some(p) else LazyName(r, j, p + 1)
  }

  /** Backtracking of the greedy `\s+` before the name: the name may start after `k` of the
      whitespace characters that follow position `base`, tried from the longest run down to 1. */
  function TryWidths(line: string, base: nat, k: nat): (m: Option<(nat, nat)>)
    requires base + k <= |line|
    ensures m.Some? ==> base < m.value.0 < m.value.1 <= |line| && TailCount(line, m.value.1).Some?
    ensures m.Some? ==> '\n' !in line[m.value.0..m.value.1]
  {
    if k == 0 then None
    else
      match LazyName(line, base + k, base + k + 1)
      case Some(q) => Some((base + k, q))
      case None => TryWidths(line, base, k - 1)
  }

  /** `re.match(r'^\[(\d+)\]\s+(.+?)\s+-\s+(\d+)\s+permissions?', line)`: the bounds of the
      category name in a header line. The name is a non-empty piece of the line after "[digits]"
      and whitespace, without a line break, and the declared-count tail follows it directly. */
  function HeaderMatch(line: string): (m: Option<(nat, nat)>)
    ensures m.Some? ==> |line| > 0 && line[0] == '['
    ensures m.Some? ==> 3 < m.value.0 < m.value.1 <= |line| && TailCount(line, m.value.1).Some?
    ensures m.Some? ==> '\n' !in line[m.value.0..m.value.1]
  {
    if line == [] || line[0] != '[' then None
    else
      var d := DigitsFrom(line, 1);
      if d == 0 || 1 + d == |line| || line[1 + d] != ']' then None
      else TryWidths(line, 2 + d, SpacesFrom(line, 2 + d))
  }

  /** What one stripped line of the inventory means to the parser. */
  datatype LineKind =
    | Header(name: string, count: nat)
    | PermissionName(value: string)
    | DisplayName(value: string)
    | Description(value: string)
    | PermissionId(value: string)
    | AssignedDate(value: string)
    | Other

  /** `line.replace(label, '').strip()`: every occurrence of the label is removed, not only the
      leading one. */
  function FieldValue(line: string, tag: string): string
    requires tag != []
  {
    Trim(Py, RemoveAll(line, tag))
  }

  /** The branch `parse_permissions` takes for one raw line (stripped first; the header test
      comes before the field prefixes, which are checked in a fixed order). */
  function Classify(raw: string): LineKind
  {
    var line := Trim(Py, raw);
    match HeaderMatch(line)
    case Some((i, q)) => Header(line[i..q], TailCount(line, q).value)
    case None =>
      if "Permission:" <= line then PermissionName(FieldValue(line, "Permission:"))
      else if "Display Name:" <= line then DisplayName(FieldValue(line, "Display Name:"))
      else if "Description:" <= line then Description(FieldValue(line, "Description:"))
      else if "Permission ID:" <= line then PermissionId(FieldValue(line, "Permission ID:"))
      else if "Assigned Date:" <= line then AssignedDate(FieldValue(line, "Assigned Date:"))
      else Other
  }

  /** The kinds of a sequence of raw lines, in order. */
  function ClassifyAll(lines: seq<string>): (ks: seq<LineKind>)
    ensures |ks| == |lines|
  {
    if lines == [] then [] else ClassifyAll(lines[..|lines| - 1]) + [Classify(lines[|lines| - 1])]
  }

  /** The line kinds of a whole inventory text (`content.split('\n')`). */
  function Kinds(content: string): seq<LineKind>
  {
    ClassifyAll(SplitOn(content, "\n"))
  }

  // ================================================================ parser state

  /** A stored permission record. Only the name is certain; the other keys are present only if
      their line was seen. */
  datatype Permission = Permission(
    name: string,
    displayName: Option<string>,
    description: Option<string>,
    id: Option<string>,
    assignedDate: Option<string>)

  /** The scratch record `current_permission`: every key may be missing. */
  datatype Scratch = Scratch(
    name: Option<string>,
    displayName: Option<string>,
    description: Option<string>,
    id: Option<string>,
    assignedDate: Option<string>)

  const EmptyScratch := Scratch(None, None, None, None, None)

  /** A category entry: the count declared by its header and the parsed records. */
  datatype Category = Category(count: nat, permissions: seq<Permission>)

  /** The parser's variables. `order` is the insertion order of the `categories` dictionary. */
  datatype ParseState = ParseState(
    order: seq<string>,
    categories: map<string, Category>,
    current: Option<string>,
    scratch: Scratch)

  const Init := ParseState([], map[], None, EmptyScratch)

  predicate Distinct<T(==)>(s: seq<T>) {
    forall i, j :: 0 <= i < j < |s| ==> s[i] != s[j]
  }

  /** The invariant of the parser: the order lists each key once, the open category exists and
      every stored record has a non-empty name. */
  ghost predicate Wf(st: ParseState) {
    && (forall n :: n in st.order <==> n in st.categories)
    && Distinct(st.order)
    && (st.current.Some? ==> st.current.value in st.categories)
    && (forall n, i :: n in st.categories && 0 <= i < |st.categories[n].permissions| ==>
          st.categories[n].permissions[i].name != "")
  }

  /** `current_permission.get('name') and current_category`; the open category is always a key
      of the dictionary (lemma `StepWf`), so the last conjunct only keeps `Step` total. */
  predicate Flushable(st: ParseState, s: Scratch) {
    Truthy(s.name) && Truthy(st.current) && st.current.value in st.categories
  }

  function ToPermission(s: Scratch): Permission
    requires s.name.Some?
  {
    Permission(s.name.value, s.displayName, s.description, s.id, s.assignedDate)
  }

  /** Append a copy of the scratch record to the open category. */
  function Flush(st: ParseState, s: Scratch): ParseState
    requires Flushable(st, s)
  {
    var cat := st.categories[st.current.value];
    st.(categories := st.categories[st.current.value := cat.(permissions := cat.permissions + [ToPermission(s)])])
  }

  /** One iteration of the loop of `parse_permissions`. */
  function Step(st: ParseState, k: LineKind): ParseState
  {
    match k
    case Header(n, c) =>
      ParseState(
        if n in st.categories then st.order else st.order + [n],
        st.categories[n := Category(c, [])],
        Some(n),
        st.scratch)
    case PermissionName(v) =>
      var flushed := if Flushable(st, st.scratch) then Flush(st, st.scratch) else st;
      flushed.(scratch := Scratch(Some(v), None, None, None, None))
    case DisplayName(v) => st.(scratch := st.scratch.(displayName := Some(v)))
    case Description(v) => st.(scratch := st.scratch.(description := Some(v)))
    case PermissionId(v) => st.(scratch := st.scratch.(id := Some(v)))
    case AssignedDate(v) =>
      var s := st.scratch.(assignedDate := Some(v));
      if Flushable(st, s) then Flush(st, s).(scratch := EmptyScratch) else st.(scratch := s)
    case Other => st
  }

  /** The parser state after a sequence of lines. */
  function Run(st: ParseState, ks: seq<LineKind>): ParseState
    decreases |ks|
  {
    if ks == [] then st else Step(Run(st, ks[..|ks| - 1]), ks[|ks| - 1])
  }

  lemma RunSnoc(st: ParseState, ks: seq<LineKind>, k: LineKind)
    ensures Run(st, ks + [k]) == Step(Run(st, ks), k)
  {
    assert (ks + [k])[..|ks|] == ks;
  }

  /** Every step keeps the parser invariant. */
  lemma StepWf(st: ParseState, k: LineKind)
    requires Wf(st)
    ensures Wf(Step(st, k))
  {
    var r := Step(st, k);
    match k
    case Header(n, c) =>
      forall i, j | 0 <= i < j < |r.order| ensures r.order[i] != r.order[j] {
        if n !in st.categories && j == |st.order| {
          assert r.order[i] == st.order[i];
        }
      }
    case PermissionName(v) =>
    case AssignedDate(v) =>
    case _ =>
  }

  /** Every run from a good state ends in a good state. */
  lemma {:induction false} RunWf(st: ParseState, ks: seq<LineKind>)
    requires Wf(st)
    ensures Wf(Run(st, ks))
    decreases |ks|
  {
    if ks != [] {
      RunWf(st, ks[..|ks| - 1]);
      StepWf(Run(st, ks[..|ks| - 1]), ks[|ks| - 1]);
    }
  }

  /** `parse_permissions(content)`: the categories dictionary, as its key order and its map. */
  method ParsePermissions(content: string) returns (order: seq<string>, categories: map<string, Category>)
    ensures order == Run(Init, Kinds(content)).order
    ensures categories == Run(Init, Kinds(content)).categories
    ensures Distinct(order) && forall n :: n in order <==> n in categories
  {
    order, categories := ApplyLines(Kinds(content));
  }

  /** The loop of `parse_permissions` over the classified lines: it updates the dictionary, the
      category cursor and the scratch record in place. */
  method ApplyLines(ks: seq<LineKind>) returns (order: seq<string>, categories: map<string, Category>)
    ensures order == Run(Init, ks).order && categories == Run(Init, ks).categories
    ensures Distinct(order) && forall n :: n in order <==> n in categories
  {
    order, categories := [], map[];
    var current: Option<string> := None;
    var scratch := EmptyScratch;
    var i := 0;
    while i < |ks|
      invariant 0 <= i <= |ks|
      invariant ParseState(order, categories, current, scratch) == Run(Init, ks[..i])
      invariant Wf(ParseState(order, categories, current, scratch))
    {
      ghost var before := ParseState(order, categories, current, scratch);
      order, categories, current, scratch := ApplyLine(order, categories, current, scratch, ks[i]);
      StepWf(before, ks[i]);
      RunSnoc(Init, ks[..i], ks[i]);
      assert ks[..i + 1] == ks[..i] + [ks[i]];
      i := i + 1;
    }
    assert ks[..|ks|] == ks;
  }

  /** One pass of that loop: the dictionary, cursor and scratch record after one classified
      line are the specification step's. */
  method ApplyLine(order: seq<string>, categories: map<string, Category>, current: Option<string>, scratch: Scratch,
                   k: LineKind)
    returns (order': seq<string>, categories': map<string, Category>, current': Option<string>, scratch': Scratch)
    requires Wf(ParseState(order, categories, current, scratch))
    ensures ParseState(order', categories', current', scratch') == Step(ParseState(order, categories, current, scratch), k)
  {
    order', categories', current', scratch' := order, categories, current, scratch;
    match k {
      case Header(name, count) =>
        if name !in categories' {
          order' := order' + [name];
        }
        categories' := categories'[name := Category(count, [])];
        current' := Some(name);
      case PermissionName(v) =>
        if Truthy(scratch'.name) && Truthy(current') {
          var cat := categories'[current'.value];
          categories' := categories'[current'.value := cat.(permissions := cat.permissions + [ToPermission(scratch')])];
        }
        scratch' := Scratch(Some(v), None, None, None, None);
      case DisplayName(v) =>
        scratch' := scratch'.(displayName := Some(v));
      case Description(v) =>
        scratch' := scratch'.(description := Some(v));
      case PermissionId(v) =>
        scratch' := scratch'.(id := Some(v));
      case AssignedDate(v) =>
        scratch' := scratch'.(assignedDate := Some(v));
        if Truthy(current') && Truthy(scratch'.name) {
          var cat := categories'[current'.value];
          categories' := categories'[current'.value := cat.(permissions := cat.permissions + [ToPermission(scratch')])];
          scratch' := EmptyScratch;
        }
      case Other =>
    }
  }

  // ================================================================ parser properties

  /** Running two pieces of input one after the other is running their concatenation. */
  lemma {:induction false} RunAppend(st: ParseState, a: seq<LineKind>, b: seq<LineKind>)
    ensures Run(st, a + b) == Run(Run(st, a), b)
    decreases |b|
  {
    if b == [] {
      assert a + b == a;
    } else {
      var b' := b[..|b| - 1];
      assert a + b == (a + b') + [b[|b| - 1]];
      RunSnoc(st, a + b', b[|b| - 1]);
      RunAppend(st, a, b');
      RunSnoc(Run(st, a), b', b[|b| - 1]);
      assert b == b' + [b[|b| - 1]];
    }
  }

  /** A line that cannot store a record: neither a header nor one of the two flush triggers. */
  predicate Inert(k: LineKind) {
    !k.Header? && !k.PermissionName? && !k.AssignedDate?
  }

  /** Display-name, description, id and unrecognised lines never change the dictionary, the
      cursor or the name held in the scratch record. */
  lemma {:induction false} InertLinesStoreNothing(st: ParseState, ks: seq<LineKind>)
    requires forall i :: 0 <= i < |ks| ==> Inert(ks[i])
    ensures Run(st, ks).order == st.order
    ensures Run(st, ks).categories == st.categories
    ensures Run(st, ks).current == st.current
    ensures Run(st, ks).scratch.name == st.scratch.name
    decreases |ks|
  {
    if ks != [] {
      InertLinesStoreNothing(st, ks[..|ks| - 1]);
    }
  }

  /** A record whose `Assigned Date:` line never comes, and after which no further `Permission:`
      line comes, is never stored: it stays in the scratch record when the input ends. */
  lemma TrailingRecordDropped(st: ParseState, v: string, ks: seq<LineKind>)
    requires forall i :: 0 <= i < |ks| ==> Inert(ks[i])
    ensures Run(st, [PermissionName(v)] + ks).categories == Step(st, PermissionName(v)).categories
    ensures Run(st, [PermissionName(v)] + ks).scratch.name == Some(v)
  {
    RunAppend(st, [PermissionName(v)], ks);
    assert [PermissionName(v)] == [] + [PermissionName(v)];
    RunSnoc(st, [], PermissionName(v));
    InertLinesStoreNothing(Step(st, PermissionName(v)), ks);
  }

  predicate NoHeader(ks: seq<LineKind>) {
    forall i :: 0 <= i < |ks| ==> !ks[i].Header?
  }

  /** Before the first header no category exists, so nothing is stored yet, whatever the lines
      say. A record read there is not discarded, though: it stays in the scratch record (lemma
      `RecordCarriedIntoFirstCategory`). */
  lemma {:induction false} NothingStoredBeforeFirstHeader(ks: seq<LineKind>)
    requires NoHeader(ks)
    ensures Run(Init, ks).categories == map[] && Run(Init, ks).order == [] && Run(Init, ks).current == None
    decreases |ks|
  {
    if ks != [] {
      NothingStoredBeforeFirstHeader(ks[..|ks| - 1]);
    }
  }

  /** A record whose name was read before the first header is carried across it: the next
      `Permission:` line stores it in the first category (whose name, a capture of `.+?`, is
      never empty), complete with the fields read before the header. */
  lemma RecordCarriedIntoFirstCategory(ks: seq<LineKind>, n: string, c: nat, v: string)
    requires NoHeader(ks) && n != ""
    requires Truthy(Run(Init, ks).scratch.name)
    ensures Run(Init, ks + [Header(n, c), PermissionName(v)]).categories
         == map[n := Category(c, [ToPermission(Run(Init, ks).scratch)])]
  {
    NothingStoredBeforeFirstHeader(ks);
    var st := Run(Init, ks);
    RunSnoc(Init, ks, Header(n, c));
    var withHeader := Run(Init, ks + [Header(n, c)]);
    assert withHeader.categories == map[n := Category(c, [])] && withHeader.current == Some(n) && withHeader.scratch == st.scratch;
    assert Flushable(withHeader, withHeader.scratch);
    assert Flush(withHeader, withHeader.scratch).categories == map[n := Category(c, [] + [ToPermission(st.scratch)])];
    assert [] + [ToPermission(st.scratch)] == [ToPermission(st.scratch)];
    RunSnoc(Init, ks + [Header(n, c)], PermissionName(v));
    assert ks + [Header(n, c), PermissionName(v)] == ks + [Header(n, c)] + [PermissionName(v)];
  }

  /** "Permission: A", then the first header "C", then "Permission: B": the record "A", read
      before any header, is stored in "C". */
  lemma CarriedRecordExample()
    ensures Run(Init, [PermissionName("A"), Header("C", 1), PermissionName("B")]).categories
         == map["C" := Category(1, [Permission("A", None, None, None, None)])]
  {
    var ks := [PermissionName("A")];
    assert NoHeader(ks);
    assert Run(Init, ks) == Step(Init, PermissionName("A")) by { RunSnoc(Init, [], PermissionName("A")); }
    RecordCarriedIntoFirstCategory(ks, "C", 1, "B");
    assert ks + [Header("C", 1), PermissionName("B")] == [PermissionName("A"), Header("C", 1), PermissionName("B")];
  }

  /** While no header of its name reappears, a category keeps the count its header declared
      (the parsed records are never counted against it) and its records are only appended to. */
  lemma {:induction false} CategoryOnlyGrows(st: ParseState, ks: seq<LineKind>, n: string)
    requires n in st.categories
    requires forall i :: 0 <= i < |ks| ==> !(ks[i].Header? && ks[i].name == n)
    ensures n in Run(st, ks).categories
    ensures Run(st, ks).categories[n].count == st.categories[n].count
    ensures st.categories[n].permissions <= Run(st, ks).categories[n].permissions
    decreases |ks|
  {
    if ks != [] {
      CategoryOnlyGrows(st, ks[..|ks| - 1], n);
    }
  }

  /** A header opens its category with the declared count and an empty list, replacing any
      earlier category of that name but keeping its place in the dictionary order. */
  lemma HeaderOpensCategory(st: ParseState, ks: seq<LineKind>, n: string, c: nat)
    ensures Run(st, ks + [Header(n, c)]).categories == Run(st, ks).categories[n := Category(c, [])]
    ensures Run(st, ks + [Header(n, c)]).current == Some(n)
    ensures n in Run(st, ks).categories ==> Run(st, ks + [Header(n, c)]).order == Run(st, ks).order
    ensures n !in Run(st, ks).categories ==> Run(st, ks + [Header(n, c)]).order == Run(st, ks).order + [n]
  {
    RunSnoc(st, ks, Header(n, c));
  }

  /** One complete record of the inventory: the five labelled values. */
  datatype Entry = Entry(name: string, displayName: string, description: string, id: string, assignedDate: string)

  /** The line kinds of one complete record, in the inventory's field order. */
  function EntryKinds(e: Entry): seq<LineKind> {
    [PermissionName(e.name), DisplayName(e.displayName), Description(e.description), PermissionId(e.id),
     AssignedDate(e.assignedDate)]
  }

  function EntryPermission(e: Entry): Permission {
    Permission(e.name, Some(e.displayName), Some(e.description), Some(e.id), Some(e.assignedDate))
  }

  function BlockKinds(es: seq<Entry>): seq<LineKind>
    decreases |es|
  {
    if es == [] then [] else BlockKinds(es[..|es| - 1]) + EntryKinds(es[|es| - 1])
  }

  function EntryPermissions(es: seq<Entry>): (ps: seq<Permission>)
    ensures |ps| == |es| && forall i :: 0 <= i < |es| ==> ps[i] == EntryPermission(es[i])
  {
    seq(|es|, i requires 0 <= i < |es| => EntryPermission(es[i]))
  }

  lemma RunFive(st: ParseState, k: seq<LineKind>)
    requires |k| == 5
    ensures Run(st, k) == Step(Step(Step(Step(Step(st, k[0]), k[1]), k[2]), k[3]), k[4])
  {
    assert k[..5] == k;
    assert k[..5][..4] == k[..4];
    assert k[..4][..3] == k[..3];
    assert k[..3][..2] == k[..2];
    assert k[..2][..1] == k[..1];
    assert k[..1][..0] == [];
    assert Run(st, k[..1]) == Step(st, k[0]);
    assert Run(st, k[..2]) == Step(Run(st, k[..1]), k[1]);
    assert Run(st, k[..3]) == Step(Run(st, k[..2]), k[2]);
    assert Run(st, k[..4]) == Step(Run(st, k[..3]), k[3]);
  }

  /** Complete records under an open category are stored in input order, each exactly as read,
      and leave the scratch record empty. */
  lemma {:induction false} BlocksAppendInOrder(st: ParseState, es: seq<Entry>)
    requires Truthy(st.current) && st.current.value in st.categories && st.scratch == EmptyScratch
    requires forall i :: 0 <= i < |es| ==> es[i].name != ""
    ensures var r := Run(st, BlockKinds(es));
      && r.order == st.order && r.current == st.current && r.scratch == EmptyScratch
      && r.categories == st.categories[st.current.value := Category(
           st.categories[st.current.value].count,
           st.categories[st.current.value].permissions + EntryPermissions(es))]
    decreases |es|
  {
    var cur := st.current.value;
    var cat := st.categories[cur];
    if es == [] {
      assert cat.permissions + EntryPermissions(es) == cat.permissions;
      assert st.categories[cur := cat] == st.categories;
    } else {
      var es' := es[..|es| - 1];
      var e := es[|es| - 1];
      BlocksAppendInOrder(st, es');
      var mid := Run(st, BlockKinds(es'));
      RunAppend(st, BlockKinds(es'), EntryKinds(e));
      OneEntryStored(mid, e);
      assert EntryPermissions(es) == EntryPermissions(es') + [EntryPermission(e)];
      assert mid.categories[cur].permissions + [EntryPermission(e)] == cat.permissions + EntryPermissions(es);
    }
  }

  /** One complete record under an open category is appended to it, exactly as read. */
  lemma OneEntryStored(mid: ParseState, e: Entry)
    requires Truthy(mid.current) && mid.current.value in mid.categories && mid.scratch == EmptyScratch
    requires e.name != ""
    ensures var cur := mid.current.value;
      Run(mid, EntryKinds(e)) == mid.(categories := mid.categories[cur := Category(
        mid.categories[cur].count, mid.categories[cur].permissions + [EntryPermission(e)])])
  {
    RunFive(mid, EntryKinds(e));
    var s1 := Step(mid, PermissionName(e.name));
    assert s1.scratch == Scratch(Some(e.name), None, None, None, None);
    assert s1.categories == mid.categories;
    var s4 := Step(Step(Step(s1, DisplayName(e.displayName)), Description(e.description)), PermissionId(e.id));
    assert s4.categories == mid.categories && s4.current == mid.current;
    assert s4.scratch == Scratch(Some(e.name), Some(e.displayName), Some(e.description), Some(e.id), None);
    var full := s4.scratch.(assignedDate := Some(e.assignedDate));
    assert Flushable(s4, full);
    assert Run(mid, EntryKinds(e)) == Flush(s4, full).(scratch := EmptyScratch);
    assert ToPermission(full) == EntryPermission(e);
  }

  /** A well-formed inventory section: a header followed by complete records. */
  datatype Section = Section(name: string, count: nat, entries: seq<Entry>)

  function InventoryKinds(secs: seq<Section>): seq<LineKind>
    decreases |secs|
  {
    if secs == [] then []
    else
      var last := secs[|secs| - 1];
      InventoryKinds(secs[..|secs| - 1]) + [Header(last.name, last.count)] + BlockKinds(last.entries)
  }

  function SectionNames(secs: seq<Section>): (names: seq<string>)
    ensures |names| == |secs| && forall i :: 0 <= i < |secs| ==> names[i] == secs[i].name
  {
    seq(|secs|, i requires 0 <= i < |secs| => secs[i].name)
  }

  /** One more section after a parsed prefix adds one new category holding exactly its records. */
  lemma SectionAppended(pre: seq<Section>, last: Section)
    requires Run(Init, InventoryKinds(pre)).scratch == EmptyScratch
    requires last.name != "" && last.name !in Run(Init, InventoryKinds(pre)).categories
    requires forall j :: 0 <= j < |last.entries| ==> last.entries[j].name != ""
    ensures var mid := Run(Init, InventoryKinds(pre));
      var r := Run(Init, InventoryKinds(pre + [last]));
      && r.order == mid.order + [last.name]
      && r.categories == mid.categories[last.name := Category(last.count, EntryPermissions(last.entries))]
      && r.scratch == EmptyScratch
  {
    var h := Header(last.name, last.count);
    KindsOfAppended(pre, last);
    var mid := Run(Init, InventoryKinds(pre));
    RunAppend(Init, InventoryKinds(pre) + [h], BlockKinds(last.entries));
    RunSnoc(Init, InventoryKinds(pre), h);
    var started := Step(mid, h);
    BlocksAppendInOrder(started, last.entries);
    assert [] + EntryPermissions(last.entries) == EntryPermissions(last.entries);
  }

  lemma KindsOfAppended(pre: seq<Section>, last: Section)
    ensures InventoryKinds(pre + [last]) == (InventoryKinds(pre) + [Header(last.name, last.count)]) + BlockKinds(last.entries)
  {
    var secs := pre + [last];
    assert secs[..|secs| - 1] == pre;
  }

  /** Distinct, non-empty category names; every record named. */
  predicate WellFormedInventory(secs: seq<Section>) {
    && Distinct(SectionNames(secs))
    && (forall i :: 0 <= i < |secs| ==> secs[i].name != "")
    && (forall i, j :: 0 <= i < |secs| && 0 <= j < |secs[i].entries| ==> secs[i].entries[j].name != "")
  }

  lemma InventoryPrefix(secs: seq<Section>)
    requires WellFormedInventory(secs) && secs != []
    ensures var pre := secs[..|secs| - 1];
      var last := secs[|secs| - 1];
      && WellFormedInventory(pre)
      && SectionNames(secs) == SectionNames(pre) + [last.name]
      && last.name !in SectionNames(pre)
      && last.name != ""
      && forall j :: 0 <= j < |last.entries| ==> last.entries[j].name != ""
  {
    var pre := secs[..|secs| - 1];
    var names := SectionNames(secs);
    assert SectionNames(pre) == names[..|secs| - 1];
    assert forall i :: 0 <= i < |pre| ==> pre[i] == secs[i];
  }

  /** Parsing a well-formed inventory (distinct, non-empty category names; every record complete
      and named) gives back exactly its sections: the categories in input order, each with its
      declared count and its records in input order. */
  lemma {:induction false} InventoryRoundTrip(secs: seq<Section>)
    requires WellFormedInventory(secs)
    ensures Run(Init, InventoryKinds(secs)).order == SectionNames(secs)
    ensures forall n :: n in Run(Init, InventoryKinds(secs)).categories <==> n in SectionNames(secs)
    ensures forall i :: 0 <= i < |secs| ==>
      Run(Init, InventoryKinds(secs)).categories[secs[i].name] == Category(secs[i].count, EntryPermissions(secs[i].entries))
    ensures Run(Init, InventoryKinds(secs)).scratch == EmptyScratch
    decreases |secs|
  {
    if secs != [] {
      var pre := secs[..|secs| - 1];
      var last := secs[|secs| - 1];
      var names := SectionNames(secs);
      InventoryPrefix(secs);
      InventoryRoundTrip(pre);
      assert pre + [last] == secs;
      SectionAppended(pre, last);
      var r := Run(Init, InventoryKinds(secs));
      assert names == SectionNames(pre) + [last.name];
      forall i | 0 <= i < |secs|
        ensures r.categories[secs[i].name] == Category(secs[i].count, EntryPermissions(secs[i].entries))
      {
        if i < |pre| {
          assert secs[i] == pre[i];
          assert names[i] != names[|secs| - 1];
        }
      }
    }
  }

  // ================================================================ slug

  predicate IsSpaceChar(c: char) { c == ' ' }

  /** `generate_slug`: lower-case, spaces to dashes, then drop everything outside `[a-z0-9-]`. */
  function Slug(name: string): (r: string)
    ensures |r| <= |name|
    ensures forall i :: 0 <= i < |r| ==> IsLowerAlnumOrDash(r[i])
  {
    FilterChars(MapChars(Lower(name), IsSpaceChar, '-'), IsLowerAlnumOrDash)
  }

  /** A slug is its own slug. */
  lemma SlugIdempotent(name: string)
    ensures Slug(Slug(name)) == Slug(name)
  {
    var t := Slug(name);
    assert Lower(t) == t;
    assert MapChars(t, IsSpaceChar, '-') == t;
    FilterCharsAllKept(t, IsLowerAlnumOrDash);
  }

  /** Letters, digits and dashes survive in order; spaces become dashes. */
  lemma {:induction false} SlugOfLowerWords(name: string)
    requires forall i :: 0 <= i < |name| ==> IsLowerAlnumOrDash(name[i]) || name[i] == ' '
    ensures Slug(name) == MapChars(name, IsSpaceChar, '-')
  {
    assert Lower(name) == name;
    FilterCharsAllKept(MapChars(name, IsSpaceChar, '-'), IsLowerAlnumOrDash);
  }

  // ================================================================ risk

  datatype Risk = Critical | High | Medium | Low

  function RiskLabel(r: Risk): string {
    match r
    case Critical => "Critical"
    case High => "High"
    case Medium => "Medium"
    case Low => "Low"
  }

  /** `get_risk_level`: the first matching rule wins, on the lower-cased name and description (a
      missing description reads as empty). */
  function RiskLevel(name: string, description: Option<string>): (r: Risk)
    ensures var n := Lower(name); var d := Lower(description.GetOr(""));
      && (r == Critical <==> Contains(n, "delete") || Contains(n, "remove") || Contains(d, "delete"))
      && (r == High <==> r != Critical && (Contains(n, "readwrite") || Contains(n, "manage") || Contains(d, "write")))
      && (r == Medium <==> r != Critical && r != High && Contains(n, "read") && Contains(n, ".all"))
  {
    var n := Lower(name);
    var d := Lower(description.GetOr(""));
    if Contains(n, "delete") || Contains(n, "remove") || Contains(d, "delete") then Critical
    else if Contains(n, "readwrite") || Contains(n, "manage") || Contains(d, "write") then High
    else if Contains(n, "read") && Contains(n, ".all") then Medium
    else Low
  }

  /** A text without some character of `t` cannot contain `t`. */
  lemma NotContainsMissingChar(s: string, t: string, c: char)
    requires c in t && c !in s
    ensures !Contains(s, t)
  {
    if Contains(s, t) {
      var k :| 0 <= k < |t| && t[k] == c;
      ContainsChar(s, t, k);
    }
  }

  /** A ReadWrite name is never rated Medium or Low: it reaches the High rule at the latest. */
  lemma ReadWriteAtLeastHigh(name: string, description: Option<string>)
    requires Contains(Lower(name), "readwrite")
    ensures RiskLevel(name, description) in {Critical, High}
  {
  }

  // ================================================================ use cases

  /** The resource: the text before the first '.', or the whole name without one. */
  function Resource(name: string): (r: string)
    ensures r <= name && '.' !in r
    ensures |r| < |name| ==> name[|r|] == '.'
  {
    TakeUntil(name, '.')
  }

  function ReadCases(resource: string): seq<string> {
    ["- " + resource + " information retrieval", "- Reporting and analytics", "- Compliance and auditing"]
  }

  function WriteCases(resource: string): seq<string> {
    ["- " + resource + " management", "- Automated workflows", "- Data synchronization"]
  }

  function CreateCases(resource: string): seq<string> {
    ["- " + resource + " provisioning", "- Automated setup processes"]
  }

  function DeleteCases(resource: string): seq<string> {
    ["- " + resource + " lifecycle management", "- Cleanup operations"]
  }

  /** The bullet list `generate_use_cases` builds (case-sensitive keywords, groups in Read,
      Write, Create, Delete order). */
  function UseCaseLines(name: string): seq<string> {
    var res := Resource(name);
    (if Contains(name, "Read") then ReadCases(res) else [])
    + (if Contains(name, "Write") || Contains(name, "ReadWrite") then WriteCases(res) else [])
    + (if Contains(name, "Create") then CreateCases(res) else [])
    + (if Contains(name, "Delete") then DeleteCases(res) else [])
  }

  const GenericUseCase := "- General API operations"

  /** `generate_use_cases`: the generic bullet exactly when no group applies. */
  function UseCases(name: string): (s: string)
    ensures s == GenericUseCase <==> UseCaseLines(name) == []
  {
    var lines := UseCaseLines(name);
    if lines == [] then GenericUseCase
    else
      assert |lines| >= 2;
      JoinHasSeparator(lines, "\n");
      GenericUseCaseOneLine();
      DifferentByContent(Join(lines, "\n"), GenericUseCase, "\n");
      Join(lines, "\n")
  }

  /** The `'ReadWrite' in name` test is subsumed by `'Write' in name`. */
  lemma WriteTestSubsumesReadWrite(name: string)
    ensures (Contains(name, "Write") || Contains(name, "ReadWrite")) <==> Contains(name, "Write")
  {
    if Contains(name, "ReadWrite") {
      assert "Write" <= "ReadWrite"[4..];
      assert Contains("ReadWrite"[4..], "Write");
      assert Contains("ReadWrite", "Write");
      ContainsTransitive(name, "ReadWrite", "Write");
    }
  }

  /** A ReadWrite name yields the Read group followed by the Write group. */
  lemma ReadWriteYieldsBothGroups(name: string)
    requires Contains(name, "ReadWrite")
    ensures ReadCases(Resource(name)) + WriteCases(Resource(name)) <= UseCaseLines(name)
  {
    assert "Read" <= "ReadWrite";
    ContainsTransitive(name, "ReadWrite", "Read");
  }

  lemma {:induction false} JoinHasSeparator(parts: seq<string>, sep: string)
    requires |parts| >= 2
    ensures Contains(Join(parts, sep), sep)
  {
    ContainsInfix(parts[0], sep, Join(parts[1..], sep));
  }

  /** The generic bullet appears exactly when no keyword occurs in the name. */
  lemma GenericIffNoKeyword(name: string)
    ensures UseCases(name) == GenericUseCase <==>
      !Contains(name, "Read") && !Contains(name, "Write") && !Contains(name, "Create") && !Contains(name, "Delete")
  {
    NoLinesIffNoKeyword(name);
    GenericIffNoLines(name);
  }

  lemma NoLinesIffNoKeyword(name: string)
    ensures UseCaseLines(name) == [] <==>
      !Contains(name, "Read") && !Contains(name, "Write") && !Contains(name, "Create") && !Contains(name, "Delete")
  {
    WriteTestSubsumesReadWrite(name);
  }

  lemma GenericIffNoLines(name: string)
    ensures UseCases(name) == GenericUseCase <==> UseCaseLines(name) == []
  {
    var lines := UseCaseLines(name);
    if lines != [] {
      assert |lines| >= 2;
      JoinHasSeparator(lines, "\n");
      GenericUseCaseOneLine();
      DifferentByContent(Join(lines, "\n"), GenericUseCase, "\n");
    }
  }

  lemma GenericUseCaseOneLine()
    ensures !Contains(GenericUseCase, "\n")
  {
    NotContainsMissingChar(GenericUseCase, "\n", '\n');
  }

  lemma DifferentByContent(s: string, u: string, t: string)
    requires Contains(s, t) && !Contains(u, t)
    ensures s != u
  {
  }

  // ================================================================ example

  /** Which template `generate_example` picks: `.Read.` (which covers `.Read.All`) is checked
      before `.ReadWrite.All`. */
  datatype ExampleKind = ReadOnly | FullCrud | Generic

  function ExampleKindOf(name: string): ExampleKind {
    if Contains(name, ".Read.All") || Contains(name, ".Read.") then ReadOnly
    else if Contains(name, ".ReadWrite.All") then FullCrud
    else Generic
  }

  /** The `.Read.All` test is subsumed by the `.Read.` test. */
  lemma ReadAllSubsumed(name: string)
    ensures ExampleKindOf(name) == ReadOnly <==> Contains(name, ".Read.")
  {
    if Contains(name, ".Read.All") {
      assert ".Read." <= ".Read.All";
      ContainsTransitive(name, ".Read.All", ".Read.");
    }
  }

  /** Append 's' unless the resource already ends in 's'. */
  function Plural(resource: string): (r: string)
    ensures r == resource || r == resource + "s"
    ensures EndsWith(r, "s")
    ensures |resource| > 0 && resource[|resource| - 1] == 's' ==> r == resource
  {
    if EndsWith(resource, "s") then resource else resource + "s"
  }

  lemma PluralIdempotent(resource: string)
    ensures Plural(Plural(resource)) == Plural(resource)
  {
  }

  /** An operation that may raise `KeyError` for a missing dictionary key. */
  datatype Outcome<T> = Ok(value: T) | KeyError(key: string)

  function ReadOnlyExample(resource: string, plural: string): string {
    "```javascript\n// Read " + resource + " data\nconst data = await client\n  .api('/" + plural
    + "')\n  .select('id,displayName')\n  .top(50)\n  .get();\n\ndata.value.forEach(item => {\n"
    + "  console.log(`Item: ${item.displayName}`);\n});\n```"
  }

  function FullCrudExample(resource: string, plural: string): string {
    "```javascript\n// Read " + resource + " data\nconst items = await client\n  .api('/" + plural
    + "')\n  .get();\n\n// Create new " + resource + "\nconst newItem = {\n  displayName: 'New Item',\n"
    + "  description: 'Created via API'\n};\n\nconst created = await client\n  .api('/" + plural
    + "')\n  .post(newItem);\n\n// Update " + resource + "\nawait client\n  .api(`/" + plural
    + "/${created.id}`)\n  .patch({\n    displayName: 'Updated Item'\n  });\n\n// Delete " + resource
    + "\nawait client\n  .api(`/" + plural + "/${created.id}`)\n  .delete();\n```"
  }

  function GenericExample(displayName: string): string {
    "```javascript\n// Example usage for " + displayName + "\n// Implement based on specific use case\n```"
  }

  /** `generate_example`. The generic template reads the display name without a default, so it
      raises `KeyError('displayName')` when the record has none. */
  function Example(p: Permission): (r: Outcome<string>)
    ensures r.KeyError? <==> ExampleKindOf(p.name) == Generic && p.displayName.None?
    ensures r.KeyError? ==> r.key == "displayName"
  {
    match ExampleKindOf(p.name)
    case ReadOnly => Ok(ResourceExample(ReadOnly, p.name))
    case FullCrud => Ok(ResourceExample(FullCrud, p.name))
    case Generic => if p.displayName.Some? then Ok(GenericExample(p.displayName.value)) else KeyError("displayName")
  }

  /** The two templates written in terms of the lower-cased resource and its plural. */
  function ResourceExample(kind: ExampleKind, name: string): string {
    var resource := Lower(Resource(name));
    var plural := Plural(resource);
    if kind == ReadOnly then ReadOnlyExample(resource, plural) else FullCrudExample(resource, plural)
  }


  // ================================================================ security considerations

  /** A markdown list item. */
  function Bullet(text: string): string {
    "- " + text
  }

  const CriticalBullets := [
    Bullet("Implement multi-level approval workflows"),
    Bullet("Comprehensive audit logging required"),
    Bullet("Regular security reviews mandatory")]
  const OrgWideBullet := Bullet("Organization-wide scope requires strict access controls")
  const ClosingBullets := [Bullet("Monitor for unauthorized access"), Bullet("Comply with data protection regulations")]

  lemma BulletsDistinct()
    ensures OrgWideBullet[0] == '-'
    ensures OrgWideBullet !in CriticalBullets && OrgWideBullet !in ClosingBullets
    ensures CriticalBullets[0] != OrgWideBullet && CriticalBullets[0] !in ClosingBullets
  {
    assert |OrgWideBullet| == 57 && |CriticalBullets[0]| == 42;
  }

  /** The lines of `generate_security_considerations`. */
  function SecurityLines(p: Permission): (r: seq<string>)
    ensures var risk := RiskLevel(p.name, p.description);
      && |r| == 3 + (if risk == Critical then 3 else 0) + (if Contains(p.name, ".All") then 1 else 0)
      && r[0] == "**" + Upper(RiskLabel(risk)) + " RISK**: " + p.description.GetOr("Permission description")
      && r[|r| - 2..] == ClosingBullets
      && (risk == Critical <==> CriticalBullets <= r[1..])
      && (Contains(p.name, ".All") <==> OrgWideBullet in r)
  {
    var risk := RiskLevel(p.name, p.description);
    var head := "**" + Upper(RiskLabel(risk)) + " RISK**: " + p.description.GetOr("Permission description");
    var r := [head] + (if risk == Critical then CriticalBullets else [])
      + (if Contains(p.name, ".All") then [OrgWideBullet] else []) + ClosingBullets;
    BulletsDistinct();
    assert head[0] == '*';
    r
  }

  /** `generate_security_considerations`. */
  function Security(p: Permission): string {
    Join(SecurityLines(p), "\n")
  }

  // ================================================================ category page

  /** The page head, as consecutive pieces of text. */
  function HeadParts(name: string, count: nat): seq<string> {
    ["# ", name, " Permissions\n\n## Overview\n\nThis document provides comprehensive information about **",
     name, "** permissions in Microsoft Graph API.\n\n", "**Total Permissions:** ", NatToString(count),
     "\n\n## Permissions List\n\n"]
  }

  function EntryHeading(idx: nat, p: Permission): string {
    "### " + NatToString(idx) + ". " + p.name
  }

  /** Everything of an entry after its heading. */
  function EntryBody(p: Permission, example: string): string {
    "\n\n**Display Name:** " + p.displayName.GetOr("N/A")
    + "  \n**Permission ID:** " + p.id.GetOr("N/A") + "  \n**Type:** Application  \n**Assigned Date:** "
    + p.assignedDate.GetOr("N/A") + "  \n**Risk Level:** " + RiskLabel(RiskLevel(p.name, p.description))
    + "\n\n#### Description\n" + p.description.GetOr("No description available")
    + "\n\n#### Common Use Cases\n" + UseCases(p.name) + "\n\n#### Code Example\n" + example
    + "\n\n#### Security Considerations\n" + Security(p) + "\n\n---\n\n"
  }

  /** One numbered entry of a category page; fails when the example fails. */
  function EntryText(idx: nat, p: Permission): (r: Outcome<string>)
    ensures r.KeyError? <==> Example(p).KeyError?
    ensures r.Ok? ==> EntryHeading(idx, p) <= r.value
  {
    match Example(p)
    case KeyError(k) => KeyError(k)
    case Ok(example) =>
      var h := EntryHeading(idx, p);
      var rest := EntryBody(p, example);
      assert (h + rest)[..|h|] == h;
      Ok(h + rest)
  }

  /** The outcomes of the entries 1..n, numbered in list order. */
  function EntryOutcomes(ps: seq<Permission>): (outs: seq<Outcome<string>>)
    ensures |outs| == |ps| && forall i :: 0 <= i < |ps| ==> outs[i] == EntryText(i + 1, ps[i])
  {
    seq(|ps|, i requires 0 <= i < |ps| => EntryText(i + 1, ps[i]))
  }

  /** Concatenate texts in order; the first failure aborts the whole. */
  function ConcatAll(outs: seq<Outcome<string>>): (r: Outcome<string>)
    ensures r.KeyError? <==> exists i :: 0 <= i < |outs| && outs[i].KeyError?
    decreases |outs|
  {
    if outs == [] then Ok("")
    else
      var pre := outs[..|outs| - 1];
      assert forall i :: 0 <= i < |pre| ==> pre[i] == outs[i];
      match ConcatAll(pre)
      case KeyError(k) => KeyError(k)
      case Ok(text) =>
        match outs[|outs| - 1]
        case KeyError(k) => KeyError(k)
        case Ok(t) => Ok(text + t)
  }

  /** Every piece of a successful concatenation occurs in it. */
  lemma {:induction false} ConcatAllContains(outs: seq<Outcome<string>>)
    requires ConcatAll(outs).Ok?
    ensures forall i :: 0 <= i < |outs| ==> outs[i].Ok? && Contains(ConcatAll(outs).value, outs[i].value)
    decreases |outs|
  {
    if outs != [] {
      var pre := outs[..|outs| - 1];
      ConcatAllContains(pre);
      var text := ConcatAll(pre).value;
      var t := outs[|outs| - 1].value;
      forall i | 0 <= i < |outs|
        ensures outs[i].Ok? && Contains(text + t, outs[i].value)
      {
        if i < |pre| {
          assert pre[i] == outs[i];
          ContainsInLeft(text, t, outs[i].value);
        } else {
          ContainsSelf(t);
          ContainsInRight(text, t, t);
        }
      }
    }
  }

  /** Entries 1..n of a category page; the first failing entry makes the whole page fail. */
  function Entries(ps: seq<Permission>): Outcome<string> {
    ConcatAll(EntryOutcomes(ps))
  }

  /** The entries fail exactly when some record needs the generic example and has no display
      name. */
  lemma EntriesFailIff(ps: seq<Permission>)
    ensures Entries(ps).KeyError? <==> exists i :: 0 <= i < |ps| && Example(ps[i]).KeyError?
  {
    var outs := EntryOutcomes(ps);
    if Entries(ps).KeyError? {
      var i :| 0 <= i < |outs| && outs[i].KeyError?;
      assert Example(ps[i]).KeyError?;
    }
    if exists i :: 0 <= i < |ps| && Example(ps[i]).KeyError? {
      var i :| 0 <= i < |ps| && Example(ps[i]).KeyError?;
      assert outs[i].KeyError?;
    }
  }

  /** Every record's numbered heading, `### i. name`, appears in the entries. */
  lemma EntriesHaveHeadings(ps: seq<Permission>)
    requires Entries(ps).Ok?
    ensures forall i :: 0 <= i < |ps| ==> Contains(Entries(ps).value, EntryHeading(i + 1, ps[i]))
  {
    var outs := EntryOutcomes(ps);
    ConcatAllContains(outs);
    forall i | 0 <= i < |ps|
      ensures Contains(Entries(ps).value, EntryHeading(i + 1, ps[i]))
    {
      var e := outs[i].value;
      assert Contains(e, EntryHeading(i + 1, ps[i]));
      ContainsTransitive(Entries(ps).value, e, EntryHeading(i + 1, ps[i]));
    }
  }

  /** The fixed closing sections and the footer, as consecutive pieces of text. */
  function FooterParts(name: string, count: nat): seq<string> {
    ["## Best Practices\n\n### 1. Access Control\n- Implement role-based access control (RBAC)\n- Use least privilege principle\n- Regular permission audits\n- Monitor usage patterns\n\n### 2. Security\n- Encrypt sensitive data in transit and at rest\n- Implement comprehensive logging\n- Regular security assessments\n- Incident response procedures\n\n### 3. Compliance\n- GDPR compliance for data access\n- Data retention policies\n- Audit trail maintenance\n- Privacy impact assessments\n\n### 4. Monitoring\n- Track all API calls\n- Alert on suspicious patterns\n- Regular access reviews\n- Performance monitoring\n\n## Related Permissions\n\nThis category may be used in conjunction with:\n- **User.Read.All** - User information access\n- **Directory.Read.All** - Directory data access\n- **AuditLog.Read.All** - Audit logging\n\n## Additional Resources\n\n- [Microsoft Graph ",
     name,
     " Documentation](https://learn.microsoft.com/en-us/graph/api/resources/)\n- [Permission Best Practices](https://learn.microsoft.com/en-us/graph/permissions-reference)\n- [Security and Compliance](https://learn.microsoft.com/en-us/graph/security-authorization)\n\n---\n\n**Last Updated:** 2025-11-23  \n**Category:** ",
     name,
     "  \n", "**Total Permissions:** ", NatToString(count), "  \n**Documentation Version:** 1.0\n"]
  }

  /** `generate_category_doc`: head, the numbered entries and the footer. A failing entry fails
      the page with its key; otherwise the page holds the entries. */
  function CategoryDoc(name: string, cat: Category): (o: Outcome<string>)
    ensures Entries(cat.permissions).KeyError? ==> o == KeyError(Entries(cat.permissions).key)
    ensures Entries(cat.permissions).Ok? ==> o.Ok? && Contains(o.value, Entries(cat.permissions).value)
  {
    PageAround(name, cat.count, Entries(cat.permissions))
  }

  /** Wraps the entries, or passes on the failing key. */
  function PageAround(name: string, count: nat, entries: Outcome<string>): (o: Outcome<string>)
    ensures entries.KeyError? ==> o == KeyError(entries.key)
    ensures entries.Ok? ==> o.Ok? && Contains(o.value, entries.value)
  {
    if entries.KeyError? then KeyError(entries.key)
    else
      PageHoldsBody(name, count, entries.value);
      Ok(Page(name, count, entries.value))
  }

  /** The page around the entries. */
  function Page(name: string, count: nat, body: string): string {
    Concat(HeadParts(name, count)) + body + Concat(FooterParts(name, count))
  }

  /** A page fails exactly when some record needs the generic example and has no display name. */
  lemma CategoryDocFailIff(name: string, cat: Category)
    ensures CategoryDoc(name, cat).KeyError? <==>
      exists i :: 0 <= i < |cat.permissions| && cat.permissions[i].displayName.None? && ExampleKindOf(cat.permissions[i].name) == Generic
  {
    PageFailsWithEntries(name, cat);
    EntriesFailIff(cat.permissions);
  }

  lemma PageFailsWithEntries(name: string, cat: Category)
    ensures CategoryDoc(name, cat).KeyError? <==> Entries(cat.permissions).KeyError?
  {
  }

  /** A generated page lists every record under its number, in list order. */
  lemma CategoryDocListsEntry(name: string, cat: Category, i: nat)
    requires CategoryDoc(name, cat).Ok? && i < |cat.permissions|
    ensures Contains(CategoryDoc(name, cat).value, EntryHeading(i + 1, cat.permissions[i]))
  {
    HeadingInText(CategoryDoc(name, cat).value, cat.permissions, i);
  }

  /** Any text holding the entries holds each heading. */
  lemma HeadingInText(text: string, ps: seq<Permission>, i: nat)
    requires Entries(ps).Ok? && Contains(text, Entries(ps).value) && i < |ps|
    ensures Contains(text, EntryHeading(i + 1, ps[i]))
  {
    EntriesHaveHeadings(ps);
    ContainsTransitive(text, Entries(ps).value, EntryHeading(i + 1, ps[i]));
  }

  /** A generated page states the count the header declared, whatever the list actually holds. */
  lemma CategoryDocStatesDeclaredCount(name: string, cat: Category)
    requires CategoryDoc(name, cat).Ok?
    ensures Contains(CategoryDoc(name, cat).value, "**Total Permissions:** " + NatToString(cat.count))
  {
    PageFailsWithEntries(name, cat);
    var body := Entries(cat.permissions).value;
    PageAroundEntries(name, cat.count, body);
    PageStatesCount(name, cat.count, body);
  }

  /** Entries that were generated are wrapped in the page. */
  lemma PageAroundEntries(name: string, count: nat, body: string)
    ensures PageAround(name, count, Ok(body)) == Ok(Page(name, count, body))
  {
  }

  /** The page holds the entries. */
  lemma PageHoldsBody(name: string, count: nat, body: string)
    ensures Contains(Page(name, count, body), body)
  {
    ContainsSelf(body);
    ContainsInMiddle(Concat(HeadParts(name, count)), body, Concat(FooterParts(name, count)), body);
  }

  /** The page states the count it was given. */
  lemma PageStatesCount(name: string, count: nat, body: string)
    ensures Contains(Page(name, count, body), "**Total Permissions:** " + NatToString(count))
  {
    HeadStatesCount(name, count);
    ContainsInFirst(Concat(HeadParts(name, count)), body, Concat(FooterParts(name, count)),
      "**Total Permissions:** " + NatToString(count));
  }

  lemma HeadStatesCount(name: string, count: nat)
    ensures Contains(Concat(HeadParts(name, count)), "**Total Permissions:** " + NatToString(count))
  {
    ConcatContainsParts(HeadParts(name, count), 5);
  }

  // ================================================================ driver

  /** The file one category is written to: `<slug>.md` in the output directory. */
  function PagePath(name: string): string {
    Slug(name) + ".md"
  }

  /** What `main` has done so far: the paths that exist, the pages written (in order), the
      counter of generated pages and the key of the `KeyError` that aborted the run, if any. */
  datatype DriverState = DriverState(
    files: set<string>,
    written: seq<(string, string)>,
    generated: nat,
    failure: Option<string>)

  /** One iteration of the loop of `main`, given the page the category renders to: skip a
      category whose file exists, otherwise write its page and count it; a `KeyError` while
      rendering stops the program, so nothing further happens. */
  function DriverStep(st: DriverState, name: string, page: Outcome<string>): DriverState {
    if st.failure.Some? then st
    else
      var path := PagePath(name);
      if path in st.files then st
      else
        match page
        case KeyError(k) => st.(failure := Some(k))
        case Ok(doc) => st.(files := st.files + {path}, written := st.written + [(path, doc)], generated := st.generated + 1)
  }

  /** The pages of the categories, in dictionary order. */
  function Pages(order: seq<string>, categories: map<string, Category>): (pages: seq<Outcome<string>>)
    requires forall n :: n in order ==> n in categories
    ensures |pages| == |order|
  {
    seq(|order|, i requires 0 <= i < |order| => CategoryDoc(order[i], categories[order[i]]))
  }

  /** The loop of `main` over the categories in dictionary order, `pages[i]` being what
      category `names[i]` renders to. */
  function DriverRun(st: DriverState, names: seq<string>, pages: seq<Outcome<string>>): DriverState
    requires |names| == |pages|
  {
    if names == [] then st
    else DriverStep(DriverRun(st, names[..|names| - 1], pages[..|pages| - 1]), names[|names| - 1], pages[|pages| - 1])
  }

  function DriverStart(existing: set<string>): DriverState {
    DriverState(existing, [], 0, None)
  }

  /** The invariant of the loop: only new paths were written, each once, and they are the
      files added to the existing ones; the counter counts the written pages. */
  ghost predicate DriverInv(existing: set<string>, st: DriverState) {
    && st.generated == |st.written|
    && st.files == existing + (set w | w in st.written :: w.0)
    && (forall k :: 0 <= k < |st.written| ==> st.written[k].0 !in existing)
    && (forall j, k :: 0 <= j < k < |st.written| ==> st.written[j].0 != st.written[k].0)
  }

  lemma DriverStepInv(existing: set<string>, st: DriverState, name: string, page: Outcome<string>)
    requires DriverInv(existing, st)
    ensures DriverInv(existing, DriverStep(st, name, page))
  {
    var next := DriverStep(st, name, page);
    if next.written != st.written {
      var path := PagePath(name);
      assert path !in st.files;
      assert next.written == st.written + [(path, page.value)];
      forall j | 0 <= j < |st.written|
        ensures st.written[j].0 != path
      {
        assert st.written[j].0 in st.files;
      }
      assert (set w | w in next.written :: w.0) == (set w | w in st.written :: w.0) + {path};
    }
  }

  lemma {:induction false} DriverRunInv(existing: set<string>, names: seq<string>, pages: seq<Outcome<string>>)
    requires |names| == |pages|
    ensures DriverInv(existing, DriverRun(DriverStart(existing), names, pages))
  {
    if names != [] {
      var n := |names| - 1;
      DriverRunInv(existing, names[..n], pages[..n]);
      DriverStepInv(existing, DriverRun(DriverStart(existing), names[..n], pages[..n]), names[n], pages[n]);
    }
  }

  /** `main` never overwrites a file: every page it writes goes to a path that did not exist
      before the run, and no path is written twice (of two categories with the same slug, the
      later one is skipped). */
  lemma NeverOverwrites(existing: set<string>, names: seq<string>, pages: seq<Outcome<string>>)
    requires |names| == |pages|
    ensures var st := DriverRun(DriverStart(existing), names, pages);
      && st.generated == |st.written|
      && st.files == existing + (set w | w in st.written :: w.0)
      && (forall k :: 0 <= k < |st.written| ==> st.written[k].0 !in existing)
      && (forall j, k :: 0 <= j < k < |st.written| ==> st.written[j].0 != st.written[k].0)
  {
    DriverRunInv(existing, names, pages);
  }

  /** The counter never exceeds the number of categories, so the printed skipped count is never
      negative. */
  lemma {:induction false} GeneratedAtMostCategories(st: DriverState, names: seq<string>, pages: seq<Outcome<string>>)
    requires |names| == |pages|
    ensures st.generated <= DriverRun(st, names, pages).generated <= st.generated + |names|
  {
    if names != [] {
      GeneratedAtMostCategories(st, names[..|names| - 1], pages[..|pages| - 1]);
    }
  }

  /** A failed run stays failed and changes nothing more. */
  lemma {:induction false} FailureIsFinal(st: DriverState, names: seq<string>, pages: seq<Outcome<string>>)
    requires |names| == |pages| && st.failure.Some?
    ensures DriverRun(st, names, pages) == st
  {
    if names != [] {
      FailureIsFinal(st, names[..|names| - 1], pages[..|pages| - 1]);
    }
  }

  /** Each step keeps the existing files and, unless it fails, leaves the category's page on disk. */
  lemma FilesOnlyGrow(st: DriverState, name: string, page: Outcome<string>)
    ensures st.files <= DriverStep(st, name, page).files
    ensures DriverStep(st, name, page).failure.None? ==> PagePath(name) in DriverStep(st, name, page).files
  {
  }

  /** A failure, once recorded, is never cleared. */
  lemma FailureSticks(st: DriverState, name: string, page: Outcome<string>)
    requires st.failure.Some?
    ensures DriverStep(st, name, page) == st
  {
  }

  /** After a run without failure every category has its page on disk. */
  lemma {:induction false} EveryPagePresent(st: DriverState, names: seq<string>, pages: seq<Outcome<string>>)
    requires |names| == |pages|
    requires DriverRun(st, names, pages).failure.None?
    ensures forall n :: n in names ==> PagePath(n) in DriverRun(st, names, pages).files
  {
    if names != [] {
      var k := |names| - 1;
      var mid := DriverRun(st, names[..k], pages[..k]);
      EveryPagePresent(st, names[..k], pages[..k]);
      FilesOnlyGrow(mid, names[k], pages[k]);
      forall n | n in names
        ensures PagePath(n) in DriverRun(st, names, pages).files
      {
        if n != names[k] {
          assert n in names[..k];
        }
      }
    }
  }

  /** A run in which every page already exists changes nothing. */
  lemma {:induction false} AllPresentSkipped(st: DriverState, names: seq<string>, pages: seq<Outcome<string>>)
    requires |names| == |pages|
    requires forall n :: n in names ==> PagePath(n) in st.files
    ensures DriverRun(st, names, pages) == st
  {
    if names != [] {
      AllPresentSkipped(st, names[..|names| - 1], pages[..|pages| - 1]);
      assert names[|names| - 1] in names;
    }
  }

  /** Running the generator again over the same inventory writes nothing, once the first run
      completed: every page now exists and is skipped. */
  lemma SecondRunWritesNothing(existing: set<string>, names: seq<string>, pages: seq<Outcome<string>>)
    requires |names| == |pages|
    requires DriverRun(DriverStart(existing), names, pages).failure.None?
    ensures var again := DriverStart(DriverRun(DriverStart(existing), names, pages).files);
      DriverRun(again, names, pages) == again
  {
    var files := DriverRun(DriverStart(existing), names, pages).files;
    EveryPagePresent(DriverStart(existing), names, pages);
    AllPresentSkipped(DriverStart(files), names, pages);
  }

  lemma {:induction false} DriverRunAppend(st: DriverState, a: seq<string>, pa: seq<Outcome<string>>,
                                           b: seq<string>, pb: seq<Outcome<string>>)
    requires |a| == |pa| && |b| == |pb|
    ensures DriverRun(st, a + b, pa + pb) == DriverRun(DriverRun(st, a, pa), b, pb)
    decreases |b|
  {
    if b != [] {
      assert (a + b)[..|a + b| - 1] == a + b[..|b| - 1];
      assert (pa + pb)[..|pa + pb| - 1] == pa + pb[..|pb| - 1];
      DriverRunAppend(st, a, pa, b[..|b| - 1], pb[..|pb| - 1]);
    } else {
      assert a + b == a && pa + pb == pa;
    }
  }

  lemma DriverRunSnoc(st: DriverState, names: seq<string>, pages: seq<Outcome<string>>, i: nat)
    requires |names| == |pages| && i < |names|
    ensures DriverRun(st, names[..i + 1], pages[..i + 1]) == DriverStep(DriverRun(st, names[..i], pages[..i]), names[i], pages[i])
  {
    assert names[..i + 1][..i] == names[..i] && pages[..i + 1][..i] == pages[..i];
  }

  /** `main` after parsing: the loop over the categories. A `KeyError` while rendering a page
      ends the loop (the program stops there); the pages written before stay written. */
  method GenerateAll(order: seq<string>, categories: map<string, Category>, existing: set<string>)
    returns (files: set<string>, written: seq<(string, string)>, generated: nat, failure: Option<string>)
    requires forall n :: n in order ==> n in categories
    ensures DriverState(files, written, generated, failure) == DriverRun(DriverStart(existing), order, Pages(order, categories))
  {
    files, written, generated, failure := WritePages(order, Pages(order, categories), existing);
  }

  /** The loop of `main`, `pages[i]` being the rendering of category `names[i]`; a page is only
      looked at when its file does not exist yet. */
  method WritePages(names: seq<string>, pages: seq<Outcome<string>>, existing: set<string>)
    returns (files: set<string>, written: seq<(string, string)>, generated: nat, failure: Option<string>)
    requires |names| == |pages|
    ensures DriverState(files, written, generated, failure) == DriverRun(DriverStart(existing), names, pages)
  {
    files, written, generated, failure := existing, [], 0, None;
    var i := 0;
    while i < |names| && failure.None?
      invariant 0 <= i <= |names|
      invariant DriverState(files, written, generated, failure) == DriverRun(DriverStart(existing), names[..i], pages[..i])
    {
      DriverRunSnoc(DriverStart(existing), names, pages, i);
      var path := PagePath(names[i]);
      if path !in files {
        match pages[i]
        case KeyError(k) =>
          failure := Some(k);
        case Ok(text) =>
          files := files + {path};
          written := written + [(path, text)];
          generated := generated + 1;
      }
      i := i + 1;
    }
    if i < |names| {
      FailureIsFinal(DriverRun(DriverStart(existing), names[..i], pages[..i]), names[i..], pages[i..]);
      DriverRunAppend(DriverStart(existing), names[..i], pages[..i], names[i..], pages[i..]);
      assert names[..i] + names[i..] == names && pages[..i] + pages[i..] == pages;
    } else {
      assert names[..i] == names && pages[..i] == pages;
    }
  }
}
