/** The unified activity feed (server/services/activityFeed.ts): emails, meetings, calendar
    events and chat messages mapped to one item shape, merged, sorted newest first and cut into
    an offset/limit page; a case-insensitive search over a page; and the per-user meeting list,
    which merges uploaded and attendee-matched meetings by id. The database queries are
    parameters: each returns its rows for the limit it is given. */
module ActivityFeed {
  import opened Basics

  // ================================================================ items

  datatype ActivityType = EmailActivity | MeetingActivity | CalendarActivity | ChatActivity

  /** `ActivityItem`, without its display-only metadata flags and its raw row. */
  datatype ActivityItem = ActivityItem(
    id: string,
    kind: ActivityType,
    title: string,
    description: Option<string>,
    timestamp: int,
    participants: seq<string>,
    source: string,
    sourceId: Option<string>)

  /** The number of body characters an item's description keeps. */
  const PreviewLength: nat := 200

  /** `text?.substring(0, 200) || null`. */
  function Preview(text: Option<string>): (d: Option<string>)
    ensures d.None? <==> !Truthy(text)
    ensures d.Some? ==> text.Some? && |d.value| <= PreviewLength && d.value != [] && d.value <= text.value
    ensures d.Some? ==> |d.value| == if |text.value| < PreviewLength then |text.value| else PreviewLength
  {
    if Truthy(text) then Some(Prefix(text.value, PreviewLength)) else None
  }

  /** The stored email fields the feed reads; `from` is never null, a missing `to` or `cc`
      list is empty. */
  datatype EmailRow = EmailRow(id: string, outlookId: string, subject: Option<string>, from: string,
                               to: seq<string>, cc: seq<string>, body: Option<string>, receivedAt: int)

  /** The item of an email: titled by its subject or "(No subject)", described by the start of
      its body, with the sender, then the `to` and then the `cc` recipients as participants. */
  function EmailItem(e: EmailRow): (a: ActivityItem)
    ensures a.kind == EmailActivity && a.id == e.id && a.timestamp == e.receivedAt
    ensures a.participants == [e.from] + e.to + e.cc
    ensures Truthy(e.subject) ==> a.title == e.subject.value
    ensures !Truthy(e.subject) ==> a.title == "(No subject)"
    ensures a.description == Preview(e.body)
  {
    ActivityItem(e.id, EmailActivity, StrOr(e.subject, "(No subject)"), Preview(e.body), e.receivedAt,
                 [e.from] + e.to + e.cc, "outlook", Some(e.outlookId))
  }

  /** The stored meeting fields the feed reads. */
  datatype MeetingRow = MeetingRow(id: string, title: string, summary: Option<string>, description: Option<string>,
                                   meetingDate: int, attendees: Option<seq<string>>, source: string,
                                   sourceId: Option<string>)

  /** The item of a meeting: described by its summary, else its description; its attendees
      (none when missing) as participants. */
  function MeetingItem(m: MeetingRow): (a: ActivityItem)
    ensures a.kind == MeetingActivity && a.id == m.id && a.timestamp == m.meetingDate && a.title == m.title
    ensures Truthy(m.summary) ==> a.description == m.summary
    ensures !Truthy(m.summary) && Truthy(m.description) ==> a.description == m.description
    ensures !Truthy(m.summary) && !Truthy(m.description) ==> a.description.None?
    ensures a.participants == m.attendees.GetOr([])
  {
    var description := if Truthy(m.summary) then m.summary else if Truthy(m.description) then m.description else None;
    var sourceId := if Truthy(m.sourceId) then m.sourceId else None;
    ActivityItem(m.id, MeetingActivity, m.title, description, m.meetingDate, m.attendees.GetOr([]), m.source, sourceId)
  }

  /** The organizer object of a calendar event. */
  datatype Organizer = Organizer(email: Option<string>, name: Option<string>)

  datatype CalendarRow = CalendarRow(id: string, msEventId: string, subject: Option<string>, bodyPreview: Option<string>,
                                     start: int, organizer: Option<Organizer>)

  /** The organizer's address when present, else the organizer's name, else nobody. */
  function OrganizerParticipants(o: Option<Organizer>): (ps: seq<string>)
    ensures |ps| <= 1
    ensures o.Some? && Truthy(o.value.email) ==> ps == [o.value.email.value]
    ensures o.Some? && !Truthy(o.value.email) && Truthy(o.value.name) ==> ps == [o.value.name.value]
    ensures o.None? || (!Truthy(o.value.email) && !Truthy(o.value.name)) ==> ps == []
  {
    if o.Some? && Truthy(o.value.email) then [o.value.email.value]
    else if o.Some? && Truthy(o.value.name) then [o.value.name.value]
    else []
  }

  /** The item of a calendar event. */
  function CalendarItem(c: CalendarRow): (a: ActivityItem)
    ensures a.kind == CalendarActivity && a.id == c.id && a.timestamp == c.start
    ensures a.participants == OrganizerParticipants(c.organizer)
    ensures Truthy(c.subject) ==> a.title == c.subject.value
    ensures !Truthy(c.subject) ==> a.title == "(No subject)"
    ensures Truthy(c.bodyPreview) ==> a.description == c.bodyPreview
    ensures Truthy(c.bodyPreview) <==> a.description.Some?
  {
    var description := if Truthy(c.bodyPreview) then c.bodyPreview else None;
    ActivityItem(c.id, CalendarActivity, StrOr(c.subject, "(No subject)"), description, c.start,
                 OrganizerParticipants(c.organizer), "outlook", Some(c.msEventId))
  }

  datatype ChatRow = ChatRow(id: string, msMessageId: string, body: Option<string>, sentDateTime: int,
                             senderDisplayName: string, chatTopic: Option<string>, chatType: Option<string>)

  /** The item of a chat message: titled by its chat's topic, else "<chat type> message". */
  function ChatItem(c: ChatRow): (a: ActivityItem)
    ensures a.kind == ChatActivity && a.id == c.id && a.timestamp == c.sentDateTime
    ensures a.participants == [c.senderDisplayName]
    ensures Truthy(c.chatTopic) ==> a.title == c.chatTopic.value
    ensures !Truthy(c.chatTopic) ==> a.title == StrOr(c.chatType, "Chat") + " message"
    ensures a.description == Preview(c.body)
  {
    ActivityItem(c.id, ChatActivity, StrOr(c.chatTopic, StrOr(c.chatType, "Chat") + " message"), Preview(c.body),
                 c.sentDateTime, [c.senderDisplayName], "teams", Some(c.msMessageId))
  }

  // ================================================================ getUnifiedActivityFeed

  /** The feed's filters that shape the page; a missing or zero limit means 50, a missing
      offset 0. */
  datatype Filters = Filters(types: Option<seq<ActivityType>>, limit: Option<nat>, offset: Option<nat>)

  const DefaultLimit: nat := 50

  function AllTypes(): seq<ActivityType> { [EmailActivity, MeetingActivity, CalendarActivity, ChatActivity] }

  function TypesOf(f: Filters): seq<ActivityType> { f.types.GetOr(AllTypes()) }

  function LimitOf(f: Filters): (n: nat)
    ensures n > 0
  {
    if f.limit.Some? && f.limit.value != 0 then f.limit.value else DefaultLimit
  }

  function OffsetOf(f: Filters): nat { f.offset.GetOr(0) }

  /** The limit each source query is given: enough rows for the page plus ten. */
  function FetchLimit(f: Filters): nat { LimitOf(f) + OffsetOf(f) + 10 }

  /** The four source queries, each as the items it returns for a row limit. */
  datatype Sources = Sources(
    emails: nat -> seq<ActivityItem>,
    meetings: nat -> seq<ActivityItem>,
    calendar: nat -> seq<ActivityItem>,
    chat: nat -> seq<ActivityItem>)

  /** The items of the requested sources, in the order email, meeting, calendar, chat. */
  function Fetched(src: Sources, types: seq<ActivityType>, n: nat): seq<ActivityItem> {
    (if EmailActivity in types then src.emails(n) else [])
    + (if MeetingActivity in types then src.meetings(n) else [])
    + (if CalendarActivity in types then src.calendar(n) else [])
    + (if ChatActivity in types then src.chat(n) else [])
  }

  function Timestamp(a: ActivityItem): int { a.timestamp }

  /** A page of the feed. */
  datatype FeedPage = FeedPage(activities: seq<ActivityItem>, total: nat, hasMore: bool)

  /** The page `offset .. offset + limit` of the merged items, the merged count, and whether
      items remain after the page. */
  function Paginate(all: seq<ActivityItem>, offset: nat, limit: nat): (page: FeedPage)
    ensures page.total == |all|
    ensures page.activities == Slice(all, offset, offset + limit)
    ensures page.hasMore <==> offset + limit < page.total
    ensures |page.activities| <= limit
  {
    FeedPage(Slice(all, offset, offset + limit), |all|, offset + limit < |all|)
  }

  /** A page of a newest-first sequence is newest first, and holds only its items. */
  lemma PageNewestFirst(all: seq<ActivityItem>, offset: nat, limit: nat)
    requires NewestFirst(all, Timestamp)
    ensures NewestFirst(Paginate(all, offset, limit).activities, Timestamp)
    ensures forall a :: a in Paginate(all, offset, limit).activities ==> a in all
  {
    SliceNewestFirst(all, offset, offset + limit, Timestamp);
  }

  /** The merged items, newest first. */
  function Merged(src: Sources, f: Filters): (all: seq<ActivityItem>)
  {
    SortNewestFirst(Fetched(src, TypesOf(f), FetchLimit(f)), Timestamp)
  }

  /** The merged items are the fetched items, reordered newest first. */
  lemma MergedSorted(src: Sources, f: Filters)
    ensures multiset(Merged(src, f)) == multiset(Fetched(src, TypesOf(f), FetchLimit(f)))
    ensures NewestFirst(Merged(src, f), Timestamp)
  {
    SortNewestFirstSorted(Fetched(src, TypesOf(f), FetchLimit(f)), Timestamp);
  }

  /** `getUnifiedActivityFeed(filters)`: the requested sources, each fetched with the limit
      plus the offset plus ten rows, merged newest first and paginated. */
  function GetUnifiedActivityFeed(src: Sources, f: Filters): (page: FeedPage)
    ensures page == Paginate(Merged(src, f), OffsetOf(f), LimitOf(f))
    ensures |page.activities| <= LimitOf(f)
    ensures NewestFirst(page.activities, Timestamp)
  {
    MergedSorted(src, f);
    PageNewestFirst(Merged(src, f), OffsetOf(f), LimitOf(f));
    Paginate(Merged(src, f), OffsetOf(f), LimitOf(f))
  }

  /** A source that returns only its own kind of item. */
  ghost predicate OnlyKind(fetch: nat -> seq<ActivityItem>, kind: ActivityType) {
    forall n, a :: a in fetch(n) ==> a.kind == kind
  }

  lemma FetchedKinds(src: Sources, types: seq<ActivityType>, n: nat, a: ActivityItem)
    requires OnlyKind(src.emails, EmailActivity) && OnlyKind(src.meetings, MeetingActivity)
    requires OnlyKind(src.calendar, CalendarActivity) && OnlyKind(src.chat, ChatActivity)
    requires a in Fetched(src, types, n)
    ensures a.kind in types
  {
  }

  /** Sources that return only their own kind of item put only requested kinds in the feed;
      `getActivityByType` is the feed with one requested kind. */
  lemma FeedHasOnlyRequestedTypes(src: Sources, f: Filters)
    requires OnlyKind(src.emails, EmailActivity) && OnlyKind(src.meetings, MeetingActivity)
    requires OnlyKind(src.calendar, CalendarActivity) && OnlyKind(src.chat, ChatActivity)
    ensures forall a :: a in GetUnifiedActivityFeed(src, f).activities ==> a.kind in TypesOf(f)
  {
    var fetched := Fetched(src, TypesOf(f), FetchLimit(f));
    var all := Merged(src, f);
    MergedSorted(src, f);
    PageNewestFirst(all, OffsetOf(f), LimitOf(f));
    forall a | a in GetUnifiedActivityFeed(src, f).activities ensures a.kind in TypesOf(f) {
      assert a in multiset(all);
      FetchedKinds(src, TypesOf(f), FetchLimit(f), a);
    }
  }

  /** Consecutive pages of the same merged items leave no gap and do not overlap. */
  lemma PagesTile(all: seq<ActivityItem>, offset: nat, limit: nat)
    ensures Paginate(all, offset, limit).activities + Paginate(all, offset + limit, limit).activities
      == Slice(all, offset, offset + 2 * limit)
  {
    if offset + limit <= |all| {
      if offset + 2 * limit <= |all| {
        assert all[offset..offset + 2 * limit] == all[offset..offset + limit] + all[offset + limit..offset + 2 * limit];
      } else {
        assert all[offset..|all|] == all[offset..offset + limit] + all[offset + limit..|all|];
      }
    }
  }

  // ================================================================ searchActivities

  /** An item matches a lower-cased query in its title, its description or a participant. */
  predicate MatchesQuery(a: ActivityItem, q: string) {
    || Contains(Lower(a.title), q)
    || (Truthy(a.description) && Contains(Lower(a.description.value), q))
    || (exists p :: p in a.participants && Contains(Lower(p), q))
  }

  /** `searchActivities(query, filters)`: the items of the feed page that match the lower-cased
      query, in page order. */
  function SearchActivities(src: Sources, f: Filters, query: string): (r: seq<ActivityItem>)
    ensures var page := GetUnifiedActivityFeed(src, f).activities;
      && |r| <= |page|
      && (forall a :: a in r ==> a in page && MatchesQuery(a, Lower(query)))
      && (forall a :: a in page && MatchesQuery(a, Lower(query)) ==> a in r)
  {
    var q := Lower(query);
    Filter(GetUnifiedActivityFeed(src, f).activities, (a: ActivityItem) => MatchesQuery(a, q))
  }

  /** The empty query matches every item: the search returns the whole page. */
  lemma EmptyQueryKeepsPage(src: Sources, f: Filters)
    ensures SearchActivities(src, f, "") == GetUnifiedActivityFeed(src, f).activities
  {
    var page := GetUnifiedActivityFeed(src, f).activities;
    var keep := (a: ActivityItem) => MatchesQuery(a, Lower(""));
    forall a | a in page ensures keep(a) {
      assert [] <= Lower(a.title);
    }
    FilterKeepsAll(page, keep);
  }

  /** The search ignores the case of the query: two queries equal up to case return the same
      items. */
  lemma SearchIgnoresQueryCase(src: Sources, f: Filters, q1: string, q2: string)
    requires EqualsIgnoreCase(q1, q2)
    ensures SearchActivities(src, f, q1) == SearchActivities(src, f, q2)
  {
    assert Lower(q1) == Lower(q2) by {
      forall i | 0 <= i < |q1| ensures Lower(q1)[i] == Lower(q2)[i] { }
    }
  }

  /** Filtering with a test every element passes keeps the sequence. */
  lemma {:induction false} FilterKeepsAll<T>(s: seq<T>, p: T -> bool)
    requires forall x :: x in s ==> p(x)
    ensures Filter(s, p) == s
  {
    if s != [] {
      FilterKeepsAll(s[1..], p);
      assert s == [s[0]] + s[1..];
    }
  }

  // ================================================================ getMeetingActivities

  /** The distinct ids of the meetings, in order of first occurrence: the key order of
      `new Map(all.map(m => [m.id, m]))`. */
  function IdsInOrder(ms: seq<MeetingRow>): (ids: seq<string>)
    ensures |ids| <= |ms|
    ensures forall i, j :: 0 <= i < j < |ids| ==> ids[i] != ids[j]
    ensures forall m :: m in ms ==> m.id in ids
    ensures forall id :: id in ids ==> exists m :: m in ms && m.id == id
  {
    if ms == [] then []
    else
      var init := IdsInOrder(ms[..|ms| - 1]);
      var last := ms[|ms| - 1];
      assert forall m :: m in ms ==> m in ms[..|ms| - 1] || m == last;
      if last.id in init then init else init + [last.id]
  }

  /** The position of the last meeting with the id, -1 when there is none. */
  function LastIndex(ms: seq<MeetingRow>, id: string): (k: int)
    ensures -1 <= k < |ms|
    ensures k >= 0 ==> ms[k].id == id
    ensures forall j :: k < j < |ms| ==> ms[j].id != id
  {
    if ms == [] then -1
    else if ms[|ms| - 1].id == id then |ms| - 1
    else LastIndex(ms[..|ms| - 1], id)
  }

  /** The last meeting with the id: the value the Map keeps for it after every `set`. */
  function LastWithId(ms: seq<MeetingRow>, id: string): (m: MeetingRow)
    requires exists m :: m in ms && m.id == id
    ensures m in ms && m.id == id
    ensures 0 <= LastIndex(ms, id) && m == ms[LastIndex(ms, id)]
  {
    var k := LastIndex(ms, id);
    assert k >= 0 by {
      var m :| m in ms && m.id == id;
      var i :| 0 <= i < |ms| && ms[i] == m;
    }
    ms[k]
  }

  /** The position of the first meeting with the id, the length of the list when there is
      none. */
  function FirstIndex(ms: seq<MeetingRow>, id: string): (k: nat)
    ensures k <= |ms|
    ensures k < |ms| ==> ms[k].id == id
    ensures forall j :: 0 <= j < k ==> ms[j].id != id
  {
    if ms == [] then 0
    else if ms[0].id == id then 0
    else 1 + FirstIndex(ms[1..], id)
  }

  /** Appending a meeting keeps the first position of every id already present. */
  lemma FirstIndexSnoc(ms: seq<MeetingRow>, x: MeetingRow, id: string)
    requires FirstIndex(ms, id) < |ms|
    ensures FirstIndex(ms + [x], id) == FirstIndex(ms, id)
  {
    var k := FirstIndex(ms, id);
    assert (ms + [x])[k] == ms[k];
    var k' := FirstIndex(ms + [x], id);
    assert (ms + [x])[k'] == ms[k'];
  }

  /** Every id listed occurs in the list. */
  lemma IdsFound(ms: seq<MeetingRow>, k: nat)
    requires k < |IdsInOrder(ms)|
    ensures FirstIndex(ms, IdsInOrder(ms)[k]) < |ms|
  {
    var id := IdsInOrder(ms)[k];
    assert id in IdsInOrder(ms);
    var m :| m in ms && m.id == id;
    var i :| 0 <= i < |ms| && ms[i] == m;
  }

  /** The first position of an id not yet in the list is the position it is appended at. */
  lemma FirstIndexNew(ms: seq<MeetingRow>, x: MeetingRow)
    requires x.id !in IdsInOrder(ms)
    ensures FirstIndex(ms + [x], x.id) == |ms|
  {
    forall j | 0 <= j < |ms| ensures (ms + [x])[j].id != x.id {
      assert (ms + [x])[j] == ms[j];
      assert ms[j] in ms;
    }
  }

  /** The ids come in the order of their first occurrence in the list. */
  lemma {:induction false} IdsInFirstOccurrenceOrder(ms: seq<MeetingRow>)
    ensures var ids := IdsInOrder(ms);
      forall i, j :: 0 <= i < j < |ids| ==> FirstIndex(ms, ids[i]) < FirstIndex(ms, ids[j])
  {
    if ms != [] {
      var init, x := ms[..|ms| - 1], ms[|ms| - 1];
      assert ms == init + [x];
      IdsInFirstOccurrenceOrder(init);
      var before := IdsInOrder(init);
      forall k | 0 <= k < |before|
        ensures FirstIndex(ms, before[k]) == FirstIndex(init, before[k]) < |init|
      {
        IdsFound(init, k);
        FirstIndexSnoc(init, x, before[k]);
      }
      if x.id !in before {
        FirstIndexNew(init, x);
      }
    }
  }

  /** The meetings `UniqueById` keeps: each is the last with its id, and they come in the order
      in which their ids first occur. */
  lemma UniqueByIdLastInFirstOrder(ms: seq<MeetingRow>)
    ensures var r := UniqueById(ms);
      && (forall k :: 0 <= k < |r| ==> 0 <= LastIndex(ms, r[k].id) && r[k] == ms[LastIndex(ms, r[k].id)])
      && (forall i, j :: 0 <= i < j < |r| ==> FirstIndex(ms, r[i].id) < FirstIndex(ms, r[j].id))
  {
    var ids := IdsInOrder(ms);
    var r := UniqueById(ms);
    UniqueByIdIds(ms);
    IdsInFirstOccurrenceOrder(ms);
  }

  /** The meeting kept at each position is the last one with the id listed there. */
  lemma UniqueByIdIds(ms: seq<MeetingRow>)
    ensures var ids, r := IdsInOrder(ms), UniqueById(ms);
      |r| == |ids| && forall k :: 0 <= k < |r| ==> r[k].id == ids[k] && 0 <= LastIndex(ms, ids[k]) && r[k] == ms[LastIndex(ms, ids[k])]
  {
    var ids := IdsInOrder(ms);
    assert forall k :: 0 <= k < |ids| ==> ids[k] in ids;
  }

  /** `Array.from(new Map(all.map(m => [m.id, m])).values())`: one meeting per id, in order of
      first occurrence, each being the last meeting with that id. */
  function UniqueById(ms: seq<MeetingRow>): (r: seq<MeetingRow>)
    ensures |r| <= |ms|
    ensures forall m :: m in r ==> m in ms
    ensures forall i, j :: 0 <= i < j < |r| ==> r[i].id != r[j].id
    ensures forall m :: m in ms ==> exists k :: 0 <= k < |r| && r[k].id == m.id
  {
    var ids := IdsInOrder(ms);
    assert forall k :: 0 <= k < |ids| ==> ids[k] in ids;
    var r := seq(|ids|, k requires 0 <= k < |ids| => LastWithId(ms, ids[k]));
    forall m | m in ms ensures exists k :: 0 <= k < |r| && r[k].id == m.id {
      var k :| 0 <= k < |ids| && ids[k] == m.id;
      assert r[k].id == m.id;
    }
    r
  }

  /** A meeting is the user's as an attendee when some attendee, lower-cased, contains the
      user's address or is contained in it. */
  predicate AttendedBy(m: MeetingRow, userEmail: string) {
    m.attendees.Some? && exists a :: a in m.attendees.value && (Contains(Lower(a), userEmail) || Contains(userEmail, Lower(a)))
  }

  function MeetingDate(m: MeetingRow): int { m.meetingDate }

  /** The candidates the user attends; none when the user has no address. */
  function AttendeeMeetings(userEmail: string, candidates: seq<MeetingRow>): (r: seq<MeetingRow>)
    ensures forall m :: m in r <==> userEmail != "" && m in candidates && AttendedBy(m, userEmail)
  {
    if userEmail != "" then Filter(candidates, (m: MeetingRow) => AttendedBy(m, userEmail)) else []
  }

  /** The address the attendee test uses: the user's, lower-cased, or empty. */
  function UserAddress(email: Option<string>): string { Lower(StrOr(email, "")) }

  /** The per-user meetings of `getMeetingActivities` before they become items: `uploaded` are
      the user's uploads and `candidates` the meetings with attendees, as the store returns them;
      `email` is the user's address. The uploads and the attended candidates are merged by
      id, sorted newest first and cut to the limit (lemma `UserMeetingsFacts`). */
  function UserMeetings(email: Option<string>, uploaded: seq<MeetingRow>, candidates: seq<MeetingRow>, limit: nat)
    : seq<MeetingRow>
  {
    var unique := UniqueById(uploaded + AttendeeMeetings(UserAddress(email), candidates));
    Slice(SortNewestFirst(unique, MeetingDate), 0, limit)
  }

  /** The per-user meetings: at most `limit`, distinct ids, newest first, each an upload or an
      attended candidate. */
  lemma UserMeetingsFacts(email: Option<string>, uploaded: seq<MeetingRow>, candidates: seq<MeetingRow>, limit: nat)
    ensures var r := UserMeetings(email, uploaded, candidates, limit);
      && |r| <= limit
      && (forall i, j :: 0 <= i < j < |r| ==> r[i].id != r[j].id)
      && (forall m :: m in r ==> m in uploaded || (m in candidates && AttendedBy(m, UserAddress(email))))
      && NewestFirst(r, MeetingDate)
  {
    var unique := UniqueById(uploaded + AttendeeMeetings(UserAddress(email), candidates));
    SortNewestFirstSorted(unique, MeetingDate);
    SliceNewestFirst(SortNewestFirst(unique, MeetingDate), 0, limit, MeetingDate);
    UserMeetingsDistinct(email, uploaded, candidates, limit);
    UserMeetingsOrigin(email, uploaded, candidates, limit);
  }

  /** No id occurs twice among the per-user meetings. */
  lemma UserMeetingsDistinct(email: Option<string>, uploaded: seq<MeetingRow>, candidates: seq<MeetingRow>, limit: nat)
    ensures var r := UserMeetings(email, uploaded, candidates, limit);
      forall i, j :: 0 <= i < j < |r| ==> r[i].id != r[j].id
  {
    var unique := UniqueById(uploaded + AttendeeMeetings(UserAddress(email), candidates));
    var sorted := SortNewestFirst(unique, MeetingDate);
    SortKeepsIdsDistinct(unique, sorted);
    var r := Slice(sorted, 0, limit);
    forall i, j | 0 <= i < j < |r| ensures r[i].id != r[j].id {
      assert r[i] == sorted[i] && r[j] == sorted[j];
    }
  }

  /** Sorting by date keeps the ids distinct. */
  lemma SortKeepsIdsDistinct(ms: seq<MeetingRow>, sorted: seq<MeetingRow>)
    requires sorted == SortNewestFirst(ms, MeetingDate)
    requires forall i, j :: 0 <= i < j < |ms| ==> ms[i].id != ms[j].id
    ensures forall i, j :: 0 <= i < j < |sorted| ==> sorted[i].id != sorted[j].id
  {
    ReorderKeepsKeysDistinct(ms, sorted, (m: MeetingRow) => m.id);
  }

  /** Each per-user meeting is an upload or a candidate the user attends. */
  lemma UserMeetingsOrigin(email: Option<string>, uploaded: seq<MeetingRow>, candidates: seq<MeetingRow>, limit: nat)
    ensures var r := UserMeetings(email, uploaded, candidates, limit);
      forall m :: m in r ==> m in uploaded || (m in candidates && AttendedBy(m, UserAddress(email)))
  {
    var unique := UniqueById(uploaded + AttendeeMeetings(UserAddress(email), candidates));
    var sorted := SortNewestFirst(unique, MeetingDate);
    var r := Slice(sorted, 0, limit);
    forall m | m in r ensures m in uploaded || (m in candidates && AttendedBy(m, UserAddress(email))) {
      assert m in sorted;
      assert m in multiset(unique);
    }
  }

  /** Every upload, and every candidate the user attends, has its id among the merged meetings
      before the cut to the limit. */
  lemma UserMeetingsCoverBothLists(email: Option<string>, uploaded: seq<MeetingRow>, candidates: seq<MeetingRow>, m: MeetingRow)
    requires m in uploaded || (UserAddress(email) != "" && m in candidates && AttendedBy(m, UserAddress(email)))
    ensures exists u :: u in UniqueById(uploaded + AttendeeMeetings(UserAddress(email), candidates)) && u.id == m.id
  {
    var all := uploaded + AttendeeMeetings(UserAddress(email), candidates);
    assert m in all;
    var r := UniqueById(all);
    var k :| 0 <= k < |r| && r[k].id == m.id;
    assert r[k] in r;
  }

  /** The items of the per-user meetings. */
  function UserMeetingActivities(email: Option<string>, uploaded: seq<MeetingRow>, candidates: seq<MeetingRow>, limit: nat)
    : (items: seq<ActivityItem>)
    ensures |items| <= limit
    ensures forall i, j :: 0 <= i < j < |items| ==> items[i].id != items[j].id
    ensures NewestFirst(items, Timestamp)
  {
    var ms := UserMeetings(email, uploaded, candidates, limit);
    UserMeetingsFacts(email, uploaded, candidates, limit);
    var items := seq(|ms|, k requires 0 <= k < |ms| => MeetingItem(ms[k]));
    assert forall k :: 0 <= k < |ms| ==> items[k].id == ms[k].id && items[k].timestamp == ms[k].meetingDate;
    items
  }
}
