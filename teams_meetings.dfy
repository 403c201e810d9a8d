/** Teams meeting shaping (server/integrations/teams-app.ts): turning a calendar event into an
    online-meeting record, the online-meeting filter of a user's calendar, the organisation-wide
    collection that keeps the first record per meeting id and orders them newest first, and the
    administrator check. Graph responses are inputs; a request that fails is `None`. */
module TeamsMeetings {
  import opened Basics

  // ================================================================ events and meetings

  /** An e-mail address object of Graph. */
  datatype EmailAddress = EmailAddress(address: Option<string>, name: Option<string>)

  datatype Attendee = Attendee(emailAddress: Option<EmailAddress>, response: Option<string>, kind: Option<string>)

  /** The calendar event fields the conversion reads; `start` and `end` are in milliseconds. */
  datatype CalendarEvent = CalendarEvent(
    id: string,
    subject: Option<string>,
    start: int,
    end: int,
    isOnlineMeeting: bool,
    onlineMeeting: Option<Option<string>>,  // present with its join URL, or absent
    onlineMeetingUrl: Option<string>,
    attendees: Option<seq<Attendee>>,
    organizer: Option<EmailAddress>,
    bodyPreview: Option<string>,
    location: Option<string>,
    onlineMeetingProvider: Option<string>,
    categories: Option<seq<string>>,
    isAllDay: Option<bool>,
    isCancelled: Option<bool>)

  datatype Participant = Participant(email: Option<string>, name: Option<string>, status: Option<string>,
                                     kind: Option<string>)

  /** The meeting record of an online event. */
  datatype Meeting = Meeting(
    id: string,
    subject: string,
    startDateTime: int,
    endDateTime: int,
    joinUrl: Option<string>,
    participants: seq<Participant>,
    organizer: Option<EmailAddress>,
    bodyPreview: Option<string>,
    location: Option<string>,
    isOnlineMeeting: bool,
    meetingProvider: string,
    categories: seq<string>,
    isAllDay: bool,
    isCancelled: bool)

  function ToParticipant(a: Attendee): (p: Participant)
    ensures a.emailAddress.Some? ==> p.email == a.emailAddress.value.address && p.name == a.emailAddress.value.name
    ensures a.emailAddress.None? ==> p.email.None? && p.name.None?
    ensures p.status == a.response && p.kind == a.kind
  {
    match a.emailAddress
    case Some(e) => Participant(e.address, e.name, a.response, a.kind)
    case None => Participant(None, None, a.response, a.kind)
  }

  /** `convertCalendarEventToMeeting`: nothing unless the event is an online meeting with its
      meeting details; otherwise the meeting with its defaults filled in. */
  function ConvertCalendarEventToMeeting(e: CalendarEvent): (m: Option<Meeting>)
    ensures m.Some? <==> e.isOnlineMeeting && e.onlineMeeting.Some?
    ensures m.Some? ==>
      && m.value.id == e.id && m.value.startDateTime == e.start && m.value.endDateTime == e.end
      && m.value.isOnlineMeeting
      && m.value.subject == StrOr(e.subject, "Untitled Meeting")
      && m.value.meetingProvider == StrOr(e.onlineMeetingProvider, "teamsForBusiness")
      && m.value.categories == e.categories.GetOr([])
      && m.value.isAllDay == e.isAllDay.GetOr(false)
      && m.value.isCancelled == e.isCancelled.GetOr(false)
      && m.value.joinUrl == (if Truthy(e.onlineMeeting.value) then e.onlineMeeting.value else e.onlineMeetingUrl)
      && |m.value.participants| == |e.attendees.GetOr([])|
      && (forall i :: 0 <= i < |m.value.participants| ==> m.value.participants[i] == ToParticipant(e.attendees.value[i]))
  {
    if !e.isOnlineMeeting || e.onlineMeeting.None? then None
    else
      var attendees := e.attendees.GetOr([]);
      var participants := seq(|attendees|, i requires 0 <= i < |attendees| => ToParticipant(attendees[i]));
      var joinUrl := if Truthy(e.onlineMeeting.value) then e.onlineMeeting.value else e.onlineMeetingUrl;
      Some(Meeting(e.id, StrOr(e.subject, "Untitled Meeting"), e.start, e.end, joinUrl, participants, e.organizer,
                   e.bodyPreview, e.location, true, StrOr(e.onlineMeetingProvider, "teamsForBusiness"),
                   e.categories.GetOr([]), e.isAllDay.GetOr(false), e.isCancelled.GetOr(false)))
  }

  /** An event that converts: flagged online and carrying its meeting details. */
  predicate Converts(e: CalendarEvent) { e.isOnlineMeeting && e.onlineMeeting.Some? }

  /** The meetings of the events that convert, in order. */
  function ConvertAll(events: seq<CalendarEvent>): (ms: seq<Meeting>)
    ensures |ms| == Count(events, Converts)
    ensures forall m :: m in ms ==> exists e :: e in events && Converts(e) && ConvertCalendarEventToMeeting(e) == Some(m)
  {
    if events == [] then []
    else
      var rest := ConvertAll(events[1..]);
      assert forall e :: e in events[1..] ==> e in events;
      var m := ConvertCalendarEventToMeeting(events[0]);
      if m.Some? then [m.value] + rest else rest
  }

  /** `getUserOnlineMeetings` once the calendar has answered: `events` is the first request's
      answer or, when it failed, the fallback's; when both fail there are no meetings. Only
      events flagged online that convert are returned, in the calendar's order. */
  function GetUserOnlineMeetings(events: Option<seq<CalendarEvent>>, fallback: Option<seq<CalendarEvent>>)
    : (ms: seq<Meeting>)
    ensures events.None? && fallback.None? ==> ms == []
    ensures forall m :: m in ms ==> m.isOnlineMeeting
    ensures events.Some? ==> ms == ConvertAll(events.value) && |ms| == Count(events.value, Converts)
    ensures events.None? && fallback.Some? ==> ms == ConvertAll(fallback.value) && |ms| == Count(fallback.value, Converts)
  {
    var answer := if events.Some? then events else fallback;
    if answer.None? then []
    else
      OnlineFilterKeepsConverting(answer.value);
      ConvertAll(Filter(answer.value, (e: CalendarEvent) => e.isOnlineMeeting))
  }

  /** Filtering on the online flag first changes nothing: every event that converts is flagged. */
  lemma {:induction false} OnlineFilterKeepsConverting(events: seq<CalendarEvent>)
    ensures ConvertAll(Filter(events, (e: CalendarEvent) => e.isOnlineMeeting)) == ConvertAll(events)
  {
    if events != [] {
      var online := (e: CalendarEvent) => e.isOnlineMeeting;
      OnlineFilterKeepsConverting(events[1..]);
      if events[0].isOnlineMeeting {
        var f := Filter(events, online);
        assert f == [events[0]] + Filter(events[1..], online);
        assert f[1..] == Filter(events[1..], online);
      } else {
        assert Filter(events, online) == Filter(events[1..], online);
        assert !Converts(events[0]);
      }
    }
  }

  // ================================================================ getAllOnlineMeetings

  /** A user of the organisation. */
  datatype GraphUser = GraphUser(id: string, userPrincipalName: Option<string>, displayName: Option<string>)

  /** A meeting with its calendar's owner. */
  datatype OrgMeeting = OrgMeeting(meeting: Meeting, organizerEmail: Option<string>, organizerName: Option<string>,
                                   organizerId: string, calendarOwnerEmail: string, calendarOwnerName: Option<string>)

  /** A meeting of `upn`'s calendar with its owner: the organizer's address and name when the
      event gives them, else the owner's. */
  function WithOwner(m: Meeting, u: GraphUser, upn: string): (om: OrgMeeting)
    ensures om.meeting == m && om.calendarOwnerEmail == upn && om.organizerId == u.id
    ensures om.calendarOwnerName == u.displayName
    ensures m.organizer.Some? && Truthy(m.organizer.value.address) ==> om.organizerEmail == m.organizer.value.address
    ensures !(m.organizer.Some? && Truthy(m.organizer.value.address)) ==> om.organizerEmail == Some(upn)
    ensures m.organizer.Some? && Truthy(m.organizer.value.name) ==> om.organizerName == m.organizer.value.name
    ensures !(m.organizer.Some? && Truthy(m.organizer.value.name)) ==> om.organizerName == u.displayName
  {
    var address := if m.organizer.Some? && Truthy(m.organizer.value.address) then m.organizer.value.address else Some(upn);
    var name := if m.organizer.Some? && Truthy(m.organizer.value.name) then m.organizer.value.name else u.displayName;
    OrgMeeting(m, address, name, u.id, upn, u.displayName)
  }

  function Owned(ms: seq<Meeting>, u: GraphUser, upn: string): (r: seq<OrgMeeting>)
    ensures |r| == |ms| && forall i :: 0 <= i < |r| ==> r[i] == WithOwner(ms[i], u, upn)
  {
    seq(|ms|, i requires 0 <= i < |ms| => WithOwner(ms[i], u, upn))
  }

  /** The meetings collected from the users' calendars, in order: a user without a principal
      name, or whose calendar request failed, adds none. */
  function Collected(users: seq<GraphUser>, meetingsOf: string -> Option<seq<Meeting>>): seq<OrgMeeting> {
    if users == [] then []
    else
      var init := Collected(users[..|users| - 1], meetingsOf);
      var u := users[|users| - 1];
      if !Truthy(u.userPrincipalName) || meetingsOf(u.userPrincipalName.value).None? then init
      else init + Owned(meetingsOf(u.userPrincipalName.value).value, u, u.userPrincipalName.value)
  }

  /** Every collected meeting comes from the calendar of a user with a principal name, who is
      its calendar owner. */
  lemma {:induction false} CollectedOwners(users: seq<GraphUser>, meetingsOf: string -> Option<seq<Meeting>>)
    ensures forall om :: om in Collected(users, meetingsOf) ==>
      exists u :: u in users && Truthy(u.userPrincipalName) && om.calendarOwnerEmail == u.userPrincipalName.value
        && meetingsOf(u.userPrincipalName.value).Some? && om.meeting in meetingsOf(u.userPrincipalName.value).value
  {
    if users != [] {
      var init := users[..|users| - 1];
      CollectedOwners(init, meetingsOf);
      assert forall u :: u in init ==> u in users;
      var u := users[|users| - 1];
      assert u in users;
      if Truthy(u.userPrincipalName) && meetingsOf(u.userPrincipalName.value).Some? {
        var ms := meetingsOf(u.userPrincipalName.value).value;
        forall om | om in Owned(ms, u, u.userPrincipalName.value) ensures om.meeting in ms {
          var i :| 0 <= i < |ms| && Owned(ms, u, u.userPrincipalName.value)[i] == om;
        }
      }
    }
  }

  function IdOf(om: OrgMeeting): string { om.meeting.id }

  /** The ids of a sequence of meetings. */
  function Ids(ms: seq<OrgMeeting>): (ids: seq<string>)
    ensures |ids| == |ms| && forall i :: 0 <= i < |ms| ==> ids[i] == ms[i].meeting.id
  {
    seq(|ms|, i requires 0 <= i < |ms| => ms[i].meeting.id)
  }

  /** One meeting per id, the first seen, in the order first seen: the values of the Map the
      collection fills with `has`/`set`. */
  function KeepFirstById(ms: seq<OrgMeeting>): (r: seq<OrgMeeting>)
    ensures |r| <= |ms|
    ensures forall m :: m in r ==> m in ms
  {
    if ms == [] then []
    else
      var init := KeepFirstById(ms[..|ms| - 1]);
      var last := ms[|ms| - 1];
      if last.meeting.id in Ids(init) then init else init + [last]
  }

  /** The kept meetings have distinct ids, and every meeting's id is among them. */
  lemma {:induction false} KeptDistinctAndCovering(ms: seq<OrgMeeting>)
    ensures forall i, j :: 0 <= i < j < |KeepFirstById(ms)| ==>
      KeepFirstById(ms)[i].meeting.id != KeepFirstById(ms)[j].meeting.id
    ensures forall m :: m in ms ==> m.meeting.id in Ids(KeepFirstById(ms))
  {
    if ms != [] {
      var init := ms[..|ms| - 1];
      var last := ms[|ms| - 1];
      KeptDistinctAndCovering(init);
      var r0 := KeepFirstById(init);
      assert forall m :: m in ms ==> m in init || m == last by {
        assert ms == init + [last];
      }
      if last.meeting.id !in Ids(r0) {
        assert Ids(r0 + [last]) == Ids(r0) + [last.meeting.id];
      }
    }
  }

  /** No meeting before position `i` has the id of the one at `i`. */
  predicate FirstOfItsId(ms: seq<OrgMeeting>, i: int)
    requires 0 <= i < |ms|
  {
    forall j :: 0 <= j < i ==> ms[j].meeting.id != ms[i].meeting.id
  }

  /** The meeting kept for an id is the first one seen with it. */
  lemma {:induction false} KeptIsFirst(ms: seq<OrgMeeting>)
    ensures forall k :: 0 <= k < |KeepFirstById(ms)| ==>
      exists i :: 0 <= i < |ms| && ms[i] == KeepFirstById(ms)[k] && FirstOfItsId(ms, i)
  {
    if ms != [] {
      var init := ms[..|ms| - 1];
      KeptIsFirst(init);
      KeptDistinctAndCovering(init);
      var r := KeepFirstById(ms);
      var r0 := KeepFirstById(init);
      forall k | 0 <= k < |r|
        ensures exists i :: 0 <= i < |ms| && ms[i] == r[k] && FirstOfItsId(ms, i)
      {
        if k < |r0| {
          assert r[k] == r0[k];
          var i :| 0 <= i < |init| && init[i] == r0[k] && FirstOfItsId(init, i);
          assert forall j :: 0 <= j <= i ==> ms[j] == init[j];
          assert FirstOfItsId(ms, i);
        } else {
          var i := |ms| - 1;
          assert ms[i] == r[k] && ms[i].meeting.id !in Ids(r0);
          forall j | 0 <= j < i ensures ms[j].meeting.id != ms[i].meeting.id {
            assert ms[j] == init[j];
            assert init[j] in init;
          }
          assert FirstOfItsId(ms, i);
        }
      }
      assert forall k :: 0 <= k < |r| ==> exists i :: 0 <= i < |ms| && ms[i] == r[k] && FirstOfItsId(ms, i);
    } else {
      assert KeepFirstById(ms) == [];
    }
  }

  function StartOf(om: OrgMeeting): int { om.meeting.startDateTime }

  /** `getAllOnlineMeetings` once the users are listed: `meetingsOf` gives each principal name's
      online meetings (`None` when fetching them failed). The meetings are collected user by
      user, the first per id is kept, and the result is ordered newest first. */
  method GetAllOnlineMeetings(users: seq<GraphUser>, meetingsOf: string -> Option<seq<Meeting>>)
    returns (sorted: seq<OrgMeeting>)
    ensures sorted == SortNewestFirst(KeepFirstById(Collected(users, meetingsOf)), StartOf)
    ensures NewestFirst(sorted, StartOf)
    ensures forall i, j :: 0 <= i < j < |sorted| ==> sorted[i].meeting.id != sorted[j].meeting.id
  {
    var allMeetings: seq<OrgMeeting> := [];
    var n := 0;
    while n < |users|
      invariant n <= |users|
      invariant allMeetings == Collected(users[..n], meetingsOf)
    {
      var user := users[n];
      assert users[..n + 1][..n] == users[..n];
      if Truthy(user.userPrincipalName) {
        var meetings := meetingsOf(user.userPrincipalName.value);
        if meetings.Some? {
          allMeetings := allMeetings + Owned(meetings.value, user, user.userPrincipalName.value);
        }
      }
      n := n + 1;
    }
    assert users[..n] == users;
    var unique := DedupFirst(allMeetings);
    sorted := SortNewestFirst(unique, StartOf);
    SortNewestFirstSorted(unique, StartOf);
    KeptDistinctAndCovering(allMeetings);
    ReorderKeepsKeysDistinct(unique, sorted, IdOf);
  }

  /** The Map loop of `getAllOnlineMeetings`: a meeting is recorded unless its id is already
      there. The Map is held as its entries in insertion order, the order `values()` reads
      them back in. */
  method DedupFirst(all: seq<OrgMeeting>) returns (unique: seq<OrgMeeting>)
    ensures unique == KeepFirstById(all)
  {
    unique := [];
    var i := 0;
    while i < |all|
      invariant i <= |all|
      invariant unique == KeepFirstById(all[..i])
    {
      KeepFirstStep(all, i);
      var meeting := all[i];
      if meeting.meeting.id !in Ids(unique) {
        unique := unique + [meeting];
      }
      i := i + 1;
    }
    assert all[..i] == all;
  }

  /** One more meeting is kept exactly when its id is new. */
  lemma KeepFirstStep(all: seq<OrgMeeting>, i: nat)
    requires i < |all|
    ensures KeepFirstById(all[..i + 1]) ==
      if all[i].meeting.id in Ids(KeepFirstById(all[..i])) then KeepFirstById(all[..i])
      else KeepFirstById(all[..i]) + [all[i]]
  {
    assert all[..i + 1][..i] == all[..i];
  }

  // ================================================================ isUserAdmin

  /** A group or directory role the user is a member of. */
  datatype DirectoryObject = DirectoryObject(displayName: Option<string>)

  const AdminRoleNames: seq<string> :=
    ["Global Administrator", "Teams Administrator", "Application Administrator", "User Administrator"]

  /** A role whose name contains one of the administrator role names. */
  ghost predicate IsAdminRole(r: DirectoryObject) {
    Truthy(r.displayName) && exists i :: 0 <= i < |AdminRoleNames| && Contains(r.displayName.value, AdminRoleNames[i])
  }

  /** `adminRoleNames.some(adminRole => role.displayName && role.displayName.includes(adminRole))`. */
  function NamesAdminRole(r: DirectoryObject, names: seq<string>): (b: bool)
    ensures b <==> Truthy(r.displayName) && exists i :: 0 <= i < |names| && Contains(r.displayName.value, names[i])
  {
    if names == [] then false
    else
      assert forall i :: 0 < i < |names| ==> names[i] == names[1..][i - 1];
      (Truthy(r.displayName) && Contains(r.displayName.value, names[0])) || NamesAdminRole(r, names[1..])
  }

  /** `roles.some(...)` over the roles returned. */
  function SomeAdminRole(roles: seq<DirectoryObject>): (b: bool)
    ensures b <==> exists r :: r in roles && IsAdminRole(r)
  {
    if roles == [] then false
    else
      assert forall r :: r in roles <==> r == roles[0] || r in roles[1..];
      assert NamesAdminRole(roles[0], AdminRoleNames) <==> IsAdminRole(roles[0]);
      NamesAdminRole(roles[0], AdminRoleNames) || SomeAdminRole(roles[1..])
  }

  /** The OData filter of the request: names starting with "Administrator" or "Admin", which
      is the same as names starting with "Admin". */
  predicate PassesAdminFilter(r: DirectoryObject): (b: bool)
    ensures b <==> r.displayName.Some? && "Admin" <= r.displayName.value
  {
    assert "Administrator"[..5] == "Admin";
    r.displayName.Some? && ("Administrator" <= r.displayName.value || "Admin" <= r.displayName.value)
  }

  /** Graph compares the filter's prefixes ignoring case; none of the four role names starts
      with "admin" even then, so the case-sensitive filter above drops the same names. */
  lemma AdminRolesFailFilterIgnoringCase()
    ensures forall i :: 0 <= i < |AdminRoleNames| ==> !("admin" <= Lower(AdminRoleNames[i]))
  {
    forall i | 0 <= i < |AdminRoleNames| ensures !("admin" <= Lower(AdminRoleNames[i])) {
      var n := AdminRoleNames[i];
      assert n[1] != 'd';
      NoAdminPrefix(n);
    }
  }

  /** A name whose second letter is not a "d" in either case does not start with "admin",
      ignoring case. */
  lemma NoAdminPrefix(n: string)
    requires |n| >= 2 && n[1] != 'd' && n[1] != 'D'
    ensures !("admin" <= Lower(n))
  {
    assert Lower(n)[1] == LowerChar(n[1]);
  }

  /** `isUserAdmin` as written: the memberships are first narrowed by the request's filter,
      then tested; a failed request (`None`) means no. */
  function IsUserAdminAsWritten(memberOf: Option<seq<DirectoryObject>>): (b: bool)
    ensures b <==> memberOf.Some? && exists r :: r in memberOf.value && PassesAdminFilter(r) && IsAdminRole(r)
  {
    memberOf.Some? && SomeAdminRole(Filter(memberOf.value, PassesAdminFilter))
  }

  /** A member of the "Global Administrator" role is not recognised: the role's name does not
      start with "Admin", so the filter drops it before the test. */
  lemma GlobalAdministratorNotRecognised()
    ensures !IsUserAdminAsWritten(Some([DirectoryObject(Some("Global Administrator"))]))
    ensures IsUserAdmin(Some([DirectoryObject(Some("Global Administrator"))]))
  {
    var r := DirectoryObject(Some("Global Administrator"));
    assert !PassesAdminFilter(r) by {
      assert "Global Administrator"[0] == 'G';
    }
    ContainsSelf("Global Administrator");
    assert AdminRoleNames[0] == "Global Administrator";
    assert r in [r];
  }

  /** `isUserAdmin` with the memberships unfiltered: true exactly when the request answered and
      some membership's name contains an administrator role name. */
  function IsUserAdmin(memberOf: Option<seq<DirectoryObject>>): (b: bool)
    ensures b <==> memberOf.Some? && exists r :: r in memberOf.value && IsAdminRole(r)
    ensures IsUserAdminAsWritten(memberOf) ==> b
  {
    memberOf.Some? && SomeAdminRole(memberOf.value)
  }
}
