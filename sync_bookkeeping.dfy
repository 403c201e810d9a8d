/** Bookkeeping of the Microsoft 365 sync (server/services/sync.ts): recognising and wording
    permission errors, the per-item created/updated counters of the sync loops, the result of a
    failed sync, the aggregation of `syncAllResources`, and the choice of reminders in
    `scheduleUpcomingReminders`. Graph responses, store writes and their failures are inputs. */
module SyncBookkeeping {
  import opened Basics

  // ================================================================ permission errors

  /** The fields of a caught error the sync reads. */
  datatype GraphError = GraphError(statusCode: Option<int>, code: Option<string>, body: Option<string>,
                                   message: Option<string>)

  /** `isPermissionError`: a 403 status or the "Forbidden" code. */
  predicate IsPermissionError(e: GraphError) {
    e.statusCode == Some(403) || e.code == Some("Forbidden")
  }

  /** The scopes each resource's sync needs; other resources need none. */
  function RequiredScopes(resourceType: string): (scopes: seq<string>)
    ensures resourceType !in {"calendar", "contacts", "drive", "todo", "chat", "presence"} ==> scopes == []
    ensures resourceType == "calendar" ==> scopes == ["Calendars.Read", "Calendars.ReadWrite"]
  {
    var requirements := map[
      "calendar" := ["Calendars.Read", "Calendars.ReadWrite"],
      "contacts" := ["Contacts.Read", "Contacts.ReadWrite"],
      "drive" := ["Files.Read", "Files.ReadWrite"],
      "todo" := ["Tasks.Read", "Tasks.ReadWrite", "Tasks.ReadWrite.All"],
      "chat" := ["Chat.Read", "Chat.ReadBasic", "Chat.ReadWrite"],
      "presence" := ["Presence.Read", "Presence.ReadWrite.All"]];
    if resourceType in requirements then requirements[resourceType] else []
  }

  /** The literal text before the captured scopes. */
  const Marker: string := "API requires one of '"

  /** The index of the first quote at or after `from`, or the length when there is none. */
  function QuoteIndex(s: string, from: nat): (k: nat)
    requires from <= |s|
    ensures from <= k <= |s|
    ensures forall j :: from <= j < k ==> s[j] != '\''
    ensures k < |s| ==> s[k] == '\''
    decreases |s| - from
  {
    if from == |s| || s[from] == '\'' then from else QuoteIndex(s, from + 1)
  }

  /** The pattern `API requires one of '([^']+)'` matches at `i`: the marker, then at least one
      character up to a closing quote. */
  predicate MatchAt(body: string, i: nat) {
    && OccursAt(body, Marker, i)
    && var k := QuoteIndex(body, i + |Marker|);
       i + |Marker| < k < |body|
  }

  /** The group the pattern captures at `i`. */
  function CaptureAt(body: string, i: nat): (scopes: string)
    requires MatchAt(body, i)
    ensures scopes != [] && '\'' !in scopes
  {
    body[i + |Marker|..QuoteIndex(body, i + |Marker|)]
  }

  /** `body.match(/API requires one of '([^']+)'/)` from index `i`: the group of the leftmost
      match. */
  function FindScopes(body: string, i: nat): (r: Option<string>)
    requires i <= |body|
    ensures r.None? <==> forall j :: i <= j <= |body| ==> !MatchAt(body, j)
    ensures r.Some? ==> exists j :: (i <= j <= |body| && MatchAt(body, j) && r.value == CaptureAt(body, j)
      && forall j' :: i <= j' < j ==> !MatchAt(body, j'))
    decreases |body| - i
  {
    if MatchAt(body, i) then Some(CaptureAt(body, i))
    else if i == |body| then None
    else FindScopes(body, i + 1)
  }

  /** The scopes the message names: those the error body names, or else the resource's
      required scopes joined with " or ". */
  function RequiredText(resourceType: string, e: GraphError): string {
    var found := FindScopes(StrOr(e.body, ""), 0);
    if found.Some? then found.value else Join(RequiredScopes(resourceType), " or ")
  }

  function PermissionLead(resourceType: string): string {
    "Missing permission for " + resourceType + " sync. Required: "
  }

  const PermissionAdvice: string :=
    ". The Microsoft 365 connector needs additional permissions. Please contact your administrator to add the required scopes."

  /** `formatPermissionError(resourceType, error)`: the lead naming the resource, the scopes
      (`RequiredText`), and the advice to ask an administrator. */
  function FormatPermissionError(resourceType: string, e: GraphError): (msg: string)
    ensures var lead, scopes := PermissionLead(resourceType), RequiredText(resourceType, e);
      && |msg| == |lead| + |scopes| + |PermissionAdvice|
      && msg[..|lead|] == lead
      && msg[|lead|..|lead| + |scopes|] == scopes
      && msg[|lead| + |scopes|..] == PermissionAdvice
  {
    var lead, scopes := PermissionLead(resourceType), RequiredText(resourceType, e);
    assert (lead + scopes + PermissionAdvice)[|lead|..|lead| + |scopes|] == scopes;
    lead + scopes + PermissionAdvice
  }

  /** A body that names the scopes at its start decides the message, whatever the resource. */
  lemma MessageUsesCapturedScopes(resourceType: string, e: GraphError)
    requires e.body.Some? && MatchAt(e.body.value, 0)
    ensures RequiredText(resourceType, e) == CaptureAt(e.body.value, 0)
  {
    assert FindScopes(e.body.value, 0) == Some(CaptureAt(e.body.value, 0));
  }

  /** A body that names no scopes leaves the resource's own list, and an unknown resource is
      reported as needing nothing ("Required: ."). */
  lemma UnknownResourceRequiresNothing(resourceType: string, e: GraphError)
    requires !Truthy(e.body)
    ensures RequiredText(resourceType, e) == Join(RequiredScopes(resourceType), " or ")
    ensures resourceType !in {"calendar", "contacts", "drive", "todo", "chat", "presence"} ==>
      RequiredText(resourceType, e) == ""
  {
    assert !MatchAt("", 0);
    assert FindScopes("", 0).None?;
  }

  /** The calendar's scopes when the body names none. */
  lemma CalendarScopesJoined(e: GraphError)
    requires !Truthy(e.body)
    ensures RequiredText("calendar", e) == "Calendars.Read or Calendars.ReadWrite"
  {
    UnknownResourceRequiresNothing("calendar", e);
  }

  // ================================================================ sync results

  /** `SyncResult`. */
  datatype SyncResult = SyncResult(success: bool, itemsProcessed: nat, itemsCreated: nat, itemsUpdated: nat,
                                   errors: seq<string>, deltaToken: Option<string>, permissionError: bool)

  /** The result of a sync that caught `e`: no items, one error, and the permission flag set
      exactly for permission errors. `noun` names the resource in the fallback message. */
  function FailedSync(resourceType: string, noun: string, e: GraphError): (r: SyncResult)
    ensures !r.success && r.itemsProcessed == 0 && r.itemsCreated == 0 && r.itemsUpdated == 0
    ensures |r.errors| == 1 && r.deltaToken.None?
    ensures r.permissionError <==> IsPermissionError(e)
    ensures IsPermissionError(e) ==> r.errors[0] == FormatPermissionError(resourceType, e)
    ensures !IsPermissionError(e) && !Truthy(e.message) ==> r.errors[0] == "Unknown error during " + noun + " sync"
    ensures !IsPermissionError(e) && Truthy(e.message) ==> r.errors[0] == e.message.value
  {
    if IsPermissionError(e) then SyncResult(false, 0, 0, 0, [FormatPermissionError(resourceType, e)], None, true)
    else SyncResult(false, 0, 0, 0, [StrOr(e.message, "Unknown error during " + noun + " sync")], None, false)
  }

  // ================================================================ the per-item loops

  /** What happened to one remote item: it was stored, its store write failed, or a later write
      (the event's attendees) failed after it was stored. */
  datatype ItemOutcome = Stored | StoreFailed(message: string) | FailedAfterStore(message: string)

  /** A remote item: its preload key (its id, or list and task ids for to-do tasks), its id for
      messages, and its outcome. */
  datatype RemoteItem = RemoteItem(key: string, id: string, outcome: ItemOutcome)

  /** The loop's counters and the keys of the items it knows to be stored. */
  datatype Counters = Counters(processed: nat, created: nat, updated: nat, errors: seq<string>, known: set<string>)

  function ItemError(noun: string, it: RemoteItem): string
    requires !it.outcome.Stored?
  {
    noun + " " + it.id + ": " + it.outcome.message
  }

  /** One item: a stored item counts as processed and as updated when its key was known, as
      created otherwise; a failed one only adds its error. */
  function ItemStep(c: Counters, noun: string, it: RemoteItem): Counters {
    match it.outcome
    case Stored =>
      if it.key in c.known then c.(processed := c.processed + 1, updated := c.updated + 1)
      else c.(processed := c.processed + 1, created := c.created + 1, known := c.known + {it.key})
    case StoreFailed(_) => c.(errors := c.errors + [ItemError(noun, it)])
    case FailedAfterStore(_) => c.(errors := c.errors + [ItemError(noun, it)], known := c.known + {it.key})
  }

  /** The counters after the loop has seen `items`, starting from the preloaded keys. */
  function Tallied(noun: string, items: seq<RemoteItem>, preloaded: set<string>): Counters {
    if items == [] then Counters(0, 0, 0, [], preloaded)
    else ItemStep(Tallied(noun, items[..|items| - 1], preloaded), noun, items[|items| - 1])
  }

  predicate IsStored(it: RemoteItem) { it.outcome.Stored? }

  /** The keys whose store write happened. */
  ghost function TouchedKeys(items: seq<RemoteItem>): set<string> {
    set it | it in items && !it.outcome.StoreFailed? :: it.key
  }

  /** Every stored item is processed and is exactly one of created and updated; every failed
      item is one error; the known keys are the preloaded ones and those written since. */
  lemma {:induction false} CounterDiscipline(noun: string, items: seq<RemoteItem>, preloaded: set<string>)
    ensures var c := Tallied(noun, items, preloaded);
      && c.processed == c.created + c.updated
      && c.processed == Count(items, IsStored)
      && c.processed + |c.errors| == |items|
      && c.known == preloaded + TouchedKeys(items)
  {
    if items != [] {
      var init, last := items[..|items| - 1], items[|items| - 1];
      CounterDiscipline(noun, init, preloaded);
      assert items == init + [last];
      CountAppend(init, [last], IsStored);
      TouchedKeysSnoc(init, last);
      ItemStepCounts(Tallied(noun, init, preloaded), noun, last);
    }
  }

  /** What one item adds to each counter. */
  lemma ItemStepCounts(c: Counters, noun: string, it: RemoteItem)
    ensures var d := ItemStep(c, noun, it);
      && d.processed == c.processed + (if it.outcome.Stored? then 1 else 0)
      && d.created + d.updated == c.created + c.updated + (if it.outcome.Stored? then 1 else 0)
      && |d.errors| == |c.errors| + (if it.outcome.Stored? then 0 else 1)
      && d.known == c.known + (if it.outcome.StoreFailed? then {} else {it.key})
  {
  }

  /** One more item adds its key to the written keys exactly when its write happened. */
  lemma TouchedKeysSnoc(init: seq<RemoteItem>, last: RemoteItem)
    ensures TouchedKeys(init + [last]) == TouchedKeys(init) + (if last.outcome.StoreFailed? then {} else {last.key})
  {
    var items := init + [last];
    forall k | k in TouchedKeys(items) ensures k in TouchedKeys(init) + (if last.outcome.StoreFailed? then {} else {last.key}) {
      var it :| it in items && !it.outcome.StoreFailed? && it.key == k;
      if it != last { assert it in init; }
    }
    forall k | k in TouchedKeys(init) ensures k in TouchedKeys(items) {
      var it :| it in init && !it.outcome.StoreFailed? && it.key == k;
      assert it in items;
    }
    if !last.outcome.StoreFailed? {
      assert last in items;
    }
  }

  /** When every write succeeds, each key not preloaded is created exactly once: the created
      count is the number of new keys. */
  lemma {:induction false} CreatedOncePerNewKey(noun: string, items: seq<RemoteItem>, preloaded: set<string>)
    requires forall it :: it in items ==> it.outcome.Stored?
    ensures var c := Tallied(noun, items, preloaded);
      c.created == |c.known - preloaded| && c.updated == |items| - |c.known - preloaded|
  {
    if items != [] {
      var init, last := items[..|items| - 1], items[|items| - 1];
      assert forall it :: it in init ==> it in items;
      CreatedOncePerNewKey(noun, init, preloaded);
      CounterDiscipline(noun, init, preloaded);
      CounterDiscipline(noun, items, preloaded);
      assert last in items;
      var c := Tallied(noun, init, preloaded);
      if last.key !in c.known {
        assert (c.known + {last.key}) - preloaded == (c.known - preloaded) + {last.key};
      }
    }
  }

  /** The per-item loop of the calendar, contacts, drive and to-do syncs: `preloaded` holds the
      keys of the records already stored for the user. */
  method SyncItems(noun: string, items: seq<RemoteItem>, preloaded: set<string>)
    returns (itemsProcessed: nat, itemsCreated: nat, itemsUpdated: nat, errors: seq<string>, existing: set<string>)
    ensures itemsProcessed == itemsCreated + itemsUpdated
    ensures itemsProcessed + |errors| == |items|
    ensures var c := Tallied(noun, items, preloaded);
      && itemsProcessed == c.processed && itemsCreated == c.created && itemsUpdated == c.updated && errors == c.errors
      && existing == c.known
  {
    existing := preloaded;
    itemsProcessed, itemsCreated, itemsUpdated, errors := 0, 0, 0, [];
    var i := 0;
    while i < |items|
      invariant i <= |items|
      invariant Counters(itemsProcessed, itemsCreated, itemsUpdated, errors, existing) == Tallied(noun, items[..i], preloaded)
    {
      var item := items[i];
      assert items[..i + 1][..i] == items[..i];
      match item.outcome {
        case Stored =>
          var wasKnown := item.key in existing;
          existing := existing + {item.key};
          itemsProcessed := itemsProcessed + 1;
          if wasKnown {
            itemsUpdated := itemsUpdated + 1;
          } else {
            itemsCreated := itemsCreated + 1;
          }
        case StoreFailed(m) =>
          errors := errors + [noun + " " + item.id + ": " + m];
        case FailedAfterStore(m) =>
          existing := existing + {item.key};
          errors := errors + [noun + " " + item.id + ": " + m];
      }
      i := i + 1;
    }
    assert items[..i] == items;
    CounterDiscipline(noun, items, preloaded);
  }

  // ---------------------------------------------------------------- the to-do sync

  /** A to-do list as the to-do sync meets it: its id, the error of its upsert if that failed,
      its tasks on the task pages fetched (items keyed by the list and task ids), and the error
      of a later task page request if one failed. */
  datatype TodoList = TodoList(id: string, upsertError: Option<string>, tasks: seq<RemoteItem>, pageError: Option<string>)

  /** The to-do sync's counters (whose known keys are the lists') and the known task keys. */
  datatype TodoCounters = TodoCounters(c: Counters, taskKeys: set<string>)

  function ListError(l: TodoList, message: string): string {
    "List " + l.id + ": " + message
  }

  /** Whether the task pages of a stored list are read. */
  predicate ReadsTasks(includeTasks: bool, l: TodoList) { includeTasks && l.upsertError.None? }

  /** A list stored and counted whose task pages then failed: it is both processed and an
      error. */
  predicate CountedThenFailed(includeTasks: bool, l: TodoList) { ReadsTasks(includeTasks, l) && l.pageError.Some? }

  /** One list: a failed upsert adds only its error. A stored list counts as processed and as
      created or updated; its tasks then go through the item loop, and a failed task page adds
      the list's error after the tasks' own. */
  function ListStep(includeTasks: bool, s: TodoCounters, l: TodoList): TodoCounters {
    match l.upsertError
    case Some(m) => s.(c := s.c.(errors := s.c.errors + [ListError(l, m)]))
    case None =>
      var listed := ItemStep(s.c, "List", RemoteItem(l.id, l.id, Stored));
      if !includeTasks then TodoCounters(listed, s.taskKeys)
      else
        var t := Tallied("Task", l.tasks, s.taskKeys);
        var failed := if l.pageError.Some? then [ListError(l, l.pageError.value)] else [];
        TodoCounters(Counters(listed.processed + t.processed, listed.created + t.created, listed.updated + t.updated,
                              listed.errors + t.errors + failed, listed.known), t.known)
  }

  /** The counters after the to-do sync has seen `lists`. */
  function TodoTallied(includeTasks: bool, lists: seq<TodoList>, preLists: set<string>, preTasks: set<string>): TodoCounters {
    if lists == [] then TodoCounters(Counters(0, 0, 0, [], preLists), preTasks)
    else ListStep(includeTasks, TodoTallied(includeTasks, lists[..|lists| - 1], preLists, preTasks), lists[|lists| - 1])
  }

  /** The items the to-do sync meets: every list, and the tasks of every list whose task pages
      it reads. */
  function TodoItems(includeTasks: bool, lists: seq<TodoList>): nat {
    if lists == [] then 0
    else
      var l := lists[|lists| - 1];
      TodoItems(includeTasks, lists[..|lists| - 1]) + 1 + (if ReadsTasks(includeTasks, l) then |l.tasks| else 0)
  }

  /** The to-do counters: processed = created + updated still holds, but processed + errors
      exceeds the items met by exactly the lists that were counted and then failed on their task
      pages. */
  lemma {:induction false} TodoCounterDiscipline(includeTasks: bool, lists: seq<TodoList>, preLists: set<string>, preTasks: set<string>)
    ensures var c := TodoTallied(includeTasks, lists, preLists, preTasks).c;
      && c.processed == c.created + c.updated
      && c.processed + |c.errors| == TodoItems(includeTasks, lists) + Count(lists, l => CountedThenFailed(includeTasks, l))
  {
    if lists != [] {
      var init, l := lists[..|lists| - 1], lists[|lists| - 1];
      TodoCounterDiscipline(includeTasks, init, preLists, preTasks);
      assert lists == init + [l];
      CountAppend(init, [l], l => CountedThenFailed(includeTasks, l));
      if ReadsTasks(includeTasks, l) {
        CounterDiscipline("Task", l.tasks, TodoTallied(includeTasks, init, preLists, preTasks).taskKeys);
      }
    }
  }

  /** One list whose upsert succeeds and whose first task page fails: one item met, one
      processed, one error. */
  lemma ListCountedAndFailed(id: string, message: string)
    ensures var lists := [TodoList(id, None, [], Some(message))];
      var c := TodoTallied(true, lists, {}, {}).c;
      && TodoItems(true, lists) == 1
      && c.processed == 1 && c.created == 1
      && c.errors == ["List " + id + ": " + message]
  {
    var lists := [TodoList(id, None, [], Some(message))];
    assert lists[..0] == [];
  }

  /** The loop of `syncTodoLists` over the lists: `preLists` and `preTasks` are the keys
      of the lists and tasks already stored for the user. */
  method SyncTodoLists(includeTasks: bool, lists: seq<TodoList>, preLists: set<string>, preTasks: set<string>)
    returns (itemsProcessed: nat, itemsCreated: nat, itemsUpdated: nat, errors: seq<string>)
    ensures var c := TodoTallied(includeTasks, lists, preLists, preTasks).c;
      itemsProcessed == c.processed && itemsCreated == c.created && itemsUpdated == c.updated && errors == c.errors
  {
    var existingLists, existingTasks := preLists, preTasks;
    itemsProcessed, itemsCreated, itemsUpdated, errors := 0, 0, 0, [];
    var i := 0;
    while i < |lists|
      invariant i <= |lists|
      invariant TodoCounters(Counters(itemsProcessed, itemsCreated, itemsUpdated, errors, existingLists), existingTasks)
             == TodoTallied(includeTasks, lists[..i], preLists, preTasks)
    {
      var list := lists[i];
      assert lists[..i + 1][..i] == lists[..i];
      match list.upsertError {
        case Some(m) =>
          errors := errors + ["List " + list.id + ": " + m];
        case None =>
          var existingList := list.id in existingLists;
          existingLists := existingLists + {list.id};
          itemsProcessed := itemsProcessed + 1;
          if existingList {
            itemsUpdated := itemsUpdated + 1;
          } else {
            itemsCreated := itemsCreated + 1;
          }
          if includeTasks {
            var p, c, u, e, known := SyncItems("Task", list.tasks, existingTasks);
            itemsProcessed, itemsCreated, itemsUpdated := itemsProcessed + p, itemsCreated + c, itemsUpdated + u;
            errors, existingTasks := errors + e, known;
            if list.pageError.Some? {
              errors := errors + ["List " + list.id + ": " + list.pageError.value];
            }
          }
      }
      i := i + 1;
    }
    assert lists[..i] == lists;
  }

  /** The delta token a sync keeps: the last delta link any page returned. */
  function NewDeltaToken(deltaLinks: seq<Option<string>>): (t: Option<string>)
    ensures t.Some? ==> exists i :: 0 <= i < |deltaLinks| && deltaLinks[i] == t && Truthy(t)
    ensures t.None? ==> forall i :: 0 <= i < |deltaLinks| ==> !Truthy(deltaLinks[i])
    ensures |deltaLinks| > 0 && Truthy(deltaLinks[|deltaLinks| - 1]) ==> t == deltaLinks[|deltaLinks| - 1]
  {
    if deltaLinks == [] then None
    else if Truthy(deltaLinks[|deltaLinks| - 1]) then deltaLinks[|deltaLinks| - 1]
    else NewDeltaToken(deltaLinks[..|deltaLinks| - 1])
  }

  // ================================================================ syncAllResources

  datatype Resource = Calendar | Contacts | Drive | Todo | Chat | Presence

  function ResourceKey(r: Resource): string {
    match r
    case Calendar => "calendar"
    case Contacts => "contacts"
    case Drive => "drive"
    case Todo => "todo"
    case Chat => "chat"
    case Presence => "presence"
  }

  const AllResources: seq<Resource> := [Calendar, Contacts, Drive, Todo, Chat, Presence]

  /** The `include*` options; a missing option includes its resource. */
  datatype IncludeOptions = IncludeOptions(calendar: Option<bool>, contacts: Option<bool>, drive: Option<bool>,
                                           todo: Option<bool>, chat: Option<bool>, presence: Option<bool>)

  predicate Includes(o: IncludeOptions, r: Resource) {
    match r
    case Calendar => o.calendar.GetOr(true)
    case Contacts => o.contacts.GetOr(true)
    case Drive => o.drive.GetOr(true)
    case Todo => o.todo.GetOr(true)
    case Chat => o.chat.GetOr(true)
    case Presence => o.presence.GetOr(true)
  }

  /** Every resource is listed, once. */
  lemma AllResourcesListed()
    ensures forall r: Resource :: r in AllResources
    ensures forall i, j :: 0 <= i < j < |AllResources| ==> AllResources[i] != AllResources[j]
  {
    forall r: Resource ensures r in AllResources {
      match r
      case Calendar => assert AllResources[0] == r;
      case Contacts => assert AllResources[1] == r;
      case Drive => assert AllResources[2] == r;
      case Todo => assert AllResources[3] == r;
      case Chat => assert AllResources[4] == r;
      case Presence => assert AllResources[5] == r;
    }
  }

  datatype SyncAllResult = SyncAllResult(success: bool, results: map<Resource, SyncResult>, summary: string)

  /** The processed items of the included resources among `rs`. */
  function TotalItems(rs: seq<Resource>, o: IncludeOptions, run: Resource -> SyncResult): nat {
    if rs == [] then 0
    else (if Includes(o, rs[0]) then run(rs[0]).itemsProcessed else 0) + TotalItems(rs[1..], o, run)
  }

  predicate Succeeded(o: IncludeOptions, run: Resource -> SyncResult, r: Resource) { Includes(o, r) && run(r).success }

  predicate FailedRun(o: IncludeOptions, run: Resource -> SyncResult, r: Resource) { Includes(o, r) && !run(r).success }

  function Summary(total: nat, successful: nat, failed: nat): string {
    "Synced " + NatToString(total) + " items across " + NatToString(successful) + " resources. "
      + (if failed > 0 then NatToString(failed) + " resource(s) failed." else "")
  }

  /** The results of the included resources, keyed by resource (the object's keys are the
      resources' `ResourceKey` names). */
  function ResultsMap(o: IncludeOptions, run: Resource -> SyncResult): (results: map<Resource, SyncResult>)
    ensures forall res :: res in results <==> Includes(o, res)
    ensures forall res :: res in results ==> results[res] == run(res)
  {
    AllResourcesListed();
    map res | res in AllResources && Includes(o, res) :: run(res)
  }

  /** `syncAllResources`: `run` gives each resource sync's result. The results hold exactly the
      included resources; the whole succeeds when none failed (lemma `SyncAllSuccess`). */
  function SyncAllResources(o: IncludeOptions, run: Resource -> SyncResult): (r: SyncAllResult)
    ensures forall res :: res in r.results <==> Includes(o, res)
    ensures forall res :: res in r.results ==> r.results[res] == run(res)
  {
    var successful := Count(AllResources, (res: Resource) => Succeeded(o, run, res));
    var failed := Count(AllResources, (res: Resource) => FailedRun(o, run, res));
    SyncAllResult(failed == 0, ResultsMap(o, run), Summary(TotalItems(AllResources, o, run), successful, failed))
  }

  /** The whole sync succeeds exactly when every included resource's sync did. */
  lemma SyncAllSuccess(o: IncludeOptions, run: Resource -> SyncResult)
    ensures SyncAllResources(o, run).success <==> forall res :: Includes(o, res) ==> run(res).success
  {
    AllResourcesListed();
    NoneFailedIff(AllResources, o, run);
  }

  lemma {:induction false} NoneFailedIff(rs: seq<Resource>, o: IncludeOptions, run: Resource -> SyncResult)
    ensures Count(rs, (res: Resource) => FailedRun(o, run, res)) == 0 <==> forall res :: res in rs ==> !FailedRun(o, run, res)
  {
    if rs != [] {
      NoneFailedIff(rs[1..], o, run);
      assert forall res :: res in rs <==> res == rs[0] || res in rs[1..];
    }
  }

  /** Every included resource is counted as successful or as failed, never both. */
  lemma {:induction false} SuccessfulPlusFailed(rs: seq<Resource>, o: IncludeOptions, run: Resource -> SyncResult)
    ensures Count(rs, (res: Resource) => Succeeded(o, run, res)) + Count(rs, (res: Resource) => FailedRun(o, run, res))
      == Count(rs, (res: Resource) => Includes(o, res))
  {
    if rs != [] {
      SuccessfulPlusFailed(rs[1..], o, run);
    }
  }

  /** The total is the sum of the included results' processed counts: a run that includes one
      more resource adds exactly that resource's count. */
  lemma {:induction false} TotalItemsGrows(rs: seq<Resource>, o: IncludeOptions, o': IncludeOptions,
                                            run: Resource -> SyncResult, extra: Resource)
    requires forall r :: r != extra ==> (Includes(o, r) <==> Includes(o', r))
    requires !Includes(o, extra) && Includes(o', extra)
    requires forall i, j :: 0 <= i < j < |rs| ==> rs[i] != rs[j]
    ensures extra in rs ==> TotalItems(rs, o', run) == TotalItems(rs, o, run) + run(extra).itemsProcessed
    ensures extra !in rs ==> TotalItems(rs, o', run) == TotalItems(rs, o, run)
  {
    if rs != [] {
      assert forall i, j :: 0 <= i < j < |rs[1..]| ==> rs[1..][i] != rs[1..][j] by {
        forall i, j | 0 <= i < j < |rs[1..]| ensures rs[1..][i] != rs[1..][j] {
          assert rs[1..][i] == rs[i + 1] && rs[1..][j] == rs[j + 1];
        }
      }
      TotalItemsGrows(rs[1..], o, o', run, extra);
      if rs[0] == extra {
        assert forall k :: 0 < k < |rs| ==> rs[k] != rs[0];
        assert extra !in rs[1..];
      }
    }
  }

  // ================================================================ scheduleUpcomingReminders

  /** A stored calendar event, as the reminder scheduler reads it. */
  datatype EventRow = EventRow(id: string, isCancelled: bool, start: int, subject: Option<string>,
                               location: Option<string>, onlineMeetingUrl: Option<string>)

  /** A pending reminder already stored for the user. */
  datatype ExistingReminder = ExistingReminder(relatedId: string, relatedType: string)

  /** A reminder to create. */
  datatype NewReminder = NewReminder(kind: string, title: string, message: string, relatedType: string,
                                     relatedId: string, triggerAt: int)

  predicate HasReminder(existing: seq<ExistingReminder>, id: string, relatedType: string) {
    exists r :: r in existing && r.relatedId == id && r.relatedType == relatedType
  }

  const MinuteMs: int := 60_000

  /** The reminder of an upcoming event, if it gets one: not cancelled, no pending reminder for
      it yet, and a trigger time `minutesBefore` ahead of its start that is still in the
      future. */
  function EventReminder(e: EventRow, existing: seq<ExistingReminder>, now: int, minutesBefore: int)
    : (r: Option<NewReminder>)
    ensures r.Some? <==>
      !e.isCancelled && !HasReminder(existing, e.id, "calendar_event") && e.start - minutesBefore * MinuteMs > now
    ensures r.Some? ==> (r.value.relatedId == e.id && r.value.relatedType == "calendar_event"
      && r.value.triggerAt == e.start - minutesBefore * MinuteMs && r.value.kind == "meeting_upcoming")
  {
    if e.isCancelled || HasReminder(existing, e.id, "calendar_event") then None
    else
      var triggerAt := e.start - minutesBefore * MinuteMs;
      if triggerAt <= now then None
      else
        var message := "Upcoming: " + StrOr(e.subject, "Meeting")
          + (if Truthy(e.location) then " at " + e.location.value else "")
          + (if Truthy(e.onlineMeetingUrl) then " (Online meeting)" else "");
        Some(NewReminder("meeting_upcoming", "Reminder: " + StrOr(e.subject, "Upcoming Meeting"), message,
                         "calendar_event", e.id, triggerAt))
  }

  /** A stored task, as the reminder scheduler reads it. */
  datatype TaskRow = TaskRow(id: string, title: string, status: string, dueDate: Option<int>)

  /** The overdue reminder of a task, if it gets one: due before `now`, neither completed nor
      cancelled, and no pending task reminder for it yet. The message's localised due date is
      not modelled. */
  function TaskReminder(t: TaskRow, existing: seq<ExistingReminder>, now: int): (r: Option<NewReminder>)
    ensures r.Some? <==>
      t.dueDate.Some? && t.dueDate.value < now && t.status != "completed" && t.status != "cancelled"
      && !HasReminder(existing, t.id, "task")
    ensures r.Some? ==> (r.value.relatedId == t.id && r.value.relatedType == "task" && r.value.triggerAt == now
      && r.value.kind == "task_overdue" && r.value.title == "Overdue: " + t.title)
  {
    if t.dueDate.Some? && t.dueDate.value < now && t.status != "completed" && t.status != "cancelled"
       && !HasReminder(existing, t.id, "task")
    then Some(NewReminder("task_overdue", "Overdue: " + t.title, "This task was due on a past date", "task", t.id, now))
    else None
  }

  /** The reminders created for `events` in order, skipping those whose creation fails. */
  function EventReminders(events: seq<EventRow>, existing: seq<ExistingReminder>, now: int, minutesBefore: int,
                          storeError: NewReminder -> Option<string>): seq<NewReminder>
  {
    if events == [] then []
    else
      var init := EventReminders(events[..|events| - 1], existing, now, minutesBefore, storeError);
      var r := EventReminder(events[|events| - 1], existing, now, minutesBefore);
      if r.Some? && storeError(r.value).None? then init + [r.value] else init
  }

  /** The reminders created for `tasks` in order, skipping those whose creation fails. */
  function TaskReminders(tasks: seq<TaskRow>, existing: seq<ExistingReminder>, now: int,
                         storeError: NewReminder -> Option<string>): seq<NewReminder>
  {
    if tasks == [] then []
    else
      var init := TaskReminders(tasks[..|tasks| - 1], existing, now, storeError);
      var r := TaskReminder(tasks[|tasks| - 1], existing, now);
      if r.Some? && storeError(r.value).None? then init + [r.value] else init
  }

  /** Every event reminder is for a live event without one, fires in the future, and is
      among those created. */
  lemma {:induction false} EventRemindersSound(events: seq<EventRow>, existing: seq<ExistingReminder>, now: int,
                                               minutesBefore: int, storeError: NewReminder -> Option<string>)
    ensures var rs := EventReminders(events, existing, now, minutesBefore, storeError);
      && |rs| <= |events|
      && forall r :: r in rs ==> (r.triggerAt > now && storeError(r).None? &&
           exists e :: e in events && !e.isCancelled && e.id == r.relatedId && EventReminder(e, existing, now, minutesBefore) == Some(r))
  {
    if events != [] {
      var init := events[..|events| - 1];
      EventRemindersSound(init, existing, now, minutesBefore, storeError);
      assert forall e :: e in init ==> e in events;
      assert events[|events| - 1] in events;
    }
  }

  /** Every event that qualifies gets its reminder unless the store rejects it. */
  lemma {:induction false} EventRemindersComplete(events: seq<EventRow>, existing: seq<ExistingReminder>, now: int,
                                                  minutesBefore: int, storeError: NewReminder -> Option<string>)
    ensures forall e :: (e in events && EventReminder(e, existing, now, minutesBefore).Some?
      && storeError(EventReminder(e, existing, now, minutesBefore).value).None?) ==>
        EventReminder(e, existing, now, minutesBefore).value in EventReminders(events, existing, now, minutesBefore, storeError)
  {
    if events != [] {
      var init := events[..|events| - 1];
      EventRemindersComplete(init, existing, now, minutesBefore, storeError);
      assert forall e :: e in events ==> e in init || e == events[|events| - 1];
    }
  }

  /** Every task reminder is for an overdue, open task without one. */
  lemma {:induction false} TaskRemindersSound(tasks: seq<TaskRow>, existing: seq<ExistingReminder>, now: int,
                                              storeError: NewReminder -> Option<string>)
    ensures var rs := TaskReminders(tasks, existing, now, storeError);
      && |rs| <= |tasks|
      && forall r :: r in rs ==> (storeError(r).None? &&
           exists t :: t in tasks && t.id == r.relatedId && t.dueDate.Some? && t.dueDate.value < now
             && t.status != "completed" && t.status != "cancelled" && !HasReminder(existing, t.id, "task"))
  {
    if tasks != [] {
      var init := tasks[..|tasks| - 1];
      TaskRemindersSound(init, existing, now, storeError);
      assert forall t :: t in init ==> t in tasks;
      assert tasks[|tasks| - 1] in tasks;
    }
  }

  /** `scheduleUpcomingReminders` once the events of the coming days, the user's tasks and
      pending reminders are loaded: `storeError` gives the store's error for a creation it
      rejects; each rejection becomes an error and is not counted. */
  method ScheduleUpcomingReminders(events: seq<EventRow>, tasks: seq<TaskRow>, existing: seq<ExistingReminder>,
                                   now: int, minutesBefore: int, storeError: NewReminder -> Option<string>)
    returns (created: seq<NewReminder>, itemsCreated: nat, errors: seq<string>, summary: string)
    ensures itemsCreated == |created|
    ensures created == EventReminders(events, existing, now, minutesBefore, storeError)
                       + TaskReminders(tasks, existing, now, storeError)
  {
    created, errors := [], [];
    var i := 0;
    while i < |events|
      invariant i <= |events|
      invariant created == EventReminders(events[..i], existing, now, minutesBefore, storeError)
    {
      assert events[..i + 1][..i] == events[..i];
      var r := EventReminder(events[i], existing, now, minutesBefore);
      if r.Some? {
        var failure := storeError(r.value);
        if failure.Some? {
          errors := errors + ["Creating reminder for event " + events[i].id + ": " + failure.value];
        } else {
          created := created + [r.value];
        }
      }
      i := i + 1;
    }
    assert events[..i] == events;
    var eventReminders := created;
    var j := 0;
    while j < |tasks|
      invariant j <= |tasks|
      invariant created == eventReminders + TaskReminders(tasks[..j], existing, now, storeError)
    {
      assert tasks[..j + 1][..j] == tasks[..j];
      var r := TaskReminder(tasks[j], existing, now);
      if r.Some? {
        var failure := storeError(r.value);
        if failure.Some? {
          errors := errors + ["Creating reminder for task " + tasks[j].id + ": " + failure.value];
        } else {
          created := created + [r.value];
        }
      }
      j := j + 1;
    }
    assert tasks[..j] == tasks;
    itemsCreated := |created|;
    summary := "Created " + NatToString(itemsCreated) + " reminders for upcoming events and overdue tasks";
  }
}
