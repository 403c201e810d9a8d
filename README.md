# A verified model of the workspace assistant's core logic

The system is a Microsoft 365 workspace assistant. It syncs a user's calendar, contacts, files,
to-do lists, chats and presence from Microsoft Graph into its own store, and collects the Teams
online meetings of a user or of the whole organisation. It links meeting-summary e-mails (Otter,
Teams recaps and generic recaps) to the meetings they summarise. It shows a unified activity
feed and task analytics, and it schedules meeting and overdue-task reminders. It also keeps
documentation of the Graph API permissions it needs: a Python generator writes one markdown page
per permission category from a flat inventory, and two TypeScript parsers read those pages back
into the database.

This project models, in Dafny, the logic inside that plumbing. Each source file of the core
becomes one module:

- `PermissionDocs` (permission_docs.dfy) models `docs/api-permissions/generate-docs.py`: the
  inventory parser as a state machine, the slug, the risk classifier, the use-case, example and
  security text, the category page, and the driver that never overwrites a page.
- `PermissionIngestion` (permission_ingestion.dfy) models `server/services/permissionIngestion.ts`:
  the label and section extractors, the endpoint and example parsers, the page parser, the
  category-index state machine and the file and category decisions of the ingestion.
- `GraphPermissionScript` (graph_permission_script.dfy) models
  `server/scripts/ingestGraphPermissions.ts`: the extractors of the stand-alone script and the
  record it builds for one page.
- `MarkdownPatterns` (patterns.dfy) holds the leftmost-match searches the two parsers share.
- `MeetingEmailLink` (meeting_email_link.dfy) models `server/services/meetingEmailLink.ts`: the
  summary classifier, the title extractor, the title similarity, the candidate selection, the
  link decision and the batch counters.
- `SyncScheduler` (sync_scheduler.dfy) models `server/services/syncScheduler.ts` as a class. Its
  fields are the queue, the processing map, the user locks and the counters. Its methods are
  enqueue, sort, dispatch, job completion and retry.
- `ActivityFeed` (activity_feed.dfy) models `server/services/activityFeed.ts`: the item mappers,
  merging, newest-first order, pagination, search and the per-user meeting list.
- `TaskAnalytics` (task_analytics.dfy) models the analytics of `server/storage.ts` and the
  `completedAt` rule of `updateTask`.
- `SyncBookkeeping` (sync_bookkeeping.dfy) models the helpers and counters of
  `server/services/sync.ts`.
- `TeamsMeetings` (teams_meetings.dfy) models the pure parts of
  `server/integrations/teams-app.ts`, plus the collection and de-duplication loop of
  `getAllOnlineMeetings`.
- `Basics` (basics.dfy) holds `Option`, string helpers (JavaScript and Python `trim`, split, join,
  ASCII case mapping), counting, filtering and a stable newest-first sort.

The model takes the form of the code. Loops that update variables are methods whose loop
invariants tie the state to a specification function, and the scheduler's module-level state is
a class. Database rows, Graph responses, store failures, clocks and job ids are parameters.

## Model

| member | source | states |
|---|---|---|
| PermissionDocs.HeaderMatch | docs/api-permissions/generate-docs.py:25 | a category header match starts with `[`, and the lazy name group ends before a ` - <digits> permission` tail on one line |
| PermissionDocs.ClassifyAll | docs/api-permissions/generate-docs.py:16-22 | every raw line of the inventory gets exactly one kind, in order |
| PermissionDocs.StepWf | docs/api-permissions/generate-docs.py:21-52 | one loop iteration keeps the parser invariant: category key order is duplicate-free and names exactly the dictionary's keys |
| PermissionDocs.RunWf | docs/api-permissions/generate-docs.py:21-52 | the parser invariant holds after any sequence of lines |
| PermissionDocs.ParsePermissions | docs/api-permissions/generate-docs.py:13-54 | the loop over the stripped lines yields the dictionary of the line-by-line specification, its key order duplicate-free and equal to its key set |
| PermissionDocs.ApplyLines | docs/api-permissions/generate-docs.py:21-52 | the loop over classified lines computes the fold of the specification step over them |
| PermissionDocs.ApplyLine | docs/api-permissions/generate-docs.py:25-52 | one pass of the loop body leaves the dictionary, the category cursor and the scratch record as the specification step does |
| PermissionDocs.RunAppend | docs/api-permissions/generate-docs.py:21-52 | parsing two pieces of text one after the other equals parsing their concatenation |
| PermissionDocs.InertLinesStoreNothing | docs/api-permissions/generate-docs.py:36-52 | lines that are neither headers nor `Permission:`/`Assigned Date:` lines store no record and open no category |
| PermissionDocs.TrailingRecordDropped | docs/api-permissions/generate-docs.py:36-41 | a record whose `Assigned Date:` line never comes, and after which no other `Permission:` line comes, is never appended: the dictionary is as it was right after its `Permission:` line |
| PermissionDocs.NothingStoredBeforeFirstHeader | docs/api-permissions/generate-docs.py:37-50 | before the first category header no category exists and nothing is stored; a record read there stays pending |
| PermissionDocs.RecordCarriedIntoFirstCategory | docs/api-permissions/generate-docs.py:27-39 | a record named before the first header is not discarded: the next `Permission:` line stores it, with the fields read so far, in the first category |
| PermissionDocs.CarriedRecordExample | docs/api-permissions/generate-docs.py:27-39 | `Permission: A`, the header of category C, then `Permission: B` leave exactly the record A in C |
| PermissionDocs.CategoryOnlyGrows | docs/api-permissions/generate-docs.py:29-51 | until its header recurs, a category keeps its count and its record list only grows |
| PermissionDocs.HeaderOpensCategory | docs/api-permissions/generate-docs.py:26-33 | a header (re)opens its category with an empty list and the declared count; a repeated name keeps its original dictionary position |
| PermissionDocs.BlocksAppendInOrder | docs/api-permissions/generate-docs.py:36-52 | complete named records under an open category are appended to it in order, nothing else changes |
| PermissionDocs.OneEntryStored | docs/api-permissions/generate-docs.py:36-52 | one complete record is appended to the open category exactly as read |
| PermissionDocs.SectionAppended | docs/api-permissions/generate-docs.py:21-52 | one more well-formed section adds one new category holding exactly its records |
| PermissionDocs.InventoryRoundTrip | docs/api-permissions/generate-docs.py:13-54 | parsing a rendered well-formed inventory gives back its category names in order and each category's count and records |
| PermissionDocs.Slug | docs/api-permissions/generate-docs.py:56-58 | a slug is no longer than the name and holds only `[a-z0-9-]` |
| PermissionDocs.SlugIdempotent | docs/api-permissions/generate-docs.py:56-58 | a slug is its own slug |
| PermissionDocs.SlugOfLowerWords | docs/api-permissions/generate-docs.py:58 | on lower-case words, the slug keeps every character and turns each space into a dash |
| PermissionDocs.RiskLevel | docs/api-permissions/generate-docs.py:60-71 | Critical iff delete/remove in the name or delete in the description; High iff not Critical and readwrite/manage in the name or write in the description; Medium iff neither and read and `.all` in the name; all tests case-insensitive |
| PermissionDocs.ReadWriteAtLeastHigh | docs/api-permissions/generate-docs.py:67 | a ReadWrite name is rated Critical or High |
| PermissionDocs.Resource | docs/api-permissions/generate-docs.py:76 | the resource is the longest prefix of the name without a dot: the whole name, or the text up to its first '.' |
| PermissionDocs.WriteTestSubsumesReadWrite | docs/api-permissions/generate-docs.py:85 | the `'ReadWrite' in name` test adds nothing to `'Write' in name` |
| PermissionDocs.ReadWriteYieldsBothGroups | docs/api-permissions/generate-docs.py:79-90 | a ReadWrite name lists the Read group followed by the Write group |
| PermissionDocs.GenericIffNoKeyword | docs/api-permissions/generate-docs.py:102 | the generic use case appears exactly when none of Read, Write, Create, Delete occurs in the name |
| PermissionDocs.NoLinesIffNoKeyword | docs/api-permissions/generate-docs.py:78-100 | no use-case line is produced exactly when no keyword occurs in the name |
| PermissionDocs.UseCases | docs/api-permissions/generate-docs.py:73-102 | the use cases are the generic bullet `- General API operations` exactly when no group of permissions applies |
| PermissionDocs.GenericIffNoLines | docs/api-permissions/generate-docs.py:102 | the joined use cases are the generic bullet exactly when the list is empty |
| PermissionDocs.ReadAllSubsumed | docs/api-permissions/generate-docs.py:112 | the `.Read.All` test adds nothing to the `.Read.` test |
| PermissionDocs.Plural | docs/api-permissions/generate-docs.py:110 | the plural ends in `s`, adding one only when the resource does not already end in `s` |
| PermissionDocs.PluralIdempotent | docs/api-permissions/generate-docs.py:110 | pluralising a plural changes nothing |
| PermissionDocs.Example | docs/api-permissions/generate-docs.py:104-159 | the example fails with a missing `displayName` key exactly when the generic template is needed and the record has no display name |
| PermissionDocs.SecurityLines | docs/api-permissions/generate-docs.py:161-181 | three lines plus three for Critical plus one for `.All`; the first states the upper-cased risk and the description (or its default), the last two are the closing bullets, the Critical bullets appear iff Critical, the org-wide bullet iff `.All` |
| PermissionDocs.EntryText | docs/api-permissions/generate-docs.py:200-225 | an entry fails exactly when its example fails, and otherwise begins with its numbered heading |
| PermissionDocs.EntryOutcomes | docs/api-permissions/generate-docs.py:200 | entries are numbered from 1 in list order |
| PermissionDocs.ConcatAll | docs/api-permissions/generate-docs.py:200-225 | the page text fails exactly when some entry fails |
| PermissionDocs.ConcatAllContains | docs/api-permissions/generate-docs.py:203 | every entry of a successful concatenation occurs in it |
| PermissionDocs.EntriesFailIff | docs/api-permissions/generate-docs.py:200-225 | the entries fail exactly when some record's example fails |
| PermissionDocs.EntriesHaveHeadings | docs/api-permissions/generate-docs.py:203 | every record's `### i. name` heading occurs in the entries |
| PermissionDocs.CategoryDoc | docs/api-permissions/generate-docs.py:183-274 | a failing entry fails the page with that entry's key; otherwise the page is generated and holds the numbered entries |
| PermissionDocs.CategoryDocFailIff | docs/api-permissions/generate-docs.py:183-274 | a page fails exactly when some record needs the generic example and has no display name |
| PermissionDocs.PageFailsWithEntries | docs/api-permissions/generate-docs.py:183-274 | the page fails exactly when its entries fail |
| PermissionDocs.CategoryDocListsEntry | docs/api-permissions/generate-docs.py:200-225 | a generated page lists every record under its number, in list order |
| PermissionDocs.CategoryDocStatesDeclaredCount | docs/api-permissions/generate-docs.py:186-194 | a page states the count its header declared, whatever the list holds |
| PermissionDocs.PageHoldsBody | docs/api-permissions/generate-docs.py:188-272 | the page holds the entries |
| PermissionDocs.PageStatesCount | docs/api-permissions/generate-docs.py:194 | the page states the count it was given |
| PermissionDocs.HeadStatesCount | docs/api-permissions/generate-docs.py:188-198 | the page head states the count |
| PermissionDocs.Pages | docs/api-permissions/generate-docs.py:291-300 | one page per category, in dictionary order |
| PermissionDocs.DriverStepInv | docs/api-permissions/generate-docs.py:291-304 | one driver step keeps the invariant: existing files untouched, written files fresh and distinct, counter equal to pages written |
| PermissionDocs.DriverRunInv | docs/api-permissions/generate-docs.py:291-304 | the driver invariant holds after every run |
| PermissionDocs.NeverOverwrites | docs/api-permissions/generate-docs.py:295-304 | the counter equals the pages written, the files are the existing ones plus those written, and no existing file is ever written |
| PermissionDocs.GeneratedAtMostCategories | docs/api-permissions/generate-docs.py:304-307 | a run generates at most one page per category, so the skipped count is never negative |
| PermissionDocs.FailureIsFinal | docs/api-permissions/generate-docs.py:300 | after an exception nothing more is written |
| PermissionDocs.FilesOnlyGrow | docs/api-permissions/generate-docs.py:296-301 | a step keeps the existing files and, unless it fails, leaves the category's page on disk |
| PermissionDocs.FailureSticks | docs/api-permissions/generate-docs.py:300 | a recorded failure is never cleared |
| PermissionDocs.EveryPagePresent | docs/api-permissions/generate-docs.py:291-304 | after a run without failure every category has its page on disk |
| PermissionDocs.AllPresentSkipped | docs/api-permissions/generate-docs.py:296-298 | when every page already exists a run changes nothing |
| PermissionDocs.SecondRunWritesNothing | docs/api-permissions/generate-docs.py:276-307 | running the generator a second time on its own output writes nothing |
| PermissionDocs.DriverRunAppend | docs/api-permissions/generate-docs.py:291-304 | the driver over two lists of categories is the driver over the first, then the second |
| PermissionDocs.GenerateAll | docs/api-permissions/generate-docs.py:276-307 | the loop over the dictionary ends in the driver state of the specification fold |
| PermissionDocs.WritePages | docs/api-permissions/generate-docs.py:291-304 | the loop over rendered pages computes the specification fold |
| PermissionIngestion.ValueAt | server/services/permissionIngestion.ts:29 | a match of `**Label**:\s*([^\n]+)` at a position starts with the label (ignoring case) and captures a non-empty value after it |
| PermissionIngestion.ValueMatchSkips | server/services/permissionIngestion.ts:30 | the search moves past every position where the label does not occur |
| PermissionIngestion.CleanValue | server/services/permissionIngestion.ts:31 | the cleaned value holds no backtick and has no whitespace at either end |
| PermissionIngestion.ExtractValue | server/services/permissionIngestion.ts:28-32 | a found value holds no backtick and is trimmed |
| PermissionIngestion.ExtractValueReadsLine | server/services/permissionIngestion.ts:28-32 | at the first `**Label**:` line, the value is the rest of that line after the spaces, backticks removed and trimmed |
| PermissionIngestion.ExtractValueAbsent | server/services/permissionIngestion.ts:30-31 | without any `**Label**:` (ignoring case) the value is undefined |
| PermissionIngestion.SectionAt | server/services/permissionIngestion.ts:35 | a section match at a position starts with `## Heading` (ignoring case) and its body lies after the heading's line break |
| PermissionIngestion.SectionAtAvoidsBreak | server/services/permissionIngestion.ts:35 | the lazy body stops at the first `\n## ` |
| PermissionIngestion.SectionMatchSkips | server/services/permissionIngestion.ts:36 | the search moves past every position where the heading does not occur |
| PermissionIngestion.ExtractSection | server/services/permissionIngestion.ts:34-38 | a found section holds no `\n## ` and is trimmed |
| PermissionIngestion.SectionAtIs | server/services/permissionIngestion.ts:35 | at a heading line followed by its body, the match captures exactly that body |
| PermissionIngestion.ExtractSectionReadsBody | server/services/permissionIngestion.ts:34-38 | at the first `## Heading` line, the section is the trimmed text up to the next `\n## ` or the end |
| PermissionIngestion.SectionFromMatch | server/services/permissionIngestion.ts:37 | the section is the trimmed body of the first match |
| PermissionIngestion.ExtractSectionAbsent | server/services/permissionIngestion.ts:36-37 | without any `## Heading` (ignoring case) the section is undefined |
| PermissionIngestion.MethodAt | server/services/permissionIngestion.ts:47 | the optional method group matches one of GET, POST, PUT, PATCH, DELETE, ignoring case |
| PermissionIngestion.UpperOfMatch | server/services/permissionIngestion.ts:50 | upper-casing the matched method gives the canonical method name |
| PermissionIngestion.EndpointOfLine | server/services/permissionIngestion.ts:46-53 | an endpoint comes only from a line starting with `-`, its path is non-empty without whitespace, and its method, when present, is one of the five |
| PermissionIngestion.TrimmedPieces | server/services/permissionIngestion.ts:44 | splitting a text on a separator and trimming each piece gives at least one piece, as the endpoint lines and the description paragraphs use |
| PermissionIngestion.CollectEndpoints | server/services/permissionIngestion.ts:45-54 | at most one endpoint per line |
| PermissionIngestion.EndpointsOf | server/services/permissionIngestion.ts:41 | a missing or empty section gives no endpoints |
| PermissionIngestion.ParseApiEndpoints | server/services/permissionIngestion.ts:40-57 | the loop over the trimmed lines computes the endpoint list of the specification |
| PermissionIngestion.EndpointsFromDashLines | server/services/permissionIngestion.ts:45-54 | every endpoint comes from some dash line of the section, has a non-empty path and, when present, one of the five methods |
| PermissionIngestion.MethodChoice | server/services/permissionIngestion.ts:47 | in `- METHOD ...` the alternation picks that method |
| PermissionIngestion.EndpointOfBullet | server/services/permissionIngestion.ts:46-53 | a bullet `- METHOD path` yields exactly that method and that path |
| PermissionIngestion.NextFence | server/services/permissionIngestion.ts:60 | the fence found lies at or after the start |
| PermissionIngestion.NextFenceFirst | server/services/permissionIngestion.ts:60 | no fence starts before the one found |
| PermissionIngestion.BlockAt | server/services/permissionIngestion.ts:60 | a block match has a non-empty tag after the opening fence and a closing fence inside the text |
| PermissionIngestion.BlockAtParts | server/services/permissionIngestion.ts:60 | the tag is a run of word characters and the lazy body holds no fence |
| PermissionIngestion.BlockFrom | server/services/permissionIngestion.ts:64 | `exec` finds a valid block at or after the last index |
| PermissionIngestion.BlockFromIsBlock | server/services/permissionIngestion.ts:64 | the block found is a match of the pattern at its start |
| PermissionIngestion.BlocksFrom | server/services/permissionIngestion.ts:64-66 | every block of the global search is a valid block |
| PermissionIngestion.ParseExamples | server/services/permissionIngestion.ts:59-69 | the `exec` loop yields one example per block of the specification search, each its tag and its trimmed body |
| PermissionIngestion.BlockWellFormed | server/services/permissionIngestion.ts:65 | each example has a non-empty word-character language and trimmed code without a fence |
| PermissionIngestion.BlocksAreBlocks | server/services/permissionIngestion.ts:64 | every block found matches the pattern |
| PermissionIngestion.ExamplesWellFormed | server/services/permissionIngestion.ts:59-69 | every example yielded is well formed |
| PermissionIngestion.AdminConsentOf | server/services/permissionIngestion.ts:96 | undefined iff the value is missing; true iff the lower-cased value contains `yes` |
| PermissionIngestion.AssignedDateOf | server/services/permissionIngestion.ts:97 | a date is present exactly for a non-empty raw value |
| PermissionIngestion.RiskWordAt | server/services/permissionIngestion.ts:81 | a risk word is HIGH, MEDIUM or LOW (ignoring case) followed by `**` |
| PermissionIngestion.RiskFrom | server/services/permissionIngestion.ts:81 | the leftmost marker found is `**`, a risk word, `**` |
| PermissionIngestion.RiskLevelOf | server/services/permissionIngestion.ts:81-99 | the risk level, when present, is one of the three upper-case words |
| PermissionIngestion.FirstNonEmpty | server/services/permissionIngestion.ts:88 | the paragraph picked is non-empty |
| PermissionIngestion.FirstNonEmptyIsFirst | server/services/permissionIngestion.ts:88 | every paragraph before it is empty; without one, all are |
| PermissionIngestion.DescriptionOf | server/services/permissionIngestion.ts:85-88 | the description, when present, is non-empty and trimmed |
| PermissionIngestion.ParsePermissionDocument | server/services/permissionIngestion.ts:71-103 | running the parsing loops yields the document of the specification |
| PermissionIngestion.UntitledDocument | server/services/permissionIngestion.ts:72-73 | a page with no line starting with `#` is named Unknown |
| PermissionIngestion.TitledDocument | server/services/permissionIngestion.ts:72-73 | a page whose first line is `# Name` is named Name |
| PermissionIngestion.IndexLines | server/services/permissionIngestion.ts:107 | splitting the index gives at least one line |
| PermissionIngestion.HeaderLazy | server/services/permissionIngestion.ts:114 | the lazy name group ends inside the line |
| PermissionIngestion.HeaderRuns | server/services/permissionIngestion.ts:114 | the greedy `\s+` after `####` backtracks from the longest run to one character |
| PermissionIngestion.FileEnd | server/services/permissionIngestion.ts:121 | the lazy file group ends at a `)` |
| PermissionIngestion.EntryLazy | server/services/permissionIngestion.ts:121 | the lazy title group ends before `](./` and the file group inside the line |
| PermissionIngestion.EntryFile | server/services/permissionIngestion.ts:121-123 | a matched entry names a non-empty file |
| PermissionIngestion.ParseCategoryIndex | server/services/permissionIngestion.ts:105-129 | the loop over the index lines yields the category set and file map of the specification fold |
| PermissionIngestion.IndexStepInv | server/services/permissionIngestion.ts:113-126 | each line keeps the invariant: every mapped file maps to a non-empty category already in the set |
| PermissionIngestion.IndexRunInv | server/services/permissionIngestion.ts:113-126 | the invariant holds after any sequence of lines |
| PermissionIngestion.NoHeaderNoMapping | server/services/permissionIngestion.ts:122 | before any header, entries are ignored and nothing is recorded |
| PermissionIngestion.EntryOverwrites | server/services/permissionIngestion.ts:122-124 | an entry under an open category maps its file to it, overwriting an earlier mapping and keeping all others |
| PermissionIngestion.HeaderOpens | server/services/permissionIngestion.ts:115-118 | a header opens its category, adds it to the set and leaves the map alone |
| PermissionIngestion.HeaderLazySkips | server/services/permissionIngestion.ts:114 | the lazy name grows over positions where `\s+\(` does not match |
| PermissionIngestion.HeaderOfLine | server/services/permissionIngestion.ts:114-116 | `#### Name (` yields the name Name |
| PermissionIngestion.FileEndSkips | server/services/permissionIngestion.ts:121 | the lazy file group grows over characters other than `)` |
| PermissionIngestion.EntryLazySkips | server/services/permissionIngestion.ts:121 | the lazy title group grows over positions where `](./` does not start |
| PermissionIngestion.EntryOfLine | server/services/permissionIngestion.ts:121-123 | `- [Title](./file)` yields the file name |
| PermissionIngestion.StoredRun | server/services/permissionIngestion.ts:162-188 | at most one stored page per directory entry |
| PermissionIngestion.UpsertCategories | server/services/permissionIngestion.ts:149-155 | every category is upserted once and the counter equals the number of categories |
| PermissionIngestion.StoreFiles | server/services/permissionIngestion.ts:157-188 | the file loop stores the pages of the specification run, and the three counters are the number of pages and their endpoint and example totals |
| PermissionIngestion.IngestGraphPermissionDocs | server/services/permissionIngestion.ts:138-191 | the upserted categories are those of the index plus Uncategorized, the stored pages those of the listing, and the statistics count them |
| PermissionIngestion.StoredPages | server/services/permissionIngestion.ts:163-168 | every stored page is a listed `.md` file other than the index, filed under its mapped category or Uncategorized |
| PermissionIngestion.PermissionFilesStored | server/services/permissionIngestion.ts:162-188 | every permission file of the listing is stored |
| PermissionIngestion.StoredCategoriesUpserted | server/services/permissionIngestion.ts:146-169 | every stored page's category was upserted, and an unlisted file falls back to Uncategorized |
| PermissionIngestion.StoredRunSnoc | server/services/permissionIngestion.ts:162-188 | pages stored for a prefix of the listing stay stored, and a last file that is a permission file is stored |
| GraphPermissionScript.FieldAt | server/scripts/ingestGraphPermissions.ts:34 | a match of `**Label**:\s*(.+)` at a position starts with the label (ignoring case) and captures a non-empty value after it |
| GraphPermissionScript.FieldMatchFrom | server/scripts/ingestGraphPermissions.ts:35 | the first match's value lies on one line |
| GraphPermissionScript.FieldMatchSkips | server/scripts/ingestGraphPermissions.ts:35 | the search moves past every position where the label does not occur |
| GraphPermissionScript.TrimNoTerminator | server/scripts/ingestGraphPermissions.ts:36 | trimming a one-line text keeps it on one line |
| GraphPermissionScript.ExtractField | server/scripts/ingestGraphPermissions.ts:33-37 | a found value is one trimmed line |
| GraphPermissionScript.ExtractFieldAbsent | server/scripts/ingestGraphPermissions.ts:35-36 | without any `**Label**:` the value is undefined |
| GraphPermissionScript.FieldMatchAt | server/scripts/ingestGraphPermissions.ts:34-35 | at the first `**Label**:` line, the match captures the rest of that line after the spaces |
| GraphPermissionScript.ExtractFieldReadsLine | server/scripts/ingestGraphPermissions.ts:33-37 | at the first `**Label**:` line, the value is the trimmed rest of that line |
| GraphPermissionScript.BodyEndFrom | server/scripts/ingestGraphPermissions.ts:40 | the lazy body ends at a line starting with `## ` or at a blank line |
| GraphPermissionScript.BodyEndFirst | server/scripts/ingestGraphPermissions.ts:40 | no earlier stop lies before the one found |
| GraphPermissionScript.BodyEndAt | server/scripts/ingestGraphPermissions.ts:40 | a stop at the body's start ends it there |
| GraphPermissionScript.BodyFrom | server/scripts/ingestGraphPermissions.ts:40 | the body after the heading's `\s*\n` ends at its first stop |
| GraphPermissionScript.SectionAt | server/scripts/ingestGraphPermissions.ts:40 | a section match at a position captures a body ending at its first stop |
| GraphPermissionScript.SectionMatchFrom | server/scripts/ingestGraphPermissions.ts:41 | the leftmost match's body ends at its first stop |
| GraphPermissionScript.SectionMatchSkips | server/scripts/ingestGraphPermissions.ts:41 | the search moves past every position where no heading line begins |
| GraphPermissionScript.ExtractSection | server/scripts/ingestGraphPermissions.ts:39-43 | a found section is trimmed |
| GraphPermissionScript.ExtractSectionAbsent | server/scripts/ingestGraphPermissions.ts:41-42 | a text without a `## Heading` line has no such section |
| GraphPermissionScript.BodyNoBlankLine | server/scripts/ingestGraphPermissions.ts:40 | the body found holds no blank line, because `\n$` in multiline mode stops at the first |
| GraphPermissionScript.TrimNoBlankLine | server/scripts/ingestGraphPermissions.ts:42 | trimming keeps a text free of blank lines |
| GraphPermissionScript.SectionHasNoBlankLine | server/scripts/ingestGraphPermissions.ts:39-43 | every section extracted holds no blank line |
| GraphPermissionScript.ExtractSectionReadsBody | server/scripts/ingestGraphPermissions.ts:39-43 | at the first `## Heading` line, the section is the trimmed text up to the first stop |
| GraphPermissionScript.BodyEndSkips | server/scripts/ingestGraphPermissions.ts:40 | the body search moves past every position without a stop |
| GraphPermissionScript.CollapseNewlines | server/scripts/ingestGraphPermissions.ts:69 | the result keeps the first character and has no two newlines in a row |
| GraphPermissionScript.CollapseNewlinesIdentity | server/scripts/ingestGraphPermissions.ts:69 | a text without two newlines in a row is left unchanged |
| GraphPermissionScript.ExtractDescription | server/scripts/ingestGraphPermissions.ts:67-70 | a found description is trimmed |
| GraphPermissionScript.DescriptionIsSection | server/scripts/ingestGraphPermissions.ts:67-70 | the description is the non-empty Description section unchanged: the newline collapse never applies to a section |
| GraphPermissionScript.RiskLineFrom | server/scripts/ingestGraphPermissions.ts:46 | the captured risk line is the first non-empty line after the heading, up to its newline |
| GraphPermissionScript.RiskAt | server/scripts/ingestGraphPermissions.ts:46 | a match at a position starts with `### Risk Level` and captures one non-empty line after it |
| GraphPermissionScript.RiskMatchFrom | server/scripts/ingestGraphPermissions.ts:47 | the leftmost match captures one non-empty line |
| GraphPermissionScript.RiskMatchSkips | server/scripts/ingestGraphPermissions.ts:47 | the search moves past every position where the heading does not start |
| GraphPermissionScript.RemoveMarkers | server/scripts/ingestGraphPermissions.ts:49 | no coloured marker is left and only characters of the line remain |
| GraphPermissionScript.StarsKeepHead | server/scripts/ingestGraphPermissions.ts:49 | removing `**` keeps the first character of a text that does not start with `**` |
| GraphPermissionScript.StarsGone | server/scripts/ingestGraphPermissions.ts:49 | after removing every `**` no two stars remain in a row |
| GraphPermissionScript.RemoveAllKeepsOut | server/scripts/ingestGraphPermissions.ts:49 | removing a pattern only drops characters |
| GraphPermissionScript.StarsRemovedClean | server/scripts/ingestGraphPermissions.ts:49 | removing `**` reintroduces no marker |
| GraphPermissionScript.CleanRiskFacts | server/scripts/ingestGraphPermissions.ts:49 | the cleaned line has no marker, no `**` and is trimmed |
| GraphPermissionScript.CleanRisk | server/scripts/ingestGraphPermissions.ts:49 | the cleaned line has no marker, no `**` and is trimmed |
| GraphPermissionScript.ExtractRiskLevel | server/scripts/ingestGraphPermissions.ts:45-50 | a found risk level has no marker, no `**` and is trimmed |
| GraphPermissionScript.ExtractRiskLevelAbsent | server/scripts/ingestGraphPermissions.ts:47-48 | without the heading there is no risk level |
| GraphPermissionScript.ExtractRiskLevelReadsLine | server/scripts/ingestGraphPermissions.ts:45-50 | a heading followed by a non-empty line gives that line cleaned |
| GraphPermissionScript.ParseAssignedDate | server/scripts/ingestGraphPermissions.ts:52-56 | no date for a missing or empty value; otherwise the date parser's result, invalid dates being undefined |
| GraphPermissionScript.StripMarker | server/scripts/ingestGraphPermissions.ts:63 | stripping the bullet marker never lengthens the line |
| GraphPermissionScript.UseCaseOf | server/scripts/ingestGraphPermissions.ts:63 | a use case is trimmed |
| GraphPermissionScript.UseCasesOfLines | server/scripts/ingestGraphPermissions.ts:61-64 | at most one use case per line, each non-empty and trimmed |
| GraphPermissionScript.ExtractUseCases | server/scripts/ingestGraphPermissions.ts:58-65 | every use case is non-empty and trimmed |
| GraphPermissionScript.UseCaseOfBullet | server/scripts/ingestGraphPermissions.ts:63 | `- text` and `* text` give their text |
| GraphPermissionScript.UseCasesCount | server/scripts/ingestGraphPermissions.ts:61-64 | use cases plus lines empty once cleaned make up all the lines |
| GraphPermissionScript.PermissionName | server/scripts/ingestGraphPermissions.ts:73-74 | the name, when found, is a non-empty trimmed single line |
| GraphPermissionScript.WithoutBackticks | server/scripts/ingestGraphPermissions.ts:85 | a present value stays present, loses every backtick and never grows |
| GraphPermissionScript.ParsePermission | server/scripts/ingestGraphPermissions.ts:72-95 | fails with `Unable to determine permission name for <file>` exactly when no name is found; otherwise carries the name and the file, admin consent iff the field says yes, and a permission id without backticks |
| GraphPermissionScript.NoTitleIsRejected | server/scripts/ingestGraphPermissions.ts:73-77 | a page with no line starting with `#` is rejected with the script's message |
| GraphPermissionScript.TitledPageIsAccepted | server/scripts/ingestGraphPermissions.ts:73-83 | a page starting with `# name` is accepted under that name |
| GraphPermissionScript.AdminConsentDefaultsToFalse | server/scripts/ingestGraphPermissions.ts:79-88 | without an Admin Consent Required field, admin consent is not required |
| MeetingEmailLink.MatchCount | server/services/meetingEmailLink.ts:96-97 | the number of matching patterns is at most the number of patterns, and positive exactly when some pattern matches |
| MeetingEmailLink.DetectMeetingSummaryType | server/services/meetingEmailLink.ts:64-113 | a summary exactly when a link type is set, exactly when the confidence is positive; the confidence is below 1 |
| MeetingEmailLink.OtterDecidesFirst | server/services/meetingEmailLink.ts:74-83 | Otter exactly when an Otter pattern matches the sender, subject or body head; 0.95 exactly when it matched the sender or subject |
| MeetingEmailLink.RecapOnlyWithoutOtter | server/services/meetingEmailLink.ts:85-94 | a Microsoft recap exactly when no Otter pattern matched and some recap pattern did |
| MeetingEmailLink.GenericLadder | server/services/meetingEmailLink.ts:96-110 | meeting notes exactly when no specific pattern matched and one generic pattern matches the subject or two match the body head |
| MeetingEmailLink.OnlyBodyHeadMatters | server/services/meetingEmailLink.ts:72 | two emails alike in sender, subject and first 5000 body characters are classified alike |
| MeetingEmailLink.TitleFromPatterns | server/services/meetingEmailLink.ts:127-133 | a title found by the patterns is trimmed |
| MeetingEmailLink.FirstPatternDecides | server/services/meetingEmailLink.ts:127-133 | the first pattern that captures decides, its subject capture taking precedence over its body capture |
| MeetingEmailLink.NoPatternNoTitle | server/services/meetingEmailLink.ts:127-133 | when no pattern captures, the patterns give no title |
| MeetingEmailLink.FindIgnoreCase | server/services/meetingEmailLink.ts:137-138 | the position found is an occurrence of the key, ignoring case |
| MeetingEmailLink.RemoveFirstIgnoreCase | server/services/meetingEmailLink.ts:137-138 | removing the first occurrence never lengthens the text |
| MeetingEmailLink.DashesToSpacesTrimmed | server/services/meetingEmailLink.ts:139-140 | no dash, en dash or em dash is left |
| MeetingEmailLink.CleanOtterSubject | server/services/meetingEmailLink.ts:136-140 | the cleaned subject holds no dash |
| MeetingEmailLink.ExtractMeetingTitleFromEmail | server/services/meetingEmailLink.ts:115-145 | a pattern title wins; otherwise a title exists only for an Otter summary and is the cleaned subject, longer than three characters |
| MeetingEmailLink.Normalize | server/services/meetingEmailLink.ts:148 | a normalised title holds only lower-case letters, digits and whitespace |
| MeetingEmailLink.Words | server/services/meetingEmailLink.ts:155-156 | splitting on whitespace gives non-empty words |
| MeetingEmailLink.LongWords | server/services/meetingEmailLink.ts:155-156 | every word kept is longer than two characters |
| MeetingEmailLink.CommonCount | server/services/meetingEmailLink.ts:160 | the common words are counted from the first list, so at most its length |
| MeetingEmailLink.CommonWordRatio | server/services/meetingEmailLink.ts:161 | the ratio is non-negative and below 2 |
| MeetingEmailLink.TitleSimilarityAsWritten | server/services/meetingEmailLink.ts:147-164 | the similarity as written lies in [0, 2) |
| MeetingEmailLink.WordsCons | server/services/meetingEmailLink.ts:155 | a word, a space and the rest split into that word and the words of the rest |
| MeetingEmailLink.WordsOne | server/services/meetingEmailLink.ts:155 | a single word splits into itself |
| MeetingEmailLink.WordsOfJoin | server/services/meetingEmailLink.ts:155 | plain words joined by spaces split back into the same words |
| MeetingEmailLink.PlainTitle | server/services/meetingEmailLink.ts:148-156 | plain words joined by spaces normalise to themselves and are their own long words |
| MeetingEmailLink.SimilarityByWords | server/services/meetingEmailLink.ts:152-163 | for normalised titles neither containing the other, with long words on both sides, the similarity is the common-word ratio |
| MeetingEmailLink.RepeatedWordCount | server/services/meetingEmailLink.ts:160-161 | four copies of a word and one more word against that word and another give 8/7 |
| MeetingEmailLink.RepeatedWordRatio | server/services/meetingEmailLink.ts:147-164 | `a a a a b` against `a c` scores 8/7, above 1 |
| MeetingEmailLink.SimilarityCanExceedOne | server/services/meetingEmailLink.ts:147-164 | `abc abc abc abc xyz` against `abc qqq` scores 8/7 |
| MeetingEmailLink.NormalizeIdentity | server/services/meetingEmailLink.ts:148 | a trimmed text of lower-case letters, digits and spaces is already normalised |
| MeetingEmailLink.EmptyTitleMatchesAnything | server/services/meetingEmailLink.ts:152-153 | a title that normalises to nothing scores 0.9 against any title that does not |
| MeetingEmailLink.PunctuationNormalizesToEmpty | server/services/meetingEmailLink.ts:148 | `!!!` normalises to the empty text |
| MeetingEmailLink.PunctuationTitleMatchesAnything | server/services/meetingEmailLink.ts:147-153 | `!!!` scores 0.9, a strong title match, against any title with a letter or digit |
| MeetingEmailLink.SharedWordRatio | server/services/meetingEmailLink.ts:160-161 | the intended ratio counts shared words as a multiset intersection and lies between 0 and 1 |
| MeetingEmailLink.TitleSimilarity | server/services/meetingEmailLink.ts:147-164 | the intended similarity lies between 0 and 1, is 0 when either title normalises to nothing, and 1 for equal non-empty normalised titles |
| MeetingEmailLink.TitleSimilaritySymmetric | server/services/meetingEmailLink.ts:147-164 | the intended similarity does not depend on the order of the titles |
| MeetingEmailLink.CommonCountDistinct | server/services/meetingEmailLink.ts:160 | without repeated words in the first list, the source's common count is the multiset intersection size |
| MeetingEmailLink.SimilarityAgreesWithoutRepeats | server/services/meetingEmailLink.ts:147-164 | for non-empty titles whose first list has no repeated word, the intended and the written similarity agree |
| MeetingEmailLink.Similarity | server/services/meetingEmailLink.ts:147-164 | the matcher runs either similarity: the one as written lies in [0, 2), the intended one in [0, 1] |
| MeetingEmailLink.TimeScore | server/services/meetingEmailLink.ts:189-220 | the timing signal adds at most 0.35 and at most one signal |
| MeetingEmailLink.TitleScore | server/services/meetingEmailLink.ts:222-236 | the title signal adds at most 0.55 and two signals, nothing without an extracted and a meeting title, and two signals exactly when the similarity reaches 0.9 |
| MeetingEmailLink.SubjectScore | server/services/meetingEmailLink.ts:238-248 | the subject signal adds at most one signal and nothing when a title was extracted; it stays below 0.8 as written and at most 0.4 with the intended similarity |
| MeetingEmailLink.LowerAll | server/services/meetingEmailLink.ts:253-255 | each address lower-cased, in order |
| MeetingEmailLink.AttendeeScore | server/services/meetingEmailLink.ts:250-270 | the attendee signal adds at most 0.3 and one signal |
| MeetingEmailLink.MeetingScore | server/services/meetingEmailLink.ts:184-270 | a candidate's score lies in [0, 1.45) with at most four signals, since the title and subject signals exclude each other; at most 1.2 with the intended similarity |
| MeetingEmailLink.Pointwise | server/services/meetingEmailLink.ts:184 | each candidate is rated, and each email of a batch linked, in order and once |
| MeetingEmailLink.Select | server/services/meetingEmailLink.ts:272-276 | the candidate selected meets the threshold of 0.25 and two signals |
| MeetingEmailLink.SelectNoneIff | server/services/meetingEmailLink.ts:272-281 | nothing is selected exactly when no candidate meets the threshold |
| MeetingEmailLink.SelectIsFirstBest | server/services/meetingEmailLink.ts:274 | the candidate selected has the highest qualifying score, and is the first with it |
| MeetingEmailLink.MatchFor | server/services/meetingEmailLink.ts:166-288 | for either similarity, no meeting means confidence 0; a meeting found is one of the candidates with confidence between 0.25 and 1 |
| MeetingEmailLink.SelectStep | server/services/meetingEmailLink.ts:272-276 | one more candidate becomes the best exactly when it qualifies and scores strictly above the best so far |
| MeetingEmailLink.ScanCandidates | server/services/meetingEmailLink.ts:184-277 | scoring the candidates in order and replacing the best only on a strictly higher qualifying score selects what the selection rule selects |
| MeetingEmailLink.FindMatchingMeeting | server/services/meetingEmailLink.ts:166-288 | with the similarity as written or as intended, the loop over the candidates gives the specification's answer, and no candidates give no meeting and confidence 0 |
| MeetingEmailLink.MatchIsFirstBest | server/services/meetingEmailLink.ts:272-287 | for either similarity: no meeting exactly when no candidate qualifies; otherwise the first candidate with the highest qualifying score, its confidence the score capped at 1 |
| MeetingEmailLink.PunctuationTitleScores | server/services/meetingEmailLink.ts:222-228 | as written, an extracted title `!!!` is a strong title match (0.55, two signals) for any meeting title with a letter or digit; with the intended similarity it adds nothing |
| MeetingEmailLink.PunctuationTitleQualifies | server/services/meetingEmailLink.ts:184-272 | as written, every candidate whose title has a letter or digit meets the threshold for an email whose extracted title is `!!!` |
| MeetingEmailLink.PunctuationTitleAlwaysMatches | server/services/meetingEmailLink.ts:184-287 | as written, such an email is matched to some meeting whenever one candidate has a title with a letter or digit |
| MeetingEmailLink.SubjectScoreOfRatio | server/services/meetingEmailLink.ts:238-243 | a subject similarity of 8/7 adds 0.4 · 8/7 and one signal |
| MeetingEmailLink.SubjectScoreCanExceedCap | server/services/meetingEmailLink.ts:238-243 | as written, the subject `abc abc abc abc xyz` against the title `abc qqq` adds more than 0.4 |
| MeetingEmailLink.LinkEmailToMeeting | server/services/meetingEmailLink.ts:290-333 | the result always carries the email's id |
| MeetingEmailLink.LinkDecisions | server/services/meetingEmailLink.ts:290-333 | a missing email gives no link; an already linked email is reported with its link and nothing is written; a non-summary gives no link; a link is written exactly when the email is an unlinked summary with a matching meeting and the store succeeds, and the result then reports what was written |
| MeetingEmailLink.ReportedLinksAreStored | server/services/meetingEmailLink.ts:297-326 | a reported meeting was either already linked or is the one just written |
| MeetingEmailLink.WritesOf | server/services/meetingEmailLink.ts:315 | at most one write per email |
| MeetingEmailLink.WritesOfSnoc | server/services/meetingEmailLink.ts:315 | the writes of one more email are those before plus its own |
| MeetingEmailLink.LinkAllUnlinkedEmails | server/services/meetingEmailLink.ts:335-365 | every email is processed once; processed = linked + unlinked + errors; errors stay 0 because the link step catches its own failures; linked counts the emails reported linked; the writes are those of the link steps in order |
| SyncScheduler.ResourceName | server/services/syncScheduler.ts:73 | each of the seven resource names is non-empty and holds no colon |
| SyncScheduler.ParseResource | server/services/syncScheduler.ts:73-77 | a text is accepted exactly when it names one of the seven resource types, and then names that type |
| SyncScheduler.ResourceParses | server/services/syncScheduler.ts:73-74 | each resource type's name is accepted as that type |
| SyncScheduler.ProcessingKeyInjective | server/services/syncScheduler.ts:90 | `user:resource` keys of different targets differ, because resource names hold no colon |
| SyncScheduler.KeyColon | server/services/syncScheduler.ts:90 | two equal keys with different suffix lengths would put a colon inside a resource name |
| SyncScheduler.DistinctTargetsDistinctKeys | server/services/syncScheduler.ts:90 | jobs for different targets run under different keys |
| SyncScheduler.ResourceNameInjective | server/services/syncScheduler.ts:73 | different resource types have different names |
| SyncScheduler.Insert | server/services/syncScheduler.ts:117-122 | inserting a job adds exactly that job |
| SyncScheduler.InsertSorted | server/services/syncScheduler.ts:117-122 | inserting into a sorted queue keeps it sorted |
| SyncScheduler.SortJobs | server/services/syncScheduler.ts:116-123 | sorting permutes the queue |
| SyncScheduler.SortJobsSorted | server/services/syncScheduler.ts:116-123 | the sorted queue is ordered by ascending priority, then by earlier `scheduledAt` |
| SyncScheduler.UniqueTargetsPermutation | server/services/syncScheduler.ts:116-123 | reordering the queue keeps one job per user and resource |
| SyncScheduler.FindTarget | server/services/syncScheduler.ts:79-81 | `find` returns the first queued job for the user and resource, or none when there is none |
| SyncScheduler.EnqueueInvalidType | server/services/syncScheduler.ts:73-77 | an unknown resource type leaves the queue unchanged |
| SyncScheduler.SortKeepsQueueValid | server/services/syncScheduler.ts:104-105 | sorting a queue with one job per target and none running yields a valid queue |
| SyncScheduler.LowerPriorityKeepsValid | server/services/syncScheduler.ts:83-86 | lowering a queued job's priority and re-sorting keeps the queue valid |
| SyncScheduler.AppendKeepsValid | server/services/syncScheduler.ts:104-105 | appending a job for a new, not running target and sorting keeps the queue valid |
| SyncScheduler.EnqueueKeepsQueueValid | server/services/syncScheduler.ts:68-114 | enqueueing keeps the queue sorted, with one job per target and none of them running |
| SyncScheduler.ReEnqueueOnlyLowersPriority | server/services/syncScheduler.ts:79-88 | re-enqueueing a queued target adds nothing and replaces its job by one whose priority is the smaller of the two |
| SyncScheduler.NoEnqueueWhileProcessing | server/services/syncScheduler.ts:90-93 | while a job for the target runs and none is queued, nothing is enqueued |
| SyncScheduler.EnqueueAddsNewJob | server/services/syncScheduler.ts:95-105 | a target neither queued nor running gets exactly one new job with retry count 0, scheduled now |
| SyncScheduler.BackoffDelay | server/services/syncScheduler.ts:214 | the delay is always an entry of the backoff table |
| SyncScheduler.BackoffDoubles | server/services/syncScheduler.ts:213-214 | below the retry limit the delay is `BACKOFF_DELAYS[retryCount-1]`, twice the previous one |
| SyncScheduler.ErrorMessage | server/services/syncScheduler.ts:186-192 | a failed result records its errors joined by `; `, or the unknown-error message when that is empty |
| SyncScheduler.RequeueAsWritten | server/services/syncScheduler.ts:217-227 | while shutting down the queue is unchanged; otherwise the job is added to the queue, which is re-sorted |
| SyncScheduler.RetryDuplicatesTarget | server/services/syncScheduler.ts:217-221 | as written, a retry pushed while the same target was re-enqueued leaves two jobs for one target |
| SyncScheduler.RemoveKeepsQueueValid | server/services/syncScheduler.ts:253-258 | taking a job out of the queue and marking it running keeps the queue valid |
| SyncScheduler.StartKeepsRunningValid | server/services/syncScheduler.ts:258 | starting a job of an unlocked user keeps one running job per lock |
| SyncScheduler.ReleaseKeepsRunningValid | server/services/syncScheduler.ts:233-236 | releasing a job's key and its user's lock keeps the running jobs valid |
| SyncScheduler.Scheduler.constructor | server/services/syncScheduler.ts:36-41 | the scheduler starts with an empty queue, nothing running, no locks and zero counters |
| SyncScheduler.Scheduler.SortQueue | server/services/syncScheduler.ts:116-123 | the queue becomes its sorted permutation; nothing else changes |
| SyncScheduler.Scheduler.EnqueueSync | server/services/syncScheduler.ts:68-114 | the queue becomes the specification's enqueue result and stays valid; nothing else changes |
| SyncScheduler.Scheduler.NextAvailableJob | server/services/syncScheduler.ts:282-289 | the first queued job, in queue order, whose user is not locked, or none when every queued user is locked |
| SyncScheduler.Scheduler.Dispatch | server/services/syncScheduler.ts:247-267 | with no available job nothing changes; otherwise the first available job leaves the queue, becomes running under its key and its user is locked |
| SyncScheduler.Scheduler.FillWorkers | server/services/syncScheduler.ts:246-268 | never more than two workers; each job started had an unlocked user, now locked, no two for one user; when workers remain free every queued user is locked |
| SyncScheduler.Scheduler.FinishJob | server/services/syncScheduler.ts:179-237 | the key and the lock are always released; a success counts as completed; a failure increments the retry count and either schedules a retry with the backoff delay or, at the fifth failure, counts as failed |
| SyncScheduler.Scheduler.RequeueRetry | server/services/syncScheduler.ts:217-221 | the retry enters the sorted queue unless shutting down or its target is already queued or running, so the queue stays valid |
| SyncScheduler.Scheduler.GetQueueStats | server/services/syncScheduler.ts:291-304 | the statistics report the queue length, running jobs, both counters and the users of running jobs |
| SyncScheduler.Scheduler.ActiveUsersAreLocked | server/services/syncScheduler.ts:258-295 | the active users reported are exactly the locked users |
| SyncScheduler.AppendUnique | server/services/syncScheduler.ts:104 | pushing a job whose target is not queued keeps one job per user and resource |
| ActivityFeed.Preview | server/services/activityFeed.ts:64 | no description exactly when the body is missing or empty; otherwise the non-empty prefix of the body of length min(length, 200) |
| ActivityFeed.EmailItem | server/services/activityFeed.ts:60-66 | an email item keeps the id and the received time, lists sender, then to, then cc, falls back to `(No subject)`, and previews the body |
| ActivityFeed.MeetingItem | server/services/activityFeed.ts:126-132 | a meeting item keeps id, date and title; its description is the summary, else the description, else none; its participants are the attendees or none |
| ActivityFeed.OrganizerParticipants | server/services/activityFeed.ts:192-198 | the organizer's address when present, else the organizer's name, else nobody |
| ActivityFeed.CalendarItem | server/services/activityFeed.ts:191-206 | a calendar item keeps id and start, lists the organizer participant, takes a non-empty subject as its title and falls back to `(No subject)` otherwise, and carries a non-empty body preview as its description and none otherwise |
| ActivityFeed.ChatItem | server/services/activityFeed.ts:264-270 | a chat item keeps id and send time, lists the sender, is titled by the chat topic, else `<chat type> message` with `Chat` as default type, and previews the body |
| ActivityFeed.LimitOf | server/services/activityFeed.ts:290 | the limit defaults to 50 and is never 0 |
| ActivityFeed.Paginate | server/services/activityFeed.ts:317-324 | the page is `slice(offset, offset + limit)`, at most limit items; total is the merged count; `hasMore` exactly when offset + limit < total |
| ActivityFeed.PageNewestFirst | server/services/activityFeed.ts:315-318 | a page of a newest-first sequence is newest first and holds only its items |
| ActivityFeed.MergedSorted | server/services/activityFeed.ts:311-315 | the merged items are exactly the fetched items, reordered newest first |
| ActivityFeed.GetUnifiedActivityFeed | server/services/activityFeed.ts:284-325 | the feed is the page at the offset of the merged items, at most limit items, newest first |
| ActivityFeed.FetchedKinds | server/services/activityFeed.ts:298-309 | only the requested types are fetched |
| ActivityFeed.FeedHasOnlyRequestedTypes | server/services/activityFeed.ts:289-325 | every item of the feed has a requested type, all four by default |
| ActivityFeed.PagesTile | server/services/activityFeed.ts:317-318 | consecutive pages leave no gap and do not overlap |
| ActivityFeed.SearchActivities | server/services/activityFeed.ts:388-400 | the search keeps exactly the page's items whose lower-cased title, description or some participant contains the lower-cased query |
| ActivityFeed.EmptyQueryKeepsPage | server/services/activityFeed.ts:394-399 | the empty query returns the whole page |
| ActivityFeed.SearchIgnoresQueryCase | server/services/activityFeed.ts:394 | queries equal up to case give the same results |
| ActivityFeed.IdsInOrder | server/services/activityFeed.ts:121-122 | the Map's keys: each id once, exactly the ids of the meetings |
| ActivityFeed.LastIndex | server/services/activityFeed.ts:121 | the position of the last meeting with an id: no later meeting has it, and -1 when none has it |
| ActivityFeed.LastWithId | server/services/activityFeed.ts:121 | the Map keeps, for each id, the meeting at the last position with that id |
| ActivityFeed.FirstIndex | server/services/activityFeed.ts:121-122 | the position of the first meeting with an id: no earlier meeting has it |
| ActivityFeed.FirstIndexSnoc | server/services/activityFeed.ts:121 | a later meeting does not move the first position of an id already seen |
| ActivityFeed.IdsFound | server/services/activityFeed.ts:121-122 | every key of the Map occurs in the list |
| ActivityFeed.FirstIndexNew | server/services/activityFeed.ts:121 | a new id is first seen where it is appended |
| ActivityFeed.IdsInFirstOccurrenceOrder | server/services/activityFeed.ts:121-122 | the Map's keys come in the order in which the ids first occur |
| ActivityFeed.UniqueById | server/services/activityFeed.ts:120-122 | the de-duplicated meetings come from the list, carry distinct ids, and every id of the list is represented |
| ActivityFeed.UniqueByIdIds | server/services/activityFeed.ts:121-122 | the value at each position of the Map is the last meeting with the key at that position |
| ActivityFeed.UniqueByIdLastInFirstOrder | server/services/activityFeed.ts:121-122 | each de-duplicated meeting is the last one with its id, and they come in the order in which their ids first occur |
| ActivityFeed.AttendeeMeetings | server/services/activityFeed.ts:101-118 | a candidate is kept exactly when the user has an address and some attendee contains it or is contained in it, ignoring case |
| ActivityFeed.UserMeetingsFacts | server/services/activityFeed.ts:88-124 | the per-user meetings are at most limit, with distinct ids, each uploaded by the user or attended by them, newest first |
| ActivityFeed.UserMeetingsCoverBothLists | server/services/activityFeed.ts:120-122 | every upload and every attended candidate is represented by its id before the cut |
| ActivityFeed.UserMeetingActivities | server/services/activityFeed.ts:120-139 | the per-user meeting items are at most limit, with distinct ids, newest first |
| TaskAnalytics.RangeDays | server/storage.ts:446-452 | 30d, 90d and 1y give 30, 90 and 365 days; any other text gives 7 |
| TaskAnalytics.InWindow | server/storage.ts:453-459 | exactly the tasks created at or after the cutoff `days` days before now |
| TaskAnalytics.LongerRangeCoversShorter | server/storage.ts:446-459 | a longer range reports every task a shorter one reports |
| TaskAnalytics.CountExclusive | server/storage.ts:462-465 | two exclusive filters together count at most all tasks |
| TaskAnalytics.Percent | server/storage.ts:478 | a completion rate lies between 0 and 100, is 0 without tasks and 100 when all are completed |
| TaskAnalytics.GetTaskStats | server/storage.ts:461-479 | total is the task count; completed, pending and overdue count the completed tasks, the pending or in-progress ones and the uncompleted ones due before now; completed + pending ≤ total and completed + overdue ≤ total; the rate is completed / total · 100, 0 without tasks |
| TaskAnalytics.StatsStep | server/storage.ts:461-472 | one more task adds one to the total and one to each count whose test it passes |
| TaskAnalytics.OtherStatusCountsOnlyInTotal | server/storage.ts:461-465 | a task of another status, such as cancelled, counts toward the total only |
| TaskAnalytics.Put | server/storage.ts:510-512 | setting a bucket's counters keeps the tally valid and appends a new key to the insertion order |
| TaskAnalytics.SumOverUpdate | server/storage.ts:514 | updating one bucket changes the sum by the difference of its counter |
| TaskAnalytics.SumOverNewKey | server/storage.ts:510-514 | a new bucket adds its counter to the sum |
| TaskAnalytics.SumOverUpdateAbsent | server/storage.ts:514 | updating a bucket outside the keys summed leaves the sum alone |
| TaskAnalytics.FindUser | server/storage.ts:507 | `find` returns a user with the id from the list, or none when no user has it |
| TaskAnalytics.DeptOf | server/storage.ts:507-508 | an assigned task's bucket is its user's department, or Unassigned when the user is unknown or has none |
| TaskAnalytics.DeptBump | server/storage.ts:514-517 | one more task adds one to the total and keeps completed ≤ total |
| TaskAnalytics.DeptStepKeepsValid | server/storage.ts:505-518 | each task keeps the department tally valid: no bucket empty or with more completed than total tasks |
| TaskAnalytics.DeptTallyOfValid | server/storage.ts:505-518 | the department tally is valid after any tasks |
| TaskAnalytics.DeptTallyKeys | server/storage.ts:505-512 | the buckets are exactly the departments of the assigned tasks |
| TaskAnalytics.DeptTotalsCountAssigned | server/storage.ts:505-518 | the department totals add up to the number of assigned tasks |
| TaskAnalytics.DeptRows | server/storage.ts:520-528 | one row per bucket in insertion order with its counters, completed ≤ total, rate between 0 and 100 |
| TaskAnalytics.GetDepartmentStats | server/storage.ts:482-529 | the loop computes the specification's tally and its rows |
| TaskAnalytics.UserName | server/storage.ts:565-568 | "first last" when both names are present, else the email, else Unknown |
| TaskAnalytics.AssigneeOf | server/storage.ts:560-562 | a task counts for a known assignee only; an unassigned task or an unknown user is skipped |
| TaskAnalytics.UserBump | server/storage.ts:579-586 | completed tasks count as completed, pending and in-progress ones as pending, and overdue only among those, so overdue ≤ pending is kept |
| TaskAnalytics.UserStepKeepsValid | server/storage.ts:559-587 | each task keeps the user tally valid: every row belongs to a known user and has overdue ≤ pending |
| TaskAnalytics.UserTallyOfValid | server/storage.ts:559-587 | the user tally is valid after any tasks |
| TaskAnalytics.UserTallyKeys | server/storage.ts:559-577 | the rows are exactly the known assignees |
| TaskAnalytics.UserCompletedSum | server/storage.ts:579-580 | the completed counts add up to the completed tasks with a known assignee |
| TaskAnalytics.UserRows | server/storage.ts:589-592 | one row per user in insertion order with their counters, overdue ≤ pending |
| TaskAnalytics.GetUserPerformance | server/storage.ts:531-593 | the loop computes the specification's tally and its rows |
| TaskAnalytics.Updated | server/storage.ts:357-361 | an absent column keeps the stored value, `null` clears it, a value replaces it |
| TaskAnalytics.BuildUpdate | server/storage.ts:353-356 | the update keeps the given fields, stamps `updatedAt`, keeps a given `completedAt`, and otherwise (absent or `null`) stamps `completedAt` exactly when the new status is completed |
| TaskAnalytics.UpdateTask | server/storage.ts:352-363 | completing a task always leaves a completion time, now when none was given; otherwise an absent completion time keeps the stored one and `null` clears it; the due date and assignee are kept, cleared or replaced as given; the update time is now |
| TaskAnalytics.UserCompletedStep | server/storage.ts:579-580 | one more task raises the completed total by one exactly when it is completed and its assignee is a known user |
| SyncBookkeeping.RequiredScopes | server/services/sync.ts:37-44 | calendar, contacts, drive, todo, chat and presence each need their listed scopes; any other resource needs none |
| SyncBookkeeping.QuoteIndex | server/services/sync.ts:57 | the first quote at or after the start position, or the end of the text when there is none |
| SyncBookkeeping.CaptureAt | server/services/sync.ts:57 | the scopes the pattern captures are non-empty and contain no quote |
| SyncBookkeeping.FindScopes | server/services/sync.ts:57 | no result exactly when the pattern matches nowhere; otherwise the capture at the first position where it matches |
| SyncBookkeeping.FormatPermissionError | server/services/sync.ts:52-63 | the message is the resource's lead sentence, then the required scopes, then the fixed advice about admin consent |
| SyncBookkeeping.MessageUsesCapturedScopes | server/services/sync.ts:57-58 | a body naming the scopes decides the scopes in the message, whatever the resource |
| SyncBookkeeping.UnknownResourceRequiresNothing | server/services/sync.ts:53-58 | without a body the message lists the resource's scopes joined by " or ", which is empty for an unknown resource |
| SyncBookkeeping.CalendarScopesJoined | server/services/sync.ts:38-58 | without a body a calendar failure names "Calendars.Read or Calendars.ReadWrite" |
| SyncBookkeeping.FailedSync | server/services/sync.ts:277-295 | a failed sync counts nothing and keeps no delta token; it is a permission error exactly when the status is 403 or the code is Forbidden, and its one error is then the formatted permission message, otherwise the error's message or the "Unknown error" fallback |
| SyncBookkeeping.CounterDiscipline | server/services/sync.ts:228-235 | after an item loop whose try ends with the counting (calendar, contacts, drive, to-do tasks), processed = created + updated = the stored items, processed + errors = all items, and the known keys are the preloaded ones plus every stored key |
| SyncBookkeeping.CreatedOncePerNewKey | server/services/sync.ts:228-235 | when every write succeeds, exactly the keys not known before count as created and all the rest as updated |
| SyncBookkeeping.SyncItems | server/services/sync.ts:228-235 | the calendar counter loop (the contacts, drive and to-do task loops at lines 411-419, 587-595 and 798-806 have the same shape) yields the counters and known keys of the item-by-item specification, so created + updated = processed and processed + errors = items |
| SyncBookkeeping.TodoCounterDiscipline | server/services/sync.ts:718-814 | in the to-do sync, processed = created + updated, but processed + errors = the lists and tasks met plus the lists counted and then failed on a task page |
| SyncBookkeeping.ListCountedAndFailed | server/services/sync.ts:737-813 | a list stored and counted whose task page fails is one item, processed once and reported once as a `List` error |
| SyncBookkeeping.SyncTodoLists | server/services/sync.ts:718-814 | the loop over the lists, with the task loop inside for each stored list, yields the counters of the list-by-list specification |
| SyncBookkeeping.NewDeltaToken | server/services/sync.ts:241-243 | the token kept is a non-empty delta link some page returned, the last page's when it has one, and none when no page had one |
| SyncBookkeeping.AllResourcesListed | server/services/sync.ts:1557-1564 | every resource appears in the list of resources once |
| SyncBookkeeping.ResultsMap | server/services/sync.ts:1566-1615 | the results hold exactly the included resources, each with its own sync's result |
| SyncBookkeeping.SyncAllResources | server/services/sync.ts:1542-1631 | the overall results hold exactly the included resources, each with its own sync's result |
| SyncBookkeeping.SyncAllSuccess | server/services/sync.ts:1620-1627 | the whole sync succeeds exactly when every included resource's sync succeeded |
| SyncBookkeeping.NoneFailedIff | server/services/sync.ts:1620 | the failed count is zero exactly when no listed resource was included and failed |
| SyncBookkeeping.SuccessfulPlusFailed | server/services/sync.ts:1619-1620 | every included resource counts as successful or as failed, never both |
| SyncBookkeeping.TotalItemsGrows | server/services/sync.ts:1621-1624 | including one more resource adds exactly that resource's processed items to the total |
| SyncBookkeeping.EventReminder | server/services/sync.ts:1446-1481 | an event gets a reminder exactly when it is not cancelled, has no pending reminder and its reminder time is still ahead; the reminder fires `minutesBefore` minutes before the start |
| SyncBookkeeping.TaskReminder | server/services/sync.ts:1493-1518 | a task gets an overdue reminder exactly when it is due before now, neither completed nor cancelled and has no pending reminder; it fires now with the "Overdue: " title |
| SyncBookkeeping.EventRemindersSound | server/services/sync.ts:1455-1490 | each created event reminder fires in the future, was accepted by the store and belongs to a qualifying, non-cancelled event |
| SyncBookkeeping.EventRemindersComplete | server/services/sync.ts:1455-1490 | every qualifying event whose creation the store accepts gets its reminder |
| SyncBookkeeping.TaskRemindersSound | server/services/sync.ts:1501-1524 | each created task reminder was accepted by the store and belongs to a qualifying task |
| SyncBookkeeping.ScheduleUpcomingReminders | server/services/sync.ts:1431-1531 | the reminders created are the event reminders followed by the task reminders of the specification, and the count returned is their number |
| TeamsMeetings.ToParticipant | server/integrations/teams-app.ts:93-98 | a participant carries the attendee's address and name when the attendee has an email address, and its response and type |
| TeamsMeetings.ConvertCalendarEventToMeeting | server/integrations/teams-app.ts:86-121 | an event converts exactly when it is flagged online and has its meeting details; the meeting keeps the event's id and times, defaults the subject, provider, categories, all-day and cancelled flags, takes the join URL from the meeting details or else the event's URL, and has one participant per attendee |
| TeamsMeetings.ConvertAll | server/integrations/teams-app.ts:154-156 | one meeting per event that converts, each the conversion of such an event |
| TeamsMeetings.GetUserOnlineMeetings | server/integrations/teams-app.ts:124-200 | the meetings are those of the events that convert, in the calendar's order, from the first request's answer or, when it failed, from the fallback's; none when both fail; the online filter drops nothing that would convert |
| TeamsMeetings.OnlineFilterKeepsConverting | server/integrations/teams-app.ts:151-156 | filtering on the online flag before converting loses no meeting |
| TeamsMeetings.WithOwner | server/integrations/teams-app.ts:226-235 | the meeting is kept with its calendar owner; organizer address and name come from the event when it gives them, else from the owner |
| TeamsMeetings.CollectedOwners | server/integrations/teams-app.ts:218-241 | every collected meeting comes from the calendar of a user with a principal name, who is recorded as its calendar owner |
| TeamsMeetings.Ids | server/integrations/teams-app.ts:245-251 | the ids of the meetings, position by position |
| TeamsMeetings.KeepFirstById | server/integrations/teams-app.ts:245-251 | the kept meetings are among the collected ones and are no more of them |
| TeamsMeetings.KeptDistinctAndCovering | server/integrations/teams-app.ts:245-251 | the kept meetings have distinct ids and every collected meeting's id is among them |
| TeamsMeetings.KeptIsFirst | server/integrations/teams-app.ts:245-251 | the meeting kept for an id is the first collected with that id |
| TeamsMeetings.KeepFirstStep | server/integrations/teams-app.ts:247-250 | one more meeting is kept exactly when its id is not yet in the map |
| TeamsMeetings.DedupFirst | server/integrations/teams-app.ts:245-251 | the map's values after the loop are the first meeting per id, in the order first seen |
| TeamsMeetings.GetAllOnlineMeetings | server/integrations/teams-app.ts:203-259 | the result is the first meeting per id of everything collected, ordered newest first, with distinct ids |
| TeamsMeetings.PassesAdminFilter | server/integrations/teams-app.ts:350-351 | a role passes the `startswith` filter exactly when its name starts with "Admin" (the "Administrator" prefix adds nothing); prefixes are compared case-sensitively |
| TeamsMeetings.AdminRolesFailFilterIgnoringCase | server/integrations/teams-app.ts:350-360 | none of the four admin role names starts with "admin" even when case is ignored, so Graph's case-insensitive filter drops the same names |
| TeamsMeetings.NamesAdminRole | server/integrations/teams-app.ts:364-366 | a role matches exactly when it has a non-empty name containing one of the admin role names |
| TeamsMeetings.SomeAdminRole | server/integrations/teams-app.ts:363-367 | true exactly when some role is an admin role |
| TeamsMeetings.IsUserAdminAsWritten | server/integrations/teams-app.ts:343-372 | with the startswith filter applied to role names, true exactly when some role passes the filter and is an admin role; a failed request gives false |
| TeamsMeetings.GlobalAdministratorNotRecognised | server/integrations/teams-app.ts:350-357 | a user whose only role is "Global Administrator" is not recognised as written, though the intended check recognises it |
| TeamsMeetings.IsUserAdmin | server/integrations/teams-app.ts:343-372 | true exactly when the user's roles were read and some role is an admin role; it recognises everyone the as-written check does |

## Left out

- Database access, the Graph and OpenAI clients, HTTP routes and the user interface are not part of this model. Fetched rows and Graph responses are inputs; a failed request or write is an input outcome (`None`, an error value or a `storeError`/`writeFails` function).
- Clocks: the current time is a parameter in integer milliseconds. Dates are milliseconds too, and date parsing (`new Date(...)`, `parseDate`) is a parameter. `toISOString`, the locale date in reminder messages and `Date` objects are not modelled.
- Floating point: confidences, scores, ratios and completion rates are real numbers, exact where the source rounds to doubles.
- TaskAnalytics.InWindow: the cutoff is `days` whole days of 86400000 ms before now; the calendar-day arithmetic of `setDate` across daylight-saving changes is not modelled.
- Text: strings are sequences of characters. Case mapping (`toLowerCase`, `upper`, the `i` flag) and `\w` cover ASCII only. There is no Unicode normalisation.
- Text lengths: JavaScript measures and cuts strings in UTF-16 code units, the model in characters. The 200-character activity previews (server/services/activityFeed.ts:64 and 268), the 5000- and 1000-character body heads of meeting-summary detection and title extraction, the longer-than-three subject test and the longer-than-two word test of the title similarity therefore differ from the source for text outside the Basic Multilingual Plane.
- PermissionDocs.HeaderMatch: the count of a header is matched as ASCII digits; Python's `\d` also accepts other Unicode decimal digits, which the model does not.
- TaskAnalytics.UpdateTask: a `null` status is not modelled (the status column is not nullable, so the store would reject it); `null` due date, assignee and completion time are modelled by `Column.Null`.
- SyncBookkeeping.ScheduleUpcomingReminders: the outer catch (server/services/sync.ts:1525-1531), reached when reading the events or tasks throws, is not modelled; the reads are inputs. A failing reminder write, caught per item, is modelled.
- SyncBookkeeping: the early returns of each sync before its item loop (Graph not configured, no Microsoft 365 profile for the user, as at server/services/sync.ts:100-109, or the sync job not created) are not modelled; a sync that fails is the `FailedSync` result of its catch.
- MeetingEmailLink.LinkEmailToMeeting: a store read that throws (the email lookup or the meetings of the date window) ends in the catch-all result in the source; the model takes these reads as inputs, and only the failing link write reaches the catch-all.
- TaskAnalytics: `Object.entries` lists integer-like keys (a department named "42") first in ascending order and the other keys in insertion order; the model keeps insertion order for every key, so the order of the department and user statistics differs for integer-like keys. Their contents are unaffected.
- GraphPermissionScript.ExtractRiskLevel: JavaScript strips the coloured-circle markers as UTF-16 code units, while the model removes whole marker characters.
- Regular expressions of the markdown parsers are modelled exactly as leftmost matches. The pattern families of meeting-summary detection and title extraction are parameters, as tests on text and as extractors.
- The `reason` strings of `findMatchingMeeting` and the log and console output of every file are not modelled.
- File system: the Python driver's reads, `mkdir` and writes, and the `fs` calls of the ingestion files, are not modelled. Existing pages are a set of names, and the generated pages are the result.
- `main` and `upsertPermission` of `server/scripts/ingestGraphPermissions.ts` (a loop over files and database upserts) are not modelled.
- SyncScheduler: the `processQueue` loop with `Promise.race`, the cron schedules, `startScheduler`, `stopScheduler` and `isRunning`, `enqueueSyncForAllUsers` and the dispatch of `executeSyncJob` to the sync functions are not modelled. The sync itself is given as its outcome. The sync-job database updates in `processJob` and `generateJobId` are not modelled; job ids are parameters. The `setTimeout` retry is the explicit method `RequeueRetry`, called when the timer would fire. `RequeueRetry` adds the duplicate check that the timer callback (server/services/syncScheduler.ts:217-227) lacks. The callback's queue update as written, with its shutdown guard, is `RequeueAsWritten` (see Findings). Restarting `processQueue` when it is idle belongs to the `processQueue` loop, which is not modelled.
- SyncBookkeeping: Graph paging is flattened into one sequence of items per sync, and the drive sync's folder queue is flattened with it. The reminder title and message texts, and the summary strings, are not modelled. `Promise.all` in `syncAllResources` is modelled as results keyed by resource.
- SyncBookkeeping.SyncAllResources: results are keyed by resource rather than by the object's key strings. JavaScript object-key order and `Object.prototype` keys of `PERMISSION_REQUIREMENTS` are not modelled.
- ActivityFeed: the items' metadata, raw row and source fields are not modelled. `getActivityStats`, `getActivityByType` and `getRecentActivityForUser` are not modelled. The in-place `sort` of `getUnifiedActivityFeed` is a library sort, modelled as the stable value `SortNewestFirst`. The non-user branch of `getMeetingActivities` is the meeting source parameter.
- TeamsMeetings.PassesAdminFilter: tests the prefixes case-sensitively, while Graph's `startswith` ignores case. `AdminRolesFailFilterIgnoringCase` shows that this changes nothing for the four admin role names.
- TeamsMeetings: a missing or unparseable `startDateTime` (a `NaN` sort key) is not modelled; start times are integers. The pass-through fields `createdDateTime`, `webLink`, `importance` and `responseStatus` are not modelled. The users request of `getAllOnlineMeetings` is its input, and that request's failure, which is rethrown, is not modelled.
- MeetingEmailLink: `processNewEmail` is `linkEmailToMeeting` for one email id and is not modelled separately. The matcher and the linker take the similarity as a parameter: `AsWritten` runs `calculateTitleSimilarity` as the source writes it, `Intended` the corrected `TitleSimilarity` (see Findings).
- GraphPermissionScript.ExtractDescription: the script's section pattern stops at the first blank line, so the newline-collapsing step never changes the text (lemma `DescriptionIsSection`).
- The `Object.prototype` keys of JavaScript lookup objects (the `daysMap` of the storage analytics and `PERMISSION_REQUIREMENTS` of the sync) are not modelled; such a key behaves as an unknown key.
- The endpoint and example counters of the ingestion count the parsed items, not the rows the database returns.

## Findings

| source | as written | input that shows it | evidently intended | confidence | as-written member | corrected member |
|---|---|---|---|---|---|---|
| server/services/meetingEmailLink.ts:147-164 | common words are counted once per occurrence in the first title, so repeated words can push the ratio above 1, and the subject signal above its 0.4 scale (SubjectScoreCanExceedCap) | "abc abc abc abc xyz" against "abc qqq" gives 8/7 | a Dice coefficient between 0 and 1 | not executed; follows from the arithmetic | MeetingEmailLink.SimilarityCanExceedOne | MeetingEmailLink.TitleSimilarity |
| server/services/meetingEmailLink.ts:147-164 | a title that normalises to the empty text is contained in every other title and scores 0.9, so the matcher links such an email to any candidate with a title | an extracted title "!!!" against any meeting title with a letter or digit | a title with no words matches nothing | not executed; follows from `includes("")` being true | MeetingEmailLink.PunctuationTitleAlwaysMatches | MeetingEmailLink.TitleSimilarity |
| server/services/syncScheduler.ts:217-227 | the timed retry pushes the failed job back without the duplicate check of `enqueueSync` | user "u" fails a calendar job; `enqueueSync("u", "calendar")` runs before the retry timer; the queue then holds two calendar jobs for "u" | at most one queued job per user and resource | not executed; depends on an enqueue landing inside the backoff delay | SyncScheduler.RetryDuplicatesTarget | SyncScheduler.Scheduler.RequeueRetry |
| server/integrations/teams-app.ts:350-367 | the request keeps only roles whose names start with "Administrator" or "Admin", so none of the four listed role names can ever match | a user whose only role is "Global Administrator" | every one of the four listed roles makes the user an administrator | not executed; assumes Graph applies the startswith filter to role names | TeamsMeetings.GlobalAdministratorNotRecognised | TeamsMeetings.IsUserAdmin |
