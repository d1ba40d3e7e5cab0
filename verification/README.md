# Console algorithms of DevCoordinator, modelled and proved in Dafny

The console (`console/*.js`) holds the algorithms a user of DevCoordinator
relies on: the plan timeline, the live list of test runs, the annotation editor,
three small parsers, and the protocols that fetch, page, merge and delete. This
project models them and proves what they promise, over all inputs, all runs and
all reachable states. `dafny verify dfyconfig.toml` checks everything.

Code that mutates is modelled as classes and loops and proved against functions
on values; the laws are then proved of those functions.

| files | what they model |
|---|---|
| `PlanModel`, `PlanLayout`, `PlanRows`, `PlanTiling`, `PlanTimeline`, `PlanMeaning`, `PlanGantt`, `PlanVisibility`, `PlanSeed` | the release timeline: layout walk, tiling, coverage, the rows in terms of the plan's own fields, folding, seeding |
| `TestCache`, `TestCacheRuns`, `TestProgress`, `TestList`, `TestServer` | the live test list: two interleaved cursor protocols, their safety and progress, and the server page they read |
| `Marks`, `Annotations`, `AnnotationLaws`, `AnnotationGeometry`, `AnnotationGestures`, `Editor` | the annotation editor on values, its laws, what whole gestures do, and the same editor on mutable objects |
| `ZipReader`, `ZipArchive` | the office-document ZIP reader, and a writer for the round trip |
| `Decimals`, `JsonTree`, `JsonLeaves`, `JsonReader` | artifact previews: exact decimals, trees and what they show, and the token reader with its budgets |
| `Storage`, `StorageRuns`, `StorageChoices`, `StoragePlans`, `StorageScreen` | the delete handshake: selections, the state machine with requests in flight, why a row is selected and a plan held, and the page's mutable record |
| `Chunks`, `PlanPaging`, `Evidence`, `EvidenceMeaning`, `Highlight` | chunk readers, dual-cursor paging, evidence merging, log markup |
| `Common` | optional values and bytes |

Assumptions, where the source leaves something to its environment:

- Task, release and worktree ids are unique; estimates are naturals; sequence
  numbers are at least 1. Parent links are arbitrary: self-parents, cycles,
  missing parents and parents in another release are all included.
- Worktree ids are modelled as naturals, with 0 for the empty cursor: only their
  order and the least element matter to the protocol.
- Coordinates are exact reals. New mark ids are fresh (the console draws 64
  random bits).
- Servers are arbitrary functions of the request, except where a theorem says
  that the server keeps a paging contract. Those contracts are themselves proved
  of the server's own page code (`TestServer.ListPage`, `PlanPaging.ServePlan`).
- Regular expressions, text decoding, DEFLATE, SHA-256 and JSON tokenizing are
  parameters.

Results that turned out to need a condition:

- A mark that is still being drawn can reach the history, or another image's draft,
  when the drawing is interrupted. `AnnotationGeometry.StepTidy` proves for every
  event that recorded marks stay good if and only if the event does not record or
  abandon a mark that is still too small; `CommittedMarksStayInside` is the same
  over whole runs, `InterruptedDrawing` and `InterruptedBySwitch` reduce it to the
  size guard, and `InterruptedDrawingBreaks` is a run where it fails.
- Page cuts show in merged evidence when one bundle repeats a cell id.
  `Evidence.BundleCut` gives the exact condition, `RepeatedCellShows` an input.
- The storage page compares joined ids. `Storage.JoinExact` proves for all lists that
  joins are equal if and only if the pieces between commas are, and
  `StorageRuns.RemoveExact` states through them when deleting starts a cleanup.
  `CommaStartsOther` is a run that starts the plan of another selection;
  `RemovePlain` excludes it for nonempty ids without commas.
- Cleaning up the eligible rows may ask for other rows than it selects when listed
  rows share an id; `StorageRuns.CleaningAsksSelection` gives the exact condition and
  `SharedIdAsksOther` a run.
- A row toggled while the storage page is being left, before it is shown again,
  sends a plan request whose answer is heard after tickets have started over.
  `StorageRuns.ReopenedHearsOld` is such a run, and `HeardExact` proves that what
  is heard was asked for the latest prepared selection if and only if it was asked
  since the page was last shown. `RemoveExact` is proved over all runs, these
  included.
- A stored ZIP entry is shown beyond the preview limit when its packed size exceeds
  the size it declares. `ZipReader.Extract` gives the exact condition,
  `ZipArchive.ShowUnderstated` the family of archives and `LimitExceeded` an input.

## Model

| member | source | states |
|---|---|---|
| PlanModel.SortMultiset | console/app.js:4165-4172 | sorting the children keeps exactly the same tasks with the same multiplicity |
| PlanModel.SortStable | console/app.js:4165-4172 | tasks with equal position and sequence number keep their input order |
| PlanModel.PathsAgree | console/app.js:4164-4170 | a task is reached from a root in at most one way, whatever the parent links |
| PlanModel.PathBound | console/app.js:4174-4202 | no chain from a root is longer than the number of tasks, so the walk ends for every parent relation |
| PlanRows.TreeThrough | console/app.js:4174-4202 | every row of a walked subtree is reached from a root through that subtree's task |
| PlanRows.TreeComplete | console/app.js:4174-4202 | every task below a walked task gets a row in its subtree |
| PlanRows.TreeOrder | console/app.js:4193-4198 | rows come in depth-first order: a parent before its children, and under one parent the child with the smaller position, then sequence number, before the others with its whole subtree |
| PlanRows.GroupCoverage | console/app.js:4203-4212 | a task has a row in a release group if and only if it belongs to it and its in-group parent chain reaches a root |
| PlanRows.GroupRowsDistinct | console/app.js:4203-4212 | no task has two rows in a group |
| PlanRows.GroupSiblingOrder | console/app.js:4165-4172 | of two siblings' rows, the one with the smaller position field comes first, and at equal positions the one with the smaller sequence number |
| PlanTimeline.TimelineCoverage | console/app.js:4160-4213 | over the whole timeline a task has exactly one row if its parent chain reaches a root in its release, and none otherwise |
| PlanTimeline.CycleHasNoRow | console/app.js:4164-4170 | a task has no row if and only if it is on a cycle of in-group parent links or below one |
| PlanMeaning.TimelineIs | console/app.js:4160-4213 | every group and row of the timeline, in the fields of the plan: each group is a release or the backlog with the tasks that name it, every row has its task's depth, parent, leaf, folded and hidden flags by that task's ancestors, and rows are ordered by position and sequence number |
| PlanTiling.TilesCover | console/app.js:4181-4192 | consecutive sized leaves cover every point of their interval exactly once and in order |
| PlanTiling.TreeAccounts | console/app.js:4173-4202 | a row spans exactly its descendant leaves: width and subtree size are the sum of their estimates, done size the sum of the finished ones, unsized leaves are counted once |
| PlanTiling.EveryRowSpans | console/app.js:4174-4202 | for every row of a group, the rows from it to some later row are exactly its descendants, and they tile its interval |
| PlanTiling.TimelineTiles | console/app.js:4203-4213 | release groups tile the line from 0 to the total, their sized leaves tile the same line, and unsized counts add up to the total |
| PlanGantt.Walker.Walk | console/app.js:4174-4202 | the mutable walk appends exactly the subtree's rows, moves the cursor by its size and counts its unsized leaves |
| PlanGantt.Walker.WalkChildren | console/app.js:4193-4198 | the children are appended in order and accumulated in the parent row |
| PlanGantt.UnsortedLists | console/app.js:4166-4171 | the child lists hold every in-tree task under its parent in input order |
| PlanGantt.ChildLists | console/app.js:4166-4172 | the sorted child lists of every task |
| PlanGantt.FilterRoots | console/app.js:4207-4207 | the roots of a group in input order |
| PlanGantt.WalkGroup | console/app.js:4203-4211 | one group: its rows, its interval and its counts |
| PlanGantt.ComputeGantt | console/app.js:4160-4213 | for every parent relation the imperative layout is the timeline the tiling and coverage theorems speak of, and its groups and rows mean what `TimelineIs` says in the fields of the plan |
| PlanVisibility.ParentLookup | console/app.js:4601-4604 | looking a parent up among a group's rows finds the row one step up the chain, and nothing at a root |
| PlanVisibility.FoldedAbove | console/app.js:4604-4608 | climbing the rows finds a folded ancestor if and only if there is one |
| PlanVisibility.SyncRows | console/app.js:4599-4613 | the incremental pass gives each row the hidden and collapsed flags of a fresh layout |
| PlanVisibility.RefreshedIsDrawn | console/app.js:4599-4613 | refreshed rows are exactly the freshly laid out rows when no leaf was folded |
| PlanVisibility.TimelineRefreshed | console/app.js:4757-4762 | after one toggle of a parent the refreshed timeline is the fresh one |
| PlanVisibility.ToggleAllMeans | console/app.js:4757-4762 | after any clicks a fold is there if and only if it was at first, except that an odd number of clicks turns it round |
| PlanVisibility.Board.constructor | console/app.js:4160-4213 | a board starts as a fresh layout whose rows mean what the plan's fields say |
| PlanVisibility.Board.Sync | console/app.js:4599-4622 | all groups are refreshed |
| PlanVisibility.Board.Click | console/app.js:4757-4762 | a toggle leaves the board equal to a fresh layout for the new folds |
| PlanVisibility.Board.ClickAll | console/app.js:4757-4762 | so does every sequence of toggles; a task is folded at the end if and only if it was folded at first and clicked an even number of times, or the other way round |
| PlanSeed.Visit | console/app.js:4145-4150 | visiting records the true depth of exactly the tasks below, and a second visit changes nothing |
| PlanSeed.Levels | console/app.js:4144-4151 | after all roots exactly the reachable tasks have their depth |
| PlanSeed.FoldDecision | console/app.js:4152-4156 | the test on depth, status and children holds exactly for reachable finished parents below root depth |
| PlanSeed.Seed | console/app.js:4130-4157 | the seeding pass adds exactly the finished parents that hang below a root by a chain of parent links in their release, for every parent relation |
| TestCache.MergeOutside | console/tests.js:45-52 | merging any page leaves every run outside its range as it was |
| TestCache.RefreshClips | console/tests.js:440-442 | refreshing an incomplete scope neither deletes nor admits a run beyond its frontier |
| TestCache.MergeAgrees | console/tests.js:35-52 | merging an honest page makes its range agree with the server and disturbs no agreement elsewhere |
| TestCacheRuns.StepWired | console/tests.js:54-75 | whatever a response holds, each step keeps every scope complete or with exactly one continuation at its frontier |
| TestCacheRuns.LoadDoneMirrors | console/tests.js:60-64 | a load keeps the local runs equal to the server's on the inspected ranges |
| TestCacheRuns.RefreshDoneMirrors | console/tests.js:434-443 | so does a refresh |
| TestCacheRuns.FixedServer | console/tests.js:35-75 | after every interleaving of loads and refreshes over a fixed server, local runs are exactly the server's on the inspected ranges, and with nothing queued every scope is complete and matches |
| TestCacheRuns.FullSweepSettles | console/tests.js:434-443 | from any opening and any steps with arbitrary replies: once the server stops changing, a full refresh sweep of a scope makes it agree with the server on everything inspected, with any other steps interleaved |
| TestCacheRuns.RefreshesSettle | console/tests.js:434-443 | from any opening and any steps with arbitrary replies, and wherever the refresh stands: once the server stops changing, two answered refreshes of a scope for each possible cursor and two more make it agree on everything inspected |
| TestCacheRuns.SettledLasts | console/tests.js:434-443 | a settled scope stays settled while the server does not change |
| TestProgress.ScopesAre | console/tests.js:459-464 | after any run the scopes are those of the opening page and every repository subscribed to, and no others |
| TestProgress.TurnLoads | console/tests.js:54-57 | a free turn takes the first queued request and changes nothing else |
| TestProgress.FailureStops | console/tests.js:66-67 | a failed load is put back in front and no further load begins |
| TestProgress.LoadsComplete | console/tests.js:54-75 | over a fixed server, from any reachable state and with refreshes interleaved: more free turns than scopes times cursors and scopes leave nothing queued and every run of every scope shown |
| TestProgress.EveryScopeHasItsTurn | console/tests.js:434-437 | out of any refreshes begun, each inspected scope has as many as there were whole rounds |
| TestProgress.BegunAnswered | console/tests.js:434-443 | every refresh begun of a scope is answered, has failed or is in flight |
| TestProgress.EverythingSettles | console/tests.js:434-443 | from any opening and any steps with arbitrary replies: once the server stops changing, enough refreshes begun, with one round more for each that failed, make every inspected scope show what the server has |
| TestList.KeepRuns | console/tests.js:48-48 | the filter keeps runs outside the range and those about to be replaced |
| TestList.Returned | console/tests.js:47-47 | the page's runs in range, one per worktree, the later entry winning; a list without repeats is returned as it came |
| TestList.MergeRuns | console/tests.js:45-52 | the merged list has one run per worktree and is the merge of the maps |
| TestList.List.constructor | console/tests.js:18-44 | the list as the page opens; a first page with one run per worktree is kept as it came |
| TestList.List.RecordInspection | console/tests.js:37-43 | the frontier only grows and completeness is remembered |
| TestList.List.LoadMore | console/tests.js:54-57 | the first queued request is taken and goes in flight when nothing is loading and nothing failed; otherwise nothing changes |
| TestList.List.LoadReply | console/tests.js:59-64 | the object takes the step of the state machine, with the stalled-cursor error |
| TestList.List.LoadError | console/tests.js:66-67 | a failed load puts its request back in front |
| TestList.List.Refresh | console/tests.js:434-437 | scopes are taken in turn |
| TestList.List.RefreshReply | console/tests.js:438-443 | the object takes the step of the state machine, clipped at the frontier |
| TestList.List.Handle | console/tests.js:54-75 | every event takes the mutable list exactly where it takes the state machine |
| TestList.RunFixed | console/tests.js:35-75 | after every run over a fixed server the page's list holds one run per worktree, exactly the server's on the inspected ranges, and all of them once nothing is queued |
| TestList.RunComplete | console/tests.js:54-75 | after any run over a fixed server, enough free turns without failure leave the page's list with every run of every scope and nothing queued |
| TestList.RunSettled | console/tests.js:434-443 | after any run and enough answered refreshes over a server that stopped changing, the page's list shows what the server has in that scope |
| TestServer.Query | rust/control/src/test_lifecycle.rs:1725-1752 | the query returns the selected worktrees in key order, one more than the limit at most |
| TestServer.CutAnswers | rust/control/src/test_lifecycle.rs:1765-1767 | a scan cut at any point answers the request with the right cursor |
| TestServer.ListPage | rust/control/src/test_lifecycle.rs:1725-1832 | every page lists exactly the current runs after the cursor up to the next cursor, at most the limit of them and within 160 KiB unless it holds one only, and names no cursor but a worktree of its scope |
| Marks.BoxFits | console/app.js:1845-1855 | the bounding box contains every point of the mark; the box of an arrow, rectangle or stroke in the unit square lies in it |
| Marks.TranslateIsRigid | console/app.js:1932-1944 | translating an arrow, rectangle or stroke is rigid: the inner clamp never takes effect |
| Marks.TranslatePin | console/app.js:1932-1938 | a pin or label stays inside, drawn back from the far edges by the size of its box |
| Marks.TranslateLands | console/app.js:1932-1944 | whatever the mark: each coordinate moves by the amount asked for where that keeps the mark's box inside, otherwise to the edge |
| Marks.ClampMeans | console/app.js:1831-1831 | a value in the unit interval is kept, another goes to the nearer end |
| AnnotationLaws.UndoThenRedo | console/app.js:1953-1965 | k undos then k redos restore marks and both stacks exactly, for every k up to the stack height |
| AnnotationLaws.RedoThenUndo | console/app.js:1953-1965 | k redos then k undos do so too |
| AnnotationLaws.StepNeat | console/app.js:2105-2113 | every event keeps ids distinct and pins single in every list anywhere |
| AnnotationLaws.OnePinEverywhere | console/app.js:2105-2113 | in every reachable state no drawing, snapshot or draft holds two pins |
| AnnotationLaws.ZoomStaysSet | console/app.js:2006-2008 | in every reachable state every zoom, shown or saved, is from 0.5 to 4, so the default on opening never replaces a saved zoom |
| AnnotationLaws.AwayAndBack | console/app.js:1336-1361 | after any run, leaving the shown image and coming back restores marks, comment, both stacks, zoom and label, whatever was done elsewhere |
| AnnotationGestures.MoveFollows | console/app.js:2127-2140 | grabbing a mark at a and dragging over any points to b moves it from where it was by b minus a, or up to the edge, and moves no other mark |
| AnnotationGestures.ResizeFollows | console/app.js:2141-2143 | grabbing a rectangle by its corner and dragging to b puts the far corner at b, at least 0.002 away and within the picture, and changes no other mark |
| AnnotationGestures.GrabUndoes | console/app.js:2055-2079 | after such a gesture is dropped, one undo gives back the drawing as it was, a drop without change records nothing, and cancelling gives it back at once |
| AnnotationGestures.DrawFollows | console/app.js:2115-2147 | drawing from a over any points to b gives the box of a and b, the arrow from a to b, or the line of the first 256 points |
| AnnotationGestures.DrawEnds | console/app.js:2062-2071 | a drawn mark is kept if and only if it passes the size guard, and then one undo removes it; otherwise drawing and history are as before |
| AnnotationGestures.EditUndoes | console/app.js:1946-1965 | each recording edit is taken back by one undo and put back by one redo |
| AnnotationGestures.EditMeans | console/app.js:2105-2113 | what each recording edit leaves: the one pin moved or added, the label added, the mark removed or recoloured, nothing; all other marks as they were |
| AnnotationGestures.NudgeMeans | console/app.js:2161-2169 | an arrow key moves the mark by the amount given or up to the edge, and no other mark |
| AnnotationGestures.SetStays | console/app.js:2006-2008 | over every run: the comment last typed, the zoom last set within its range and the label being written stay through all drawing, undoing and redoing |
| AnnotationGestures.SavedIsForgotten | console/app.js:1319-1330 | once feedback on an image is saved nothing of its draft is left, and every other draft is as it was |
| AnnotationGeometry.StepTidy | console/app.js:2048-2170 | for every event: recorded marks stay good if and only if no mark that is still being drawn and too small is recorded, saved with a draft or abandoned |
| AnnotationGeometry.CommittedMarksStayInside | console/app.js:2048-2170 | over every run: in every state on the way all recorded marks lie in the unit square, rectangles at least 0.002 wide and high, strokes with 2 to 256 points, if and only if every event of the run is careful in that sense |
| AnnotationGeometry.InterruptedDrawing | console/app.js:1946-1965 | for each of the eight recording events during a drawing: the history stays good if and only if the mark being drawn passes the size guard |
| AnnotationGeometry.InterruptedBySwitch | console/app.js:1344-1361 | switching images during a drawing saves a good draft if and only if the mark being drawn passes the size guard |
| AnnotationGeometry.InterruptedDrawingBreaks | console/app.js:2393-2396 | a run where it is not |
| Editor.Fresh | console/app.js:1830-1830 | cloning makes new objects with the given values |
| Editor.Find | console/app.js:2064-2064 | the first mark with the id |
| Editor.Commit | console/app.js:1946-1951 | a commit on objects is the commit on values |
| Editor.Undo | console/app.js:1953-1958 | the popped snapshot becomes the drawing, sharing no object with any other list |
| Editor.Redo | console/app.js:1960-1965 | likewise for redo |
| Editor.Change | console/app.js:1932-1944 | changing a live mark in place changes that mark and nothing in either stack |
| Editor.Drag | console/app.js:2127-2147 | the dragged mark object takes the place the value editor gives it, which `MoveFollows`, `ResizeFollows` and `DrawFollows` describe; no other object and no snapshot changes |
| Editor.Drop | console/app.js:2055-2079 | the end of a gesture keeps or discards the drawing as on values |
| Editor.Nudge | console/app.js:2161-2169 | an arrow key records a snapshot and moves the mark in place |
| Editor.BeginDraw | console/app.js:2115-2122 | a new mark joins the live drawing after a snapshot |
| Editor.BeginGrab | console/app.js:2092-2104 | grabbing takes a snapshot and decides between move and resize |
| Editor.NoSharing | console/app.js:1830-1830 | in every state the editor can hold, the live drawing shares no mark object with a snapshot, the start of a gesture or another image's draft |
| Editor.OthersApart | console/app.js:1336-1361 | the shown drawing and its history share no object with the gesture's snapshot or any other image's draft |
| Editor.SwitchStep | console/app.js:1344-1361 | switching images shelves copies and moves stacks without sharing |
| Editor.Apply | console/app.js:2048-2170 | every event takes the object editor exactly where it takes the value editor |
| Editor.AnnotationEditor.constructor | console/app.js:1319-1330 | the editor starts empty |
| Editor.AnnotationEditor.Handle | console/app.js:2048-2170 | in every reachable state the mutable editor holds the value editor's state, each mark object in exactly one list |
| ZipReader.FindEnd | console/tickets.js:243-245 | the last end-of-directory record in the last 65557 bytes, or none |
| ZipReader.SignatureBytes | console/tickets.js:243-253 | each record signature is read if and only if its four bytes stand there in the file |
| ZipReader.Extract | console/tickets.js:250-258 | content comes only from where the headers locate it: a stored entry gives exactly those bytes, a compressed one exactly what they inflate to when that fits; the content is within the limit unless a stored entry packs more than it declares |
| ZipReader.OfficeEntry | console/tickets.js:242-258 | for every buffer each read is in range and the result is the search of the directory |
| ZipReader.SearchFindsFirst | console/tickets.js:246-251 | the search of an archive finds its first entry with the wanted name |
| ZipReader.ReadArchive | console/tickets.js:242-258 | for every archive of stored entries without comment: exactly the bytes of the first entry with the wanted name, or the proper error |
| ZipArchive.CentralFound | console/tickets.js:248-254 | headers found in a buffer describe their entry to the reader |
| ZipArchive.RoundTrip | console/tickets.js:242-258 | whatever a writer puts in an archive, reading it back gives it |
| ZipArchive.ShowUnderstated | console/tickets.js:252-256 | a stored entry that is declared empty is shown in full, whatever its length |
| ZipArchive.LimitExceeded | console/tickets.js:252-256 | an input whose content is over the limit |
| Decimals.ParseWritten | console/artifact-content.js:50-55 | a written numeral reads back as its parts |
| Decimals.CutExact | console/artifact-content.js:51-53 | cutting a numeral and dropping zeros loses nothing, for any number of places |
| Decimals.MillimetresExact | console/artifact-content.js:50-55 | a million times the rewritten value is the integer it came from, with no redundant leading or trailing zero |
| Decimals.GroupedByThrees | console/artifact-content.js:122-122 | commas stand exactly before every group of three digits from the right |
| Decimals.ShownRoundTrip | console/artifact-content.js:122-122 | removing the commas returns the literal |
| Decimals.ShownMeans | console/artifact-content.js:122-122 | a numeral with four or more whole digits is shown with commas by threes in the whole part and everything else as written |
| Decimals.OtherShown | console/artifact-content.js:122-122 | any other text is shown as it is |
| JsonTree.LeafNormal | console/artifact-content.js:42-58 | a leaf never has an empty value |
| JsonTree.GroupNormal | console/artifact-content.js:60-70 | a group is never empty, never holds an unnamed group, never wraps one plainly named leaf (what it does hold is `FlattenedLeaves` and `TreeOutline`) |
| JsonTree.TreeNormal | console/artifact-content.js:60-94 | every value's tree is in that normal form throughout |
| JsonLeaves.FlattenedLeaves | console/artifact-content.js:62-62 | flattening unnamed groups loses, adds and moves no leaf |
| JsonLeaves.TreeShows | console/artifact-content.js:60-94 | for every value, in a style that suppresses and rewrites nothing: the leaves are exactly the scalars worth showing, with their kinds, in order |
| JsonLeaves.TreeNames | console/artifact-content.js:71-94 | and when no name is plain each leaf has the name of its own member, items being numbered from 1 |
| JsonLeaves.TreeOutline | console/artifact-content.js:60-94 | for every value in every style: the leaves and the headings over each are those of the outline computed from the value without building groups |
| JsonLeaves.DigitsMeans | console/artifact-content.js:82-82 | items are numbered in decimal without leading zeros |
| JsonLeaves.LeafMeans | console/artifact-content.js:42-58 | for every style, when a scalar is kept and what it shows: its text, or for an integer of nanometres exactly that many millionths |
| JsonReader.Reader.constructor | console/artifact-content.js:71-74 | the reader starts at the first token with nothing counted |
| JsonReader.Reader.Budget | console/artifact-content.js:190-192 | a visit is allowed while at most 20000 nodes were counted and depth is at most 40 |
| JsonReader.Reader.Read | console/artifact-content.js:75-92 | for every token list the reader aborts or reads what the function of the position says, and its visits stay within both limits |
| JsonReader.Reader.ReadMembers | console/artifact-content.js:81-88 | the loop over members up to the closing bracket |
| JsonReader.ReadsValue | console/artifact-content.js:71-94 | wherever a value's tokens stand, exactly they are consumed and its tree is built, or the reader aborts because the value is too large or too deep |
| JsonReader.ParseJson | console/artifact-content.js:71-94 | the tree by structural recursion if and only if at most 20000 nodes and depth 40; in a style that suppresses nothing its leaves are the value's scalars in order |
| Chunks.ReadFile | console/artifacts.js:74-96 | any server: loaded data have exactly the smaller of size and limit and are the blocks of all requests end to end, every response names this file and its size, requests are bounded, slices of a file give its prefix; an honest server is never refused |
| Chunks.FileExact | console/artifacts.js:74-96 | length and request bound from any point on |
| Chunks.FileRequests | console/artifacts.js:74-96 | from an honest server that fills its chunks, a file takes no more requests than its size needs |
| Chunks.FileContiguous | console/artifacts.js:74-96 | a loaded file is the blocks of all its requests, each at the offset asked for, end to end |
| Chunks.FileComplete | console/artifacts.js:74-96 | from an honest server exactly the wanted prefix is loaded unless the view closes |
| Chunks.ReadSketch | console/app.js:2632-2661 | any server: the declared length, the blocks of all of at most 512 requests end to end, every response declaring the same total, slices of a file give its prefix; from a server that fills its chunks a sketch loads if and only if it fits 512 of them |
| Chunks.SketchExact | console/app.js:2632-2661 | length and request bound from any point on |
| Chunks.SketchContiguous | console/app.js:2632-2661 | likewise for a sketch |
| Chunks.SketchComplete | console/app.js:2632-2661 | the exact size limit |
| Chunks.ReadAttachment | console/tickets.js:182-195 | any server: at most 16 MiB, the blocks of all requests end to end, the digest every response declared, the length the last one declared, bounded requests, slices of a file give its prefix; an honest server is never refused |
| Chunks.AttachmentExact | console/tickets.js:182-195 | the same from any point on |
| Chunks.AttachmentSealed | console/tickets.js:182-195 | likewise for an attachment, and every one of its responses declared its digest |
| Chunks.ContiguousPrefix | console/artifacts.js:74-96 | what is assembled from slices of one file is a prefix of it |
| Chunks.ServersExist | console/artifacts.js:74-96 | for every file there are servers that meet each of the promises asked of them |
| Chunks.AttachmentComplete | console/tickets.js:182-195 | from an honest server exactly the file is loaded unless the view closes |
| PlanPaging.PageAdvances | console/app.js:318-327 | one page moves a cursor past exactly what it lists |
| PlanPaging.LoadPlan | console/app.js:284-328 | every task and every release exactly once and in order, though the lists end on different pages; the repeated-cursor guard never trips |
| PlanPaging.ServePlan | rust/control/src/plan.rs:559-645 | the server's page keeps the paging contract through its limit and its byte budget |
| Evidence.Merge | console/app.js:2488-2499 | the loops are the merge by key and id |
| Evidence.MergeIdempotent | console/app.js:2488-2499 | merging a page again changes nothing |
| Evidence.BundleCut | console/app.js:2489-2493 | a bundle merged at once is its cells merged one by one exactly when it is known or its ids are distinct |
| Evidence.RepeatedCellShows | console/app.js:2489-2493 | an input where the cut shows |
| Evidence.CutIndependent | console/app.js:2488-2523 | any two cuts of the same ordered cells give the same bundles, cells and order |
| Evidence.ReadAllMerged | console/app.js:2510-2523 | reading on from any offset merges exactly the cells from there on |
| Evidence.LoadAll | console/app.js:2510-2523 | the pages merged in order, refused if and only if a response does not advance; over a server that lists its cells in stretches, the cells merged one by one, however they were cut |
| EvidenceMeaning.AddAllMeans | console/app.js:2488-2499 | merging any cells one by one: bundles stand in the order in which their keys first came, each with the details of its first cell and its cells in order of first coming, one per id |
| Storage.JoinInjective | console/storage.js:170-171 | joins of nonempty comma-free ids are equal exactly when the lists are |
| Storage.JoinExact | console/storage.js:170-171 | for all lists, joins are equal exactly when the pieces between commas are |
| Storage.SelectedRowsMembers | console/storage.js:14-14 | the selection is exactly the listed, deletable rows at their recorded revision |
| Storage.MarkedMeans | console/storage.js:109-110 | what is chosen after marking: the last picked row with an id decides, at its revision, and other ids are left alone |
| StorageRuns.StepSound | console/storage.js:108-174 | every event keeps: a plan on the page answers a recorded request and its join is of that request's ids; of the requests sent since the page was shown only the latest can carry the current ticket |
| StorageRuns.RemoveExact | console/storage.js:170-174 | after every interleaving of user actions, loads and plan responses, whatever the ids: deleting starts a cleanup if and only if the page holds a ready plan whose request has the same pieces between commas as the selection, each selected id of a listed, deletable row at its recorded revision |
| StorageRuns.RemovePlain | console/storage.js:170-174 | for nonempty ids without commas: if and only if the request named exactly the ids selected now |
| StorageRuns.CommaStartsOther | console/storage.js:170-174 | a run that starts a plan asked for another selection |
| StorageRuns.HeardExact | console/storage.js:136-143 | in every reachable state, an answer that is heard is the answer to the latest prepare if and only if it was asked since the page was last shown, and then names the selection that prepare saw |
| StorageRuns.ReopenedHearsOld | console/storage.js:199-200 | a run in which a reopened page hears a plan for an earlier selection, and deleting refuses it |
| StorageRuns.CleaningAsksSelection | console/storage.js:157-163 | cleaning asks for the eligible deletable rows, and leaves exactly these selected if and only if rows that share an id agree |
| StorageRuns.SharedIdAsksOther | console/storage.js:157-163 | a run in which cleaning asks for ids that differ from what it selects |
| StorageChoices.StepSelects | console/storage.js:108-163 | for every event and every id: it is chosen afterwards if and only if the event chooses it, or it was chosen and the event does not drop it |
| StorageChoices.SelectedBecause | console/storage.js:108-163 | after any run an id is chosen if and only if some event chose it and none dropped it since |
| StorageChoices.UncheckedIsSafe | console/storage.js:111-111 | an id unchecked and not chosen again is not selected, and for ids without commas no plan that names it can be started |
| StorageChoices.RowsAre | console/storage.js:114-130 | the list changes only by loads and protection responses, and how |
| StorageChoices.AskSends | console/storage.js:136-143 | a choice of 1 to 200 rows is asked for at once, any other asks for nothing, and no older plan is kept |
| StorageChoices.AskedThenStarted | console/storage.js:136-174 | when the answer comes next and is ready, deleting starts it, once |
| StorageChoices.CleaningHeard | console/storage.js:157-168 | cleaning asks for the eligible deletable rows whenever there is one, and starts a ready answer at once |
| StoragePlans.HeldBecause | console/storage.js:108-174 | after any run a plan is on the page as the answer to a request if and only if that answer put it there and since then nothing was chosen, filtered, protected, finished or removed and no other answer was taken |
| StoragePlans.UnheardAfter | console/storage.js:118-143 | whatever happens afterwards, an answer that came, or belongs to a page that was left, changes nothing |
| StoragePlans.LoadHeard | console/storage.js:118-135 | a load begun while the page is shown brings its rows in when it is answered next, and a later load shuts it out |
| StorageScreen.Screen.Prepare | console/storage.js:136-143 | drops the plan and asks for the present selection under a new ticket |
| StorageScreen.Screen.Toggle | console/storage.js:111-111 | a checked deletable row is recorded at its revision, an unchecked or undeletable one is no longer chosen, no other choice changes, and a plan is asked for the result |
| StorageScreen.Screen.Mark | console/storage.js:109-110 | the loop over rows marks exactly the picked ones |
| StorageScreen.Screen.SelectAll | console/storage.js:109-109 | all deletable rows are chosen or dropped, and a plan is asked for the result |
| StorageScreen.Screen.SelectEligible | console/storage.js:110-110 | all eligible rows are chosen, and a plan is asked for the result |
| StorageScreen.Screen.Prune | console/storage.js:130-130 | a choice is kept exactly when its row is listed, deletable and unchanged |
| StorageScreen.Screen.LoadReply | console/storage.js:118-135 | stale and aborted loads are dropped; others replace or extend the rows and prune the choices |
| StorageScreen.Screen.ProtectionReply | console/storage.js:114-114 | the row is replaced or put first, its choice and the plan are dropped |
| StorageScreen.Screen.CleanEligible | console/storage.js:157-163 | the eligible deletable rows become the selection a plan is asked for |
| StorageScreen.Screen.PlanReply | console/storage.js:142-167 | prepare hears its latest ticket only; cleaning starts a ready plan at once and keeps any other with its ids |
| StorageScreen.Screen.Remove | console/storage.js:170-174 | starts the plan exactly when the test holds, and drops it |
| StorageScreen.Screen.Handle | console/storage.js:104-174 | every event takes the mutable record exactly where it takes the state machine |
| StorageScreen.Run | console/storage.js:104-174 | so does every run from an empty page |
| StorageScreen.RunAndRemove | console/storage.js:170-174 | a click on delete after any run starts a cleanup if and only if the plan held is ready and its request has the pieces of the selection; for ids without commas, it is for exactly the rows selected then and names no id that was unchecked and not chosen again |
| Highlight.EscapeJoin | console/app.js:87-89 | escaping distributes over concatenation |
| Highlight.EscapeRoundTrip | console/app.js:87-89 | unescaping undoes escaping |
| Highlight.EscapeInjective | console/app.js:87-89 | different texts have different escapes |
| Highlight.EscapeNoBrackets | console/app.js:87-89 | escaped text holds no angle bracket |
| Highlight.HighlightedShows | console/app.js:1011-1031 | markup for any matches shows the text, provided each token's markup shows the token |
| Highlight.HighlightedPieces | console/app.js:1011-1031 | read back piece by piece, the markup is the plain stretches and the matches with their kinds, in order |
| Highlight.HighlightLogText | console/app.js:1011-1031 | each match is wrapped in a span of its own kind, the pieces are the matches and the text between them, and without tags and unescaped the markup is the text |

## Left out

- HTML templates, DOM binding, focus, translation, canvas drawing and charts: no checkable result.
- Network, authentication and timers: a response may arrive, fail or be dropped.
- Regular expressions, DEFLATE, SHA-256, base64, text decoding, XML parsing and JSON tokenizing: parameters.
- Saved XML and JSON-lines previews: the same tree functions with an easier reader.
- Hit testing and the guard that freezes the editor while feedback is being saved: which mark is grabbed is part of the event.
- Which mark is selected and whether the comment composer is open: events name the mark they act on.
- Finding a requested task in the plan view (console/app.js:4291-4300): it assumes acyclic parents.
- Chunked evidence images (console/app.js:1520-1546): weaker checks than the three readers modelled.
- The status patch of one run during a refresh (console/tests.js:421-431): it edits a shown run outside the paging protocol.
- Evidence issues and the scalar fields of the evidence record: a plain deduplication and maxima.
- The single-cursor branches of `api` (console/app.js:292-316): the dual-cursor branch is the harder case of the same loop.
- Requests listed beside tasks and releases on plan pages: appended like them, with nothing to prove.
- The remaining services under `rust/`: only the two list pages the protocols read are modelled.
- Editor.SwitchStep: drops the saved entry of the image being shown, because the source rewrites that entry before it reads it again.
- ZipReader.OfficeEntry: stops at the entry's bytes, because what follows is text decoding and XML parsing.
- StorageScreen.Screen.PlanReply: does not promise that the selection still matches when cleaning starts a plan, because the source starts it without looking.
- TestList.List.constructor: a first page that repeats a worktree is reduced to one run each, because the model holds the list as a map in order.
- Evidence.LoadAll: offsets stay within some total, because against growing offsets the source loads forever.
