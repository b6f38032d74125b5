# Verified models of the builderbot core

This project models the parts of the builderbot repository whose behaviour is hardest to see from
reading one function, and proves properties of those models for all inputs, all runs or all
reachable states. `dafny verify dfyconfig.toml` checks everything.

Code that updates state is written as methods over arrays, class fields or loop variables, and each
such method is proved against a specification: a property, or a function of its inputs and the old
state. The theorems are then lemmas about those specifications. Protocols between threads are state
machines whose steps are the sections between two lock operations; the theorems about them hold for
every sequence of steps.

## What is modelled

**Penpal comments** (Go). `CommentOrder.dfy` is `OrderComments`: a list of comments with arbitrary
reply links, cycles included, becomes a depth-first tree order; it loses nothing exactly when no
comment sits on or below a cycle. `CommentThreads.dfy` says which links can exist: every interleaving
of thread creation, replies over HTTP, agent replies and working-map updates leaves every comment
after the first answering a strictly earlier one, so what is displayed is a permutation of the thread
that starts with the opening comment; and an agent's reply answers the comment that was last when the
agent last read the thread, whoever replies in between. `Anchors.dfy` is the search for an anchored text.
`ChangeFeed.dfy` is the wake-up protocol behind `penpal_wait_for_changes`.

**Penpal file cache** (Go). `FileTree.dfy` is a finite tree of files and directories, `SourceScan.dfy`
the full walk, `ScanClaims.dfy` the walk seen from a single file, `ResolveFile.dfy` the shortcut that
avoids the walk, `FileCache.dfy` the cached lists and their in-place updates, `KeptClaims.dfy` says when
shortcut and walk agree on the entries a cached list keeps, `MarkerFiles.dfy` what a file's neighbours
gain or lose with it, and `CacheFreshness.dfy` proves when an incremental update, and any sequence of
them, gives what a rescan would. `WorktreeDedup.dfy` is the
removal of projects that are worktrees of one repository: which stay, and when it is exactly one.

**ACP driver** (Rust). `Replay.dfy` is the matching of a replayed session against stored messages,
`NotificationHandler.dfy` the three phases of a session and what reaches the message writer,
`RemoteFraming.dfy` the reassembly of JSON messages from a remote process (JSON text sequences,
section 2 of RFC 7464), and `ShellQuote.dfy` the quoting of a command line, read back by the rules of
sections 2.2.1 to 2.2.3 and 2.3 of the POSIX.1-2017 Shell Command Language.

**Git diff and stacks** (Rust). `DiffAlignment.dfy` turns git's hunk headers into line alignments in
u32 arithmetic, `DiffRecords.dfy` parses and joins git's NUL-separated records, and `BranchStack.dfy`
walks a stack of branches down and up.

**Executions and unique IDs** (Rust and Go). `Executions.dfy` is the life of an action under the
executor's locks; `UniqueIds.dfy` holds the two generators whose search loops have no bound of
their own.

`Collections.dfy` and `Splitting.dfy` are shared vocabulary.

## Where the code does not do what it promises

In each case the code is modelled as it is, and a concrete input shows the failure. The exact condition
under which the promise holds is proved, except where the text says that it is not.

- `ResolveAnchor` counts occurrences without overlaps but steps through all of them, so a context
  match behind overlapping occurrences can be missed (`Anchors.OverlapCounterexample`,
  `Anchors.DocumentedIffInReach`).
- `ResolveFileInfo` does not look at `.git` components or at the name of the source root, which the
  walk does, and gives up on relative paths that start with "..", which the walk does not
  (`ResolveFile.DotGitCounterexample`, `ResolveFile.SkippedRootCounterexample`,
  `ResolveFile.TwoDotsCounterexample`, `ResolveFile.ResolveAgreesIff`). It also fills in the titles of
  explicitly listed files, which the walk leaves to be read on demand (`ResolveFile.ResolveIsWalkIff`).
- The update of a cached list after a new file inherits the first three, unless the source in question
  is manual and shuts out none that is not (`KeptClaims.HiddenManualIsHarmless`,
  `KeptClaims.HiddenManualShutsOut`, `KeptClaims.KeptAgreeIffExact`).
- Updates look at one file only, but the source type for ANCHORS modules lists a file only beside an
  ANCHORS.md. When that comes or goes, its neighbours stay as they were in the list until a rescan
  (`CacheFreshness.MarkerCounterexample`, `CacheFreshness.UpsertIsRescanIff`,
  `CacheFreshness.RemoveIsRescanIff`).
- `WaitForChangeSince` can answer a timeout with a number that has moved on, and the tool hands that
  number to its caller, who will not hear of the change again. That happens exactly when a change comes
  between the start and the answer of a wait that takes its timeout
  (`ChangeFeed.TimeoutCanSwallowAChange`, `ChangeFeed.NothingMissedIffNoTimeoutOverlooks`).
- `parse_numstat` splits at every tab, and under `-z` git prints paths with tabs unquoted
  (`DiffRecords.TabCounterexample`, and `DiffRecords.JoinExactIff` if no plain path starts with a tab).
  A path that starts with a tab is even taken for a rename, and the records behind it are swallowed
  (`DiffRecords.LeadingTabCounterexample`, and `DiffRecords.JoinExactIffRead` if there are no other
  tabs). For lists with both kinds of tab no exact condition is given.
- `deduplicateWorktreeProjects` promises the alphabetically first project of a repository whose main
  worktree is absent, and keeps the one with the lowest index. `DiscoverWorkspace` passes a list in
  which the projects with worktrees are sorted, and for such a list these are the same
  (`WorktreeDedup.UnsortedCounterexample`, `WorktreeDedup.KeepsFirstByPathIff`).
- It is to remove a project only if it is a worktree of another. But a project in a subdirectory of a
  worktree carries that repository's worktree list, so the project at the root of that worktree goes as
  a duplicate of it (`WorktreeDedup.RootCounterexample`, `WorktreeDedup.ListlessStaysIff`). Two such
  subdirectories are in no list, not even their own, and both stay, which the comment leaves open
  (`WorktreeDedup.SubdirectoriesCounterexample`, `WorktreeDedup.OneSurvivorIff`).

## Model

| member | source | states |
|---|---|---|
| CommentOrder.OrderComments | apps/penpal/internal/comments/ordering.go:14-71 | For two or more comments with distinct IDs and any links it ends with a tree order: exactly the comments whose chain of parents reaches a root, each once, every subtree contiguous and headed by its root, siblings by effective time; shorter lists are returned as they are |
| CommentOrder.Walk | apps/penpal/internal/comments/ordering.go:57-64 | The recursive closure appends precisely the forest of replies below a comment, in tree order, and ends although links may form cycles |
| CommentOrder.Group | apps/penpal/internal/comments/ordering.go:19-37 | A comment is a root iff it names no comment of the thread; otherwise it is filed once under its parent |
| CommentOrder.SortGroups | apps/penpal/internal/comments/ordering.go:40-55 | Roots and each reply list are permuted into effective-time order, nothing else changes |
| CommentOrder.ParentsFirst | apps/penpal/internal/comments/ordering.go:14-71 | In a tree order every parent strictly precedes its replies |
| CommentOrder.NothingLostIffAllGrounded | apps/penpal/internal/comments/ordering.go:14-71 | The order is a permutation of the input iff no comment sits on or below a reply cycle |
| CommentThreads.Store.MigrateInReplyTo | apps/penpal/internal/comments/storage.go:94-102 | In place, each unlinked comment after the first is linked to its predecessor, and nothing else changes |
| CommentThreads.Store.Save | apps/penpal/internal/comments/storage.go:114-143 | The sidecar is replaced by the back-filled threads |
| CommentThreads.Store.CreateThread | apps/penpal/internal/comments/operations.go:24-55 | An open thread with the one comment is appended and saved |
| CommentThreads.Store.AddComment | apps/penpal/internal/comments/operations.go:66-96 | The comment goes to the first thread of that ID, linked to the last comment if it has no link; no such thread is an error that writes nothing |
| CommentThreads.Store.SetStatus | apps/penpal/internal/comments/operations.go:105-158 | Only the status of the first thread of that ID changes; no such thread is an error |
| CommentThreads.WorkingEntriesHold | apps/penpal/internal/comments/comments.go:224-263 | In every run, each entry of the working map names a comment of the thread its key belongs to |
| CommentThreads.ReplyAnswersWhatWasRead | apps/penpal/internal/mcpserver/tools.go:153-203 | From any reachable state, from the read to the reply: the reply ends up last in the thread that was read and answers the comment that was last then, although others reply in between, unless the thread is read again or no longer marked before the link is chosen |
| CommentThreads.MigrationIsIdentity | apps/penpal/internal/comments/storage.go:94-102 | Threads whose links are in place are saved unchanged |
| CommentThreads.ChosenLinkIsInThread | apps/penpal/internal/mcpserver/tools.go:183-203 | The link an agent reply takes from the working map names a comment of the very thread the reply goes to, although the key omits the worktree |
| CommentThreads.AgentReplyKeepsInv | apps/penpal/internal/mcpserver/tools.go:183-203 | An agent reply whose link was chosen at any earlier moment keeps all links pointing back |
| CommentThreads.ReadKeepsInv | apps/penpal/internal/mcpserver/tools.go:153-166 | Remembering the last comment of a thread that was read keeps the working map honest |
| CommentThreads.StepKeepsInv | apps/penpal/internal/server/comments.go:216-346 | Every step of every handler keeps the links, the unique IDs and the working map in order |
| CommentThreads.RunKeepsInv | apps/penpal/internal/comments/operations.go:24-96 | The same after every interleaving of steps |
| CommentThreads.LinksPointBack | apps/penpal/internal/comments/operations.go:24-96 | In every thread of every run, the first comment is unlinked and each later one answers a strictly earlier one |
| CommentThreads.BackLinksGround | apps/penpal/internal/comments/ordering.go:24-37 | Links that point back leave one root and no cycle |
| CommentThreads.TreeOrderStartsAtRoot | apps/penpal/internal/comments/ordering.go:14-71 | The tree order of such a thread starts with its opening comment |
| CommentThreads.DisplayIsPermutation | apps/penpal/internal/comments/ordering.go:14-71 | Displaying any reachable thread shows all of its comments once, opening comment first |
| Anchors.ResolveAnchor | apps/penpal/internal/comments/anchor.go:14-70 | The answer for every input: the leftmost occurrence in context if one is among those tried, else the leftmost occurrence, else -1; the early break is unreachable |
| Anchors.NotFoundIffAbsent | apps/penpal/internal/comments/anchor.go:14-25 | -1 iff the text is empty or absent; any other answer is an occurrence |
| Anchors.DocumentedIffInReach | apps/penpal/internal/comments/anchor.go:8-70 | The answer is the documented one iff the bounded loop reaches a context match whenever there is one |
| Anchors.DocumentedWithoutOverlap | apps/penpal/internal/comments/anchor.go:8-70 | That is so wherever occurrences do not overlap |
| Anchors.OverlapCounterexample | apps/penpal/internal/comments/anchor.go:19-70 | In "aaa" the match of "aa" after "a" is missed |
| Anchors.CheckContext | apps/penpal/internal/comments/anchor.go:38-62 | The two slice comparisons decide exactly whether the recorded context surrounds an occurrence |
| Anchors.ResolveAnchorsToLines | apps/penpal/internal/comments/anchor.go:72-105 | Every thread ID gets the line of the last thread with that ID |
| Anchors.LineOfThread | apps/penpal/internal/comments/anchor.go:72-105 | The line of the resolved offset, else the stored line, else -1 |
| Anchors.CreateAnchor | apps/penpal/internal/mcpserver/tools.go:247-272 | The anchor records the text around its first occurrence, up to 80 bytes each way, and its line |
| Anchors.CreateThenResolve | apps/penpal/internal/mcpserver/tools.go:241-272 | Creating an anchor and resolving it on the same document gives back its offset and its line |
| TextSearch.CountAtMostOccurrences | apps/penpal/internal/comments/anchor.go:19-22 | The non-overlapping count never exceeds the number of occurrences |
| TextSearch.NothingCounted | apps/penpal/internal/comments/anchor.go:19-22 | It is zero iff the text does not occur |
| TextSearch.CountIsExact | apps/penpal/internal/comments/anchor.go:19-22 | It equals that number if occurrences do not overlap |
| ChangeFeed.Store.NotifyChange | apps/penpal/internal/comments/comments.go:114-120 | The counter advances by one, the current channel is closed, never twice, and a new open one replaces it |
| ChangeFeed.Store.Poll | apps/penpal/internal/comments/comments.go:134-142 | The locked half of a wait answers iff there is news, and otherwise captures the current, open channel |
| ChangeFeed.StepKeepsInv | apps/penpal/internal/comments/comments.go:114-156 | Every step of writer and clients keeps channels, numbers and answers in step |
| ChangeFeed.CapturedChannelClosedIffChanged | apps/penpal/internal/comments/comments.go:134-156 | No lost wake-up: a captured channel is closed iff the number has since advanced, and a sleeper can wake iff there is news for it |
| ChangeFeed.SuccessfulWaitAdvances | apps/penpal/internal/comments/comments.go:134-156 | A successful wait by a client that is not ahead returns a larger number |
| ChangeFeed.AnswersPartitionChanges | apps/penpal/internal/comments/comments.go:126-156 | The intervals a client is told about are disjoint and together are exactly the changes since it joined |
| ChangeFeed.NothingMissedIffNoTimeoutOverlooks | apps/penpal/internal/comments/comments.go:134-156 | In every run, successful answers announce every change to a client iff no change came between the ask and the finish of a wait of it that took its timeout |
| ChangeFeed.TimeoutCanSwallowAChange | apps/penpal/internal/comments/comments.go:150-155 | A run in which a change is never announced |
| FileTree.RelInjective | apps/penpal/internal/cache/cache.go:1144-1145 | A project-relative path determines the file |
| SourceScan.Scanner.WalkDir | apps/penpal/internal/cache/cache.go:1108-1189 | The recursive walk visits, in order, the files no pruned directory hides |
| SourceScan.Scanner.OnFile | apps/penpal/internal/cache/cache.go:1134-1188 | What the callback does with a file: suffix, sibling, earlier claim and classification decide |
| SourceScan.Scanner.OnListed | apps/penpal/internal/cache/cache.go:1191-1224 | What becomes of one listed file: missing, no markdown, already claimed, or added |
| SourceScan.Scanner.ListFiles | apps/penpal/internal/cache/cache.go:1190-1225 | An explicit list adds its unclaimed markdown files |
| SourceScan.ScanProjectSources | apps/penpal/internal/cache/cache.go:1088-1234 | The scan is a newest-first permutation of what its sources produce one after the other |
| ScanClaims.WalkNodeExact | apps/penpal/internal/cache/cache.go:1108-1133 | A walk hands over exactly the files below it that no directory on the way hides, each once |
| ScanClaims.OffersExact | apps/penpal/internal/cache/cache.go:1094-1191 | What a source offers, decided from the path alone |
| ScanClaims.ScanView | apps/penpal/internal/cache/cache.go:1088-1234 | The scan's entries for one file are those its sources claim in turn, without any walking |
| ScanClaims.ScannedPathsExist | apps/penpal/internal/cache/cache.go:1088-1234 | Every scanned entry is for an existing regular file |
| ResolveFile.HasSkippedDir | apps/penpal/internal/cache/cache.go:868-883 | True iff a directory between source root and file has a skipped name |
| ResolveFile.IsUnderNestedGitRepo | apps/penpal/internal/cache/cache.go:889-900 | True iff a directory strictly between root and file holds a `.git` that is not a directory |
| ResolveFile.IsAncestorDirGitIgnored | apps/penpal/internal/cache/cache.go:905-916 | True iff git ignores a directory strictly between root and file |
| ResolveFile.AcceptedBy | apps/penpal/internal/cache/cache.go:736-775 | The three checks together with containment in the root |
| ResolveFile.ClaimBy | apps/penpal/internal/cache/cache.go:732-860 | One source in turn adds its entry, unless a typed source has claimed the file and this one is typed too |
| ResolveFile.ResolveFileInfo | apps/penpal/internal/cache/cache.go:710-863 | The shortcut's entries are those its sources claim in turn, in source order |
| ResolveFile.WalkReachesIff | apps/penpal/internal/cache/cache.go:1108-1133 | The walk reaches a file iff the shortcut's checks pass and no `.git` component or skipped root name hides it |
| ResolveFile.SameClaims | apps/penpal/internal/cache/cache.go:710-863 | Where nothing is hidden, shortcut and walk claim the same entries from every list of sources, up to titles of listed files |
| ResolveFile.HiddenDiffers | apps/penpal/internal/cache/cache.go:710-863 | One hidden contribution is enough to make them differ |
| ResolveFile.ResolveAgreesIffNoneHidden | apps/penpal/internal/cache/cache.go:710-863 | For a markdown file inside the project they agree iff no contributing source's walk is stopped on the way |
| ResolveFile.ClaimedIffSomeoneClaims | apps/penpal/internal/cache/cache.go:1088-1234 | A file is listed iff some source offers it and lets it through |
| ResolveFile.ResolveAgreesIff | apps/penpal/internal/cache/cache.go:710-863 | For every path, shortcut and walk agree, as sequences and up to titles of listed files, iff the guard `ShortcutExact` holds |
| ResolveFile.ResolveIsWalkIff | apps/penpal/internal/cache/cache.go:710-863 | With titles, too, they agree iff in addition no list takes a file that has a title |
| ResolveFile.DotGitCounterexample | apps/penpal/internal/cache/cache.go:710-863 | A markdown file in a `.git` directory is resolved but not scanned |
| ResolveFile.SkippedRootCounterexample | apps/penpal/internal/cache/cache.go:710-863 | So is one in a source whose own root has a skipped name |
| ResolveFile.TwoDotsCounterexample | apps/penpal/internal/cache/cache.go:720-728 | A file whose name starts with two dots is scanned but not resolved |
| FileOffers.KeptAgreeIff | apps/penpal/internal/cache/cache.go:732-860 | With manual entries dropped, a list of offers yields the same entries as one that lacks some of them iff every taker that is lacking is manual and, if it claims the file for itself, so is the next to claim it |
| KeptClaims.KeptAgreeIffExact | apps/penpal/internal/cache/cache.go:921-993 | What is kept of the shortcut's answer is what a rescan keeps of the file iff the guard `KeptExact` holds: each contributing source whose walk is stopped is manual and shuts out none that is not; for a path that starts with "..", all who would list it are manual |
| KeptClaims.HiddenManualIsHarmless | apps/penpal/internal/cache/cache.go:921-993 | With a manual tree over a `.git` directory alone, shortcut and walk differ, but not in what is kept |
| KeptClaims.HiddenManualShutsOut | apps/penpal/internal/cache/cache.go:921-993 | Before an explicit list it shuts out the list, for which a rescan keeps the file |
| MarkerFiles.SameKeptIffDispensable | apps/penpal/internal/cache/cache.go:1094-1189 | A rescan keeps the same of a file with and without a new neighbour iff each claiming source that requires that neighbour is manual and shuts out none that is not |
| FileLists.FilterManualFileInfos | apps/penpal/internal/cache/cache.go:975-993 | Exactly the entries of manual sources go, by source name |
| FileCache.Cache.UpdateProjectMetadata | apps/penpal/internal/cache/cache.go:1025-1035 | The first project of that name gets its flags from the list; an empty list leaves its time alone |
| FileCache.Cache.RefreshProject | apps/penpal/internal/cache/cache.go:390-412 | The list becomes a fresh filtered scan, newest first; other projects keep theirs |
| FileCache.Cache.UpsertFile | apps/penpal/internal/cache/cache.go:921-973 | Cached entries are re-stated, else the resolved ones are added, newest first; a failed call changes nothing |
| FileCache.TouchEntries | apps/penpal/internal/cache/cache.go:942-959 | Every entry for the path gets the new time and title, and whether there was one |
| FileCache.Cache.RemoveFile | apps/penpal/internal/cache/cache.go:997-1021 | All entries for the path go and the rest keep their order; true iff there was one |
| FileCache.Compact | apps/penpal/internal/cache/cache.go:1006-1015 | The in-place compaction leaves the kept entries in front, in order |
| CacheFreshness.UpsertIsRescan | apps/penpal/internal/cache/cache.go:921-973 | After rewriting a listed markdown file, or creating one for which `KeptExact` holds and which its neighbours can do without, the update gives what a rescan would, newest first |
| CacheFreshness.UpsertIsRescanIff | apps/penpal/internal/cache/cache.go:921-973 | That condition is exact, for changes to any markdown file, markers included |
| CacheFreshness.ExactKeeps | apps/penpal/internal/cache/cache.go:921-993 | `KeptExact` follows from the single-file guard `ShortcutExact`, and is the same in a project without manual sources |
| CacheFreshness.RemoveIsRescanIff | apps/penpal/internal/cache/cache.go:997-1021 | After deleting a markdown file the update gives what a rescan would iff its neighbours can do without it |
| CacheFreshness.MarkerCounterexample | apps/penpal/internal/discovery/discovery.go:138-152 | After ANCHORS.md is created beside PRODUCT.md, no up-to-date list is up to date after its update |
| CacheFreshness.MetadataIsExact | apps/penpal/internal/cache/cache.go:1025-1035 | The flags then say whether a rescan would find anything, and its newest time |
| CacheFreshness.TouchKeepsUpToDate | apps/penpal/internal/cache/cache.go:942-959 | Re-stating a cached file's entries keeps an up-to-date list up to date |
| CacheFreshness.AddKeepsUpToDate | apps/penpal/internal/cache/cache.go:961-971 | So does appending the shortcut's entries for a new file, where `KeptExact` holds and the neighbours keep theirs |
| CacheFreshness.RemoveKeepsUpToDate | apps/penpal/internal/cache/cache.go:997-1021 | So does removing a deleted file's entries, where the neighbours keep theirs |
| CacheFreshness.FreshElsewhere | apps/penpal/internal/cache/cache.go:1088-1234 | A rescan finds the same at every other path, if the file is still there or its neighbours can do without it |
| CacheFreshness.WriteIsOneFileChange | apps/penpal/internal/cache/cache.go:921-1021 | Writing a markdown file is a change as the updates assume it: nothing else changes |
| CacheFreshness.RunStaysFreshIff | apps/penpal/internal/cache/cache.go:921-1021 | After a refresh the list stays what a rescan would find through any sequence of single-file changes and their updates iff each update meets the exact condition above |
| WorktreeDedup.IndexPaths | apps/penpal/internal/discovery/discovery.go:504-507 | Each path leads to its project |
| WorktreeDedup.RemoveDuplicatesOf | apps/penpal/internal/discovery/discovery.go:512-546 | One project's turn extends the removal set to exactly the projects that are settled and do not stay, though the set is edited while it is read |
| WorktreeDedup.FindDuplicates | apps/penpal/internal/discovery/discovery.go:509-546 | The finished removal set is exactly the projects that do not stay |
| WorktreeDedup.DeduplicateWorktreeProjects | apps/penpal/internal/discovery/discovery.go:502-559 | What remains, in order: the projects that do not yield to a main worktree and whose directory is no worktree of another project that leads its repository |
| WorktreeDedup.OneSurvivorIff | apps/penpal/internal/discovery/discovery.go:496-559 | Every repository keeps a project; it keeps exactly one iff its main worktree is a project or at most one of its projects is outside its worktree list |
| WorktreeDedup.KeeperIffMainOrFirst | apps/penpal/internal/discovery/discovery.go:496-546 | If all its projects are in the list, what stays is the main worktree or, without one, the first |
| WorktreeDedup.KeepsFirstByPathIff | apps/penpal/internal/discovery/discovery.go:496-546 | The choice is the alphabetically first one iff each such repository's first project in the list is, as in a list whose projects with worktrees are sorted |
| WorktreeDedup.ListlessStaysIff | apps/penpal/internal/discovery/discovery.go:512-546 | A project without worktrees stays iff its directory is in no other project's list |
| WorktreeDedup.UnsortedCounterexample | apps/penpal/internal/discovery/discovery.go:496-546 | In an unsorted list a later path stays |
| WorktreeDedup.SubdirectoriesCounterexample | apps/penpal/internal/discovery/discovery.go:496-546 | Two subdirectories of one worktree both stay |
| WorktreeDedup.RootCounterexample | apps/penpal/internal/discovery/discovery.go:512-546 | A workspace's root project without worktrees goes because a subdirectory lists its path |
| ReplaySegments.AppendItem | crates/acp-client/src/driver.rs:947-990 | One more item extends the open text or closes it, and tool messages close themselves |
| ReplaySegments.GreedyStep | crates/acp-client/src/driver.rs:786-799 | Matching greedily keeps the embedding of stored roles longest |
| ReplayCursor.ReplayBuffer.constructor | crates/acp-client/src/driver.rs:750-769 | The target is the last message that is not the user's |
| ReplayCursor.ReplayBuffer.FinalizeCurrent | crates/acp-client/src/driver.rs:774-782 | Open text is closed, and matched unless it is empty |
| ReplayCursor.ReplayBuffer.TryMatch | crates/acp-client/src/driver.rs:786-799 | The cursor advances iff the next stored role is the given one |
| ReplayCursor.ReplayBuffer.IsComplete | crates/acp-client/src/driver.rs:802-807 | Complete iff the cursor has passed the target, or there is none |
| ReplayCursor.ReplayBuffer.Observe | crates/acp-client/src/driver.rs:938-995 | What one notification does to the buffer, and whether it signals the end |
| ReplayRuns.ReplayTracked | crates/acp-client/src/driver.rs:938-995 | After any notifications the buffer's fields are the open text and the longest embedding of stored roles into closed segments |
| ReplayRuns.CursorIsOptimal | crates/acp-client/src/driver.rs:750-807 | The cursor is the largest number of leading stored roles that form a subsequence of the closed segments' roles |
| ReplayRuns.FirstSignal | crates/acp-client/src/driver.rs:947-995 | The first signal comes with the first closed segment by which all roles through the last non-user message are embedded |
| NotificationHandler.Handler.constructor | crates/acp-client/src/driver.rs:818-836 | A resumed session starts replaying, a new one live |
| NotificationHandler.Handler.TransitionToWaitingForPrompt | crates/acp-client/src/driver.rs:851-861 | Only a replay ends in waiting; its tool calls are remembered |
| NotificationHandler.Handler.TransitionToLive | crates/acp-client/src/driver.rs:863-875 | Replay or waiting become live, with the tool calls remembered |
| NotificationHandler.Handler.SessionNotification | crates/acp-client/src/driver.rs:895-1095 | The new phase, the calls on the writer, and the signal, for every notification in every phase |
| NotificationHandler.Handler.PerformLive | crates/acp-client/src/driver.rs:1059-1093 | The calls a live notification turns into, in order |
| NotificationHandler.RunRemembers | crates/acp-client/src/driver.rs:851-1017 | In every session the handler is live iff the prompt went out, and remembers exactly the tool calls mentioned before |
| NotificationHandler.WriterIsolation | crates/acp-client/src/driver.rs:851-1095 | The content calls on the writer are exactly, in order, the translations of live notifications about no earlier-mentioned tool call; metadata always passes |
| RemoteFraming.Reassembler.ConsumeLine | crates/acp-client/src/driver.rs:570-618 | Emit, keep or drop, and the new pending text, for every verdict on the joined text and on the chunk alone |
| RemoteFraming.ConsumeSegments | crates/acp-client/src/driver.rs:650-663 | The segments of one line are consumed in order, blank ones skipped |
| RemoteFraming.NormalizeRemoteStdout | crates/acp-client/src/driver.rs:630-671 | The emitted lines are those of feeding all segments of all lines |
| RemoteFraming.SegmentsAreSplit | crates/acp-client/src/driver.rs:620-628 | Segments of lines are what lies between line feeds and record separators |
| RemoteFraming.NormalizedByChunks | crates/acp-client/src/driver.rs:630-671 | The stream matters only through its sanitized chunks |
| RemoteFraming.StreamIsSafe | crates/acp-client/src/driver.rs:570-671 | For every stream, pending text is empty or incomplete, newline-free and at most 256 KiB, and every emitted line is valid and newline-free |
| RemoteFraming.MessagesAreReassembled | crates/acp-client/src/driver.rs:570-671 | Messages cut into not-all-blank pieces within the cap come out exactly, in order, with nothing left over |
| RemoteFraming.TextSequenceRoundTrip | crates/acp-client/src/driver.rs:620-671 | Messages encoded as in section 2 of RFC 7464 come out unchanged |
| ShellQuote.QuoteRoundTrip | crates/acp-client/src/driver.rs:246-248 | The shell reads back exactly the list of strings that was quoted and joined by spaces, up to the end of the line |
| ShellQuote.QuoteInjective | crates/acp-client/src/driver.rs:246-248 | Different lists are never written the same |
| ShellQuote.ExecLineWords | crates/acp-client/src/driver.rs:371-396 | The line means, whatever input follows it: run the binary with its arguments, its own directory first in PATH |
| DiffAlignment.ConvertHunks | crates/git-diff/src/diff.rs:637-658 | Each header is converted to positions counted from zero, sides without lines included |
| DiffAlignment.ComputeAlignments | crates/git-diff/src/diff.rs:669-765 | The alignments, or that u32 arithmetic would leave its range, for every list of hunks |
| DiffAlignment.AlignFromLinesUp | crates/git-diff/src/diff.rs:720-765 | From any position of a diff on, the alignments are the diff's kept and replaced stretches |
| DiffAlignment.DiffIsAligned | crates/git-diff/src/diff.rs:637-765 | For git's headers of any valid diff nothing leaves u32, and the alignments are the diff's own structure |
| DiffAlignment.LinesUpShows | crates/git-diff/src/diff.rs:669-765 | Alignments of that structure tile both files, agree where unchanged, and rebuild one file from the other |
| DiffAlignment.AlignmentsShowDiff | crates/git-diff/src/diff.rs:637-765 | So they do for every valid diff: before spans tile A, after spans tile B, unchanged spans show equal lines, and replacing the changed spans of A gives B |
| DiffRecords.ReadRecord | crates/git-diff/src/diff.rs:340-378 | One round of the parser, including cut-off and unknown records |
| DiffRecords.ParseNameStatus | crates/git-diff/src/diff.rs:336-381 | The records in order |
| DiffRecords.ParseNumstat | crates/git-diff/src/diff.rs:198-231 | The counts by path, renames by their new one |
| DiffRecords.ApplyNumstatOutput | crates/git-diff/src/diff.rs:233-241 | Each file, in place, gets the counts found under its path or keeps its own |
| DiffRecords.NameStatusRoundTrip | crates/git-diff/src/diff.rs:336-381 | Parsing printed records gives them back, in order, for all paths without NUL |
| DiffRecords.NumstatRoundTrip | crates/git-diff/src/diff.rs:198-231 | Parsing printed counts files each under its path up to a tab |
| DiffRecords.JoinExactIff | crates/git-diff/src/diff.rs:190-241 | Where no plain path starts with a tab, printing in both formats, parsing both and joining returns every record with its own counts iff no counts are lost to tabs |
| DiffRecords.JoinRoundTrip | crates/git-diff/src/diff.rs:190-241 | In particular where only renames and copies have tabs in their paths |
| DiffRecords.TabCounterexample | crates/git-diff/src/diff.rs:206-216 | A text file with a tab in its name loses its counts |
| DiffRecords.LeadingTabIsUncounted | crates/git-diff/src/diff.rs:198-241 | A file whose path starts with a tab and that is not also renamed or copied gets no counts, whatever else is printed, so it comes out right iff it has none |
| DiffRecords.NumstatReads | crates/git-diff/src/diff.rs:198-231 | If there are no other tabs, a path that starts with one swallows the next two records, or one that is last or a rename or copy, and all others are read |
| DiffRecords.JoinExactIffRead | crates/git-diff/src/diff.rs:190-241 | Then the join returns every record with its own counts iff those that are not read have none |
| DiffRecords.LeadingTabCounterexample | crates/git-diff/src/diff.rs:206-226 | Such a file also costs the one behind it its counts |
| BranchStack.WalkDownstack | apps/differ/src-tauri/src/lib.rs:707-745 | It ends on acyclic stacks, having listed every non-trunk branch with a parent on the way to the trunk, nearest first |
| BranchStack.AddLinks | apps/differ/src-tauri/src/lib.rs:759-771 | One branch adds a link for each of its parents in the current level |
| BranchStack.PassOver | apps/differ/src-tauri/src/lib.rs:754-772 | One pass finds exactly the non-trunk links into the current level |
| BranchStack.WalkUpstack | apps/differ/src-tauri/src/lib.rs:747-781 | It ends on acyclic stacks, level by level |
| BranchStack.LevelIsDown | apps/differ/src-tauri/src/lib.rs:747-781 | A branch is in level n iff n steps down from it lead to the start |
| BranchStack.LinksCover | apps/differ/src-tauri/src/lib.rs:747-781 | In acyclic stacks the first n levels list each branch at distance at most n once, in distance order |
| BranchStack.UpstackIsDescendants | apps/differ/src-tauri/src/lib.rs:747-781 | The result is exactly the descendants through non-trunk branches, each once, in distance order |
| BranchStack.UpstackHasParents | apps/differ/src-tauri/src/lib.rs:754-771 | Trunk branches and branches without a parent are in no upstack |
| BranchStack.DownstackMembers | apps/differ/src-tauri/src/lib.rs:707-745 | A branch with a parent is listed iff some number of steps leads to it |
| BranchStack.WalksAreInverse | apps/differ/src-tauri/src/lib.rs:707-781 | x is up the stack from b iff b is down the stack from x's parent |
| FreshSuffix.Search | apps/penpal/internal/markdown/markdown.go:99-105 | The unbounded search ends within as many failures as there are used IDs, at the first unused candidate |
| FreshSuffix.TriedSize | apps/penpal/internal/markdown/markdown.go:99-105 | n tries are n different candidates, which leaves the used set no room |
| HeadingIds.SlugBytes | apps/penpal/internal/markdown/markdown.go:70-86 | The loop appends the slug of the bytes to the prefix, multi-byte sequences skipped |
| HeadingIds.PrefixedIds.Generate | apps/penpal/internal/markdown/markdown.go:67-106 | The ID starts with the prefix, is the slug or its first unused suffix, and was never returned or put before |
| HeadingIds.PrefixedIds.Put | apps/penpal/internal/markdown/markdown.go:108-110 | The value is never returned from then on |
| TimeoutDiagnostics.UniqueTimeoutDiagnosticId | crates/doctor/src/lib.rs:234-257 | Base, else with the hash, else the first unused number from 2; never a used one |
| TimeoutDiagnostics.TimeoutDiagnosticChecks | crates/doctor/src/lib.rs:215-232 | One check per distinct timeout, in first-seen order, with pairwise distinct IDs, each chosen against those before it |
| TimeoutDiagnostics.FirstSeenExact | crates/doctor/src/lib.rs:215-232 | First-seen order has each distinct timeout exactly once |
| ExecutionTables.ActionExecutor.Register | crates/builderbot-actions/src/executor.rs:241-255 | The execution is running, with an empty buffer no other execution shares |
| ExecutionTables.ActionExecutor.Push | crates/builderbot-actions/src/executor.rs:175-183 | A reader's own handle appends to that execution's buffer and no other |
| ExecutionTables.ActionExecutor.MarkStopped | crates/builderbot-actions/src/executor.rs:647-653 | Only the stop mark is set; the running table keeps the entry |
| ExecutionTables.ActionExecutor.TakeStopMark | crates/builderbot-actions/src/executor.rs:323-327 | The mark is read and removed in one step |
| ExecutionTables.ActionExecutor.MoveToCompleted | crates/builderbot-actions/src/executor.rs:329-337 | A running execution becomes a completed one with a copy of its buffer |
| ExecutionTables.ActionExecutor.GetBufferedOutput | crates/builderbot-actions/src/executor.rs:743-755 | The buffer of a running execution, else the stored output, else nothing |
| ExecutionTables.ActionExecutor.ClearExecution | crates/builderbot-actions/src/executor.rs:771-774 | The stored output goes; true iff there was one |
| ExecutionRuns.StepKeepsPlaces | crates/builderbot-actions/src/executor.rs:245-337 | Every step of every thread keeps each execution where its completion thread's stage says |
| ExecutionRuns.StepKeepsQueries | crates/builderbot-actions/src/executor.rs:743-755 | Every step keeps open and answered queries right |
| ExecutionRuns.StepKeepsEvents | crates/builderbot-actions/src/executor.rs:341-402 | Every step keeps the events in order |
| ExecutionRuns.FiledExactlyOnce | crates/builderbot-actions/src/executor.rs:245-337 | In every interleaving a started, uncleared execution is in exactly one table, except while its own thread holds the running lock |
| ExecutionRuns.KnownOutputIsFound | crates/builderbot-actions/src/executor.rs:743-755 | Across its two locks a query finds every known execution unless it was cleared, and answers a prefix of its buffer |
| ExecutionRuns.StoredOutputIsPrefix | crates/builderbot-actions/src/executor.rs:329-337 | Stored output is a prefix of the buffered chunks |
| ExecutionRuns.OneStatusThenSignal | crates/builderbot-actions/src/executor.rs:353-402 | No execution announces two statuses or signals twice, and the signal comes after the status |
| ExecutionRuns.AnnouncedStatusIsDue | crates/builderbot-actions/src/executor.rs:323-361 | Stopped iff the mark was set before the completion thread took it back; otherwise as the child exited |
| ExecutionRuns.MoveIsThreeSteps | crates/builderbot-actions/src/executor.rs:329-337 | The interleaved form of the move amounts to the sequential one |

## Left out

- Processes, PTYs, signals, sockets, HTTP, JSON encoding, file access and clocks: times, tree contents and exit results are inputs, git's ignore rules and JSON verdicts are parameters.
- CommentOrder.OrderComments: IDs are assumed distinct, which the store guarantees; with duplicate IDs the walk need not end. Go's sort is not stable, so nothing is said about equal times.
- CommentThreads.StepKeepsInv: generated IDs are assumed fresh and eight characters long; sidecar files edited or copied by hand are not covered. Any thread read may be marked as being worked on, which allows more runs than the handlers do.
- CommentThreads.Store.Save: write errors and the NotifyChange call are left out.
- CommentThreads.ReplyAnswersWhatWasRead: reading the thread again is excluded; the second read then counts as the one that is answered. Reads of the thread that were pending before are not marked in between.
- Anchors.ResolveAnchor: documents are strings of bytes.
- ChangeFeed.Store.NotifyChange: the 64-bit counter does not wrap around. Cancelled waits behave like timeouts.
- FileTree.RelInjective: paths are clean lists of components, and `filepath.Rel` is defined on those. Symbolic links are left out.
- ResolveFile.ResolveFileInfo: a source rooted at "/" is left out, because the prefix test of the original fails there. The git-ignore test is one fixed predicate for walk and shortcut, and lower-casing covers ASCII.
- ResolveFile.ResolveAgreesIff: sources that are trees have distinct names and a list of explicit files is not called `__all_markdown__`.
- CacheFreshness.UpsertIsRescanIff: titles of explicitly listed files are ignored, since a cached list reads them on demand.
- FileCache.Cache.RemoveFile: the list is a value, so other holders of the same slice do not see it compacted.
- FileCache.Cache.RefreshProject: the lazy-scan flag and removal of projects are left out.
- WorktreeDedup.DeduplicateWorktreeProjects: paths are distinct and clean, a project's list flags its own path and no other, and projects with worktrees of which one lists the other have the same list, as `git worktree list` gives them.
- NotificationHandler.Handler.SessionNotification: notifications are handled one at a time; the preview of a tool result is part of the notification. The idle timer only decides when the replay wait ends, which the model leaves open.
- RemoteFraming.NormalizeRemoteStdout: the stream is text that has already been decoded; stripping of invalid UTF-8 and the log messages are left out.
- ShellQuote.ExecLineWords: of the shell's expansions only PATH in double quotes is read.
- DiffRecords.JoinExactIff: plain paths do not start with a tab; `JoinExactIffRead` allows that, but no other tabs. Lists with both, where parts of a path are read as records of their own, are characterised for the file with the leading tab only. Paths are compared as strings, not by components.
- DiffRecords.JoinExactIffRead: no record's path is the source of a rename or copy.
- DiffRecords.LeadingTabIsUncounted: the file is not also the source or target of a rename or copy.
- `parse_porcelain_status` is left out: it reads renames in the order opposite to the one git documents.
- BranchStack.WalkUpstack: stacks with cycles are left out, and the descendant theorems assume at most one parent per branch, as the walks do.
- HeadingIds.PrefixedIds.Generate: trimming, UTF-8 lengths and character classes of the markdown library are parameters.
- TimeoutDiagnostics.UniqueTimeoutDiagnosticId: the hash is a parameter, so nothing depends on its quality.
- ExecutionTables.ActionExecutor.MarkStopped: sending signals and the forced kill are left out; the auto-commit between status and signal is left out.
- ExecutionRuns.StoredOutputIsPrefix: readers may push after the copy, so stored output need not be complete.
- Source detection, `pm`, the doctor checks themselves, `summarize`, `blox-cli` and the user interfaces would add easy members only.
