# Verification of rattan's layer store, command language and executor

rattan runs an agent's shell commands in a sandbox whose file system is an overlay of committed,
content-addressed layers. This project models the parts of it that decide whether work is kept,
commands mean what was written, and paths stay inside the container, and proves properties of them.

* **The layer store** (`FileTree`, `Overlay`, `Manifest`, `ManifestBuilder`, `ManifestExample`,
  `LayerIndex`, `LayerGc`, `LayerStore`). Trees are maps from paths to entries, the merged view is a left fold, the manifest
  is the text that is hashed, and the index is a map with two counts and a parent link. `LayerStore`
  holds the in-place operations.
* **The store under concurrency** (`StoreProtocol`, `StoreSafety`, `StoreSequential`, `StoreInPlace`,
  `StoreCollection`, `StoreRefinement`, `StoreViews`, `StoreHistory`, `Coverage`). Operations are split
  where they take the lock, release it and write files, and interleave freely with a collection that
  reads stacks one by one. The shared store refines a model in which every session keeps full copies.
* **Background jobs** (`OverlayWrites`, `SessionDisk`, `JobIsolation`, `JobHistories`, `JobMounts`,
  `TakenLayers`). A session's directory is modelled by paths, a job's writes go through its overlay
  mount, and the store reads uppers from that disk.
* **The command language** (`Lexer`, `Tokenizer`, `WordParts`, `WordReader`, `WordFusion`, `WordEscapes`,
  `WordPrefixes`, `CommandFusion`, `VariableNames`, `DoubleQuotes`, `GluedTokens`, `Syntax`, `CommandParser`,
  `ParsedNodes`). Specifications read text and tokens from the front; the methods
  are the index-based loops and the shared-position parser, proved against them.
* **Quoting through two parsers** (`ShellQuote`, `PrintedWords`, `CommandPrinter`, `ParserRoundTrip`,
  `ShellReader`, `Payload`, `FileTools`). Printing and parsing, and the way of file content through
  quoting, parsing, expansion, rendering and the shell. The shell side is section 2.2 and 2.3 of
  POSIX.1-2017 XCU.
* **Running commands** (`ChangeDir`, `AndOr`, `PathWalk`, `HostPaths`, `Redirects`, `SpawnFds`,
  `MountLock`).
* **Two small state machines** (`JobRegistry`, `PackageCache`).
* `Text`, `Seqs` and `Wrappers` hold sorted listings, facts about sequences, and option types.

Where the program and its documentation differ, the model follows the program:

* A newline in a symbolic link's target makes different trees share a commit id.
* Committing unchanged content twice in a row makes a layer its own parent. Collection then never
  removes it, although the documentation says that everything unreferenced is removed.
* A commit keeps the session's view unless `/workspace` or `/tmp` lost the permissions they were
  seeded with.
* A comment ends the whole command, not its line.
* An absolute redirect target that starts with exactly two slashes is refused, although it leads
  under a root. `cd` accepts it.
* Assignment values and redirect targets are taken raw, quotes included, and a value ends at a
  newline.
* An unquoted backslash protects neither a quote nor a variable, and behind `$` no name character
  or brace either.
* `2>` and `2>>` are rendered with a second descriptor number in front of them.
* A poll that has seen the process end can overwrite a cancellation, and a kill that is past its
  check an ending. `FinalIff` says exactly when.

## Model

| member | source | states |
|---|---|---|
| ManifestBuilder.ComputeManifest | src/rattan/layers.py:203-244 | the walk, with its directory listings in any order, writes exactly the manifest text of the tree |
| ManifestBuilder.SortedNames | src/rattan/layers.py:222-223 | a listing of distinct names, whatever its order, is brought to the one sorted listing |
| Manifest.RecordTextUnique | src/rattan/layers.py:229-242 | records are a prefix code: two records with anything after them have equal text only if the records and the rests are equal, newlines in file names included |
| Manifest.RecordDetermines | src/rattan/layers.py:225-241 | equal records belong to the same path and to entries that differ at most in what the manifest does not see |
| ManifestExample.SampleManifest | src/rattan/layers.py:218-243 | the manifest of a small tree, character by character: order, relative paths, octal modes with type bits, kinds, digests and targets |
| ManifestExample.SeedManifest | src/rattan/layers.py:485-493 | the manifest of a fresh upper: `tmp` and `workspace`, both with mode 755 |
| Text.LessIff | src/rattan/layers.py:222-223 | names are ordered by the first character that differs, a name coming before those it begins |
| Manifest.ManifestCanonical | src/rattan/layers.py:203-250 | canonicity both ways: equal commit ids if and only if the trees are equal once special files and the targets of links to directories are erased, for link targets without newlines |
| ManifestBuilder.NewlineTargetsCollide | src/rattan/layers.py:236-237 | for every choice of names, a newline in a link target gives another tree the same commit id |
| Coverage.WhiteoutsCollide | src/rattan/layers.py:242 | for every upper with a deletion, dropping the deletion keeps the commit id; over every base that has the path one view hides it and the other shows it, unless a directory above hides it anyway |
| LayerIndex.CommitKeepsLayersExact | src/rattan/layers.py:416-442 | a commit keeps every `refcount_layers` equal to the number of entries whose parent the layer is, itself included, and every parent link inside the index |
| LayerIndex.CommitParent | src/rattan/layers.py:416-442 | a new layer is linked to the top of the session's stack, an old one only where it has no parent, and no other link changes |
| LayerIndex.CommitCountsSession | src/rattan/layers.py:416-442 | a commit adds one to the session count of its id and to no other |
| LayerIndex.ReleaseCountsSessions | src/rattan/layers.py:512-516 | dropping references subtracts exactly their multiplicities from the session counts |
| LayerGc.DropStep | src/rattan/layers.py:607-615 | removing the candidates one by one is removing their set: the order of a pass does not matter |
| LayerGc.PeelKeepsUsed | src/rattan/layers.py:584-606 | live ids and ids with a positive count survive whatever the counts say, nothing is invented, and no candidate is left |
| LayerGc.PeelIsGreatest | src/rattan/layers.py:594-620 | what is left is the greatest set in which each member is live, has a positive count or has a child in the set |
| LayerGc.PeelKeepsHeld | src/rattan/layers.py:594-620 | with parent cycles allowed: exactly the layers in use, those on cycles, and the ancestors of both stay |
| LayerGc.PeelCollectsAllIff | src/rattan/layers.py:572-576 | all that is not needed goes if and only if every layer on a parent cycle is needed |
| LayerGc.PeelAcyclic | src/rattan/layers.py:594-620 | without cycles exactly the layers in use and their ancestors stay |
| LayerGc.SelfParentLeaks | src/rattan/layers.py:436-441 | committing the same content twice in a row makes a layer its own parent, and it then outlives its last reference |
| LayerGc.CommitClosesCycleIff | src/rattan/layers.py:436-441 | where there was no parent cycle, a commit closes one if and only if its content is already stored without a parent and the tip is that layer or one of its descendants |
| LayerStore.Store.Commit | src/rattan/layers.py:387-457 | in place: id of the upper, copy only if absent, index edit, stack and persisted stack extended, upper reseeded |
| LayerStore.Store.Rollback | src/rattan/layers.py:496-521 | in place: fails and changes nothing if the id is not in the stack, otherwise cuts after its first occurrence, releases the rest and reseeds |
| LayerStore.Store.Destroy | src/rattan/layers.py:533-547 | in place: one session reference released for each stack element, and the directory is gone |
| LayerStore.Store.Gc | src/rattan/layers.py:569-623 | the `while changed` loop ends with the peeled index, the same entries gone from disk, each reported once; whatever the counts say, no id that a persisted stack lists loses its entry or its tree |
| StoreSequential.WholeCommit | src/rattan/layers.py:387-457 | the seven steps of a commit taken in a row do on the shared state what the in-place operation does |
| StoreSequential.WholeRollback | src/rattan/layers.py:496-521 | the same for a rollback |
| StoreSequential.WholeDestroy | src/rattan/layers.py:533-547 | the same for a destroy |
| StoreSequential.WholeGc | src/rattan/layers.py:569-623 | the steps of a collection in a row, session directories listed in any order: the index peeled by all persisted stacks, the layers that left it gone, nothing else moved |
| StoreInPlace.CommitInPlace | src/rattan/layers.py:387-457 | the in-place commit on the store and session of a protocol state leaves what its steps in a row leave |
| StoreInPlace.RollbackInPlace | src/rattan/layers.py:496-521 | the same for a rollback |
| StoreInPlace.DestroyInPlace | src/rattan/layers.py:533-547 | the same for a destroy |
| StoreInPlace.CollectInPlace | src/rattan/layers.py:577-623 | the same for a collection over the persisted stacks of all session directories, in any listing order |
| StoreSafety.StepKeepsInv | src/rattan/layers.py:406-445 | every step of commit, rollback, destroy and collection, split at lock and file-write boundaries, keeps the invariant of the shared store |
| StoreSafety.NoReferencedLayerIsCollected | src/rattan/layers.py:577-623 | in every interleaving, every id in a stack, in a persisted stack, or between a commit's unlock and its metadata write has its layer in the store |
| StoreSafety.CountsConserved | src/rattan/layers.py:416-442 | between operations session counts are numbers of occurrences over all stacks, layer counts are numbers of children, and index keys are the layer directories |
| StoreSafety.NoClampBites | src/rattan/layers.py:510-517 | in every reachable state each id a rollback or destroy releases is in the index with a count to spare |
| StoreSafety.CommitFindsItsTip | src/rattan/layers.py:406-442 | in every reachable state a commit that edits the index finds the tip it links to there, and directory check and index lookup agree |
| StoreSafety.CollectionHasToSpare | src/rattan/layers.py:607-614 | in every reachable state, at every point of every pass: the parent of the next entry to go is another entry of the index, with a child count to spare |
| StoreCollection.QuiescentCollection | src/rattan/layers.py:569-623 | taken between operations and without cycles, the steps of a collection leave exactly what some stack refers to and its ancestors, each the tree it was, and every session as it was |
| StoreCollection.SecondCollection | src/rattan/layers.py:595-620 | a second collection right after, in any listing order, changes nothing at all |
| StoreCollection.CollectsAllIff | src/rattan/layers.py:569-576 | between operations the steps of a collection remove everything unreferenced if and only if no unreferenced layer lies on a parent cycle |
| StoreRefinement.DedupeIsInvisible | src/rattan/layers.py:406-409 | the copy found under an upper's id is that upper as far as the manifest sees it |
| StoreRefinement.StoredTreesFixed | src/rattan/layers.py:406-409 | no step changes a stored tree |
| StoreRefinement.StepRefines | src/rattan/layers.py:387-547 | each concurrent step is one step of the model with full private copies, or invisible in it |
| StoreRefinement.RunRefines | src/rattan/layers.py:376-623 | for any number of sessions and every run, resolving stacks through the shared store gives the private copies |
| StoreViews.SharedViewIsPrivateView | src/rattan/layers.py:376-384 | what a session mounts from the shared store is what it would mount from its own copies |
| Coverage.CoveredIff | src/rattan/layers.py:225-242 | and those are exactly the trees for which it holds: a tree and what the manifest sees of it give the same view over every base if and only if it holds no special file, whiteout, opaque directory or target of a link to a directory |
| Coverage.SessionsTellIff | src/rattan/layers.py:376-384 | and a session can tell: after it has committed a tree, its mount agrees with its own copy over every base if and only if the tree is covered |
| Overlay.ViewIsViewLike | src/rattan/overlay.py:17-33 | stacking well-formed trees bottom first gives a well-formed tree without whiteouts |
| Overlay.MergeNotAssociative | src/rattan/overlay.py:27-33 | a family of trees on which the direction of the fold matters |
| Overlay.CommitPreservesView | src/rattan/layers.py:447-449 | a commit leaves the merged view unchanged if and only if the two seed directories have their seed permissions in it |
| Overlay.CommitKeepsContents | src/rattan/layers.py:485-493 | where the seed paths are directories, nothing but their permissions can change |
| StoreViews.SnapshotView | src/rattan/layers.py:387-457 | the same for a session with its copies |
| StoreHistory.CommitKeepsViewIff | src/rattan/layers.py:387-457 | the same of the shared store: from begin to return of a commit, under every interleaving, the mounted view stays if and only if the seed directories were intact in it |
| StoreViews.DiscardView | src/rattan/layers.py:524-530 | a reset shows the stack alone, under the same condition |
| StoreViews.RollbackRestores | src/rattan/layers.py:501-521 | in every run of the private copies, a rollback leads to the state, and the view, right after the commit of the first copy with that id, at a step of that very run |
| StoreViews.EveryCutWasThere | src/rattan/layers.py:447-449 | in every run each beginning of a session's copies, with fresh seeds, is the state one of its own commits left |
| StoreHistory.EveryCutWasReturned | src/rattan/layers.py:445-449 | the same of the shared store, in every interleaving: each beginning of a stack was the whole stack when a commit of the session returned, and its layers hold the trees they held then |
| StoreHistory.RollbackReturnsTo | src/rattan/layers.py:496-521 | in every interleaving a rollback that has returned leaves stack, upper, persisted stack and mounted view as the first commit of that id had left them |
| StoreHistory.OthersKeepView | src/rattan/layers.py:406-445 | no step of another session or of a collection moves a session's view |
| JobIsolation.LaunchView | src/rattan/bgdriver.py:73-87 | at launch a job sees what the session sees, if and only if the workspace is a directory with its seed permissions; a link in its place, which provisioning accepts, is hidden from the job |
| JobIsolation.LaunchLeavesUpper | src/rattan/overlay.py:8-14 | a launch leaves the session's upper as it was, but for a missing workspace, which it makes |
| JobIsolation.MakeKeepsSound | src/rattan/bgdriver.py:43-52 | with uppers read from the session's directory on disk: steps of the store, launches and job writes keep the store's invariant on what is read, and every directory well formed |
| JobHistories.AllHistoriesAreSound | src/rattan/bgdriver.py:43-87 | and so does every history of them from an empty store on |
| OverlayWrites.WriteSeen | src/rattan/overlay.py:36-48 | a write through the mount changes the upper alone, copying parents up and leaving whiteouts, and the view then differs by exactly that write |
| SessionDisk.PutJobUpper | src/rattan/bgdriver.py:43-52 | writing a job's upper on the session's disk leaves the session's upper, every snapshot and every other job's upper |
| JobIsolation.JobWriteIsPrivate | src/rattan/bgdriver.py:43-52 | a job's write shows in its own view exactly as asked; what the store reads and every other job's view stay |
| JobIsolation.SeenIsEnough | src/rattan/layers.py:247-250 | and with it every session's next commit id and view |
| JobHistories.WritesStayPrivate | src/rattan/bgdriver.py:43-52 | deleting all job writes from any history leaves what the store reads, and every snapshot, as they were |
| JobMounts.HoldsIff | src/rattan/layers.py:535-620 | what a job stands on is there after a step if and only if the step is no collection that removes one of its layers and not the end of its owner's destruction |
| JobMounts.PeelTakesIff | src/rattan/layers.py:595-620 | a collection removes one of them if and only if one is neither in use, nor on a parent cycle, nor an ancestor of such a layer |
| JobMounts.MountedIff | src/rattan/bgdriver.py:82-87 | over whole histories: the mount is whole at every point if and only if no step takes anything of it |
| JobMounts.UntakenLowersStay | src/rattan/bgdriver.py:82-87 | and then, rollbacks of the owner included, the job's lowers, layers and snapshot, are the same trees throughout |
| JobMounts.LowersStayFixed | src/rattan/bgdriver.py:82-87 | in particular in every history in which the owner keeps the stack the job was launched on |
| JobMounts.JobSeesOwnWrites | src/rattan/bgdriver.py:82-87 | and the job sees what it saw at the start, changed by its own writes in their order and by nothing else |
| TakenLayers.RollbackTakesLayer | src/rattan/layers.py:595-620 | a run that takes one: two commits, a launch, a rollback to the first and a collection |
| JobHistories.DestroyStripsJobs | src/rattan/layers.py:543-547 | destroying a session takes the snapshots and uppers of its jobs: one that still runs is left with the committed layers alone |
| Lexer.NeverUnexpected | src/rattan/parser.py:196-200 | every lexer step makes progress: the branch for an unexpected character is never reached |
| Lexer.WordsNonEmpty | src/rattan/parser.py:196-198 | word tokens are never empty |
| Tokenizer.MatchOperator | src/rattan/parser.py:186-191 | the loop over the operator list finds the first entry that matches here |
| Tokenizer.LexWordText | src/rattan/parser.py:205-284 | the index-based word loop computes the specified raw text and position, or error |
| Tokenizer.TokenizeCommand | src/rattan/parser.py:135-202 | the index-based tokenizer computes the specified tokens or error for every command |
| WordReader.ExpandWord | src/rattan/parser.py:45-54 | the loop over a word's parts gives their concatenated values |
| WordReader.ReadInside | src/rattan/parser.py:319-348 | the loop over a double-quoted span finds its end and its parts |
| WordReader.ParseWordParts | src/rattan/parser.py:291-366 | the decomposition loop with its pending buffer gives the specified parts |
| WordParts.PartsMean | src/rattan/parser.py:291-366 | cutting raw text into parts and expanding them is reading it in one pass, in every environment |
| WordParts.StripName | src/rattan/parser.py:51-53 | stripping braces off a match leaves exactly the variable's name |
| VariableNames.VariableReads | src/rattan/parser.py:128-129 | for every POSIX name n: `$n`, where the name does not go on, and `${n}` are the variable's value, bare and in double quotes |
| VariableNames.VariableIsName | src/rattan/parser.py:128-129 | and nothing else is read as a variable |
| VariableNames.VariableWord | src/rattan/parser.py:128-202 | as a word of a command `$n` and `${n}` are one token that expands to the value |
| VariableNames.ExpansionRefused | src/rattan/parser.py:176-184 | a word that starts with `${` is refused where no name and closing brace follow |
| WordFusion.Fusion | src/rattan/parser.py:205-366 | lexing, cutting and expanding equal a one-pass reader of the original text, errors included, when no unquoted backslash escapes a quote, `$`, brace or name character |
| CommandFusion.CommandFuses | src/rattan/parser.py:135-366 | the same for a whole command: tokens, and words as their values, errors included |
| WordEscapes.EscapeAgreesIff | src/rattan/parser.py:274-278 | an escape in front of such a rest, where no variable holds a quote: the two passes agree if and only if it escapes no quote, and no variable unless its value is its own text |
| WordEscapes.EscapeAlwaysAgreesIff | src/rattan/parser.py:274-278 | in every environment alike if and only if it escapes neither a quote nor a variable |
| WordPrefixes.BehindIff | src/rattan/parser.py:205-366 | behind a tame prefix that does not end inside a variable, an escape is read as it stands if and only if it is at the front of a word |
| WordPrefixes.LaterEscapeAgreesIff | src/rattan/parser.py:205-366 | so the exact condition is the same there |
| WordEscapes.QuoteIsLost | src/rattan/parser.py:304-366 | a quote that the first pass lets through bare is never read as itself, whatever follows it |
| WordEscapes.QuoteAlone | src/rattan/parser.py:274-278 | the smallest such word: an escaped single quote means nothing at all |
| WordEscapes.EscapedNameIsRead | src/rattan/parser.py:274-278 | behind a dollar sign an escaped name character is read as the name of a variable |
| WordEscapes.EscapeIsForgotten | src/rattan/parser.py:274-278 | why that condition is there: an escape of a character the lexer takes anyway is lost, and an escaped variable is expanded |
| CommandParser.Parser.ParseRedirect | src/rattan/parser.py:428-452 | one redirect, with the position after it |
| CommandParser.Parser.ParseCommand | src/rattan/parser.py:455-490 | one command, as the grammar reads the tokens that are left |
| CommandParser.Parser.ParsePipeline | src/rattan/parser.py:493-507 | one or two commands, or the error for a third |
| CommandParser.Parser.ParseAndOr | src/rattan/parser.py:510-522 | pipelines and their links |
| CommandParser.Parser.ParseProgram | src/rattan/parser.py:525-543 | lists up to the end, a trailing semicolon allowed |
| CommandParser.ParseCommandText | src/rattan/parser.py:394-543 | the class-based parser computes the specified tree or error for every text |
| Syntax.NeverExpectsSemi | src/rattan/parser.py:531-541 | the checks for a missing `;` and for trailing tokens can never fail |
| ParsedNodes.ParseParsed | src/rattan/parser.py:428-543 | whatever the text, accepted programs have one or two commands a pipeline, links one fewer than pipelines, redirects whose operator fixes the descriptor, and proper names |
| CommandPrinter.OpAlone | src/rattan/parser.py:113-126 | each of the eleven operators followed by a blank is read as itself: the longest-match order is right |
| CommandPrinter.LexRendered | src/rattan/parser.py:135-202 | the tokenizer reads any rendered token list back |
| GluedTokens.LexGlued | src/rattan/parser.py:186-236 | and so wherever blanks are left out between a word and an operator |
| GluedTokens.WordGlued | src/rattan/parser.py:222-236 | a plain or quoted word directly in front of any operator ends there, but for a `2` in front of `>` |
| GluedTokens.TwoJoins | src/rattan/parser.py:113-126 | a `2` at the end of a word joins a `>` that follows it directly |
| GluedTokens.RefusedAnywhere | src/rattan/parser.py:155-184 | outside quotes a lone `&`, a backtick, a glob character and `$(` are errors of their kind, at the start of a command and behind any word's text |
| GluedTokens.BlankEnds | src/rattan/parser.py:147-149 | a blank, a tab and a line break each end a word and are skipped |
| GluedTokens.HashEnds | src/rattan/parser.py:222-236 | `#` directly behind a word ends the word and the command |
| GluedTokens.OpenQuoteRefused | src/rattan/parser.py:246-272 | a quote that is not closed is an error, wherever in a word it opens |
| CommandPrinter.CommentEndsCommand | src/rattan/parser.py:151-153 | a comment after any rendered token list ends the whole command: later lines are not read |
| PrintedWords.QuoteLexes | src/rattan/parser.py:205-284 | a quoted argument is lexed as one word up to its end, whatever it contains |
| VariableNames.SafeSpelled | src/rattan/executor.py:256 | the characters quoting leaves alone are ASCII letters, digits and ten others, by code |
| PrintedWords.QuoteMeans | src/rattan/parser.py:45-54 | a quoted argument expands to the original string in every environment |
| DoubleQuotes.EscapedReads | src/rattan/parser.py:255-272 | any text in double quotes with a backslash before each character is one stretch of a word and expands to itself |
| DoubleQuotes.InactiveReads | src/rattan/parser.py:319-348 | so is text without double quotes, backslashes and dollar signs as it stands |
| ParserRoundTrip.ParserUndoesPrinter | src/rattan/parser.py:394-543 | parsing a printed program gives its pipelines, links, lists, redirects and assignments back |
| ParserRoundTrip.ArgumentsExpand | src/rattan/parser.py:480 | and every argument expands to the string it was printed from |
| ParserRoundTrip.EmptyLastList | src/rattan/parser.py:401-403 | a last list that prints nothing is dropped, or the command rejected as empty: the exact complement of the round trip's condition |
| ParserRoundTrip.FirstWordKeptIff | src/rattan/parser.py:475-480 | a first word survives if and only if it is not both unquoted and shaped like an assignment |
| VariableNames.AssignmentReads | src/rattan/parser.py:475-479 | `n=v` before the first argument and the first redirect assigns v to n, for every POSIX name; from a line break on the word is dropped |
| VariableNames.AssignmentIsName | src/rattan/parser.py:475-479 | and only words that begin with such a name and an equals sign are assignments |
| VariableNames.LaterIsArgument | src/rattan/parser.py:475-480 | behind an argument or a redirect such a word is an argument |
| ParserRoundTrip.AssignedValueKeptIff | src/rattan/parser.py:476-479 | a quoted assignment value survives if and only if it is non-empty and needs no quoting |
| ParserRoundTrip.TargetKeptIff | src/rattan/parser.py:440-450 | the parser stores a quoted redirect target quotes and all, so as meant if and only if it is non-empty and needs no quoting |
| Payload.ResolveArgv | src/rattan/executor.py:75-85 | the loop keeps the non-empty expansions in order |
| Payload.RenderNode | src/rattan/executor.py:240-264 | the loops over assignments, words and redirects build the specified command text |
| Payload.BuildPayload | src/rattan/executor.py:290-300 | the loop over the stages builds the payload, or stops at one without executable words |
| Payload.PayloadReads | src/rattan/executor.py:240-300 | section 2.2 and 2.3 of POSIX.1-2017 XCU read from any parsed pipeline's payload its assignments, its non-empty words, its bars and its redirects |
| Payload.CommandTokensAre | src/rattan/executor.py:240-264 | and these are, place by place, `name=value` for each assignment, each word that expands to something, and descriptor, operator and target of each redirect |
| Payload.PipelineTokensAre | src/rattan/executor.py:290-300 | with one bar between the commands of a pipeline |
| Payload.DescriptorKeptIff | src/rattan/executor.py:258-262 | the shell reads a rendered redirect with the descriptor asked for if and only if its operator is not `2>` or `2>>`, for which it reads 22 |
| ShellReader.QuoteReads | src/rattan/executor.py:256 | the shell reads a quoted word back as it was, whatever it contains |
| FileTools.WriteRoundTrip | src/rattan/filetools.py:198-203 | for every directory, path and content: `mkdir`, `-p` and the directory first, and the shell is left to run `printf`, `%s`, the content, into `tee` and the path |
| FileTools.EditRoundTrip | src/rattan/filetools.py:264-272 | the same into the temporary file, and the rename keeps both names |
| FileTools.WholeCopy | src/rattan/executor.py:80-85 | non-empty content is a word of its own; empty content is dropped |
| AndOr.Executor.ExecuteAndOr | src/rattan/executor.py:704-757 | the flat loop computes what the left-associated tree of section 2.9.3 of POSIX.1-2017 XCU means: world, stages, status, directories, exceptions |
| AndOr.ExecuteProgram | src/rattan/executor.py:760-786 | lists one after the other, each from the given directory, statuses and stages combined |
| AndOr.ListAccounts | src/rattan/executor.py:719-757 | stages and skipped pipelines are all pipelines, `skipped` is exact, and the status is that of the last stage |
| AndOr.EvalAccounts | src/rattan/executor.py:719-742 | the same for every tree and from every intermediate state |
| AndOr.NextRunsIff | src/rattan/executor.py:719-728 | after `&&` the next pipeline runs exactly where the status so far is 0, after `||` exactly where it is not, and after an exception never |
| AndOr.CdGuards | src/rattan/executor.py:644-701 | `cd t && q` runs q, in the new directory, exactly where the walk to t ends under a root; `cd t || q` exactly where it does not, in the old one |
| AndOr.TwoLists | src/rattan/executor.py:760-786 | the second of two lists starts in the given directory and the world the first left, gives the status, and does not run after an exception |
| AndOr.StartsInCwd | src/rattan/executor.py:771-773 | each list starts in the directory it was given |
| AndOr.ProgramCwdsGood | src/rattan/executor.py:685-701 | every pipeline of a program runs in an absolute, normalised directory under a root |
| AndOr.DefaultCwdsGood | src/rattan/executor.py:685-701 | started in either root, no pipeline ever runs outside `/workspace` and `/tmp` |
| PathWalk.UnderIff | src/rattan/redirects.py:77-84 | the prefix test on normalised text holds if and only if the component walk lands on or below the root and the path does not start with exactly two slashes |
| PathWalk.NormAbs | src/rattan/redirects.py:80-81 | normalising an absolute path is walking its components |
| PathWalk.RedirectTargetIff | src/rattan/redirects.py:141-147 | a target is accepted if and only if walking it from the working directory lands under a root, and it is not absolute with exactly two slashes |
| PathWalk.PathOfInjective | src/rattan/redirects.py:77-84 | normalised text determines the components |
| ChangeDir.ContainedInAnyIff | src/rattan/contain.py:31-53 | the loop over roots accepts exactly the paths whose walk lands under one of them |
| ChangeDir.CdIsWalk | src/rattan/executor.py:685-701 | `cd` succeeds if and only if the walk lands under a root, and leads where the walk leads |
| ChangeDir.CdStatus | src/rattan/executor.py:665-701 | a `cd` has status 0 and moves if and only if it has one non-empty target whose walk ends under a root; any other has status 1 and stays |
| ChangeDir.CdChain | src/rattan/executor.py:644-701 | after any chain of pipelines the directory is absolute, normalised and under a root |
| HostPaths.FindBind | src/rattan/executor.py:352-360 | the first covering bind in list order is found |
| HostPaths.FirstBindIff | src/rattan/executor.py:352-360 | it is the first whose mount point's components the path's components begin with |
| HostPaths.CheckedHasHost | src/rattan/executor.py:362-387 | the branch for a path under no root is not reached by a checked target |
| HostPaths.BindMap | src/rattan/executor.py:352-373 | a path that a bind covers keeps everything below the mount point of the first one, lands on or below its host directory, and is refused exactly for a write to a read-only bind |
| HostPaths.WorkspaceMap | src/rattan/executor.py:374-377 | an uncovered workspace path keeps everything below the root and lands on or below the session's workspace |
| HostPaths.WorkspaceMapInjective | src/rattan/executor.py:374-377 | uncovered workspace paths have one host path if and only if they walk to one place |
| HostPaths.TmpMap | src/rattan/executor.py:378-387 | an uncovered path under `/tmp` is the fresh temporary file, bound into the container where the redirect's own path leads |
| Redirects.PlanRedirects | src/rattan/redirects.py:112-173 | the loop with its set of used descriptors gives the specified plan or error |
| Redirects.ApplyIff | src/rattan/redirects.py:128-173 | planning succeeds if and only if descriptors are distinct and targets allowed, and then depends only on each descriptor's redirect |
| Redirects.OrderIsIrrelevant | src/rattan/redirects.py:128-173 | every permutation of a command's redirects gives the same plan, or is refused |
| Redirects.NeverUnsupported | src/rattan/redirects.py:157-171 | the unsupported-operator and fd-to-file errors are unreachable for parsed redirects |
| Redirects.PathsAreNotMarkers | src/rattan/redirects.py:143-145 | a planned path is never mistaken for a merge marker |
| SpawnFds.SpawnKwargs | src/rattan/executor.py:397-454 | stdout and stderr end where the merge graph leads, and each file redirect is opened once and recorded once |
| SpawnFds.ResolveHosts | src/rattan/executor.py:388-395 | the descriptors are mapped one after the other, and the first that may not be written raises |
| SpawnFds.RedirectOpens | src/rattan/executor.py:388-454 | from the redirects on: `<` makes stdin read its file, `>` and `2>` make their descriptor write it from the start, `>>` and `2>>` append to it, each at its target's place on the host |
| SpawnFds.OpenedIsRedirected | src/rattan/executor.py:407-454 | and no other file is opened |
| SpawnFds.RefusedIff | src/rattan/executor.py:362-373 | a command is refused for the places of its redirects exactly when one writes below a read-only mount that is the first to cover it |
| SpawnFds.MergeTakesTheFile | src/rattan/redirects.py:163-169 | `> file` and `2>&1` in either order send both streams to the file |
| MountLock.StepKeepsInv | src/rattan/executor.py:473-480 | every step of every thread keeps registry, holders and attempts consistent |
| MountLock.LocksAreStable | src/rattan/executor.py:473-480 | the registry keeps an upper's lock for good |
| MountLock.OneMountPerUpper | src/rattan/executor.py:595-598 | at most one process per upper is between spawn and reap |
| MountLock.BlockedOnlyBySameUpper | src/rattan/executor.py:595-598 | a thread waits exactly while another one holds the lock of the same upper |
| MountLock.CallResult | src/rattan/executor.py:585-593 | a call makes one to five attempts, all but the last were busy, and only the fifth may be busy last |
| MountLock.RunWithRetry | src/rattan/executor.py:585-593 | the retry loop itself returns its last attempt and stops at the first that is not busy |
| JobRegistry.StepKeepsInv | src/rattan/jobs.py:87-105 | every single field write of poll, kill, start and prune keeps the registry's invariant |
| JobRegistry.IdsAreFresh | src/rattan/jobs.py:155-171 | a new id is above every id given before, registered or not |
| JobRegistry.NeverRunningAgain | src/rattan/jobs.py:87-105 | no record returns to RUNNING |
| JobRegistry.OnlyFinishedArePruned | src/rattan/jobs.py:268-276 | only finished jobs leave the registry |
| JobRegistry.PruneLeavesRunning | src/rattan/jobs.py:268-276 | a prune leaves exactly the running jobs registered |
| JobRegistry.FinishedIsComplete | src/rattan/jobs.py:101-104 | DONE or FAILED is visible only with exit code and finish time, and tells how the process ended |
| JobRegistry.LatePollOverwritesCancel | src/rattan/jobs.py:229-253 | a run in which a poll that is past its check overwrites CANCELED |
| JobRegistry.FinalIff | src/rattan/jobs.py:87-105 | in every reachable state and under every interleaving: a terminal status never changes again if and only if no poll is past its check of a canceled job and no kill past its check of an ended one |
| JobRegistry.JobRecord.PollNow | src/rattan/jobs.py:87-105 | a poll that nothing interleaves with, in place |
| JobRegistry.JobRecord.Kill | src/rattan/jobs.py:229-253 | a kill that nothing interleaves with, in place |
| JobRegistry.WholeIsItsSteps | src/rattan/jobs.py:87-276 | each whole operation is its field-by-field steps in a row |
| JobRegistry.WholeRunsSettle | src/rattan/jobs.py:87-253 | without interleaving every terminal status agrees with the exit code |
| JobRegistry.TerminalIsAbsorbing | src/rattan/jobs.py:87-253 | and terminal records are never written again |
| PackageCache.ListCache.List | src/rattan/server.py:137-159 | one listing: a fresh entry or the query, with the entry stored or expired |
| PackageCache.ListCache.Cached | src/rattan/server.py:113-122 | an entry is returned while fresh and dropped when expired |
| PackageCache.RunKeepsCoherent | src/rattan/server.py:129-134 | over the shared store: tools, commands, time, and any steps of collections and other sessions keep every entry equal to a fresh query of the session's mount, unless a tool is still at work there |
| PackageCache.ListingsAreCurrent | src/rattan/server.py:137-159 | after any run a listing between tools is what a query of the session's mounted view returns now |
| PackageCache.CachedIsRecent | src/rattan/server.py:113-134 | whatever commands ran in between, a list from the cache was queried less than thirty seconds ago, and no tool that changes the session has returned since |
| PackageCache.StaysCached | src/rattan/server.py:113-126 | for thirty seconds after a query, and no longer, listings get its answer without another one |

## Left out

- Hashing: SHA-256 is an injective function; the content digest is a hex dump and the commit id a wrapper around the manifest text.
- Copying, deleting and file system errors: copies are exact, removals complete, and nothing fails half-way.
- Crashes in the middle of an operation, torn metadata files, and two processes sweeping one dead session: the counts are not exact there. A session's own operations are sequential and it is destroyed once.
- The order in which a collection's passes list candidates: each pass is the set of its candidates, since the order is shown not to matter.
- Message, size and time stamps of layers, which nothing branches on.
- ManifestCanonical: requires link targets without newlines, because it is false otherwise (`NewlineTargetsCollide`); a run's uppers are held to the same condition.
- Whiteouts, opaque marks, hard links and ownership in commits: the manifest does not see them, so refinement is about what it does see. Views treat whiteouts and opaque marks as overlayfs does.
- SharedViewIsPrivateView: requires that the manifest covers every tree a command leaves behind, because views of the others differ: `CoveredIff` shows that these are exactly the trees for which they do not.
- LowersStayFixed: requires that the job's owner does not roll back below the stack it was launched on or go away; `UntakenLowersStay` and `MountedIff` are exact, and `RollbackTakesLayer` is a run in which a collection removes a layer.
- Which command a background job runs: only the first one of its program; the model takes it as any sequence of writes through its mount. Hard links and renames are not among them.
- Fusion: requires that no unquoted backslash escapes a quote, `$`, a brace or a name character; `EscapeAgreesIff` and `LaterEscapeAgreesIff` are the exact condition for one such escape with a tame rest behind it, at the front or behind a tame prefix; there is none behind a prefix that ends inside a variable, or for several such escapes in a word.
- ParserUndoesPrinter: prints assignments before arguments before redirects, with redirect targets and assignment values that need no quoting, because both are taken raw.
- The texts of parse errors and positions in them.
- Environment scrubbing and per-command assignment of variables.
- Reserved words, expansions, comments and tildes on the shell side: the reader gives up at an expansion, and classifies no word as reserved or as an assignment.
- Size limits, NUL checks, existence checks and encoding in the file tools.
- What a sandboxed command does: an arbitrary change of the world with an arbitrary status, or an exception.
- The combined output text of and-or lists, which joins the outputs of stages.
- Symbolic links in container paths: real paths are walks over components.
- Nested bind mounts: the first bind that covers a path is taken, not the innermost one.
- CheckedHasHost: speaks of the two roots by name as parameters; that they are `/workspace` and `/tmp` is a constant.
- Creating temporary files and directories for redirects, and releasing them.
- Calls without an overlay upper, which take no lock, and sleeping between attempts.
- TerminalIsAbsorbing: covers operations that nothing interleaves with, because it is false otherwise (`LatePollOverwritesCancel`); `FinalIff` is the exact condition under interleaving.
- Log tails, job directories' cleanup and process groups.
- ListingsAreCurrent: assumes that agent commands and the query itself leave the package database alone, and that installs return normally; the query may change the upper otherwise, as its provisioning does.
- The listing of the sessions directory by a collection: it is one with taking the lock, since sessions made in between have empty persisted stacks.
- Capability probes, policy tables, argument assembly for bwrap, the seccomp and Landlock stages, pacman, tool registration and shell scripts: foreign code, constants and finite case checks.
