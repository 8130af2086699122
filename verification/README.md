# Verified models of MOS and its Kconfig engine

This project models the parts of the MOS repository that hold the most state and
proves what they promise: the Kconfig value engine that configures the kernel, and
in the kernel itself virtual memory, the dentry tree, the slab allocator, the page
cache, I/O objects, pipes and IPC, the scheduler, signals and the start-up stack of
programs. `dafny verify dfyconfig.toml` checks everything.

Code that updates objects in place is modelled by classes and methods with loops;
each method is proved against functions and predicates on values, and the laws are
lemmas about those. Protocols are step systems in which one locked region is one step;
in `ipc_server` a thread that goes to sleep blocks in the same step, in `ipc_blocking`
and `scheduler` in one of its own. Kernel assertions are proved to hold where the model
reaches them, or appear as a `Panic` outcome where they can fail.

What the functions and predicates on values mean is stated a second time, without them:
the files named `_laws`, and lemmas named so elsewhere, say on slots, bytes, threads,
paths and values what each operation does.

| files | subject |
|---|---|
| `kconfig_values`, `kconfig_congruence`, `kconfig_scratch`, `kconfig_coherence`, `kconfig_engine` | symbol and choice values, the cache of them, and early-stopping invalidation |
| `kconfig_laws` | what select, imply, defaults, ranges, choices and visibility promise |
| `kconfig_file`, `kconfig_reload` | writing and loading `.config` |
| `kconfig_loops` | the search for dependency loops |
| `kconfig_syntax` | printing and parsing expressions |
| `vmap_list`, `copy_on_write` | mappings of an address space; fork, faults and page tables |
| `dentry_tree`, `dentry_resolve`, `dentry_balance`, `dentry_cache`, `dentry_paths`, `dentry_mount`, `dentry_laws` | directory entries, path resolution, what reference counts add up to, paths, mounts, what paths mean |
| `rounding`, `slab` | alignment macros and the slab allocator |
| `page_cache` | cached file pages as one flat file |
| `io_lifetime`, `io_laws` | references to I/O objects from descriptors and mappings |
| `ring_buffer`, `ipc_channel`, `rpc_args` | ring buffers, pipes, framed messages, RPC arguments |
| `ipc_server`, `ipc_blocking`, `ipc_laws` | named servers, their queues and waitlists |
| `scheduler`, `scheduler_laws`, `signals`, `elf_stack` | threads and CPUs, signal delivery, the start-up stack |
| `basics` | what several models share |

## Main results

- Caching is invisible. Whatever is set, unset and read, the Kconfig engine answers
  as one that recomputes everything (`KconfigEngine.Kconfig.Run`). The invariant is
  about dynamic look-ups: evaluation short-circuits, so a cached value only promises
  that what it looked at is cached. The answers obey the laws of the language: a selected
  symbol is at least what selects it, a choice has one y, numbers stay in their range
  (`KconfigEngine.RunLaw`, `KconfigLaws.PlainLaw`, `KconfigLaws.SelectionLaw`).
- Writing a configuration and loading it gives the same values
  (`KconfigReload.SaveAndLoad`), and printing and parsing an expression keeps its value
  (`KconfigSyntax.PrintParses`). The loop search is exact on choice-free graphs and
  its finishing order justifies recursive evaluation (`KconfigLoops.LoopSearch.CheckAll`).
- Copy-on-write refines a memory in which fork copies every page, with every operation
  of a run answered by its own event, up to a panic (`CopyOnWrite.Machine.Run`). A load
  returns what was last stored, or the byte of the mapped file, or zero
  (`CopyOnWrite.ReplayByte`, `CopyOnWrite.MappedFileShows`).
- Path lookups mean what the mounted file systems hold and move reference counts
  exactly (`DentryCache.Dcache.Get`). Every count covers what the kernel's own check
  demands, through lookups, mounts and unmounts, so that check never panics but in one
  of the cases below (`DentryBalance.MovedBalanced`, `DentryMount.Mount`,
  `DentryMount.Unmount`). The path of a visible entry leads back to it
  (`DentryPaths.PathLeadsBack`), and a name followed by `..` leads nowhere else
  (`DentryLaws.DownAndUp`).
- Slab blocks never overlap, free lists stay intact inside the memory they manage and
  reallocation keeps contents (`Slab.LiveBlocksApart`, `Slab.Allocator.Realloc`).
- Messages over pipes arrive in order under every interleaving, and do arrive when both
  threads take turns (`IpcMessages.Channel.Run`, `IpcMessages.Channel.Deliver`).
- Over every signal-free run, IPC queues are counted, bounded and first-come-first-served
  and no wake-up is lost, with any number of acceptors and a close at any moment
  (`IpcServers.RunKeeps`). That holds with appending to a waitlist and blocking as two
  steps, up to the panic that a wake-up in between causes
  (`IpcBlocking.HistoryKeeps`, `IpcBlocking.NoWakeUpIsLost`). A client ends connected iff it
  was accepted (`IpcLaws.WokenClientLaw`).
- Over every run, the count of an I/O object is its references and a surplus that the
  history determines, and it is closed exactly when both are gone
  (`IoLifetime.ClosedExactlyWhen`, `IoLifetime.IoTable.Run`). No reference is lost in a run
  in which nobody else holds the lock of an address space at the wrong moment
  (`IoLifetime.OwnLocksAreRight`).
- No joiner is forgotten, whenever it blocks (`Scheduler.NoJoinerForgotten`), and signal
  handlers return to where they were delivered (`Signals.Thread.RunHandler`).

## Where the code does not meet the obvious property

Each of these is modelled as the code is, with the exact condition proved.

- `munmap` of a proper prefix of a mapping removes the other part
  (`VmapList.MunmapExactness`, `VmapList.MunmapPrefixExample`). A `munmap` of a whole
  mapping releases the lock of the mapping it has just freed (`VmapList.AddressSpace.Munmap`).
- A `mmap_file` that is refused, or whose hook fails, destroys the mapping without the lock
  it needs: the kernel panics iff nobody else holds that lock
  (`IoLifetime.PanicsExactlyWhen`, `CopyOnWrite.Machine.MapFile`).
- A `mmap_anonymous` that finds no room follows a null pointer
  (`CopyOnWrite.Machine.MapAnonymous`).
- Slab pages are carved into overlapping slots unless the size is a multiple of eight,
  below eight, or a single slot fits (`Slab.CarvesCleanlyWhen`).
- The allocator does not notice that no page is left: the address of no frame is not null,
  and a wild address is written through and handed out (`Slab.Allocator.Alloc`,
  `Slab.Allocator.Realloc`).
- A read that starts beyond the end of a file is not cut to nothing: the subtraction
  wraps around (`PageCache.ReadSizeIsCut`).
- A page that cannot be filled: a read notices only an error pointer and a write only a
  null pointer; with the other one, memory is read or written through the bad pointer
  (`PageCache.Cache.Read`, `PageCache.Cache.Write`).
- `EEXIST` gives back the chain of the directory twice. The kernel panics iff the directory
  is referenced only through what lies below it; if it is held directly, that reference
  is lost; if it is not referenced, nothing happens (`DentryCache.Dcache.Get`,
  `DentryCache.CreatingWhatIsOpen`).
- Looking up a name that does not exist panics iff somebody holds the entry of that name, as
  the creation of a file does for a while (`DentryCache.Dcache.Get`,
  `DentryCache.CreatingBlocks`).
- A symbolic link is followed at the end of a path and right before its last name, and
  nowhere else (`DentryLaws.IntoLinkedDirectory`, `DentryLaws.LinkOnTheWay`).
- `vfs_mount` keeps the mountpoint referenced iff the file system gives no root, and the
  test for an existing mount only ever finds the root of the tree: mounting twice on a
  path trips an assertion instead (`DentryMount.Mount`).
- `vfs_unmount` keeps the references of its lookup iff the mount is in use
  (`DentryMount.Unmount`).
- An IPC server is used after it was freed iff it is closed while a thread is awake in
  accept on it or two threads are in it (`IpcServers.TouchedExactlyWhen`,
  `IpcServers.ClosedUnderAcceptor`).
- `io_dup` counts twice. An mmap hook that fails while somebody else holds the lock of the
  address space drops a reference it never took. Counts cover the references and no object
  is closed under one, iff such failures never outnumber dups and failed unmaps
  (`IoLifetime.RuleExactlyWhen`, `IoLifetime.FailedMmap`, `IoLifetime.DupNeverCloses`).
- A thread appends itself to a waitlist and blocks later. A wake-up in between panics, iff it
  reaches that thread; on a single CPU this does not happen (`Scheduler.PanicsExactlyWhen`,
  `Scheduler.OneCpuNeverPanics`, `Scheduler.JoinedTooSoon`, `IpcBlocking.PanicsExactlyWhen`,
  `IpcBlocking.ConnectedTooSoon`).
- A fatal signal to the main thread of init panics, and a forked process has no main thread,
  so that a fatal signal ends the thread only (`Signals.Thread.Deliver`,
  `Signals.Thread.Fork`).
- A process that exits destroys its dead threads at once. That is safe iff no CPU is on
  the thread any more and nobody sleeps until it ends (`Scheduler.ReapExactlyWhen`,
  `Scheduler.ReapedWhileHeld`).
- RPC argument sizes survive iff they fit 32 bits (`RpcArgs.SizeSurvives`).
- A number in a `.config` file is read back as written iff it does not end in white space,
  and the round trip keeps all values iff that holds for every visible number
  (`KconfigFile.NumberReadsBack`, `KconfigFile.RoundTripExact`,
  `KconfigFile.TrailingBlankIsLost`).
- A printed expression that mentions a choice does not parse (`KconfigSyntax.PrintParses`).

## Model

| member | source | states |
|---|---|---|
| `KconfigEngine.Kconfig.Run` | scripts/kconfig/kconfiglib.py:4266-4647 | over every sequence of assignments, retractions and reads of symbols and choices, the caching engine gives exactly the answers of an engine that recomputes everything from the user values each time, and its cache stays coherent |
| `KconfigEngine.Kconfig.Perform` | scripts/kconfig/kconfiglib.py:4551-4647 | one operation changes the user values as the plain engine would and returns what the plain engine returns |
| `KconfigEngine.Kconfig.TruthIsSolution` | scripts/kconfig/kconfiglib.py:4266-4517 | the values the engine answers from solve all equations, with n, m and y only, so they obey every law below |
| `KconfigEngine.RunLaw` | scripts/kconfig/kconfiglib.py:4266-4647 | in every run, each question is answered from values that obey all laws, for the user values of that moment |
| `KconfigEngine.SetLaw` | scripts/kconfig/kconfiglib.py:4551-4638 | a symbol takes what suits its type and nothing else, only its own value changes, and y for a member of a choice selects it there |
| `KconfigEngine.SetModeLaw` | scripts/kconfig/kconfiglib.py:5237-5276 | the same for the mode of a choice |
| `KconfigEngine.UnsetLaw` | scripts/kconfig/kconfiglib.py:4640-4647 | forgetting a value forgets that one only |
| `KconfigLaws.ScratchRange` | scripts/kconfig/kconfiglib.py:4266-4517 | all values are n, m or y, for all configurations |
| `KconfigLaws.SolvingIsSolution` | scripts/kconfig/kconfiglib.py:4266-4517 | whatever solves the equations has such values |
| `KconfigLaws.ExprLaws` | scripts/kconfig/kconfiglib.py:5982-6036 | AND is the lesser value, OR the greater one and NOT the complement, in spite of the short-circuits |
| `KconfigLaws.RelationLaws` | scripts/kconfig/kconfiglib.py:6003-6036 | a relation is y or n: the order of numbers if both sides are numbers and not both strings, else the order of the texts |
| `KconfigLaws.TextsCompare` | scripts/kconfig/kconfiglib.py:6356-6362 | text comparison is dictionary order |
| `KconfigLaws.VisibilityLaw` | scripts/kconfig/kconfiglib.py:6281-6309 | visible exactly if some prompt condition is not n and the choice does not close the symbol off; m visibility is for tristates with MODULES and no y prompt |
| `KconfigLaws.PlainLaw` | scripts/kconfig/kconfiglib.py:4440-4489 | the value of a plain symbol is the strongest of what pulls it up: select, the user up to the visibility, and without the user imply and the default in force; m becomes y where m is not possible or y implies it |
| `KconfigLaws.SelectAndImply` | scripts/kconfig/kconfiglib.py:4462-4482 | a symbol is at least its reverse dependency, whatever else is set; and at least what implies it where the user is silent and its dependencies are met |
| `KconfigLaws.UserAndNothing` | scripts/kconfig/kconfiglib.py:4440-4489 | unselected, a symbol has the lesser of user value and visibility, or y where m is promoted; with no user value, default or imply it is n |
| `KconfigLaws.WhatIsM` | scripts/kconfig/kconfiglib.py:4421-4489 | only tristates with MODULES are ever m; constants have the value of their name; other types are n |
| `KconfigLaws.MemberLaw` | scripts/kconfig/kconfiglib.py:4490-4498 | a member of a choice is y exactly if it is selected and y-visible, m exactly if m-visible and wanted by the user |
| `KconfigLaws.OneIsY` | scripts/kconfig/kconfiglib.py:4490-4498 | no two members of a choice are y |
| `KconfigLaws.ModeLaw` | scripts/kconfig/kconfiglib.py:5183-5200 | when a choice is n, m and y |
| `KconfigLaws.SelectionLaw` | scripts/kconfig/kconfiglib.py:5417-5446 | something is selected exactly in y mode with a visible member, and it is a visible member |
| `KconfigLaws.SelectionOrder` | scripts/kconfig/kconfiglib.py:5417-5446 | the symbol of the user first, then the first default that offers one, then the first visible member |
| `KconfigLaws.TextLaw` | scripts/kconfig/kconfiglib.py:4280-4418 | tristates read n, m or y; a string is that of the user while visible, else that of the default in force |
| `KconfigLaws.NumberLaw` | scripts/kconfig/kconfiglib.py:4311-4395 | the number of the user holds while it is visible and inside the range in force, else the default does if that is inside |
| `KconfigLaws.ClampLaw` | scripts/kconfig/kconfiglib.py:4361-4395 | a default outside the range becomes the bound it violates |
| `KconfigLaws.NumbersAreClamped` | scripts/kconfig/kconfiglib.py:4311-4395 | a number is always inside the range in force, if that is not empty and numbers read back as written |
| `KconfigEngine.Kconfig.constructor` | scripts/kconfig/kconfiglib.py:3535-3543 | a new configuration has no user values and a coherent (empty) cache |
| `KconfigEngine.Kconfig.SetValue` | scripts/kconfig/kconfiglib.py:4551-4638 | accepted iff the value suits the type or was set already; the user values change to the new assignment or not at all; the cache is coherent for them |
| `KconfigEngine.Kconfig.UnsetValue` | scripts/kconfig/kconfiglib.py:4640-4647 | exactly the user value of the symbol goes, and the cache is coherent afterwards |
| `KconfigEngine.Kconfig.SetMode` | scripts/kconfig/kconfiglib.py:5237-5276 | the same for the mode of a choice |
| `KconfigEngine.Kconfig.UnsetMode` | scripts/kconfig/kconfiglib.py:5278-5285 | the mode and selection of the choice are forgotten, and the cache is coherent afterwards |
| `KconfigEngine.Kconfig.RecInvalidate` | scripts/kconfig/kconfiglib.py:4858-4887 | the early-stopping invalidation: whatever it drops it drops whole, every dependent of a dropped item is dropped or had no cached visibility; it ends although choices and their symbols depend on each other |
| `KconfigEngine.Kconfig.InvalidateIfHasPrompt` | scripts/kconfig/kconfiglib.py:4889-4909 | after the user value of one symbol changed, invalidating only symbols with a prompt makes the cache coherent again |
| `KconfigEngine.Kconfig.InvalidateOwnChoice` | scripts/kconfig/kconfiglib.py:4624-4638 | after y was given to a choice symbol, invalidating its choice alone makes the cache coherent again |
| `KconfigEngine.Kconfig.InvalidateChoice` | scripts/kconfig/kconfiglib.py:5448-5459 | after a choice changed, invalidating it makes the cache coherent again |
| `KconfigEngine.Kconfig.Visibility` | scripts/kconfig/kconfiglib.py:4510-4517 | returns the visibility a from-scratch evaluation gives, from the cache or not |
| `KconfigEngine.Kconfig.ComputeVisibility` | scripts/kconfig/kconfiglib.py:6281-6309 | the computed visibility is the formula of the from-scratch values, and everything it looked at is now cached |
| `KconfigEngine.Kconfig.ComputePrompts` | scripts/kconfig/kconfiglib.py:6287-6291 | the loop finds the largest prompt condition and everything it looked at is cached |
| `KconfigEngine.Kconfig.TypeOf` | scripts/kconfig/kconfiglib.py:4267-4277 | the effective type under the from-scratch mode and MODULES value |
| `KconfigEngine.Kconfig.Mode` | scripts/kconfig/kconfiglib.py:5183-5200 | the mode of a choice is the from-scratch one |
| `KconfigEngine.Kconfig.Tri` | scripts/kconfig/kconfiglib.py:4421-4431 | returns the from-scratch tristate value, from the cache or not |
| `KconfigEngine.Kconfig.ComputeTri` | scripts/kconfig/kconfiglib.py:4421-4498 | select, imply, default, user value and choice give the formula of the from-scratch values; everything looked at, the direct dependencies under a select included, is cached afterwards |
| `KconfigEngine.Kconfig.Text` | scripts/kconfig/kconfiglib.py:4280-4310 | returns the from-scratch string value |
| `KconfigEngine.Kconfig.ComputeText` | scripts/kconfig/kconfiglib.py:4280-4418 | user value, active range, clamping and defaults give the formula of the from-scratch values |
| `KconfigEngine.Kconfig.ComputeNumber` | scripts/kconfig/kconfiglib.py:4311-4395 | the user value inside the active range, else the clamped default, as the formula of the from-scratch values says |
| `KconfigEngine.Kconfig.Selection` | scripts/kconfig/kconfiglib.py:5229-5234 | returns the from-scratch selection of a choice |
| `KconfigEngine.Kconfig.ComputeSelection` | scripts/kconfig/kconfiglib.py:5417-5431 | the user selection if visible, else the defaults, else the first visible symbol |
| `KconfigEngine.Kconfig.SelectionFromDefaults` | scripts/kconfig/kconfiglib.py:5433-5446 | the default search equals the formula |
| `KconfigEngine.Kconfig.EvalExpr` | scripts/kconfig/kconfiglib.py:5982-6036 | short-circuit evaluation equals the value under the from-scratch values and caches exactly what it looked at |
| `KconfigCongruence.FormulaCongruent` | scripts/kconfig/kconfiglib.py:5982-6036 | what an evaluation looked at determines both its value and what it looked at, for every attribute |
| `KconfigScratch.ScratchSolves` | scripts/kconfig/kconfiglib.py:4280-4498 | recursion along an acyclic order solves all value equations at once |
| `KconfigScratch.ScratchIsUnique` | scripts/kconfig/kconfiglib.py:4280-4498 | any solution of the value equations is the from-scratch one |
| `KconfigScratch.ReadsArePossible` | scripts/kconfig/kconfiglib.py:4280-4498 | every dynamic look-up is among the statically possible ones |
| `KconfigScratch.ReadsAreDependencies` | scripts/kconfig/kconfiglib.py:3460-3543 | an evaluation only looks at itself, MODULES, constants and items that list it as a dependent |
| `KconfigScratch.ChoicesCanBeAcyclic` | scripts/kconfig/kconfiglib.py:3521-3533 | a choice and its symbols depend on each other, yet their attributes have an acyclic order: a tristate choice with a default is an example |
| `KconfigCoherence.StoreCoherent` | scripts/kconfig/kconfiglib.py:4421-4498 | storing a right value whose look-ups are cached keeps the cache coherent |
| `KconfigCoherence.VisibilityIsCached` | scripts/kconfig/kconfiglib.py:4867-4887 | an item with any cached attribute that looked at another item has a cached visibility: why stopping at items without one is sound |
| `KconfigCoherence.OnlyOwnUserCounts` | scripts/kconfig/kconfiglib.py:4889-4909 | user values of other items, and of symbols without a prompt, influence nothing |
| `KconfigCoherence.SurvivorUnchanged` | scripts/kconfig/kconfiglib.py:4858-4887 | an attribute in a closed surviving cache has the same from-scratch value and the same look-ups before and after the assignment |
| `KconfigCoherence.SurvivorsCoherent` | scripts/kconfig/kconfiglib.py:4858-4887 | a closed part of a coherent cache is coherent for the new user values |
| `KconfigCoherence.SurvivorsClosed` | scripts/kconfig/kconfiglib.py:4858-4887 | nothing that survives an invalidation looked at anything that was dropped |
| `KconfigCoherence.DropReachesReader` | scripts/kconfig/kconfiglib.py:4858-4887 | if what an attribute looked at is dropped, the attribute is dropped |
| `KconfigCoherence.ChoiceSymbolDropped` | scripts/kconfig/kconfiglib.py:5452-5459 | a choice symbol with a prompt is dropped along with its choice |
| `KconfigReload.SaveAndLoad` | scripts/kconfig/kconfiglib.py:1247-1366 | writing the configuration of one engine and loading the file into another leaves both with equal values of every attribute of every item |
| `KconfigFile.ConfigRoundTrip` | scripts/kconfig/kconfiglib.py:1586-1659 | the text written, cut into lines and loaded with replace over any earlier user values, evaluates to the same configuration, range clamping, select, imply and escaping included |
| `KconfigReload.CommentedRoundTrip` | scripts/kconfig/kconfiglib.py:1586-1659 | the same with any header, menu and comment lines around the assignments |
| `KconfigReload.OnlyAssigningLines` | scripts/kconfig/kconfiglib.py:1247-1366 | lines that assign nothing can be left out of a file |
| `KconfigFile.ReloadedSame` | scripts/kconfig/kconfiglib.py:4280-4498 | user values equal to the written values evaluate to the same configuration, by induction along the dependency order |
| `KconfigFile.LoadedIsReloaded` | scripts/kconfig/kconfiglib.py:1247-1366 | loading the written lines leaves exactly the written values of the assignable symbols and no other user value |
| `KconfigFile.LoadWritten` | scripts/kconfig/kconfiglib.py:1247-1366 | loading the written lines one by one reaches that state |
| `KconfigFile.LineEffect` | scripts/kconfig/kconfiglib.py:1269-1354 | what loading one written line does, for assignable and other symbols |
| `KconfigFile.LineReads` | scripts/kconfig/kconfiglib.py:4519-4542 | a written line is read as an assignment of the written value to its symbol |
| `KconfigFile.LiteralRoundTrip` | scripts/kconfig/kconfiglib.py:6170-6189 | quoting, escaping and reading back any string without a newline gives the string |
| `KconfigFile.EscapeSurvives` | scripts/kconfig/kconfiglib.py:6170-6189 | an escaped string ends at its closing quote only, and unescapes to the original |
| `KconfigFile.SetMatchOf` | scripts/kconfig/kconfiglib.py:1271-1275 | an assignment line splits into its name and value |
| `KconfigFile.UnsetMatchOf` | scripts/kconfig/kconfiglib.py:1324-1338 | a not-set line is recognised, and not taken for an assignment |
| `KconfigFile.LinesRoundTrip` | scripts/kconfig/kconfiglib.py:1586-1659 | text made of lines without line breaks is cut into the same lines |
| `KconfigFile.ScratchWritable` | scripts/kconfig/kconfiglib.py:4519-4542 | every value a clean configuration evaluates to can be written as one line |
| `KconfigFile.TrailingBlankIsLost` | scripts/kconfig/kconfiglib.py:1269-1275 | an example: the line of the int value "1 " is read back as "1" |
| `KconfigFile.NumberReadsBack` | scripts/kconfig/kconfiglib.py:1269-1275 | for every int or hex text without a line break, the written line is read back as that text iff it is empty or does not end in white space |
| `KconfigFile.RoundTripExact` | scripts/kconfig/kconfiglib.py:1586-1659 | the round trip keeps every value iff no visible and assignable number ends in white space |
| `KconfigFile.StrLosesBlank` | scripts/kconfig/kconfiglib.py:4280-4356 | a visible number that ends in white space has another text after reloading |
| `KconfigFile.LineForms` | scripts/kconfig/kconfiglib.py:4519-4542 | how each type of symbol is written, with quotes and backslashes escaped in strings |
| `KconfigFile.WrittenWhen` | scripts/kconfig/kconfiglib.py:4519-4542 | a symbol is written exactly if it is visible or something pulls it up, a text if it has a default; what is not written is n |
| `KconfigFile.WrittenInOrder` | scripts/kconfig/kconfiglib.py:1586-1659 | lines come in the order of the symbols |
| `KconfigFile.UnmentionedIsUnset` | scripts/kconfig/kconfiglib.py:1356-1366 | what the file does not mention is unset |
| `KconfigFile.LastLineDecides` | scripts/kconfig/kconfiglib.py:1269-1354 | the last line that assigns a suitable value to a symbol decides |
| `KconfigReload.ConfigString` | scripts/kconfig/kconfiglib.py:4519-4542 | the line of a symbol, or none, from cached values equals the one from-scratch values give |
| `KconfigReload.WritesBool` | scripts/kconfig/kconfiglib.py:4519-4542 | whether a bool symbol gets a line |
| `KconfigReload.WriteConfig` | scripts/kconfig/kconfiglib.py:1586-1659 | the loop writes the lines of all symbols in menu order |
| `KconfigReload.FindSymbol` | scripts/kconfig/kconfiglib.py:1275-1279 | the search finds the defined symbol of that name, if any |
| `KconfigReload.ParseLine` | scripts/kconfig/kconfiglib.py:1271-1347 | what a line assigns |
| `KconfigReload.LoadFile` | scripts/kconfig/kconfiglib.py:1247-1366 | the loading loop ends in the user values the lines describe |
| `KconfigReload.UnsetRest` | scripts/kconfig/kconfiglib.py:1356-1366 | the symbols the file did not set, and only those, lose their user values |
| `KconfigLoops.LoopSearch.CheckAll` | scripts/kconfig/kconfiglib.py:1117-1120 | on choice-free graphs the search raises an error iff the dependency graph has a loop; a reported loop is one on any graph; without an error the finishing order is a measure for recursive evaluation when MODULES is apart |
| `KconfigLoops.LoopSearch.CheckSymbol` | scripts/kconfig/kconfiglib.py:6554-6626 | a search below one symbol answers with a chain to the calls in progress, with a loop, or with everything below finished |
| `KconfigLoops.LoopSearch.CheckChoice` | scripts/kconfig/kconfiglib.py:6629-6660 | the same for a choice |
| `KconfigLoops.FoundAnswers` | scripts/kconfig/kconfiglib.py:6663-6709 | a loop found below grows by the symbol it passes through until it closes |
| `KconfigLoops.FinishRises` | scripts/kconfig/kconfiglib.py:6554-6626 | finishing times rise along every chain of dependents |
| `KconfigLoops.EdgesAreDependencies` | scripts/kconfig/kconfiglib.py:3460-3526 | without choices, the search goes from a symbol to exactly the symbols some property of which mentions it |
| `KconfigLoops.NoLoop` | scripts/kconfig/kconfiglib.py:6554-6626 | when every symbol finished there is no loop |
| `KconfigLoops.PossibleMentioned` | scripts/kconfig/kconfiglib.py:3460-3543 | a look-up stays on the symbol, asks for MODULES, or is a mention |
| `KconfigLoops.FinishingOrderRanks` | scripts/kconfig/kconfiglib.py:6554-6626 | a search that found nothing gives an acyclic order for all value equations |
| `KconfigSyntax.PrintParses` | scripts/kconfig/kconfiglib.py:6054-6095 | a printed expression parses back, all of it, iff it mentions no choice; its value is kept under every assignment |
| `KconfigSyntax.ParsedFormRoundTrip` | scripts/kconfig/kconfiglib.py:3370-3454 | an expression in the form the parser gives it has the same value after printing and parsing |
| `KconfigSyntax.PrintAndParse` | scripts/kconfig/kconfiglib.py:3370-3454 | the running parser returns an expression iff no choice is mentioned, and one of the same value |
| `KconfigSyntax.TransformTwice` | scripts/kconfig/kconfiglib.py:3420-3454 | reading m as m && MODULES twice changes nothing more |
| `KconfigSyntax.AndRegroups` | scripts/kconfig/kconfiglib.py:3411-3418 | regrouping a chain of ANDs and rewriting its parts keeps the value |
| `KconfigSyntax.OrRegroups` | scripts/kconfig/kconfiglib.py:3370-3409 | regrouping a chain of ORs and rewriting its parts keeps the value |
| `KconfigSyntax.ExprReads` | scripts/kconfig/kconfiglib.py:3370-3409 | printing and parsing before a closing parenthesis or the end |
| `KconfigSyntax.AndContinues` | scripts/kconfig/kconfiglib.py:3411-3418 | a chain of ANDs that goes on |
| `KconfigSyntax.OrContinues` | scripts/kconfig/kconfiglib.py:3370-3409 | a chain of ORs that goes on |
| `KconfigSyntax.ParenReads` | scripts/kconfig/kconfiglib.py:6330-6335 | a parenthesised expression is read as one factor |
| `KconfigSyntax.AndBindsTighter` | scripts/kconfig/kconfiglib.py:3370-3418 | AND binds tighter than OR, on either side |
| `KconfigSyntax.OtherForms` | scripts/kconfig/kconfiglib.py:3420-3454 | NOT binds tightest, parentheses group, a relation is between two symbols |
| `KconfigSyntax.MReads` | scripts/kconfig/kconfiglib.py:3420-3454 | in conditions m stands for m && MODULES |
| `KconfigSyntax.PrintForms` | scripts/kconfig/kconfiglib.py:6054-6095 | how each form is printed, and where parentheses go |
| `KconfigSyntax.Parser.Expression` | scripts/kconfig/kconfiglib.py:3370-3409 | the method with the token index reads what the grammar says and stops where it says |
| `KconfigSyntax.Parser.Conjunction` | scripts/kconfig/kconfiglib.py:3411-3418 | the same for conjunctions |
| `KconfigSyntax.Parser.Factor` | scripts/kconfig/kconfiglib.py:3420-3454 | the same for factors |
| `VmapList.AddressSpace.Attach` | kernel/mm/mm.c:135-154 | the mapping is inserted before the first one with a higher address |
| `VmapList.InsertedWellFormed` | kernel/mm/mm.c:135-154 | attaching a mapping that overlaps nothing keeps the list sorted and disjoint |
| `VmapList.InsertedInfo` | kernel/mm/mm.c:135-154 | its pages appear and no other page changes |
| `VmapList.AddressSpace.Obtain` | kernel/mm/mm.c:189-207 | finds the mapping that contains an address |
| `VmapList.AddressSpace.GetFree` | kernel/mm/paging/paging.c:18-77 | the lowest free place at or above the base, or none when every place is taken; an exact request succeeds iff the place is free; a base beyond the user half, and nothing else, trips the assertion |
| `VmapList.AddressSpace.Split` | kernel/mm/mm.c:209-229 | the list stays sorted and disjoint, the new part lies right behind, and no page view changes |
| `VmapList.SplitInfo` | kernel/mm/mm.c:209-229 | a split preserves flags, type, handler and file offset of every page |
| `VmapList.AddressSpace.SplitForRange` | kernel/mm/mm.c:231-252 | when it succeeds and which part it really returns, the whole mapping iff the range is all of it; no page view changes |
| `VmapList.AddressSpace.Destroy` | kernel/mm/mm.c:168-187 | exactly the pages of the mapping go |
| `VmapList.AddressSpace.Munmap` | kernel/mm/mmap.c:107-138 | its outcome, and exactly which pages go; the lock of the freed mapping is released iff the range is a whole mapping |
| `VmapList.AddressSpace.Isolate` | kernel/mm/mmap.c:107-131 | the part that munmap goes on to destroy, with no page view changed, and whether it is a whole mapping |
| `VmapList.MunmapExactness` | kernel/mm/mmap.c:107-138 | the pages removed are the requested ones iff the range is not a proper prefix of its mapping |
| `VmapList.MunmapLaw` | kernel/mm/mmap.c:107-138 | munmap fails where nothing is mapped, and succeeds exactly for a range that is not empty and stays inside its mapping |
| `VmapList.MunmapRemoves` | kernel/mm/mm.c:231-252 | it removes the range, or all that lies behind a range at the start of the mapping |
| `VmapList.MunmapPrefixExample` | kernel/mm/mm.c:242-243 | unmapping the first of two pages removes the second |
| `VmapList.AddressSpace.Protect` | kernel/mm/mmap.c:140-216 | flags change on exactly the requested pages of the mapping where the range starts; a refused call changes no page view; an address that is not page-aligned panics |
| `VmapList.AddressSpace.Carve` | kernel/mm/mmap.c:156-175 | the two splits isolate the range and change no page view |
| `VmapList.ProtectedInfo` | kernel/mm/mmap.c:140-216 | changing the flags of the isolated part changes exactly the requested pages |
| `VmapList.ProtectLaw` | kernel/mm/mmap.c:140-216 | when vm_protect panics, what the file behind the mapping refuses, and which addresses change |
| `CopyOnWrite.Machine.Run` | kernel/mm/cow.c:34-87 | over every run of fork, loads, stores, faults, mmap, munmap of any range and protect: every operation is answered by its own event and changes the mappings as it should, the events are a legal history of a memory in which fork copies every page at once, and end in what the machine shows; each load returns the byte last stored, or that of the file, or zero, and each store succeeds where the flags admit it; the run stops early iff its last event is a panic |
| `CopyOnWrite.Machine.Perform` | kernel/mm/cow.c:34-87 | each operation is answered by its own event, changes the mapping lists as it should, and one step of the eager memory explains it; with the exact condition for each panic |
| `CopyOnWrite.Machine.Fork` | kernel/tasks/fork.c:42-58 | the child has the mappings of the parent and sees its pages; no other process sees a change |
| `CopyOnWrite.Machine.CloneMap` | kernel/mm/cow.c:62-77 | cloning one mapping copies the view of its pages and changes no other |
| `CopyOnWrite.Machine.CopyEntry` | kernel/mm/paging/paging.c:129-154 | one page table entry is shared read-only with the same view |
| `CopyOnWrite.Machine.ClearWrite` | kernel/mm/paging/paging.c:168-174 | no entry of the range stays writable and no view changes |
| `CopyOnWrite.Machine.HandleFault` | kernel/mm/mm.c:359-484 | handled iff the page is mapped and the access permitted; afterwards the access goes through; no view changes |
| `CopyOnWrite.Machine.ZeroOnDemandFault` | kernel/mm/cow.c:34-60 | the fault maps the zero page or a fresh one, the entry permits the access, and no view changes |
| `CopyOnWrite.Machine.FileFault` | kernel/filesystem/vfs.c:147-190 | the fault on a private file mapping maps the cached page or a copy of it, and no view changes |
| `CopyOnWrite.Machine.MapCopy` | kernel/mm/mm.c:270-281 | a fresh writable copy takes the place of a shared page without changing any view |
| `CopyOnWrite.Machine.Replace` | kernel/mm/paging/paging.c:109-127 | the entry changes to the new frame with counts kept, and only that page view |
| `CopyOnWrite.Machine.ZeroPage` | kernel/mm/cow.c:22-32 | one zero page, created once, pinned for ever |
| `CopyOnWrite.Machine.CachePage` | kernel/filesystem/page_cache.c:13-26 | the cached page holds the contents of the file, and earlier frames keep theirs |
| `CopyOnWrite.Machine.Load` | kernel/mm/mm.c:359-484 | a load returns the byte of the page view, or fails iff nothing is mapped |
| `CopyOnWrite.Machine.Store` | kernel/mm/mm.c:359-484 | a store succeeds iff the page is mapped writable and changes that one byte of that one page of that one process |
| `CopyOnWrite.Machine.Protect` | kernel/mm/mmap.c:140-216 | exactly the requested pages change their flags, in the list and in the tables |
| `CopyOnWrite.Machine.AddMap` | kernel/mm/paging/paging.c:18-77 | a private mapping appears with its initial contents where nothing was; fails iff there is no room |
| `CopyOnWrite.Machine.MapAnonymous` | kernel/mm/mmap.c:23-67 | nothing for bad arguments, a panic iff the place lies in the kernel half or there is no room, as a null pointer is then followed; otherwise the mapping appears |
| `CopyOnWrite.Machine.MapFile` | kernel/mm/mmap.c:69-105 | nothing for bad arguments or when there is no room; a mapping that is refused or whose hook fails panics iff nobody else holds the lock of the address space; otherwise the mapping appears |
| `CopyOnWrite.Machine.UnmapPages` | kernel/mm/mm.c:168-187 | every entry of the mapping gives up its frame; frames without references are freed |
| `CopyOnWrite.Machine.DestroyMap` | kernel/mm/mm.c:168-187 | exactly the pages of the mapping vanish from the view of the process |
| `CopyOnWrite.Machine.Munmap` | kernel/mm/mmap.c:107-138 | munmap of a range in the machine: its outcome, and exactly the pages that vanish from the view of the process |
| `CopyOnWrite.Machine.PerformMunmap` | kernel/mm/mmap.c:107-138 | one step of the eager memory explains it |
| `CopyOnWrite.WriteKeeps` | kernel/mm/mm.c:270-281 | a frame mapped writable is mapped nowhere else and neither the zero page nor cached, so a store is seen by one page of one process |
| `CopyOnWrite.UnmapKeeps` | kernel/mm/mm.c:168-187 | giving up an entry keeps reference counts exact and every other view |
| `CopyOnWrite.MapKeeps` | kernel/mm/paging/paging.c:109-127 | a new entry keeps reference counts exact and writable frames unshared |
| `CopyOnWrite.DemoteKeeps` | kernel/mm/cow.c:62-77 | taking write permission away changes no view |
| `CopyOnWrite.PinnedNotWritten` | kernel/mm/cow.c:22-32 | the zero page and cached pages are never mapped writable |
| `CopyOnWrite.ReplayExtends` | kernel/mm/cow.c:34-87 | one more explained step extends a legal history |
| `CopyOnWrite.ReplayByte` | kernel/mm/cow.c:34-87 | every byte of eager memory is the last one stored, looking back through forks, or that of a fresh mapping: the page of the file counted from the offset, or zero |
| `CopyOnWrite.AllowedIsRight` | kernel/mm/mm.c:359-484 | in every history each load returns that byte, and each store succeeds exactly where the flags of the page admit it |
| `CopyOnWrite.MappedFileShows` | kernel/filesystem/vfs.c:147-190 | over every run, a load from a mapping of a file returns the byte of the file at the offset of the mapping plus the distance from its start, until the byte is stored to or unmapped |
| `CopyOnWrite.MappedZero` | kernel/mm/cow.c:34-60 | over every run, a fresh anonymous mapping reads zero |
| `CopyOnWrite.StoredIsLoaded` | kernel/mm/mm.c:359-484 | over every run, what was stored is loaded |
| `CopyOnWrite.ChildSeesFork` | kernel/tasks/fork.c:42-58 | over every run, a child sees what its parent saw at the fork, whatever the parent does later |
| `CopyOnWrite.UnmappedIsGone` | kernel/mm/mmap.c:107-138 | over every run, the pages of a range inside a mapping are gone after munmap |
| `CopyOnWrite.ProtectedStore` | kernel/mm/mmap.c:140-216 | a store after vm_protect succeeds exactly if the new flags admit writing |
| `CopyOnWrite.DestroyLaw` | kernel/mm/mm.c:168-187 | destroying a mapping makes exactly that mapping go |
| `CopyOnWrite.MappingLaw` | kernel/mm/mmap.c:54-105 | a mapping appears exactly if there is room and the file admits it, with the size, flags and place asked for; which failures are quiet and which panic |
| `DentryCache.Dcache.Get` | kernel/filesystem/dentry.c:388-423 | the result is what the path means for the file systems mounted, where a name that does not exist is ENOENT, or a panic iff its entry is held; success adds one reference to each entry up to the root, both sides of every mount; every failure but EEXIST leaves all counts alone; EEXIST panics iff the directory is referenced only through what lies below it, loses a reference iff it is held directly, and changes nothing iff it is not referenced |
| `DentryCache.Dcache.LookupParent` | kernel/filesystem/dentry.c:44-161 | the directory of a path, with one more reference on its whole chain, and the last segment; ENOENT only for a name the file system does not have, and a panic instead iff the entry of that name is held; a failure leaves all counts alone; no count check panics |
| `DentryCache.Dcache.FollowSymlink` | kernel/filesystem/dentry.c:163-205 | the target of the link, with one more reference on its chain; a failure, a panic included, is what the target means and leaves all counts alone |
| `DentryCache.Dcache.LastSegment` | kernel/filesystem/dentry.c:207-301 | the last segment is checked against the flags and the file system, with the exact movement of references in every outcome |
| `DentryCache.Dcache.NamedSegment` | kernel/filesystem/dentry.c:239-301 | the same for a last segment that is a name |
| `DentryCache.Dcache.LiveChild` | kernel/filesystem/dentry.c:255-301 | the same for a last segment that exists |
| `DentryCache.Dcache.Finish` | kernel/filesystem/dentry.c:176-204 | what is done with the last segment: the exact movement of references, and when EEXIST panics |
| `DentryCache.Dcache.GetChild` | kernel/filesystem/dentry.c:335-386 | a referenced child with the inode the file system has, or an unreferenced negative one iff it has no such name |
| `DentryCache.Dcache.Unref` | kernel/filesystem/dentry_utils.c:146-156 | one reference less on every entry up to the root; panics iff the count left is below what dentry_check_refstat expects, and never for an entry held directly; an entry without references is left alone |
| `DentryCache.Dcache.UnrefHeld` | kernel/filesystem/dentry_utils.c:146-156 | giving back a reference that is held directly passes the count check at every entry on the way up |
| `DentryCache.Dcache.ExpectedCount` | kernel/filesystem/dentry_utils.c:95-115 | the loop adds up what the counts of the children and the mounts demand |
| `DentryBalance.ExpectedAtMostNeed` | kernel/filesystem/dentry_utils.c:95-125 | where counts are balanced the check demands no more than is there |
| `DentryBalance.ChainDirect` | kernel/filesystem/dentry_utils.c:22-71 | a reference to an entry, counted all the way up, changes the direct references of that entry and of no other, across any number of mounts |
| `DentryBalance.MovedBalanced` | kernel/filesystem/dentry_utils.c:22-156 | moving, taking or giving back a direct reference keeps every count at or above its demand |
| `DentryBalance.ChainCounted` | kernel/filesystem/dentry_utils.c:22-156 | everything above a referenced entry is referenced |
| `DentryCache.OwnGiven` | kernel/filesystem/dentry_utils.c:49-71 | giving up an entry leaves its parent held directly |
| `DentryCache.Carry` | kernel/filesystem/dentry.c:44-301 | the balance is carried on while the cache grows |
| `DentryCache.CreatingWhatIsOpen` | kernel/filesystem/dentry.c:401-423 | an example: creating /t/x while the file is open panics; if the directory is held too, its reference is lost |
| `DentryCache.CreatingBlocks` | kernel/filesystem/dentry.c:134-157 | while the entry of a path that was to be created is held and does not exist yet, every other lookup of the path panics |
| `DentryCache.Dcache.RefUpToRoot` | kernel/filesystem/dentry_utils.c:22-39 | one more reference on every entry up to the root |
| `DentryCache.Dcache.RefOwn` | kernel/filesystem/dentry_utils.c:25-33 | a mounted root and the mountpoint it covers are both counted |
| `DentryCache.Dcache.UnrefOne` | kernel/filesystem/dentry_utils.c:48-71 | an entry is given up and its parent held instead |
| `DentryCache.Dcache.TryRelease` | kernel/filesystem/dentry_utils.c:132-144 | succeeds iff unreferenced, and takes out a negative entry only |
| `DentryCache.Dcache.Up` | kernel/filesystem/dentry.c:109-132 | from a held entry to its parent, with the references moved; a covered parent trips an assertion |
| `DentryCache.Dcache.Cross` | kernel/filesystem/dentry.c:144-155 | from a child to the root mounted on it, with the references moved |
| `DentryCache.Dcache.Down` | kernel/filesystem/dentry.c:134-157 | a named segment in the middle of a path: ENOENT iff the file system has no such name, and a panic instead iff the entry of that name is held |
| `DentryResolve.ParentStays` | kernel/filesystem/dentry.c:44-161 | what a path means stays the same while the cache grows |
| `DentryResolve.ParentOpen` | kernel/filesystem/dentry.c:44-161 | the directory part of a path is never an entry that a mount covers |
| `DentryResolve.LastOpen` | kernel/filesystem/dentry.c:207-301 | nor is what a path leads to |
| `DentryTree.ChainBelow` | kernel/filesystem/dentry_utils.c:22-71 | the entries a reference covers lie in the tree and are live |
| `DentryTree.OwnApart` | kernel/filesystem/dentry_utils.c:22-71 | an entry with its mountpoint is apart from the chain above it |
| `DentryTree.MountChain` | kernel/filesystem/mount.c:28-50 | the chain of a mounted root is the root on top of the chain of its mountpoint |
| `DentryPaths.Path` | kernel/filesystem/dentry_utils.c:158-198 | the loop returns the full path, or what a small buffer makes of it |
| `DentryPaths.PathLeadsBack` | kernel/filesystem/dentry_utils.c:158-198 | resolving the printed path of a visible entry from the root, last link not followed, gives that entry, through any nesting of mounts |
| `DentryLaws.DotLaws` | kernel/filesystem/dentry.c:103-132 | . stays, .. undoes a name, and at the root it stays |
| `DentryLaws.OutOfMount` | kernel/filesystem/dentry.c:109-132 | from a mounted root .. leads to the parent of what it covers |
| `DentryLaws.UpPanicsWhen` | kernel/filesystem/dentry.c:109-132 | .. trips an assertion exactly if a mount other than that of the root covers the parent |
| `DentryLaws.DownAndUp` | kernel/filesystem/dentry.c:44-161 | a name and .. in front of a relative path can be left out |
| `DentryLaws.DotsLast` | kernel/filesystem/dentry.c:207-238 | the same at the end of a path |
| `DentryLaws.LinkLaw` | kernel/filesystem/dentry.c:163-205 | a link stands for its target: from its own directory if that is relative, from the root if it is absolute |
| `DentryLaws.LinkFailures` | kernel/filesystem/dentry.c:163-205 | an empty link and one that is too long fail, and nofollow finds the link itself |
| `DentryLaws.IntoLinkedDirectory` | kernel/filesystem/dentry.c:76-86 | a link right before the last name leads into the directory it stands for |
| `DentryLaws.LinkOnTheWay` | kernel/filesystem/dentry.c:134-157 | further up on the way a link is not followed: names are looked for in the link itself |
| `DentryLaws.KindLaw` | kernel/filesystem/dentry.c:255-301 | what kind of entry is found, or refused, under which flags |
| `DentryLaws.MissingLaw` | kernel/filesystem/dentry.c:239-254 | a name that does not exist is missing, and its entry is what a creation gets |
| `DentryLaws.SlashLaw` | kernel/filesystem/dentry.c:207-238 | a slash behind the last name asks for a directory |
| `DentryLaws.EmptyPath` | kernel/filesystem/dentry.c:388-423 | a path without names is the place where it starts |
| `DentryPaths.WalkNames` | kernel/filesystem/dentry.c:44-161 | walking the names of an entry from the root ends there iff no mount covers it or anything above it |
| `DentryPaths.HiddenPathLeadsElsewhere` | kernel/filesystem/dentry_utils.c:158-198 | without symbolic links, the path of a covered entry leads elsewhere |
| `DentryPaths.SegmentsOfJoin` | kernel/filesystem/dentry.c:59-158 | splitting a joined path gives the names back |
| `DentryMount.Mount` | kernel/filesystem/vfs.c:381-448 | when each outcome happens: no root iff the file system gives none, a panic iff the lookup panics or the directory is referenced (as the root of another mount always is), busy only for the root of the tree; success adds one reference to the new root and everything up to the root and keeps all counts balanced; busy and failed lookups change no count; no root leaves the mountpoint referenced |
| `DentryMount.MountKeeps` | kernel/filesystem/mount.c:72-100 | mounting keeps the tree well formed |
| `DentryMount.MountLaw` | kernel/filesystem/vfs.c:381-448 | the outcome of a mount follows from where the path leads, what is referenced, and whether there is a root |
| `DentryMount.UnmountLaw` | kernel/filesystem/vfs.c:451-491 | the same for an unmount |
| `DentryMount.MountKeepsChains` | kernel/filesystem/mount.c:72-100 | references taken before the mount cover the same entries after it |
| `DentryMount.MountRedirects` | kernel/filesystem/mount.c:72-100 | the name of the mountpoint leads to the mounted root, every other name where it led before |
| `DentryMount.MountBalanced` | kernel/filesystem/mount.c:72-100 | the reference taken on the mountpoint is the one the mount counts for: all counts stay balanced |
| `DentryMount.MountedChain` | kernel/filesystem/mount.c:72-100 | a reference to the mounted root covers the root and all that one to the mountpoint covers |
| `DentryMount.Unmount` | kernel/filesystem/vfs.c:451-491 | when each outcome happens: success iff the path leads to a mounted root with exactly the references of the mount, on it and on its mountpoint; success gives back exactly the chain that mounting took and leaves all counts balanced; in use leaks the references of the lookup |
| `DentryMount.IdleBelow` | kernel/filesystem/vfs.c:451-491 | when only the mount refers to a mounted root, nothing below it is referenced and nothing is mounted there |
| `DentryMount.UnmountBalanced` | kernel/filesystem/vfs.c:468-490 | without the mount, its reference on the mountpoint is a direct one, and all counts stay balanced |
| `DentryMount.UnmountKeepsChains` | kernel/filesystem/mount.c:102-116 | references to what stays cover the same entries |
| `DentryMount.LookupOpen` | kernel/filesystem/dentry.c:388-423 | a lookup never ends on an entry that a mount covers, but for the root of the tree |
| `DentryMount.DirectoryNeverExists` | kernel/filesystem/dentry.c:207-301 | a lookup that expects the entry to exist is never answered EEXIST |
| `DentryMount.UnmountUndoes` | kernel/filesystem/mount.c:102-116 | unmounting takes back exactly what mounting did to the tree |
| `DentryMount.UnmountKeeps` | kernel/filesystem/mount.c:102-116 | unmounting keeps the tree well formed, whatever is cached below the root; the mountpoint stays and is free again |
| `Rounding.AndNotMask` | kernel/include/public/mos/mos_global.h:90-93 | clearing a mask of low bits rounds down to a multiple of the power of two |
| `Rounding.AndNotPrevious` | kernel/include/public/mos/mos_global.h:90-93 | a number without the bits of its predecessor is its lowest bit |
| `Rounding.PageMasks` | kernel/include/public/mos/mos_global.h:90-93 | the masks round to the page below and to the page above |
| `Slab.OffsetIs` | kernel/mm/slab.c:84-111 | where the first slot lies for every entry size: eight times the lowest bit of the size in words |
| `Slab.CarvesCleanlyWhen` | kernel/mm/slab.c:84-111 | a page is carved into disjoint slots iff the size is a multiple of eight, below eight, or only one slot fits |
| `Slab.TwelveByteSlotsOverlap` | kernel/mm/slab.c:103-110 | twelve-byte slots overlap |
| `Slab.SlotsApart` | kernel/mm/slab.c:84-111 | distinct slots of one size do not overlap |
| `Slab.LiveBlocksApart` | kernel/mm/slab.c:131-266 | in every valid state any two blocks handed out are disjoint |
| `Slab.OwnerFromMemory` | kernel/mm/slab.c:159-216 | the page header in memory names the owner of every block, and a block is page aligned iff it came from the page allocator |
| `Slab.TakeKeeps` | kernel/mm/slab.c:228-250 | taking the first slot keeps the invariant: free list null-terminated and acyclic, free plus live slots are all slots, the count is exact |
| `Slab.ReturnKeeps` | kernel/mm/slab.c:252-266 | returning a slot keeps it too |
| `Slab.CarveKeeps` | kernel/mm/slab.c:84-111 | carving a fresh page keeps it too |
| `Slab.BlockKeeps` | kernel/mm/slab.c:131-147 | a block of whole pages keeps it too |
| `Slab.UnblockKeeps` | kernel/mm/slab.c:201-216 | freeing a block of pages keeps it too |
| `Slab.ResizeKeeps` | kernel/mm/slab.c:159-199 | recording a new size in place keeps it too |
| `Slab.DataWriteKeeps` | kernel/mm/slab.c:131-266 | the owner of a block may write anything to it |
| `Slab.Allocator.AllocateMem` | kernel/mm/slab.c:84-111 | blocks and their contents stay; afterwards the slab has a free slot, unless no page is free, which the source does not notice |
| `Slab.Allocator.CarvedMemory` | kernel/mm/slab.c:84-111 | the loop links the slots of the page and writes nothing else |
| `Slab.Allocator.Init` | kernel/mm/slab.c:113-125 | the builtin slabs exist afterwards |
| `Slab.Allocator.TakeSlot` | kernel/mm/slab.c:228-250 | a zeroed block that was not handed out, all other blocks with their contents unchanged; a wild address iff there is no free slot and no free page |
| `Slab.Allocator.ReturnSlot` | kernel/mm/slab.c:252-266 | exactly that block goes, all others keep their contents |
| `Slab.Allocator.SlabFor` | kernel/mm/slab.c:47-56 | the smallest builtin slab that is large enough, if the size is at most 1024 |
| `Slab.Allocator.Alloc` | kernel/mm/slab.c:131-147 | a block of at least that size, all other blocks unchanged; a wild address iff the slab or the pages cannot be had |
| `Slab.Allocator.AllocPages` | kernel/mm/slab.c:131-147 | the page path of the same: a wild address iff there is no run of free pages |
| `Slab.FewerRuns` | kernel/mm/slab.c:58-82 | taking pages never makes room for a longer run |
| `Slab.Allocator.Free` | kernel/mm/slab.c:201-216 | exactly that block goes, whichever path it came from; null is ignored |
| `Slab.Allocator.Realloc` | kernel/mm/slab.c:159-199 | the block stays where it is iff it fits there, and keeps its first min(old, new) bytes wherever it is, all other blocks unchanged; a wild address iff it must move and there is no memory |
| `Slab.Allocator.StoreResizeLoad` | kernel/mm/slab.c:159-199 | what was stored in a block is found in it after it was resized, wherever it is by then |
| `Slab.ResizedMeans` | kernel/mm/slab.c:159-199 | the first bytes are kept one by one, the old block goes if the new one is elsewhere, no other block changes |
| `Slab.Allocator.ReallocPages` | kernel/mm/slab.c:159-199 | the page path of the same |
| `Slab.Allocator.Create` | kernel/mm/slab.c:220-226 | a further slab of the given size, all blocks unchanged; a wild address only when no page is free |
| `RingBuffer.Ring.PushBack` | kernel/lib/structures/ring_buffer.c:80-93 | what fits is appended to the queue |
| `RingBuffer.Ring.PopFront` | kernel/lib/structures/ring_buffer.c:134-151 | up to that many bytes are removed from the front |
| `RingBuffer.Pushed` | kernel/lib/structures/ring_buffer.c:80-93 | writing behind the queue, around the end of the array, appends |
| `RingBuffer.Popped` | kernel/lib/structures/ring_buffer.c:134-151 | moving the head splits the queue |
| `LittleEndian.DecodeEncode` | libs/libipc/libipc.c:62-79 | a size that fits its field is decoded as written |
| `LittleEndian.EncodeAt` | libs/libipc/libipc.c:62-79 | the least significant byte comes first |
| `LittleEndian.EncodeDecode` | libs/libipc/libipc.c:33-60 | bytes decoded and encoded are the same bytes |
| `Pipes.Pipe.Write` | kernel/ipc/pipe.c:29-82 | the bytes that fit are pushed, all of them iff the call is done; broken iff an end is closed |
| `Pipes.Pipe.Read` | kernel/ipc/pipe.c:84-131 | the bytes there are, up to what is wanted; short only when drained, at the end iff an end is closed as well |
| `Pipes.Pipe.CloseOneEnd` | kernel/ipc/pipe.c:133-161 | the second close frees the pipe |
| `IpcMessages.Channel.Run` | libs/libipc/libipc.c:33-98 | under every interleaving of a writing and a reading thread and of closes, the messages received are a prefix of those sent |
| `IpcMessages.Channel.Perform` | libs/libipc/libipc.c:33-98 | what each step does to both sides of the channel |
| `IpcMessages.Channel.Deliver` | libs/libipc/libipc.c:33-79 | a message sent over an open pipe arrives, whatever its length and the capacity: threads that take turns never get stuck |
| `IpcMessages.Channel.Turn` | libs/libipc/libipc.c:33-79 | a turn of both threads leaves less to write or to read |
| `IpcMessages.Channel.ReceivedIsPrefix` | libs/libipc/libipc.c:33-60 | in every valid state what was received is a prefix of what was sent |
| `IpcMessages.Channel.QuietMeansDelivered` | libs/libipc/libipc.c:33-79 | nothing in flight means everything arrived |
| `IpcMessages.Channel.ContinueSend` | kernel/ipc/pipe.c:29-82 | a write goes on by what fits, ends when all is written, or fails for good when an end is closed |
| `IpcMessages.Channel.ContinueReceive` | kernel/ipc/pipe.c:84-131 | a read goes on by what is there, completes a size or a message, or meets the end |
| `IpcMessages.PrefixOfFrames` | libs/libipc/libipc.c:33-98 | a prefix of a stream of frames decodes to a prefix of the messages |
| `IpcMessages.FirstFrame` | libs/libipc/libipc.c:33-98 | frames are self-delimiting |
| `IpcMessages.ReaderAdvances` | libs/libipc/libipc.c:33-60 | the bytes read so far are the frames received and the part of the next one |
| `RpcArgs.Call.Add` | libs/librpc/rpc_client.c:110-124 | the argument is appended to the encoded list |
| `RpcArgs.HeaderAt` | libs/librpc/rpc_client.c:110-124 | magic, type, size and data of argument k stand at its offset |
| `RpcArgs.SizeSurvives` | libs/librpc/rpc_client.c:110-124 | the size that reaches the server is the one sent iff it fits 32 bits |
| `RpcArgs.Context.Next` | libs/librpc/rpc_server.c:321-341 | the iterator gives the arguments in order, then nothing |
| `RpcArgs.Context.Get` | libs/librpc/rpc_server.c:371-389 | the argument with a given index, if it has the given type; past the end iff there is no such argument |
| `RpcArgs.SendAndWalk` | libs/librpc/rpc_server.c:321-389 | a call hands its list of arguments to the server, in order and by index |
| `IpcServers.StepKeeps` | kernel/ipc/ipc.c:73-397 | every step of every thread, closing at any moment and any number of acceptors included, keeps the invariant, resolved connections and the queue order |
| `IpcServers.RunKeeps` | kernel/ipc/ipc.c:73-397 | over every signal-free run: queue counts are exact and bounded, clients are taken in connect order, each is resolved at most once, and announced names have no waiters |
| `IpcServers.QueuePromises` | kernel/ipc/ipc.c:237-397 | the pending count is the queue length, at most the limit while open; clients are taken in the order they connected, none twice |
| `IpcLaws.WokenClientLaw` | kernel/ipc/ipc.c:379-397 | over every run, a woken client is connected exactly if it was accepted and refused exactly if the server closed on it |
| `IpcLaws.ConnectLaw` | kernel/ipc/ipc.c:355-377 | over every run, a client of an announced server is queued last if the queue is not full, and turned away if it is |
| `IpcLaws.ConnectWakes` | kernel/ipc/ipc.c:362-377 | and the acceptor that has slept longest is woken, and nobody else |
| `IpcLaws.NoServerLaw` | kernel/ipc/ipc.c:320-352 | while a name is not announced, a client sleeps on it behind those already there |
| `IpcLaws.AcceptLaw` | kernel/ipc/ipc.c:237-277 | over every run, an acceptor takes the first client, sleeps if there is none, gives up if the server is closed, and touches a freed one |
| `IpcLaws.FinishLaw` | kernel/ipc/ipc.c:279-289 | a connection that was taken gets its pipes and its client is woken |
| `IpcLaws.CreateLaw` | kernel/ipc/ipc.c:177-219 | a new name is announced with an empty queue, and exactly those who wait for it look again |
| `IpcLaws.CreateAgain` | kernel/ipc/ipc.c:177-190 | a name that is announced cannot be announced again |
| `IpcLaws.CloseLaw` | kernel/ipc/ipc.c:73-118 | closing refuses and wakes exactly the pending clients, wakes the acceptors, and frees the server exactly if none slept |
| `IpcLaws.CallLaw` | kernel/ipc/ipc.c:237-298 | how calls start and end |
| `IpcLaws.OutcomeIsDecided` | kernel/ipc/ipc.c:237-397 | over every run, connected clients have pipes, sleeping ones are undecided, and woken ones are accepted or refused |
| `IpcServers.NameWaitlistQuiet` | kernel/ipc/ipc.c:73-118 | while a name is announced its waitlist is absent, or closed and empty |
| `IpcServers.SleepersHaveReason` | kernel/ipc/ipc.c:237-397 | while a thread sleeps in accept, every pending client has an acceptor that is awake; other sleepers wait for something that has not happened |
| `IpcBlocking.NoWakeUpIsLost` | kernel/ipc/ipc.c:237-397 | with appending to a waitlist and blocking as two steps, over every run: a thread on a waitlist, asleep or about to be, waits for something that has not happened |
| `IpcBlocking.PanicsExactlyWhen` | kernel/tasks/wait.c:66-97 | such a run panics iff some step takes a thread off a waitlist before that thread has blocked |
| `IpcBlocking.OneCpuNeverPanics` | kernel/ipc/ipc.c:73-397 | which never happens where a thread blocks before anything else moves |
| `IpcBlocking.WakesExactly` | kernel/ipc/ipc.c:73-397 | which threads a step takes off a waitlist: the waiters for a name, the pending clients and acceptors of a server that is closed, the first acceptor, or the client of an accepted connection |
| `IpcBlocking.HistoryKeeps` | kernel/ipc/ipc.c:73-397 | whenever threads block, all promises about queues and connections hold |
| `IpcBlocking.HistoryIsRun` | kernel/ipc/ipc.c:73-397 | the regions of such a run, without the blocking in between, are a run of the coarser steps |
| `IpcBlocking.MoveKeeps` | kernel/ipc/ipc.c:73-397 | the same for one step, with the exact condition for a panic |
| `IpcBlocking.ConnectedTooSoon` | kernel/ipc/ipc.c:254-260 | an example: a client connects when the acceptor is on the waitlist and has not blocked |
| `IpcBlocking.Subsystem.Perform` | kernel/tasks/wait.c:66-97 | each move does what it should, and panics where a thread that is woken has not blocked |
| `IpcBlocking.Subsystem.Run` | kernel/ipc/ipc.c:73-397 | every sequence of moves makes such a run, which ends where the kernel is |
| `IpcServers.ReturnedIsReady` | kernel/ipc/ipc.c:237-397 | a connection returned to either side has both pipes and was not refused |
| `IpcServers.TouchedExactlyWhen` | kernel/ipc/ipc.c:73-270 | over every run, a thread uses a server after it was freed only if the server was closed while a thread was awake in accept on it or two threads were in it; and iff, once all of them have gone on |
| `IpcServers.RunDecides` | kernel/ipc/ipc.c:73-270 | at every point of a run: a use of the freed server has happened or is bound to happen iff there was such a close |
| `IpcServers.CloseDecides` | kernel/ipc/ipc.c:73-118 | the close decides it |
| `IpcServers.DoomSettled` | kernel/ipc/ipc.c:241-270 | no later step changes it |
| `IpcServers.StepConcerns` | kernel/ipc/ipc.c:73-397 | after the close, only acceptors that go on concern the server: the first frees it, the others touch it freed |
| `IpcServers.ClosedUnderAcceptor` | kernel/ipc/ipc.c:73-270 | a run of seven steps that ends with an acceptor locking a freed server |
| `IpcServers.QueuesCrowd` | kernel/ipc/ipc.c:362-377 | a new client leaves enough acceptors awake |
| `IpcServers.CreatedKeeps` | kernel/ipc/ipc.c:177-219 | creating a server wakes the waiters of its name and keeps the invariant |
| `IpcServers.ClosedKeeps` | kernel/ipc/ipc.c:73-118 | closing refuses every pending client once, wakes all sleeping acceptors and keeps the invariant |
| `IpcServers.AcceptTakesKeeps` | kernel/ipc/ipc.c:272-277 | taking the first pending client keeps the invariant |
| `IpcServers.AcceptFinishesKeeps` | kernel/ipc/ipc.c:279-289 | setting up the pipes and waking the client keeps the invariant |
| `IpcServers.AcceptSleepsKeeps` | kernel/ipc/ipc.c:254-270 | an acceptor without clients sleeps, which keeps the invariant |
| `IpcServers.AcceptAbortsKeeps` | kernel/ipc/ipc.c:245-252 | an acceptor on a closed server frees it, which keeps the invariant |
| `IpcServers.AcceptTouchesKeeps` | kernel/ipc/ipc.c:241-252 | a use of a freed server disturbs no queue and no other thread |
| `IpcServers.NameSleepsKeeps` | kernel/ipc/ipc.c:324-359 | a client without a server sleeps on an open name waitlist, as the kernel asserts |
| `IpcServers.QueuesKeeps` | kernel/ipc/ipc.c:362-377 | queueing a client and waking the acceptor that slept longest keeps the invariant |
| `IpcServers.Ipc.CreateServer` | kernel/ipc/ipc.c:177-219 | refused iff the name is announced; otherwise the server exists and waiters are awake |
| `IpcServers.Ipc.CloseServer` | kernel/ipc/ipc.c:73-118 | the new state is the closed one, whoever accepts; the kernel assertions about the name waitlist hold |
| `IpcServers.Ipc.RefuseAll` | kernel/ipc/ipc.c:73-118 | the loop refuses and wakes exactly the pending clients |
| `IpcServers.Ipc.AcceptRegion` | kernel/ipc/ipc.c:237-277 | touches a freed server, aborts, sleeps or takes the first client, as the state of the server says |
| `IpcServers.Ipc.FinishAccept` | kernel/ipc/ipc.c:279-289 | the connection gets its pipes and its client wakes |
| `IpcServers.Ipc.ConnectRegion` | kernel/ipc/ipc.c:292-377 | sleeps on the name, is turned away by a full queue, or is queued |
| `IpcServers.Ipc.ConnectReturns` | kernel/ipc/ipc.c:379-397 | refused iff the server closed on it, connected otherwise |
| `IpcServers.Ipc.FindServer` | kernel/ipc/ipc.c:299-314 | finds an announced server of that name iff there is one |
| `IpcServers.Ipc.Wake` | kernel/tasks/wait.c:66-97 | the loop wakes exactly the listed threads |
| `IpcServers.Ipc.Run` | kernel/ipc/ipc.c:73-397 | every sequence of steps makes a run, which ends where the kernel is |
| `IoLifetime.IoTable.Run` | kernel/io/io.c:73-125 | every sequence of operations leads exactly to the state that the operations describe, counts, closed objects and the panic that ends a run included |
| `IoLifetime.IoTable.Perform` | kernel/tasks/process.c:175-217 | each operation, a failing driver hook included, changes counts, descriptors and mappings exactly as described, or panics |
| `IoLifetime.RuleExactlyWhen` | kernel/io/io.c:73-305 | over every run: no count is ever below the references and no object is closed under one, iff the mmap hooks that fail on the object while somebody else holds the lock of the address space never outnumber its dups, out-of-range dup2s and failed unmaps |
| `IoLifetime.OwnLocksAreRight` | kernel/mm/mm.c:168-187 | when nobody else ever holds the lock, the rule holds over every run, whatever hooks fail |
| `IoLifetime.LostExactlyWhen` | kernel/mm/mmap.c:94-98 | an operation breaks the rule iff an mmap hook fails under a foreign lock while nothing is surplus |
| `IoLifetime.PanicsExactlyWhen` | kernel/mm/mm.c:168-187 | a run panics iff a refused or failed mmap happens while nobody else holds the lock |
| `IoLifetime.ClosedExactlyWhen` | kernel/io/io.c:92-125 | until then an object is closed iff it is closable, was ever referenced, and references and surplus are none; an open one counts exactly both |
| `IoLifetime.RunCounts` | kernel/io/io.c:73-305 | until then every count is the references and the surplus of the history |
| `IoLifetime.StepCounts` | kernel/io/io.c:73-305 | every operation keeps that, unless a dropped reference makes the surplus negative; then the rule is broken at once |
| `IoLifetime.ClosedOnce` | kernel/io/io.c:92-125 | over every run, broken or not, the close hook runs once at most and a closed object is not touched again |
| `IoLaws.AttachLaw` | kernel/tasks/process.c:175-194 | the lowest free descriptor refers to the object, which gains a reference; no other slot changes |
| `IoLaws.DetachLaw` | kernel/tasks/process.c:204-217 | closing a descriptor frees it and its object loses a reference, the last one closing it |
| `IoLaws.DetachRefused` | kernel/tasks/process.c:204-217 | a closed descriptor or object is refused |
| `IoLaws.DupLaw` | kernel/ksyscall.c:475-481 | the lowest free descriptor refers to the same object, which gains two references |
| `IoLaws.Dup2Law` | kernel/ksyscall.c:483-497 | the target refers to the object of the descriptor and no other slot changes; the object gains a reference, what the target held loses one |
| `IoLaws.Dup2Nothing` | kernel/ksyscall.c:483-497 | of a closed descriptor, or onto itself, it does nothing |
| `IoLaws.MapLaw` | kernel/io/io.c:254-271 | a mapping that is made refers to the object, which gains a reference |
| `IoLaws.MapRefused` | kernel/mm/mmap.c:94-98 | one that is not made leaves no mapping behind |
| `IoLaws.SplitLaw` | kernel/mm/mm.c:209-229 | both halves of a mapping refer to its object |
| `IoLaws.UnmapLaw` | kernel/io/io.c:273-305 | a mapping goes, with its reference if the hook succeeds |
| `IoLaws.ForkLaw` | kernel/tasks/fork.c:42-69 | a child has the mappings of its parent, and each open object gains a reference for each slot that holds it |
| `IoLaws.ForkedSlot` | kernel/tasks/fork.c:60-69 | a slot of the child is that of the parent if the object is valid, and empty if it is closed |
| `IoLaws.ExitLaw` | kernel/tasks/process.c:331-344 | an exit empties the tables, and each object loses a reference for each slot that held it |
| `IoLaws.NewLaw` | kernel/io/io.c:73-125 | new objects have no references, new processes nothing open, and the references of the kernel count |
| `IoLifetime.IoTable.History` | kernel/io/io.c:73-305 | the same for everything that was ever done to a table |
| `IoLifetime.MapCounts` | kernel/mm/mmap.c:69-105 | a refused or failed mmap keeps all counts, as the kernel panics, unless somebody else holds the lock; then the count stays right iff there was surplus, otherwise it is below the references or the object is closed |
| `IoLifetime.DupCounts` | kernel/ksyscall.c:475-481 | io_dup leaves one reference too many |
| `IoLifetime.Dup2Counts` | kernel/ksyscall.c:483-497 | io_dup2 within range counts exactly, out of range one too many |
| `IoLifetime.UnmapCounts` | kernel/io/io.c:273-305 | a mapping that goes without its reference leaves surplus |
| `IoLifetime.ForkCounts` | kernel/tasks/fork.c:42-69 | a fork counts every slot it copies |
| `IoLifetime.ExitCounts` | kernel/tasks/process.c:331-344 | an exit gives back every slot it had |
| `IoLifetime.UsesSet` | kernel/tasks/process.c:175-217 | who refers to an object after one process changed |
| `IoLifetime.ReleasedOk` | kernel/io/io.c:92-125 | dropping a reference closes the object iff it was the last one and nothing is surplus |
| `IoLifetime.RefsSet` | kernel/tasks/process.c:175-217 | references change by what one process changes |
| `IoLifetime.FailedMmap` | kernel/mm/mmap.c:69-105 | an example: an mmap hook fails on an object with one descriptor; the kernel panics, or under a foreign lock the object is closed under the descriptor |
| `IoLifetime.DupNeverCloses` | kernel/ksyscall.c:475-481 | io_dup counts twice, so closing both descriptors leaves the object open |
| `IoLifetime.IoTable.FreeFd` | kernel/tasks/process.c:175-194 | the lowest free descriptor, if any |
| `IoLifetime.IoTable.Attach` | kernel/tasks/process.c:175-194 | the lowest free descriptor refers to the object, with its reference; a closed object leaves it empty |
| `IoLifetime.IoTable.Detach` | kernel/tasks/process.c:204-217 | accepted iff the descriptor is open and its object valid; it is then free |
| `IoLifetime.IoTable.Dup` | kernel/ksyscall.c:475-481 | the copy goes to the lowest free descriptor, and two references are taken |
| `IoLifetime.IoTable.Dup2` | kernel/ksyscall.c:483-497 | the target refers to the same object afterwards; a target out of range is not noticed and its reference is stored nowhere in the table |
| `IoLifetime.IoTable.Mmap` | kernel/mm/mmap.c:69-105 | accepted iff permitted, open and the hook succeeds, and the mapping then holds a reference; otherwise the kernel panics iff nobody else holds the lock of the address space; under a foreign lock a failing hook drops a reference that was never taken |
| `IoLifetime.IoTable.Split` | kernel/mm/mm.c:209-229 | both halves hold a reference |
| `IoLifetime.IoTable.Unmap` | kernel/io/io.c:273-305 | the mapping goes with its reference; a failing hook leaves the reference behind |
| `IoLifetime.IoTable.Fork` | kernel/tasks/fork.c:42-69 | the child has the same mappings and the descriptors of valid objects, all counted |
| `IoLifetime.IoTable.CopyFiles` | kernel/tasks/fork.c:60-69 | the loop copies every descriptor of a valid object with its reference |
| `IoLifetime.IoTable.CopyMaps` | kernel/tasks/fork.c:42-58 | the loop copies every mapping with its reference |
| `IoLifetime.IoTable.CloseAll` | kernel/tasks/process.c:331-344 | the loop at exit closes every descriptor |
| `IoLifetime.IoTable.UnmapAll` | kernel/tasks/process.c:126-133 | the mappings go with their references |
| `Scheduler.NextKeeps` | kernel/tasks/schedule.c:23-191 | every step keeps: no thread on two CPUs, every running thread on one, threads on waitlists listed exactly where they are - but for the removal of a dead thread that is still needed; DEAD is never left |
| `Scheduler.RunKeeps` | kernel/tasks/schedule.c:23-191 | the same at every point of a run, iff no thread is removed too early |
| `Scheduler.PanicsExactlyWhen` | kernel/tasks/wait.c:66-97 | a run panics iff some wake-up meets a waiter that has not blocked yet |
| `Scheduler.OneCpuNeverPanics` | kernel/tasks/schedule.c:134-150 | on a single CPU no run panics |
| `Scheduler.TwoCpus` | kernel/tasks/wait.c:66-97 | a waiter that has not blocked yet is on another CPU than the one that wakes it |
| `Scheduler.JoinedTooSoon` | kernel/tasks/thread.c:168-205 | an example: a thread exits when its joiner is on the waitlist; the kernel panics, but not if the joiner blocks first |
| `Scheduler.ReapExactlyWhen` | kernel/tasks/process.c:296-329 | removing a dead thread keeps the invariant iff no CPU is on it any more and nobody sleeps until it ends |
| `Scheduler.ReapedWhileHeld` | kernel/tasks/process.c:296-305 | a run in which a process exit destroys a thread that another CPU is still on |
| `Scheduler.NoReapIsCareful` | kernel/tasks/schedule.c:23-191 | runs that remove no thread are never too early |
| `Scheduler.RunningHeldOnce` | kernel/tasks/schedule.c:61-101 | a running thread is held by exactly one CPU |
| `SchedulerLaws.ScheduleLaw` | kernel/tasks/schedule.c:23-101 | a free CPU takes a thread exactly if that is new, ready, or blocked for a condition that holds |
| `SchedulerLaws.YieldLaw` | kernel/tasks/schedule.c:152-179 | a thread that gives up its CPU is ready again, unless it is dead |
| `SchedulerLaws.ConditionLaw` | kernel/tasks/schedule.c:121-132 | a thread that waits for a condition is blocked and its CPU free |
| `SchedulerLaws.AppendLaw` | kernel/tasks/schedule.c:134-141 | a thread stands last on the list it is to sleep on, or goes on if that is closed |
| `SchedulerLaws.BlockLaw` | kernel/tasks/schedule.c:143-147 | then it blocks |
| `SchedulerLaws.WakeLaw` | kernel/tasks/wait.c:66-97 | the first waiters, as many as asked for, are ready and off the list, the others keep their order; a panic exactly if one of the first still runs |
| `SchedulerLaws.ExitLaw` | kernel/tasks/thread.c:189-205 | an exit marks the thread dead, closes its list, wakes its joiners and gives up the CPU, in this order |
| `SchedulerLaws.OtherLaws` | kernel/tasks/process.c:296-305 | new threads, closed lists and removed threads |
| `Scheduler.DeadForGood` | kernel/tasks/thread.c:189-205 | over every run a dead thread stays dead as long as it is in the table |
| `Scheduler.NoJoinerForgotten` | kernel/tasks/thread.c:168-205 | over every run, nobody is on the waitlist of a thread that has finished its exit, asleep or about to be |
| `Scheduler.JoinersReleased` | kernel/tasks/thread.c:168-205 | in every valid state, nobody is on the waitlist of a thread that has finished its exit |
| `Scheduler.ExitWakesJoiner` | kernel/tasks/thread.c:189-205 | marking, closing and waking makes every joiner ready, or panics iff one of them has not blocked yet |
| `Scheduler.OneMoreAwake` | kernel/tasks/wait.c:66-97 | waking one more waiter, in list order |
| `Scheduler.WokenOthers` | kernel/tasks/wait.c:66-97 | waking disturbs no thread but the waiters |
| `Scheduler.AwakenKeeps` | kernel/tasks/wait.c:66-97 | a wake-up keeps the invariant, and panics iff a waiter it reaches still runs |
| `Scheduler.TakeKeeps` | kernel/tasks/schedule.c:61-101 | a CPU taking a thread keeps the invariant |
| `Scheduler.LeaveKeeps` | kernel/tasks/schedule.c:121-191 | a thread leaving its CPU keeps the invariant |
| `Scheduler.AppendKeeps` | kernel/tasks/wait.c:50-64 | a thread appending itself to an open list keeps the invariant |
| `Scheduler.WakeOneKeeps` | kernel/tasks/wait.c:66-97 | waking the first waiter, once it has blocked, keeps the invariant |
| `Scheduler.PhaseKeeps` | kernel/tasks/thread.c:189-205 | each phase of an exit keeps the invariant |
| `Scheduler.Kernel.ScheduleTo` | kernel/tasks/schedule.c:23-101 | a CPU takes the thread iff it is created, ready, or blocked with a wait condition that holds; nothing else changes |
| `Scheduler.Kernel.Reschedule` | kernel/tasks/schedule.c:152-179 | the CPU is free and a running thread ready; the kernel assertion holds |
| `Scheduler.Kernel.BlockForCondition` | kernel/tasks/schedule.c:121-132 | the thread is blocked with its condition; the kernel assertions hold |
| `Scheduler.Kernel.AppendToList` | kernel/tasks/schedule.c:134-141 | the thread is at the end of the list and still running, or goes on iff the list is closed |
| `Scheduler.Kernel.BlockListed` | kernel/tasks/schedule.c:143-147 | the thread is blocked and its CPU free |
| `Scheduler.Kernel.Wake` | kernel/tasks/wait.c:66-97 | the first waiters, up to the maximum, are ready and off the list; a failed assertion iff one of them has not blocked yet |
| `Scheduler.Kernel.JoinThread` | kernel/tasks/thread.c:168-187 | false iff the thread does not exist; otherwise the caller is on its waitlist, or goes on when the thread is closed for joining |
| `Scheduler.Kernel.ExitStep` | kernel/tasks/thread.c:189-205 | the next region of the exit sequence, which panics where it wakes a joiner that has not blocked yet |
| `Scheduler.Kernel.Run` | kernel/tasks/schedule.c:110-119 | the kernel goes through the run that the steps describe |
| `Signals.Thread.RunHandler` | arch/x86_64/x86_platform_api.c:189-217 | over every nesting of deliveries and returns inside a handler, its own return restores the registers and masks of the moment of delivery; a step that does not resume the thread ends the run with all outer frames intact |
| `Signals.Thread.Perform` | kernel/tasks/signal.c:148-266 | what each step does; outer frames stay as delivery left them |
| `Signals.Thread.Send` | kernel/tasks/signal.c:63-91 | a kernel thread takes SIGILL, SIGTRAP, SIGABRT, SIGKILL and SIGSEGV only; no signal is queued twice |
| `Signals.Thread.TakeNext` | kernel/tasks/signal.c:148-165 | the first pending signal that is not masked is removed |
| `Signals.NextIsFirst` | kernel/tasks/signal.c:148-165 | it is the first one |
| `Signals.Thread.Deliver` | kernel/tasks/signal.c:20-210 | a handler gets a frame below the 128-byte red zone, its signal masked and the restorer as return address; the masked signals are those with a live frame; a fatal default ends the thread, the process iff it is the main thread, and panics iff it is that of init |
| `Signals.Thread.ExitToUser` | kernel/tasks/signal.c:212-226 | the first deliverable signal is delivered on the interrupted registers, or nothing changes |
| `Signals.Thread.ExitFromSyscall` | kernel/tasks/signal.c:228-260 | the same for a system call; with the restart flag the saved registers run the call again, else it returns EINTR; a restart without a deliverable signal panics |
| `Signals.Thread.InterruptLaw` | kernel/tasks/signal.c:212-226 | after an interrupt, the handler of the first deliverable signal is entered and will go back to the interrupted registers, or the thread goes on |
| `Signals.Thread.SyscallLaw` | kernel/tasks/signal.c:228-260 | after a system call, the handler will go back to the call itself if that asked for a restart and the action admits it, else to its result or EINTR |
| `Signals.Thread.Return` | arch/x86_64/x86_platform_api.c:207-217 | registers and masks become what lies at the given address; for the innermost frame these are the ones saved at delivery |
| `Signals.Thread.Fork` | kernel/tasks/fork.c:84-93 | the child has the same masks and the pending signals in reverse order, still without repeats; a fatal signal never ends its process, as fork sets no main thread |
| `Signals.Thread.CopyPending` | kernel/tasks/fork.c:84-93 | the copying loop reverses the list |
| `Signals.ReversedHas` | kernel/tasks/fork.c:84-93 | reversing keeps the members and adds no repeats |
| `Signals.PushedFramesOk` | arch/x86_64/x86_platform_api.c:189-205 | pushing a frame keeps all outer frames and everything from the red zone up intact |
| `Signals.SignalsPop` | kernel/tasks/signal.c:262-266 | unmasking the innermost signal leaves those of the outer frames masked |
| `PageCache.Cache.Read` | kernel/filesystem/page_cache.c:33-55 | the slice of the flat file, over any number of pages, iff all its pages are cached or can be filled; otherwise it stops at the first that cannot, and reads through a null page iff that failure is a null pointer |
| `PageCache.Cache.Write` | kernel/filesystem/page_cache.c:57-88 | exactly the byte range changes and the size rises to the maximum; complete iff all pages can be had, else up to the first that cannot: refused iff that failure is a null pointer, written through the error pointer otherwise |
| `PageCache.Cache.WritePage` | kernel/filesystem/vfs_utils.c:37-57 | one page of a write changes exactly its bytes of the flat file; the begin hook notices a null page only |
| `PageCache.Cache.GetPage` | kernel/filesystem/page_cache.c:13-26 | a miss fills the page once and does not change the flat file; which failure it was |
| `PageCache.Cache.GenericRead` | kernel/filesystem/vfs_utils.c:59-67 | a read with its offset within the size returns the slice cut at the end of the file |
| `PageCache.Cache.WriteThenRead` | kernel/filesystem/vfs_utils.c:59-74 | what was written is what is read back, iff its pages can be had |
| `PageCache.ReadSizeIsCut` | kernel/filesystem/vfs_utils.c:59-67 | the read is cut at the end of the file iff it starts within the file or asks for nothing: 64-bit wrap-around otherwise |
| `PageCache.PatchedFlat` | kernel/filesystem/page_cache.c:57-88 | copying into one page overwrites that range of the flat file |
| `PageCache.OverwrittenChains` | kernel/filesystem/page_cache.c:57-88 | overwriting adjacent ranges is overwriting the whole range |
| `PageCache.TouchesMore` | kernel/filesystem/page_cache.c:33-55 | the pages a range touches, one chunk at a time |
| `ElfStack.UserStack.Setup` | kernel/elf/elf.c:86-154 | the precomputed size is what is pushed, so a 16-aligned top gives a 16-aligned head, with argc, argv, envp, the auxiliary vector and the strings laid out as section 3.4.1 of the System V AMD64 psABI requires |
| `ElfStack.StartUp` | kernel/elf/elf.c:86-154 | reading upward from the head gives back argc, argv, envp, the auxiliary vector and the file name |
| `ElfStack.ReadStart` | kernel/elf/elf.c:86-154 | the layout determines what a program reads from it |
| `ElfStack.PartsOf` | kernel/elf/elf.c:86-154 | where each part of the layout lies |
| `ElfStack.LayoutIs` | kernel/elf/elf.c:116-152 | the pushes build that layout |
| `ElfStack.SizeIs` | kernel/elf/elf.c:96-110 | the size loops count every word and string |
| `ElfStack.UserStack.ComputeSize` | kernel/elf/elf.c:96-110 | the size loops compute that sum |
| `ElfStack.UserStack.PushStrings` | kernel/elf/elf.c:123-144 | strings lie first to last, with their addresses |
| `ElfStack.UserStack.PushContents` | kernel/elf/elf.c:116-147 | the end marker, all strings, and the vectors of their addresses |
| `ElfStack.UserStack.PushVectors` | kernel/elf/elf.c:149-153 | the vectors and argc below them |
| `ElfStack.UserStack.Push` | kernel/lib/structures/stack.c:32-41 | the bytes lie at the new head, above them what was there |

## Left out

Kconfig:

- KconfigEngine.Kconfig.Run: `assignable` values and the `env` and `defconfig_list` options are not modelled; the text of numbers is parsed and printed by two functions that are parameters of the configuration.
- KconfigLaws.NumbersAreClamped: for number functions that read back what they print, and ranges that are not empty; both are the configuration's own.
- KconfigEngine.Kconfig.ComputeTri: the text of the warning about a select with unmet dependencies looks at the selecting symbols and their dependencies too; that is left out with the warnings.
- Kconfig file syntax outside expressions, the macro preprocessor, warnings, and minimal, header and dependency outputs: text processing beside the value engine.
- KconfigFile.ConfigRoundTrip: for configurations without tristate and choice symbols, where it would not hold as a default of y under m visibility changes on reload; string values have no line breaks and number values no trailing white space (`RoundTripExact` says what happens otherwise).
- KconfigFile.RoundTripExact: the two number functions behave like Python's `int`, `str` and `hex` as far as white space goes; values with line breaks are left out, as they are cut into several lines.
- KconfigReload.SaveAndLoad: the same configurations; the regular expressions for assignment lines are modelled as splits at the first `=` and at the fixed not-set text.
- KconfigLoops.LoopSearch.CheckAll: that every loop is found, and the measure, are stated for choice-free graphs, as choices and their symbols form intended cycles; the measure needs MODULES to depend on no tristate symbol.
- KconfigSyntax.PrintParses: works on tokens; splitting text into tokens is left out.

Virtual memory:

- CopyOnWrite.Machine.Run: private mappings only; a store to a shared mapping is also copied by the code, so fork would not be an eager copy of it. Frame allocation always succeeds, there are no execute faults, and the statistics counters of mappings are left out because a split copies them whole.
- VmapList.AddressSpace.Munmap: addresses are unbounded, so wrap-around at 64 bits is left out.
- VmapList.AddressSpace.GetFree: the empty mapping that a request of zero pages attaches is left out.
- CopyOnWrite.Machine.MapFile: the mapping that a refused call leaves in the list for a moment, and its reference to the file, are not part of the views; `IoLifetime.MapCounts` has the reference. The address that takes the place of a zero hint is a parameter.
- Locks of mappings and contexts: each operation is taken as one step, but for the lock that a failing `mmap_file` lacks. Growing the heap is left out; it has no overlap check.

Directory entries:

- DentryCache.Dcache.Get: the number of symbolic links followed is a parameter, `Unfinished` when it is used up, because the source has no bound; the start of the tree is its only root. Which inode a name has does not change while it is cached; creating and removing files are left out.
- DentryPaths.PathLeadsBack: entry names are those a path can hold, and the buffer is large enough (`Path` says what a small one does).
- DentryMount.Mount: mounting on something that is not a directory is `Unmodelled`; the first mount of the root is the constructor.
- DentryMount.Unmount: what is cached below an unmounted root is left behind by the source and cannot be reached; the model drops it. After the root of the whole tree is unmounted there is no state to speak of. File systems have no unmount hook of their own, as in the source.
- The listing of directories: output.

Memory, files and I/O:

- Slab.Allocator.Alloc: slabs are numbered and their records live outside the managed memory; names, locks, statistics and `slab_calloc` are left out. What is written through a wild address is left out.
- Slab.Allocator.Create: for sizes of which a slot fits and that carve cleanly, which is exactly `Regular`; for others slots overlap, as `CarvesCleanlyWhen` says.
- PageCache.Cache.Read: what a buffer holds after an error, and what a wild read or write touches, is left out.
- IoLifetime.IoTable.Dup2: what a target out of range overwrites is left out.
- IoLifetime.IoTable.Run: driver hooks are parameters; after an object is closed its memory is taken to stay readable, as the flag that says so does in the source.
- IoLifetime.IoTable.UnmapAll: all munmap hooks succeed when a process is destroyed; a failing one is `Unmap` beforehand.

Pipes, IPC, threads:

- Pipes.Pipe.Write: what a waiting thread does between regions, signals and the pipe's magic number are left out.
- IpcMessages.Channel.Deliver: one writer and one reader that take turns; fairness among more threads is left out. `ipc_read_as_msg` is left out: it reads the size of the buffer, not of the message.
- IpcServers.SleepersHaveReason: appending to a waitlist and blocking are one step there; `IpcBlocking.NoWakeUpIsLost` has them as two.
- IpcBlocking.HistoryKeeps: blocking includes the switch to the scheduler; after a panic nothing moves.
- IpcServers.RunKeeps: runs are free of signals. A thread that locks a freed server stops there, and what it would overwrite is left out. Servers have a queue of at least one; debug messages, which print names after an unlock, are left out; `ipc` channels after the handshake are pipes.
- Scheduler.NextKeeps: switching and the change of state to blocked or ready are one step, as if no other CPU took the thread before its registers are saved; kernel code is not interrupted, and runs are free of signals; at most INT_MAX threads join one thread. The owner check of a join is left to the caller.
- Scheduler.Kernel.Run: runs in which no thread is removed too early; past such a removal a CPU runs on a thread that no longer exists, and nothing is promised.
- Scheduler.NoJoinerForgotten: the same runs, and so all that remove no thread.
- Scheduler.DeadForGood: the same runs.
- Signals.Thread.Return: at an address other than that of the innermost frame, memory that holds no saved registers or signal reads as fixed values.
- Signals.Thread.RunHandler: user code does not write into live frames and keeps its stack pointer below them; the bounds and the 64-bit width of the stack are left out. Signal numbers are a parameter; sending to a process picks a thread and adds nothing.
- RpcArgs.Context.Get: what lies behind the request, which the source goes on reading, is left out.
- ElfStack.UserStack.Setup: everything fits the stack, where the source panics otherwise; argc is unbounded.
- RpcArgs.Call.Add: protobuf arguments and results are library calls.

Hardware, interrupt and boot code, consoles, logging and sysfs are left out: they have no visible semantics or only produce text.
