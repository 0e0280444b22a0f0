# sdtop service monitoring core, modelled in Dafny

sdtop is a terminal dashboard for systemd services. This project models the four parts that do the work:

- **Process discovery** (`processes.dfy`, `forest.dfy`). It finds a service's processes by scanning `/proc` cgroup files. It reads each process's `stat` and `cmdline` and links the processes into a forest by parent pid.
- **Journal history** (`logs.dfy`). It flushes the journal's matches and adds a `_SYSTEMD_UNIT=` match. Then it seeks to the tail, steps back up to `count` entries and reads forward up to `count` entries. Each entry's priority is mapped to a severity and its realtime stamp is scaled to nanoseconds.
- **Unit control** (`services.dfy`). It lists the `.service` units over D-Bus and forwards restart, stop, start, enable and disable requests. A successful enable or disable is followed by a reload.
- **The dashboard state machine** (`ui.dfy`). It is the Bubble Tea `Update` reducer over the model's fields. It also holds the service filters, the command runners and the process-tree rendering.

`text.dfy` models the Go byte-string helpers the core uses: `strings.Contains`, `HasSuffix`, `Index`, `LastIndex`, `Fields`, `TrimSpace`, `ReplaceAll` and `strconv.Atoi`. `Fields` and `TrimSpace` recognise every character `unicode.IsSpace` accepts by its UTF-8 bytes: the ASCII white space, U+0085, U+00A0 and the wide spaces from U+1680 to U+3000. `types.dfy` holds the records of `internal/types/models.go` and a few shared wrappers. Strings are byte sequences, and Go's `error` becomes `Result`/`Option`.

The systems outside the program are values or objects:

- **The `/proc` tree** is a snapshot value (`ProcFs`).
- **The journal** is a `Journal` object. It holds the records, the match list, a cursor and an outcome sequence that decides which calls fail. It also keeps a ghost trace of the calls made.
- **The D-Bus connection** is a `Bus` object. It holds the units, the unit properties, an outcome sequence and a ghost call trace.

Each object method is specified by a step function on the object's value (`ensures Answer(r, State()) == XStep(old(State()))`). The properties are lemmas on those functions.

Some behaviours of the code worth knowing, all of which the model keeps:

- Key `p` toggles between the log view and the process-tree view.
- A loaded result is applied whichever service is selected when it arrives.
- `selectService` leaves the tree view as it is.
- The error slot is never cleared.
- A filtered list becomes the base list for later filters, so choosing "all" after "running" still shows only the running services (`Ui.FilterNarrowsBase`).

## Model

| member | source | states |
|---|---|---|
| Text.ContainsIffOccurs | internal/systemd/processes.go:92-93 | `strings.Contains` holds exactly when the needle occurs at some offset of the haystack |
| Text.ContainsSuffixPart | internal/systemd/processes.go:92-93 | containing `"system.slice/" + name` implies containing `name` |
| Text.IndexByte | internal/systemd/processes.go:198 | -1 exactly when the byte is absent, else the position of its first occurrence |
| Text.LastIndexByte | internal/systemd/processes.go:199 | -1 exactly when the byte is absent, else the position of its last occurrence |
| Text.Fields | internal/systemd/processes.go:207 | every field is non-empty and no white-space character starts in it |
| Text.FieldsOfWord | internal/systemd/processes.go:207 | a word in which no white space starts, followed by a white-space character, is the first field, and splitting goes on from that white space |
| Text.FieldsSkipSpace | internal/systemd/processes.go:207 | a run of white-space characters in front produces no field |
| Text.LeadSpace | internal/systemd/processes.go:207 | the length of the white-space character a text starts with, 1 to 3 bytes, or 0; no other length encodes one |
| Text.TrimSpace | internal/systemd/processes.go:187 | the result neither starts nor ends with a white-space character and is the input with only runs of white-space characters cut from both ends |
| Text.TrimRight | internal/systemd/processes.go:187 | the result is a prefix of the input, only white-space characters were cut, and it does not end in one |
| Text.ReplaceNul | internal/systemd/processes.go:186 | same length, every NUL byte becomes a space, every other byte is kept |
| Text.ParseUint | internal/systemd/processes.go:79 | succeeds exactly on a non-empty run of digits whose value fits 64 bits, and returns that value |
| Text.Atoi | internal/systemd/processes.go:79 | the value lies in the int64 range; a failed parse gives 0 or the clamped bound |
| Text.FormatNatValue | internal/systemd/processes.go:85 | the decimal text of `n` reads back as `n` |
| Text.AtoiFormatInt | internal/systemd/processes.go:79-85 | `Atoi(FormatInt(n))` succeeds with `n` for every int64 `n` |
| ProcessForest.PidIndexSpec | internal/systemd/processes.go:40 | `processMap` maps each read pid to the last read process with that pid, and every read pid is a key |
| ProcessForest.ParentSlot | internal/systemd/processes.go:47 | the parent slot names a read process with the parent pid, and is missing exactly when no read process has that pid |
| ProcessForest.SlotsIn | internal/systemd/processes.go:47-48 | a process has a parent slot exactly when its parent pid is a key of the map |
| ProcessForest.Slots | internal/systemd/processes.go:47-48 | the slots of the real map are the parent slots of each process |
| ProcessForest.Placed | internal/systemd/processes.go:46-53 | a placed list holds only earlier processes whose slot is the given one |
| ProcessForest.ChildListsArePlaced | internal/systemd/processes.go:46-53 | child list `j` is exactly the processes whose parent slot is `j`, in discovery order |
| ProcessForest.Layout | internal/systemd/processes.go:45-61 | every child list and the root list index real processes |
| ProcessForest.PlacedAscending | internal/systemd/processes.go:46-53 | roots and every child list keep discovery order |
| ProcessForest.PlacedIff | internal/systemd/processes.go:46-53 | a process is in a placed list exactly when its slot is that list's slot |
| ProcessForest.PlacedExactlyOnce | internal/systemd/processes.go:45-54 | the roots and all child lists together hold every read process exactly once |
| ProcessForest.LayoutSpec | internal/systemd/processes.go:45-54 | a process is a child of `j` exactly when its parent pid maps to `j`, and a root exactly when no read process has its parent pid; each process is placed once |
| ProcessForest.FallbackRoot | internal/systemd/processes.go:56-59 | with no root, the result is the first process alone, and that process's parent pid is itself among the read ones |
| ProcessForest.LinkProcesses | internal/systemd/processes.go:44-61 | the linking loop appends each process to its parent's list or to the roots; with the real map it yields the layout |
| ProcessForest.Unfold | internal/systemd/processes.go:49 | an unfolded process carries its record's pid, name, command line and parent; with depth left it has one child per child-list entry, each carrying that entry's record, in list order; with none it has no children |
| ProcessForest.Trees | internal/systemd/processes.go:58-61 | one tree per root, in root order, each carrying its root record's pid, name, command line and parent and one child per entry of its child list |
| ProcessForest.ChildNamesParent | internal/systemd/processes.go:46-53 | in the linked trees every child's parent pid is the pid of the process it hangs under |
| Processes.InServiceIffContainsName | internal/systemd/processes.go:92-93 | the two-pronged cgroup test is the same as "contains the service name" |
| Processes.CollectMembers | internal/systemd/processes.go:74-96 | a pid is collected exactly when some entry's verdict yields it |
| Processes.CollectConcat | internal/systemd/processes.go:74-96 | collecting two runs of entries is collecting each in turn |
| Processes.MemberPidsSpec | internal/systemd/processes.go:65-99 | a pid is a member exactly when a numeric directory entry with that pid has a readable cgroup file containing the service name |
| Processes.GetAllServicePids | internal/systemd/processes.go:65-99 | the scan loop returns exactly the member pids, in listing order |
| Processes.ExamineMember | internal/systemd/processes.go:75-95 | the per-entry checks of the scan give the membership verdict |
| Processes.GetServiceMainPid | internal/systemd/processes.go:102-154 | the listing error is passed on; no member gives "no process found"; otherwise the least member pid |
| Processes.FindChildren | internal/systemd/processes.go:226-267 | exactly the pids whose stat ppid equals the parent, in listing order |
| Processes.ChildPidsSpec | internal/systemd/processes.go:226-267 | a pid is a child exactly when a numeric directory entry with that pid has a readable stat file whose ppid field is the parent |
| Processes.ExamineChild | internal/systemd/processes.go:235-263 | the per-entry checks give the child verdict |
| Processes.SplitStat | internal/systemd/processes.go:198-205 | without a `(` or a `)` the name and the rest are empty |
| Processes.SplitStatSpec | internal/systemd/processes.go:197-211 | the slice panics exactly when the last `)` precedes the first `(`; otherwise the name lies strictly between them and the rest follows the `)` |
| Processes.DelimitersAt | internal/systemd/processes.go:198-199 | the indices found are the first `(` and the last `)` |
| Processes.ParseKernelStat | internal/systemd/processes.go:196-211 | a kernel stat line splits back to its comm, whatever bytes the comm holds |
| Processes.TailPpid | internal/systemd/processes.go:207-209 | the ppid is the second field after the `)` |
| Processes.CmdlineText | internal/systemd/processes.go:186-215 | never empty; a blank command line becomes `[name]`; otherwise it is the file with NULs turned to spaces and white space trimmed from both ends, so it holds no NUL and neither starts nor ends with white space |
| Processes.CmdlineOfArgv | internal/systemd/processes.go:186-187 | an argv stored NUL-separated is shown space-separated |
| Processes.GetProcessInfo | internal/systemd/processes.go:178-223 | unreadable exactly when cmdline or stat is missing; panics exactly on an inverted stat; otherwise a childless process with the asked pid, the name between the stat parentheses, the ppid field after the `)` (0 when missing) and the shown command line |
| Processes.GatherSpec | internal/systemd/processes.go:35-42 | the first pass panics exactly when some read panics; otherwise it keeps the readable processes, at most one per pid read |
| Processes.GatherFrom | internal/systemd/processes.go:35-42 | every kept process comes from a successful read |
| Processes.PanicSticks | internal/systemd/processes.go:35-42 | once a read has panicked, later reads do not undo it |
| Processes.ReadAllSpec | internal/systemd/processes.go:35-42 | panics exactly when some pid's read does; every readable pid's process is kept; every kept process has a listed pid and no children |
| Processes.ReadProcesses | internal/systemd/processes.go:31-42 | the first loop builds the kept processes and the pid map of the last process per pid |
| Processes.GetServiceProcesses | internal/systemd/processes.go:22-62 | no member pid gives "service not running or no processes found"; a stat panic propagates; otherwise the trees of the layout |
| Processes.NothingReadable | internal/systemd/processes.go:35-61 | when no member can be read the result is an empty list and no error |
| Logs.FirstVisibleSpec | internal/systemd/logs.go:136 | the next step lands on the first matching record at or after the position |
| Logs.LastVisibleSpec | internal/systemd/logs.go:127 | the previous step lands on the last matching record before the position |
| Logs.Journal.Open | internal/systemd/logs.go:27-33 | a fresh journal has no matches and its cursor before the first record |
| Logs.Journal.FlushMatches | internal/systemd/logs.go:113 | the match list becomes empty |
| Logs.Journal.AddMatch | internal/systemd/logs.go:116 | on success the term is appended to the matches; the outcome decides failure |
| Logs.Journal.SeekTail | internal/systemd/logs.go:121 | the cursor moves past the last record unless the call fails |
| Logs.Journal.Previous | internal/systemd/logs.go:127 | moves to the previous matching record and reports 1, or reports 0 and stays |
| Logs.Journal.Next | internal/systemd/logs.go:136 | moves to the next matching record and reports 1, or reports 0 and stays |
| Logs.Journal.GetEntry | internal/systemd/logs.go:141 | the record under the cursor, or an error |
| Logs.Severity | internal/systemd/logs.go:150-161 | always "error", "warn" or "info"; "info" when the priority does not parse |
| Logs.SeverityOfPriority | internal/systemd/logs.go:150-161 | priority `p` gives "error" for `p <= 3` (negatives included), "warn" for 4 and "info" above |
| Logs.ToInt64 | internal/systemd/logs.go:148 | the result is in the int64 range and equals an input already in range |
| Logs.TimestampScales | internal/systemd/logs.go:148 | the nanosecond stamp is the microsecond stamp times 1000 when that fits in int64 |
| Logs.LogsOf | internal/systemd/logs.go:163-167 | one entry per record read, in reading order, each built from that record |
| Logs.LogReader.constructor | internal/systemd/logs.go:27-33 | the reader owns the given journal |
| Logs.LogReader.GetRecentLogs | internal/systemd/logs.go:111-171 | the result and the journal after it are those of `RecentLogs` |
| Logs.LogReader.StepBack | internal/systemd/logs.go:125-130 | the backward loop leaves the journal as `count` guarded previous steps do |
| Logs.LogReader.ReadEntries | internal/systemd/logs.go:132-168 | the forward loop returns the entries of the records `count` guarded next steps read |
| Logs.PreviousStepSpec | internal/systemd/logs.go:127 | a previous step keeps records and matches, never moves the cursor forward, and records one call |
| Logs.BackStepsSpec | internal/systemd/logs.go:126-130 | the backward phase makes at most `count` previous calls, no other call, and never moves forward |
| Logs.NextStepSpec | internal/systemd/logs.go:136 | a next step keeps records and matches, never moves back, and records one call |
| Logs.ReadForwardCalls | internal/systemd/logs.go:134-168 | the forward phase makes at most `count` next calls and only next and fetch calls |
| Logs.ReadForwardFrame | internal/systemd/logs.go:134-168 | the forward phase keeps records and matches, never moves back, and reads at most `count` entries |
| Logs.ReadForwardAcc | internal/systemd/logs.go:132-168 | the entries read are appended after those already collected |
| Logs.ReadForwardOrder | internal/systemd/logs.go:134-168 | the records read are matching, in range, and at strictly increasing positions between the start and the final cursor |
| Logs.RecentReadsErrors | internal/systemd/logs.go:113-123 | an AddMatch or SeekTail failure returns the wrapped error after exactly the calls up to it; no other error is possible |
| Logs.RecentReadsWindow | internal/systemd/logs.go:111-171 | on success the matches are exactly the unit's term; at most `count` entries; each is a record of that unit, oldest first; at most `count` previous and `count` next calls |
| Logs.RecentLogsWindow | internal/systemd/logs.go:111-171 | fails exactly when the reads fail; on success at most `count` entries, each built from a record of the journal carrying the unit's term, at strictly increasing positions |
| Services.Bus.Connect | internal/systemd/services.go:17-23 | a fresh connection with no calls made |
| Services.Bus.ListUnits | internal/systemd/services.go:34 | the units, or the call's error |
| Services.Bus.GetServiceProperty | internal/systemd/services.go:98 | the property's value, or the call's error |
| Services.ServiceIndicesSpec | internal/systemd/services.go:40-44 | the kept positions are in range, strictly increasing, and exactly those of units whose name ends in ".service" |
| Services.ServicesOfSpec | internal/systemd/services.go:39-53 | the list is the units at the kept positions, in order, each converted |
| Services.ServicesOfFields | internal/systemd/services.go:42-52 | every listed service ends in ".service" and has an empty unit-file state |
| Services.Manager.constructor | internal/systemd/services.go:17-23 | the manager owns the given connection |
| Services.Manager.ListServices | internal/systemd/services.go:33-56 | the ListUnits error is passed on; otherwise the service list of the units |
| Services.Manager.RestartService | internal/systemd/services.go:59-62 | one RestartUnit call in "replace" mode; its error is returned |
| Services.Manager.StopService | internal/systemd/services.go:65-68 | one StopUnit call in "replace" mode; its error is returned |
| Services.Manager.StartService | internal/systemd/services.go:71-74 | one StartUnit call in "replace" mode; its error is returned |
| Services.Manager.EnableService | internal/systemd/services.go:77-84 | the EnableUnitFiles call, then a reload only if it succeeded |
| Services.Manager.DisableService | internal/systemd/services.go:87-94 | the DisableUnitFiles call, then a reload only if it succeeded |
| Services.Manager.GetServiceProperty | internal/systemd/services.go:97-99 | passes the connection's answer through |
| Services.FileChangeSpec | internal/systemd/services.go:77-94 | the error is the unit-file call's; a reload follows exactly when it succeeded; the result is nil whatever the reload did |
| Ui.Model.constructor | internal/ui/model.go:117-140 | a fresh model: no service, filter "all", log view, empty lists |
| Ui.Model.Init | internal/ui/model.go:143-148 | asks for the service list and starts the timer |
| Ui.Model.Cancel | internal/ui/model.go:186-188 | calls the installed cancel function, if any |
| Ui.Model.SelectService | internal/ui/model.go:352-366 | the model after `selectService` and the log refresh it asks for |
| Ui.Model.CycleFilter | internal/ui/model.go:454-464 | the next filter mode and a filter request |
| Ui.Model.HandleKey | internal/ui/model.go:183-272 | the key branches of `Update` |
| Ui.Model.Update | internal/ui/model.go:179-349 | the model and the command after one message |
| Ui.Model.HandleLoaded | internal/ui/model.go:295-336 | the loaded-result branches of `Update` |
| Ui.Model.HandleSignal | internal/ui/model.go:274-321 | the window, error, status and timer branches of `Update` |
| Ui.Model.ApplyFilter | internal/ui/model.go:467-495 | the filter command reports the services of the base list that the current mode shows |
| Ui.Model.LoadServices | internal/ui/model.go:151-163 | reports the service list or "Failed to list services: " and the error |
| Ui.Model.RefreshLogs | internal/ui/model.go:369-377 | reports the last 100 entries of the service selected when it runs, or "Failed to read logs: " and the error |
| Ui.Model.LoadProcessTree | internal/ui/model.go:393-401 | reports the selected service's forest or "Failed to load processes: " and the error; a stat panic ends the program |
| Ui.Model.RunControl | internal/ui/model.go:404-451 | makes the lifecycle call on the service selected when it runs and reports its status text or its error |
| Ui.ShownIndicesSpec | internal/ui/model.go:471-486 | the shown positions are in range, strictly increasing, and exactly those the mode's test accepts |
| Ui.FilteredSpec | internal/ui/model.go:467-494 | a filter result is the base list at the shown positions: an order-preserving subsequence |
| Ui.FilteredKeepsAll | internal/ui/model.go:484-485 | any mode other than "running" and "failed" keeps the whole list |
| Ui.FilteredIdempotent | internal/ui/model.go:467-494 | filtering again with the same mode changes nothing |
| Ui.Truncate | internal/ui/model.go:604-609 | at most `maxLen` bytes; unchanged exactly when it fits; otherwise the first `maxLen - 3` bytes and "..." |
| Ui.ChildPrefixExtends | internal/ui/model.go:589-596 | a child's prefix strictly extends its parent's |
| Ui.RenderProcessSpec | internal/ui/model.go:563-601 | one row per process in pre-order, each with its process's pid, name and command line cut to 60 bytes; the first row is at the caller's prefix with the connector for that prefix and last flag and is the only row there; the other rows lie under the child prefix |
| Ui.RenderChildrenSpec | internal/ui/model.go:598-600 | the children's rows show their trees' processes in pre-order, all under the child prefix |
| Ui.RenderChildrenHeads | internal/ui/model.go:568-600 | the rows drawn at exactly the child prefix are the children's own rows, one per child in order, the last child's with the last connector and the others' with the middle one |
| Ui.RenderForestSpec | internal/ui/model.go:550-552 | the tree view shows every process of the forest once, tree after tree, in pre-order, by pid, name and cut command line; the rows with no prefix are the roots, in order, each with the top connector |
| Ui.NoBootTagWhenListed | internal/ui/model.go:92-98 | no service that ListServices produces ever shows the " [boot]" tag |
| Ui.InitialSessionsClosed | internal/ui/model.go:132-139 | a fresh model has no log session |
| Ui.SelectKeepsSessionsClosed | internal/ui/model.go:352-366 | selecting a service cancels the session it replaces |
| Ui.UpdateKeepsSessionsClosed | internal/ui/model.go:179-366 | after any message at most one log session is left uncancelled |
| Ui.ToggleWithoutService | internal/ui/model.go:246-254 | key p with no service selected changes nothing |
| Ui.ToggleTwice | internal/ui/model.go:246-254 | key p flips the view and asks for the tree only when switching it on; pressing it twice restores the model |
| Ui.BackToLogs | internal/ui/model.go:256-261 | key l leaves the tree view and changes nothing else |
| Ui.CycleThree | internal/ui/model.go:454-463 | key f steps all, running, failed and back to all; three steps return to the start; any other mode stays |
| Ui.SelectSpec | internal/ui/model.go:191-195 | enter on a listed service cancels the old session, selects the service with empty logs, keeps the view mode and asks for its logs |
| Ui.ControlSpec | internal/ui/model.go:197-225 | a lifecycle key changes no field and asks for the request only when a service is selected |
| Ui.TickSpec | internal/ui/model.go:316-321 | a tick always re-arms and asks for logs only when a service is selected in the log view |
| Ui.LoadedSpec | internal/ui/model.go:323-336 | loaded logs replace the buffer only in the log view; loaded processes always replace theirs |
| Ui.ErrorSticks | internal/ui/model.go:301-303 | no message other than an error touches the error slot |
| Ui.FilterNarrowsBase | internal/ui/model.go:295-299 | a delivered filter result becomes the base list, so "all" afterwards shows only what the filter kept |

## Left out

- Real I/O is not modelled. `/proc` is a snapshot value, and the journal and the D-Bus connection are objects whose failures come from an outcome sequence. Nothing models timing or the contents the OS would really produce.
- Logs.Journal: the cursor semantics are chosen for this model. Previous and Next move to the adjacent matching record, and SeekTail places the cursor after the last record. Exact libsystemd positioning is not claimed. Under this choice, stepping back `n` and then forward `n` does not re-read the record the backward phase stopped on. Only the bound, the order, the filter, the call counts and the error paths are proved, and they do not depend on that choice.
- Logs.Visible: a record is visible when every match term is one of its `field=value` pairs. libsystemd ORs together matches on the same field; the reader only ever adds one match, so nothing here depends on that.
- `StreamLogs`/`followLogs` (internal/systemd/logs.go:43-108) are not modelled. They are goroutine and cancellation code, and the loop discards every entry it reads.
- `NewLogReader` and `NewManager` failing to connect, and `Close`, are not modelled. The constructors take an already open journal or connection.
- `buildProcessTree` (internal/systemd/processes.go:157-175) is not modelled. It is never called.
- Processes.ReadProcesses takes the per-pid read as a parameter. The real one is `ProcReader(fs)`, the snapshot's `GetProcessInfo`, and GetServiceProcesses passes exactly that.
- ProcessForest.Unfold follows children to a depth of at most the number of processes. Only a cyclic parent relation, which a racing `/proc` can produce, goes deeper; on one, the Go rendering would recurse forever.
- ProcessForest.Trees: every record is placed exactly once in the layout (`LayoutSpec`), but that the unfolded trees hold each record exactly once is not proved; on a cyclic parent relation they do not.
- The shared `*Process` references are modelled as indices into the list of read processes (`Forest`). Aliasing between the returned trees is not modelled.
- `time.Time` is an integer count of nanoseconds, and `Timestamp.Format` is not modelled.
- `GetServiceProperty` returns a D-Bus variant; here it returns bytes.
- Presentation is not modelled: `View`, `renderStatusBar`, the empty-state texts, lipgloss styling, `serviceItem.Description` colouring and the log line formatting. The bubbles list and viewport are not modelled either: their sizes and content, list navigation and filtering. `Update` hands those messages to the widgets as the `ListInput`/`Widgets` effects, and the list cursor is a field that only the widget moves.
- Ui.RenderProcess returns rows rather than writing into a `strings.Builder`. `RowText` gives each row's text without its styling, and the header and footer of `formatProcessTree` are not modelled.
- Timers are the effect values `TickCmd` and `ClearStatusLater`; their delays are not modelled.
- A panic inside a command (the stat slice in the tree load) is `None` from `LoadProcessTree`. Program termination is not modelled further.
