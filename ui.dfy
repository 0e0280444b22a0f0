/** The dashboard's state machine (internal/ui/model.go): a reducer over the
    model's fields driven by key, timer and result messages. The commands it
    hands back to the event loop are modelled as Effect values; running a
    command is a method on the model that reads the model's fields at the time
    it runs (the Go commands are closures over the model) and talks to
    the systemd components. */
module Ui {
  import opened Text
  import opened Types
  import Services
  import Logs
  import Processes
  import ProcessForest

  // ---------------------------------------------------------------- messages and effects

  /** The messages Update receives. */
  datatype Msg =
    | KeyMsg(key: Bytes)
    | WindowSizeMsg(width: int, height: int)
    | ServicesLoadedMsg(services: seq<Service>)
    | ErrorMsg(text: Bytes)
    | StatusMsg(text: Bytes)
    | ClearStatusMsg
    | TickMsg
    | LogsLoadedMsg(logs: seq<LogEntry>)
    | ProcessesLoadedMsg(processes: seq<Process>)
    | OtherMsg

  /** The lifecycle requests bound to keys r, s, t, e and d. */
  datatype Action = Restart | Stop | Start | Enable | Disable

  /** The command Update asks the event loop to run. */
  datatype Effect =
    | NoEffect
    | QuitProgram
    | LoadServicesCmd
    | TickCmd             // a TickMsg after 500 ms
    | ClearStatusLater    // a ClearStatusMsg after 2 s
    | RefreshLogsCmd
    | LoadTreeCmd
    | Control(action: Action)
    | ApplyFilterCmd
    | ListInput           // the service list widget's own handling of a key
    | Widgets             // the list's and the log viewport's own handling of the message
    | Batch(effects: seq<Effect>)

  // ---------------------------------------------------------------- the model as a value

  /** The model's fields. `hasCancel` is whether a log-stream cancel function
      is installed; `sessions` counts the cancel functions created so far (the
      installed one is number `sessions`) and `cancelled` lists, in order, the
      numbers of the ones that were called. `cursor` is the service list's
      selected row, which the list widget moves. */
  datatype UiState = UiState(
    currentService: Bytes,
    showProcessTree: bool,
    filterMode: Bytes,
    services: seq<Service>,
    allServices: seq<Service>,
    logs: seq<LogEntry>,
    processes: seq<Process>,
    statusMsg: Bytes,
    errMsg: Bytes,
    width: int,
    height: int,
    ready: bool,
    cursor: int,
    hasCancel: bool,
    sessions: nat,
    cancelled: seq<nat>)

  type UiAnswer = Answer<Effect, UiState>

  const AllMode: Bytes := "all"
  const RunningMode: Bytes := "running"
  const FailedMode: Bytes := "failed"

  /** NewModel. */
  function Initial(): UiState
  {
    UiState([], false, AllMode, [], [], [], [], [], [], 0, 0, false, 0, false, 0, [])
  }

  /** The service the list shows as selected, if any. */
  function Selected(s: UiState): Option<Service>
  {
    if 0 <= s.cursor < |s.services| then Some(s.services[s.cursor]) else None
  }

  /** Calls the installed cancel function, if there is one. */
  function CancelLogs(s: UiState): UiState
  {
    if s.hasCancel then s.(cancelled := s.cancelled + [s.sessions]) else s
  }

  /** selectService: cancel the previous stream, switch to `name` with no
      logs, install a fresh cancel function and ask for its logs. */
  function SelectStep(s: UiState, name: Bytes): UiAnswer
  {
    var c := CancelLogs(s);
    Answer(RefreshLogsCmd, c.(currentService := name, logs := [], hasCancel := true, sessions := s.sessions + 1))
  }

  /** The filter mode after `mode` in the cycle all, running, failed. */
  function NextMode(mode: Bytes): Bytes
  {
    if mode == AllMode then RunningMode
    else if mode == RunningMode then FailedMode
    else if mode == FailedMode then AllMode
    else mode
  }

  function CycleStep(s: UiState): UiAnswer
  {
    Answer(ApplyFilterCmd, s.(filterMode := NextMode(s.filterMode)))
  }

  function ActionOf(key: Bytes): Option<Action>
  {
    if key == "r" then Some(Restart)
    else if key == "s" then Some(Stop)
    else if key == "t" then Some(Start)
    else if key == "e" then Some(Enable)
    else if key == "d" then Some(Disable)
    else None
  }

  function ModeOf(key: Bytes): Option<Bytes>
  {
    if key == "1" then Some(AllMode)
    else if key == "2" then Some(RunningMode)
    else if key == "3" then Some(FailedMode)
    else None
  }

  /** The key handling of Update. */
  function KeyStep(s: UiState, key: Bytes): UiAnswer
  {
    if key == "q" || key == "ctrl+c" then Answer(QuitProgram, CancelLogs(s))
    else if key == "enter" then
      (if Selected(s).Some? then SelectStep(s, Selected(s).value.name) else Answer(Widgets, s))
    else if ActionOf(key).Some? then
      (if s.currentService != [] then Answer(Control(ActionOf(key).value), s) else Answer(Widgets, s))
    else if key == "f" then CycleStep(s)
    else if ModeOf(key).Some? then Answer(ApplyFilterCmd, s.(filterMode := ModeOf(key).value))
    else if key == "p" then
      (if s.currentService == [] then Answer(NoEffect, s)
       else if s.showProcessTree then Answer(NoEffect, s.(showProcessTree := false))
       else Answer(LoadTreeCmd, s.(showProcessTree := true)))
    else if key == "l" then Answer(NoEffect, s.(showProcessTree := false))
    else if key == "up" || key == "k" || key == "down" || key == "j" then Answer(ListInput, s)
    else Answer(Widgets, s)
  }

  /** Update. */
  function UpdateStep(s: UiState, msg: Msg): UiAnswer
  {
    match msg
    case KeyMsg(key) => KeyStep(s, key)
    case WindowSizeMsg(w, h) => Answer(NoEffect, s.(width := w, height := h, ready := true))
    case ServicesLoadedMsg(list) => Answer(NoEffect, s.(services := list, allServices := list))
    case ErrorMsg(text) => Answer(NoEffect, s.(errMsg := text))
    case StatusMsg(text) => Answer(ClearStatusLater, s.(statusMsg := text))
    case ClearStatusMsg => Answer(NoEffect, s.(statusMsg := []))
    case TickMsg =>
      if s.currentService != [] && !s.showProcessTree then Answer(Batch([TickCmd, RefreshLogsCmd]), s)
      else Answer(TickCmd, s)
    case LogsLoadedMsg(logs) => Answer(NoEffect, if s.showProcessTree then s else s.(logs := logs))
    case ProcessesLoadedMsg(ps) => Answer(NoEffect, s.(processes := ps))
    case OtherMsg => Answer(Widgets, s)
  }

  // ---------------------------------------------------------------- the filters

  /** Whether the filter `mode` shows `svc`. */
  predicate Shows(mode: Bytes, svc: Service)
  {
    if mode == RunningMode then svc.subState == "running" || svc.activeState == "active"
    else if mode == FailedMode then svc.activeState == "failed" || svc.subState == "failed"
    else true
  }

  /** The services of `all` that `mode` shows, in order. */
  function Filtered(mode: Bytes, all: seq<Service>): seq<Service>
  {
    if all == [] then []
    else
      var last := all[|all| - 1];
      Filtered(mode, all[..|all| - 1]) + (if Shows(mode, last) then [last] else [])
  }

  /** The positions in `all` of the services `mode` shows, in increasing order. */
  function ShownIndices(mode: Bytes, all: seq<Service>): seq<nat>
  {
    if all == [] then []
    else
      var last := |all| - 1;
      ShownIndices(mode, all[..last]) + (if Shows(mode, all[last]) then [last] else [])
  }

  /** The shown positions are in range, strictly increasing, and are exactly
      the positions of the services the mode shows. */
  lemma {:induction false} ShownIndicesSpec(mode: Bytes, all: seq<Service>)
    ensures forall k :: 0 <= k < |ShownIndices(mode, all)| ==> ShownIndices(mode, all)[k] < |all|
    ensures forall k, l :: 0 <= k < l < |ShownIndices(mode, all)| ==> ShownIndices(mode, all)[k] < ShownIndices(mode, all)[l]
    ensures forall i :: 0 <= i < |all| ==> (Shows(mode, all[i]) <==> i in ShownIndices(mode, all))
  {
    if all != [] {
      var last := |all| - 1;
      var init := all[..last];
      var before := ShownIndices(mode, init);
      var idx := ShownIndices(mode, all);
      ShownIndicesSpec(mode, init);
      assert idx == before + (if Shows(mode, all[last]) then [last] else []);
      forall i | 0 <= i < |all|
        ensures Shows(mode, all[i]) <==> i in idx
      {
        if i < last {
          assert init[i] == all[i];
        } else {
          assert i !in before;
        }
      }
    }
  }

  /** A filter's result is `all` at the shown positions: an order-preserving
      subsequence holding every service the mode shows and nothing else. */
  lemma {:induction false} FilteredSpec(mode: Bytes, all: seq<Service>)
    ensures |Filtered(mode, all)| == |ShownIndices(mode, all)|
    ensures forall k :: 0 <= k < |ShownIndices(mode, all)| ==>
      ShownIndices(mode, all)[k] < |all| && Filtered(mode, all)[k] == all[ShownIndices(mode, all)[k]]
  {
    if all != [] {
      var last := |all| - 1;
      var init := all[..last];
      FilteredSpec(mode, init);
      ShownIndicesSpec(mode, init);
      var r0, idx0 := Filtered(mode, init), ShownIndices(mode, init);
      var r, idx := Filtered(mode, all), ShownIndices(mode, all);
      assert r == r0 + (if Shows(mode, all[last]) then [all[last]] else []);
      assert idx == idx0 + (if Shows(mode, all[last]) then [last] else []);
      forall k | 0 <= k < |idx|
        ensures idx[k] < |all| && r[k] == all[idx[k]]
      {
        if k < |idx0| {
          assert r[k] == r0[k] && idx[k] == idx0[k];
          assert init[idx0[k]] == all[idx0[k]];
        }
      }
    }
  }

  /** Any mode other than running and failed shows every service. */
  lemma {:induction false} FilteredKeepsAll(mode: Bytes, all: seq<Service>)
    requires mode != RunningMode && mode != FailedMode
    ensures Filtered(mode, all) == all
  {
    if all != [] {
      FilteredKeepsAll(mode, all[..|all| - 1]);
      assert all[..|all| - 1] + [all[|all| - 1]] == all;
    }
  }

  /** Filtering twice with the same mode is filtering once. */
  lemma {:induction false} FilteredIdempotent(mode: Bytes, all: seq<Service>)
    ensures Filtered(mode, Filtered(mode, all)) == Filtered(mode, all)
  {
    if all != [] {
      var init := all[..|all| - 1];
      var last := all[|all| - 1];
      FilteredIdempotent(mode, init);
      var f := Filtered(mode, all);
      if Shows(mode, last) {
        assert f == Filtered(mode, init) + [last];
        assert f[..|f| - 1] == Filtered(mode, init) && f[|f| - 1] == last;
      } else {
        assert f == Filtered(mode, init);
      }
    }
  }

  lemma FilteredStep(mode: Bytes, all: seq<Service>, i: nat)
    requires i < |all|
    ensures Filtered(mode, all[..i + 1]) == Filtered(mode, all[..i]) + (if Shows(mode, all[i]) then [all[i]] else [])
  {
    assert all[..i + 1][..i] == all[..i];
  }

  // ---------------------------------------------------------------- what the commands report

  /** The message a lifecycle command reports. */
  function ControlMsg(action: Action, name: Bytes, err: Option<Bytes>): Msg
  {
    match action
    case Restart => if err.Some? then ErrorMsg("Failed to restart: " + err.value) else StatusMsg("Restarting " + name + "...")
    case Stop => if err.Some? then ErrorMsg("Failed to stop: " + err.value) else StatusMsg("Stopping " + name + "...")
    case Start => if err.Some? then ErrorMsg("Failed to start: " + err.value) else StatusMsg("Starting " + name + "...")
    case Enable => if err.Some? then ErrorMsg("Failed to enable: " + err.value) else StatusMsg("Enabled " + name + " on boot " + CheckMark)
    case Disable => if err.Some? then ErrorMsg("Failed to disable: " + err.value) else StatusMsg("Disabled " + name + " from boot")
  }

  /** U+2713 CHECK MARK in UTF-8. */
  const CheckMark: Bytes := "\U{E2}\U{9C}\U{93}"

  /** The call a lifecycle request makes on the connection. */
  function ActionCall(action: Action, name: Bytes): Services.BusCall
  {
    match action
    case Restart => Services.RestartUnitCall(name, Services.ReplaceMode)
    case Stop => Services.StopUnitCall(name, Services.ReplaceMode)
    case Start => Services.StartUnitCall(name, Services.ReplaceMode)
    case Enable => Services.EnableUnitFilesCall([name], false, true)
    case Disable => Services.DisableUnitFilesCall([name], false)
  }

  /** The connection after a lifecycle request, with its error. */
  function ActionStep(s: Services.BusState, action: Action, name: Bytes): Services.BusAnswer<Option<Bytes>>
  {
    if action.Enable? || action.Disable? then Services.FileChange(s, ActionCall(action, name))
    else Services.Perform(s, ActionCall(action, name))
  }

  function ServicesMsg(r: Result<seq<Service>>): Msg
  {
    if r.Err? then ErrorMsg("Failed to list services: " + r.error) else ServicesLoadedMsg(r.value)
  }

  function LogsMsg(r: Result<seq<LogEntry>>): Msg
  {
    if r.Err? then ErrorMsg("Failed to read logs: " + r.error) else LogsLoadedMsg(r.value)
  }

  /** What GetServiceProcesses returns for `name` on the snapshot `fs`. */
  function ServiceTree(fs: Processes.ProcFs, name: Bytes): Processes.TreeResult
  {
    var pids := Processes.MemberPids(fs, name);
    if pids == [] then Processes.TreeError(Processes.NotRunning)
    else
      var read := Processes.ReadAll(fs, pids);
      if read.None? then Processes.TreePanic
      else Processes.Found(ProcessTrees(read.value))
  }

  function ProcessTrees(processes: seq<Process>): seq<Process>
  {
    ProcessForest.Trees(ProcessForest.Layout(processes))
  }

  /** The message a tree load reports; None when the load panicked, which
      ends the program. */
  function TreeMsg(r: Processes.TreeResult): Option<Msg>
  {
    match r
    case Found(roots) => Some(ProcessesLoadedMsg(roots))
    case TreeError(e) => Some(ErrorMsg("Failed to load processes: " + e))
    case TreePanic => None
  }

  // ---------------------------------------------------------------- the model object

  class Model {
    var currentService: Bytes
    var showProcessTree: bool
    var filterMode: Bytes
    var services: seq<Service>
    var allServices: seq<Service>
    var logs: seq<LogEntry>
    var processes: seq<Process>
    var statusMsg: Bytes
    var errMsg: Bytes
    var width: int
    var height: int
    var ready: bool
    var cursor: int
    var hasCancel: bool
    ghost var sessions: nat
    ghost var cancelled: seq<nat>

    ghost function State(): UiState
      reads this
    {
      UiState(currentService, showProcessTree, filterMode, services, allServices, logs, processes,
        statusMsg, errMsg, width, height, ready, cursor, hasCancel, sessions, cancelled)
    }

    /** NewModel. */
    constructor ()
      ensures State() == Initial()
    {
      currentService, showProcessTree, filterMode := [], false, AllMode;
      services, allServices, logs, processes := [], [], [], [];
      statusMsg, errMsg := [], [];
      width, height, ready, cursor := 0, 0, false, 0;
      hasCancel, sessions, cancelled := false, 0, [];
    }

    /** Init: load the services and start the timer. */
    method Init() returns (e: Effect)
      ensures e == Batch([LoadServicesCmd, TickCmd])
    {
      e := Batch([LoadServicesCmd, TickCmd]);
    }

    method Cancel()
      modifies this
      ensures State() == CancelLogs(old(State()))
    {
      if hasCancel {
        cancelled := cancelled + [sessions];
      }
    }

    method SelectService(name: Bytes) returns (e: Effect)
      modifies this
      ensures Answer(e, State()) == SelectStep(old(State()), name)
    {
      Cancel();
      currentService := name;
      logs := [];
      hasCancel := true;
      sessions := sessions + 1;
      e := RefreshLogsCmd;
    }

    method CycleFilter() returns (e: Effect)
      modifies this
      ensures Answer(e, State()) == CycleStep(old(State()))
    {
      if filterMode == AllMode {
        filterMode := RunningMode;
      } else if filterMode == RunningMode {
        filterMode := FailedMode;
      } else if filterMode == FailedMode {
        filterMode := AllMode;
      }
      e := ApplyFilterCmd;
    }

    method HandleKey(key: Bytes) returns (e: Effect)
      modifies this
      ensures Answer(e, State()) == KeyStep(old(State()), key)
    {
      if key == "q" || key == "ctrl+c" {
        Cancel();
        return QuitProgram;
      }
      if key == "enter" {
        if 0 <= cursor < |services| {
          e := SelectService(services[cursor].name);
          return;
        }
        return Widgets;
      }
      var action := ActionOf(key);
      if action.Some? {
        return if currentService != [] then Control(action.value) else Widgets;
      }
      if key == "f" {
        e := CycleFilter();
        return;
      }
      var mode := ModeOf(key);
      if mode.Some? {
        filterMode := mode.value;
        return ApplyFilterCmd;
      }
      if key == "p" {
        if currentService != [] {
          showProcessTree := !showProcessTree;
          if showProcessTree {
            return LoadTreeCmd;
          }
        }
        return NoEffect;
      }
      if key == "l" {
        showProcessTree := false;
        return NoEffect;
      }
      if key == "up" || key == "k" || key == "down" || key == "j" {
        return ListInput;
      }
      e := Widgets;
    }

    method Update(msg: Msg) returns (e: Effect)
      modifies this
      ensures Answer(e, State()) == UpdateStep(old(State()), msg)
    {
      if msg.KeyMsg? {
        e := HandleKey(msg.key);
      } else if msg.ServicesLoadedMsg? || msg.LogsLoadedMsg? || msg.ProcessesLoadedMsg? {
        e := HandleLoaded(msg);
      } else {
        e := HandleSignal(msg);
      }
    }

    /** Update for a loaded result. */
    method HandleLoaded(msg: Msg) returns (e: Effect)
      requires msg.ServicesLoadedMsg? || msg.LogsLoadedMsg? || msg.ProcessesLoadedMsg?
      modifies this
      ensures Answer(e, State()) == UpdateStep(old(State()), msg)
    {
      match msg
      case ServicesLoadedMsg(list) =>
        services, allServices := list, list;
        e := NoEffect;
      case LogsLoadedMsg(entries) =>
        if !showProcessTree {
          logs := entries;
        }
        e := NoEffect;
      case ProcessesLoadedMsg(ps) =>
        processes := ps;
        e := NoEffect;
    }

    /** Update for window, status, error and timer messages. */
    method HandleSignal(msg: Msg) returns (e: Effect)
      requires msg.WindowSizeMsg? || msg.ErrorMsg? || msg.StatusMsg? || msg.ClearStatusMsg? || msg.TickMsg? || msg.OtherMsg?
      modifies this
      ensures Answer(e, State()) == UpdateStep(old(State()), msg)
    {
      match msg
      case WindowSizeMsg(w, h) =>
        width, height, ready := w, h, true;
        e := NoEffect;
      case ErrorMsg(text) =>
        errMsg := text;
        e := NoEffect;
      case StatusMsg(text) =>
        statusMsg := text;
        e := ClearStatusLater;
      case ClearStatusMsg =>
        statusMsg := [];
        e := NoEffect;
      case TickMsg =>
        e := if currentService != [] && !showProcessTree then Batch([TickCmd, RefreshLogsCmd]) else TickCmd;
      case OtherMsg =>
        e := Widgets;
    }

    /** The command applyFilter returns, run: the services of `allServices`
        that the current mode shows. */
    method ApplyFilter() returns (msg: Msg)
      ensures msg == ServicesLoadedMsg(Filtered(filterMode, allServices))
    {
      if filterMode != RunningMode && filterMode != FailedMode {
        FilteredKeepsAll(filterMode, allServices);
        return ServicesLoadedMsg(allServices);
      }
      var filtered: seq<Service> := [];
      for i := 0 to |allServices|
        invariant filtered == Filtered(filterMode, allServices[..i])
      {
        var svc := allServices[i];
        FilteredStep(filterMode, allServices, i);
        if filterMode == RunningMode {
          if svc.subState == "running" || svc.activeState == "active" {
            filtered := filtered + [svc];
          }
        } else {
          if svc.activeState == "failed" || svc.subState == "failed" {
            filtered := filtered + [svc];
          }
        }
      }
      assert allServices[..|allServices|] == allServices;
      msg := ServicesLoadedMsg(filtered);
    }

    /** loadServices, run. */
    method LoadServices(manager: Services.Manager) returns (msg: Msg)
      modifies manager.conn
      ensures var listed := Services.ListUnitsStep(old(manager.conn.State()));
        && manager.conn.State() == listed.state
        && msg == ServicesMsg(if listed.value.Err? then Err(listed.value.error) else Ok(Services.ServicesOf(listed.value.value)))
    {
      var r := manager.ListServices();
      msg := ServicesMsg(r);
    }

    /** refreshLogs, run: the last 100 entries of the service selected now. */
    method RefreshLogs(reader: Logs.LogReader) returns (msg: Msg)
      modifies reader.journal
      ensures var r := Logs.RecentLogs(old(reader.journal.State()), currentService, 100);
        reader.journal.State() == r.state && msg == LogsMsg(r.value)
    {
      var r := reader.GetRecentLogs(currentService, 100);
      msg := LogsMsg(r);
    }

    /** loadProcessTree, run: the process forest of the service selected now. */
    method LoadProcessTree(fs: Processes.ProcFs) returns (msg: Option<Msg>)
      ensures msg == TreeMsg(ServiceTree(fs, currentService))
    {
      var r := Processes.GetServiceProcesses(fs, currentService);
      msg := TreeMsg(r);
    }

    /** restartService, stopService, startService, enableService and
        disableService, run on the service selected now. */
    method RunControl(manager: Services.Manager, action: Action) returns (msg: Msg)
      modifies manager.conn
      ensures var r := ActionStep(old(manager.conn.State()), action, currentService);
        manager.conn.State() == r.state && msg == ControlMsg(action, currentService, r.value)
    {
      var err: Option<Bytes>;
      match action {
        case Restart => err := manager.RestartService(currentService);
        case Stop => err := manager.StopService(currentService);
        case Start => err := manager.StartService(currentService);
        case Enable => err := manager.EnableService(currentService);
        case Disable => err := manager.DisableService(currentService);
      }
      msg := ControlMsg(action, currentService, err);
    }
  }

  // ---------------------------------------------------------------- the process tree view

  /** truncate: `s` when it fits in `maxLen` bytes, else its first
      `maxLen - 3` bytes and "...". */
  function Truncate(s: Bytes, maxLen: int): (r: Bytes)
    requires 3 <= maxLen
    ensures |r| <= maxLen
    ensures r == s <==> |s| <= maxLen
    ensures |s| > maxLen ==> |r| == maxLen && r[..maxLen - 3] == s[..maxLen - 3] && r[maxLen - 3..] == "..."
  {
    if |s| <= maxLen then s else s[..maxLen - 3] + "..."
  }

  const CmdlineWidth: int := 60

  /** The tree glyphs, in UTF-8: U+250C U+2500, U+2514 U+2500, U+251C U+2500
      and U+2502 followed by two spaces. */
  const TopConnector: Bytes := "\U{E2}\U{94}\U{8C}\U{E2}\U{94}\U{80}"
  const LastConnector: Bytes := "\U{E2}\U{94}\U{94}\U{E2}\U{94}\U{80}"
  const MidConnector: Bytes := "\U{E2}\U{94}\U{9C}\U{E2}\U{94}\U{80}"
  const Bar: Bytes := "\U{E2}\U{94}\U{82}  "

  function Connector(prefix: Bytes, isLast: bool): Bytes
  {
    if prefix == [] then TopConnector else if isLast then LastConnector else MidConnector
  }

  function ChildPrefix(prefix: Bytes, isLast: bool): Bytes
  {
    if prefix == [] then "  " else if isLast then prefix + "   " else prefix + Bar
  }

  /** One line of the tree view, without its styling. */
  datatype Row = Row(prefix: Bytes, connector: Bytes, pid: int, name: Bytes, cmdline: Bytes)

  function RowText(r: Row): Bytes
  {
    r.prefix + r.connector + " [" + FormatInt(r.pid) + "] " + r.name + ": " + r.cmdline + "\n"
  }

  /** renderProcess: the process's own row, then its children's rows, each
      child rendered under the child prefix and flagged last when it is the
      last child. */
  function RenderProcess(p: Process, prefix: Bytes, isLast: bool): seq<Row>
    decreases p, 1
  {
    [Row(prefix, Connector(prefix, isLast), p.pid, p.name, Truncate(p.cmdline, CmdlineWidth))]
      + RenderChildren(p, ChildPrefix(prefix, isLast), 0)
  }

  /** The rows of the children of `p` from the `i`-th on. */
  function RenderChildren(p: Process, prefix: Bytes, i: nat): seq<Row>
    decreases p, 0, |p.children| - i
  {
    if i >= |p.children| then []
    else
      assert p.children[i] in p.children;
      RenderProcess(p.children[i], prefix, i == |p.children| - 1) + RenderChildren(p, prefix, i + 1)
  }

  /** The processes of a tree in pre-order: the root, then each child's tree. */
  function PreOrder(p: Process): seq<Process>
    decreases p, 1
  {
    [p] + PreOrderFrom(p, 0)
  }

  function PreOrderFrom(p: Process, i: nat): seq<Process>
    decreases p, 0, |p.children| - i
  {
    if i >= |p.children| then []
    else
      assert p.children[i] in p.children;
      PreOrder(p.children[i]) + PreOrderFrom(p, i + 1)
  }

  /** The row shows the process: its pid, its name and its command line cut
      to 60 bytes. */
  predicate RowShows(r: Row, p: Process)
  {
    r.pid == p.pid && r.name == p.name && r.cmdline == Truncate(p.cmdline, CmdlineWidth)
  }

  /** One row per process, in order, each showing its process. */
  predicate ShowsAll(rows: seq<Row>, procs: seq<Process>)
  {
    |rows| == |procs| && forall k :: 0 <= k < |rows| ==> RowShows(rows[k], procs[k])
  }

  lemma ShowsAllAppend(a: seq<Row>, b: seq<Row>, pa: seq<Process>, pb: seq<Process>)
    requires ShowsAll(a, pa) && ShowsAll(b, pb)
    ensures ShowsAll(a + b, pa + pb)
  {
    forall k | 0 <= k < |a + b|
      ensures RowShows((a + b)[k], (pa + pb)[k])
    {
      if k >= |a| {
        assert (a + b)[k] == b[k - |a|] && (pa + pb)[k] == pb[k - |a|];
      }
    }
  }

  /** Every line starts with `prefix`, and no command line shown is longer
      than 60 bytes. */
  predicate WellRendered(rows: seq<Row>, prefix: Bytes)
  {
    forall k :: 0 <= k < |rows| ==>
      && |prefix| <= |rows[k].prefix|
      && rows[k].prefix[..|prefix|] == prefix
      && |rows[k].cmdline| <= CmdlineWidth
  }

  lemma WellRenderedAppend(a: seq<Row>, b: seq<Row>, prefix: Bytes)
    requires WellRendered(a, prefix) && WellRendered(b, prefix)
    ensures WellRendered(a + b, prefix)
  {
    forall k | 0 <= k < |a + b|
      ensures |prefix| <= |(a + b)[k].prefix| && (a + b)[k].prefix[..|prefix|] == prefix
    {
      if k >= |a| {
        assert (a + b)[k] == b[k - |a|];
      }
    }
  }

  lemma ChildPrefixExtends(prefix: Bytes, isLast: bool)
    ensures |prefix| < |ChildPrefix(prefix, isLast)|
    ensures ChildPrefix(prefix, isLast)[..|prefix|] == prefix
  {
  }

  /** The rows drawn at exactly `prefix`, in order. */
  function Heads(rows: seq<Row>, prefix: Bytes): (h: seq<Row>)
    ensures |h| <= |rows|
    ensures forall k :: 0 <= k < |h| ==> h[k] in rows && h[k].prefix == prefix
  {
    if rows == [] then []
    else (if rows[0].prefix == prefix then [rows[0]] else []) + Heads(rows[1..], prefix)
  }

  lemma {:induction false} HeadsAppend(a: seq<Row>, b: seq<Row>, prefix: Bytes)
    ensures Heads(a + b, prefix) == Heads(a, prefix) + Heads(b, prefix)
  {
    if a == [] {
      assert a + b == b;
    } else {
      var ab := a + b;
      assert ab[0] == a[0] && ab[1..] == a[1..] + b;
      HeadsAppend(a[1..], b, prefix);
      var x := if a[0].prefix == prefix then [a[0]] else [];
      assert Heads(ab, prefix) == x + Heads(a[1..] + b, prefix);
      assert Heads(a, prefix) == x + Heads(a[1..], prefix);
    }
  }

  /** No row under a strictly longer prefix is drawn at `prefix`. */
  lemma {:induction false} HeadsBelow(rows: seq<Row>, longer: Bytes, prefix: Bytes)
    requires WellRendered(rows, longer) && |prefix| < |longer|
    ensures Heads(rows, prefix) == []
  {
    if rows != [] {
      assert WellRendered(rows[1..], longer) by {
        forall k | 0 <= k < |rows| - 1
          ensures rows[1..][k] == rows[k + 1]
        {
        }
      }
      HeadsBelow(rows[1..], longer, prefix);
    }
  }

  /** A tree renders as one row per process in pre-order, each showing its
      process. Its first row is drawn at the caller's prefix with the
      connector the prefix and the last flag call for; every other row is
      drawn under the child prefix, so the first row is the only one at the
      caller's prefix. */
  lemma {:induction false} RenderProcessSpec(p: Process, prefix: Bytes, isLast: bool)
    ensures var rows := RenderProcess(p, prefix, isLast);
      && ShowsAll(rows, PreOrder(p))
      && rows[0].prefix == prefix && rows[0].connector == Connector(prefix, isLast)
      && WellRendered(rows, prefix)
      && WellRendered(rows[1..], ChildPrefix(prefix, isLast))
      && Heads(rows, prefix) == [rows[0]]
    decreases p, 1
  {
    var child := ChildPrefix(prefix, isLast);
    var head := [Row(prefix, Connector(prefix, isLast), p.pid, p.name, Truncate(p.cmdline, CmdlineWidth))];
    var tail := RenderChildren(p, child, 0);
    var rows := RenderProcess(p, prefix, isLast);
    RenderChildrenSpec(p, child, 0);
    ShowsAllAppend(head, tail, [p], PreOrderFrom(p, 0));
    ChildPrefixExtends(prefix, isLast);
    Narrow(tail, child, prefix);
    WellRenderedAppend(head, tail, prefix);
    assert rows[1..] == tail;
    HeadsBelow(tail, child, prefix);
    HeadsAppend(head, tail, prefix);
    assert Heads(head, prefix) == [head[0]] by {
      assert head[1..] == [];
    }
  }

  /** The rows of the children from the `i`-th on: one per process of their
      trees in pre-order, all under `prefix`. */
  lemma {:induction false} RenderChildrenSpec(p: Process, prefix: Bytes, i: nat)
    ensures ShowsAll(RenderChildren(p, prefix, i), PreOrderFrom(p, i))
    ensures WellRendered(RenderChildren(p, prefix, i), prefix)
    decreases p, 0, |p.children| - i
  {
    if i < |p.children| {
      assert p.children[i] in p.children;
      var c := p.children[i];
      var first := RenderProcess(c, prefix, i == |p.children| - 1);
      var rest := RenderChildren(p, prefix, i + 1);
      RenderProcessSpec(c, prefix, i == |p.children| - 1);
      RenderChildrenSpec(p, prefix, i + 1);
      ShowsAllAppend(first, rest, PreOrder(c), PreOrderFrom(p, i + 1));
      WellRenderedAppend(first, rest, prefix);
    }
  }

  /** `h` are the rows of the children of `p` from the `i`-th on, drawn at
      `prefix`: one per child in order, the last child's with the last
      connector and the others' with the middle one. */
  predicate ChildHeads(h: seq<Row>, p: Process, prefix: Bytes, i: nat)
  {
    && |h| == (if i < |p.children| then |p.children| - i else 0)
    && forall j :: 0 <= j < |h| ==>
         RowShows(h[j], p.children[i + j]) && h[j].connector == Connector(prefix, i + j == |p.children| - 1)
  }

  lemma ChildHeadsCons(r: Row, h: seq<Row>, p: Process, prefix: Bytes, i: nat)
    requires i < |p.children| && ChildHeads(h, p, prefix, i + 1)
    requires RowShows(r, p.children[i]) && r.connector == Connector(prefix, i == |p.children| - 1)
    ensures ChildHeads([r] + h, p, prefix, i)
  {
    forall j | 1 <= j < |h| + 1
      ensures ([r] + h)[j] == h[j - 1]
    {
    }
  }

  /** The rows of the children drawn at exactly `prefix` are the children's
      own rows, one per child in order, the last child's with the last
      connector and the others' with the middle one. */
  lemma {:induction false} RenderChildrenHeads(p: Process, prefix: Bytes, i: nat)
    ensures ChildHeads(Heads(RenderChildren(p, prefix, i), prefix), p, prefix, i)
    decreases |p.children| - i
  {
    if i < |p.children| {
      var c := p.children[i];
      var last := i == |p.children| - 1;
      var first := RenderProcess(c, prefix, last);
      var rest := RenderChildren(p, prefix, i + 1);
      assert RenderChildren(p, prefix, i) == first + rest;
      RenderProcessSpec(c, prefix, last);
      RenderChildrenHeads(p, prefix, i + 1);
      HeadsAppend(first, rest, prefix);
      assert PreOrder(c)[0] == c;
      ChildHeadsCons(first[0], Heads(rest, prefix), p, prefix, i);
    }
  }

  /** Rows under a longer prefix are also under any prefix of it. */
  lemma Narrow(rows: seq<Row>, longer: Bytes, prefix: Bytes)
    requires WellRendered(rows, longer)
    requires |prefix| <= |longer| && longer[..|prefix|] == prefix
    ensures WellRendered(rows, prefix)
  {
    forall k | 0 <= k < |rows|
      ensures rows[k].prefix[..|prefix|] == prefix
    {
      assert rows[k].prefix[..|longer|][..|prefix|] == rows[k].prefix[..|prefix|];
    }
  }

  /** formatProcessTree's rows: every root rendered with an empty prefix. */
  function RenderForest(roots: seq<Process>): seq<Row>
  {
    if roots == [] then [] else RenderForest(roots[..|roots| - 1]) + RenderProcess(roots[|roots| - 1], [], true)
  }

  /** The processes of a forest in pre-order, tree after tree. */
  function ForestPreOrder(roots: seq<Process>): seq<Process>
  {
    if roots == [] then [] else ForestPreOrder(roots[..|roots| - 1]) + PreOrder(roots[|roots| - 1])
  }

  /** The tree view shows one row per process of the forest, in pre-order,
      each showing its process; the rows drawn with no prefix are the roots,
      one per root in order, each with the top connector. */
  lemma {:induction false} RenderForestSpec(roots: seq<Process>)
    ensures var rows := RenderForest(roots);
      && ShowsAll(rows, ForestPreOrder(roots))
      && WellRendered(rows, [])
      && var h := Heads(rows, []);
         && |h| == |roots|
         && forall j :: 0 <= j < |h| ==> RowShows(h[j], roots[j]) && h[j].connector == TopConnector
  {
    if roots != [] {
      var init, last := roots[..|roots| - 1], roots[|roots| - 1];
      var a, b := RenderForest(init), RenderProcess(last, [], true);
      RenderForestSpec(init);
      RenderProcessSpec(last, [], true);
      ShowsAllAppend(a, b, ForestPreOrder(init), PreOrder(last));
      WellRenderedAppend(a, b, []);
      HeadsAppend(a, b, []);
      var h := Heads(a + b, []);
      forall j | 0 <= j < |h|
        ensures RowShows(h[j], roots[j]) && h[j].connector == TopConnector
      {
        if j == |h| - 1 {
          assert h[j] == b[0] && PreOrder(last)[0] == last;
        } else {
          assert h[j] == Heads(a, [])[j] && roots[j] == init[j];
        }
      }
    }
  }

  // ---------------------------------------------------------------- the boot tag

  /** serviceItem.Description shows " [boot]" for a loaded unit whose
      unit-file state mentions "enabled". */
  predicate BootTagShown(svc: Service)
  {
    svc.loadState == "loaded" && Contains(svc.unitFileState, "enabled")
  }

  /** No service that ListServices produces ever shows the boot tag, because
      ListServices never fills in the unit-file state. */
  lemma NoBootTagWhenListed(units: seq<Services.UnitStatus>)
    ensures forall svc :: svc in Services.ServicesOf(units) ==> !BootTagShown(svc)
  {
    Services.ServicesOfFields(units);
  }

  // ---------------------------------------------------------------- properties of the transitions

  /** A cancel function is installed exactly when some session was started,
      and every session before the current one has been cancelled. */
  ghost predicate SessionsClosed(s: UiState)
  {
    && (s.hasCancel <==> s.sessions > 0)
    && (forall id :: 1 <= id < s.sessions ==> id in s.cancelled)
    && (forall k :: 0 <= k < |s.cancelled| ==> 1 <= s.cancelled[k] <= s.sessions)
  }

  lemma InitialSessionsClosed()
    ensures SessionsClosed(Initial())
  {
  }

  /** Selecting a service cancels the session it replaces. */
  lemma SelectKeepsSessionsClosed(s: UiState, name: Bytes)
    requires SessionsClosed(s)
    ensures SessionsClosed(SelectStep(s, name).state)
  {
    var t := SelectStep(s, name).state;
    forall id | 1 <= id < t.sessions
      ensures id in t.cancelled
    {
      if id == s.sessions {
        assert t.cancelled[|t.cancelled| - 1] == id;
      } else {
        assert id in s.cancelled;
      }
    }
  }

  /** Every message keeps at most one log session open. */
  lemma UpdateKeepsSessionsClosed(s: UiState, msg: Msg)
    requires SessionsClosed(s)
    ensures SessionsClosed(UpdateStep(s, msg).state)
  {
    if msg.KeyMsg? && msg.key == "enter" && Selected(s).Some? {
      SelectKeepsSessionsClosed(s, Selected(s).value.name);
    }
  }

  /** Key p without a selected service changes nothing. */
  lemma ToggleWithoutService(s: UiState)
    requires s.currentService == []
    ensures UpdateStep(s, KeyMsg("p")) == Answer(NoEffect, s)
  {
  }

  /** Key p with a selected service flips the view, asking for the process
      tree only when it switches the tree view on; pressing it twice goes
      back to the state it started from. */
  lemma ToggleTwice(s: UiState)
    requires s.currentService != []
    ensures UpdateStep(s, KeyMsg("p")).state == s.(showProcessTree := !s.showProcessTree)
    ensures UpdateStep(s, KeyMsg("p")).value == (if s.showProcessTree then NoEffect else LoadTreeCmd)
    ensures UpdateStep(UpdateStep(s, KeyMsg("p")).state, KeyMsg("p")).state == s
  {
  }

  /** Key l leaves the tree view and changes nothing else. */
  lemma BackToLogs(s: UiState)
    ensures UpdateStep(s, KeyMsg("l")) == Answer(NoEffect, s.(showProcessTree := false))
  {
  }

  /** Key f steps the filter through all, running, failed and back, and
      leaves any other mode as it is. */
  lemma CycleThree(s: UiState)
    ensures var once := UpdateStep(s, KeyMsg("f")).state;
      once == s.(filterMode := NextMode(s.filterMode))
    ensures s.filterMode in {AllMode, RunningMode, FailedMode} ==> NextMode(NextMode(NextMode(s.filterMode))) == s.filterMode
    ensures s.filterMode !in {AllMode, RunningMode, FailedMode} ==> NextMode(s.filterMode) == s.filterMode
    ensures NextMode(AllMode) == RunningMode && NextMode(RunningMode) == FailedMode && NextMode(FailedMode) == AllMode
  {
  }

  /** Choosing a service cancels the running stream, selects the service
      with an empty log, opens a new session, keeps the view mode, and asks
      for the service's logs. */
  lemma SelectSpec(s: UiState)
    requires Selected(s).Some?
    ensures var r := UpdateStep(s, KeyMsg("enter"));
      && r.value == RefreshLogsCmd
      && r.state.currentService == s.services[s.cursor].name
      && r.state.logs == []
      && r.state.showProcessTree == s.showProcessTree
      && r.state.hasCancel
      && r.state.sessions == s.sessions + 1
      && r.state.cancelled == s.cancelled + (if s.hasCancel then [s.sessions] else [])
  {
  }

  /** A lifecycle key does nothing until a service is selected, and then
      only asks for the request on the selected service. */
  lemma ControlSpec(s: UiState, key: Bytes)
    requires ActionOf(key).Some?
    ensures UpdateStep(s, KeyMsg(key)).state == s
    ensures UpdateStep(s, KeyMsg(key)).value == (if s.currentService == [] then Widgets else Control(ActionOf(key).value))
  {
  }

  /** The timer always re-arms, and refreshes the logs only while a service
      is selected and its logs are on screen. */
  lemma TickSpec(s: UiState)
    ensures UpdateStep(s, TickMsg).state == s
    ensures UpdateStep(s, TickMsg).value
      == (if s.currentService != [] && !s.showProcessTree then Batch([TickCmd, RefreshLogsCmd]) else TickCmd)
  {
  }

  /** Loaded logs replace the buffer only outside the tree view; loaded
      processes always replace theirs. Neither carries the service it was
      loaded for, so a result that arrives after the selection changed is
      taken as it is. */
  lemma LoadedSpec(s: UiState, logs: seq<LogEntry>, ps: seq<Process>)
    ensures UpdateStep(s, LogsLoadedMsg(logs)).state.logs == (if s.showProcessTree then s.logs else logs)
    ensures UpdateStep(s, ProcessesLoadedMsg(ps)).state == s.(processes := ps)
    ensures UpdateStep(s, LogsLoadedMsg(logs)).state.currentService == s.currentService
  {
  }

  /** Only an error message touches the error slot: nothing ever clears it. */
  lemma ErrorSticks(s: UiState, msg: Msg)
    requires !msg.ErrorMsg?
    ensures UpdateStep(s, msg).state.errMsg == s.errMsg
  {
  }

  /** Delivering the result of a filter makes it the base list as well as
      the shown one, so a later filter starts from the filtered list: after
      "running", choosing "all" shows only the services "running" showed. */
  lemma FilterNarrowsBase(s: UiState)
    ensures var shown := UpdateStep(s, ServicesLoadedMsg(Filtered(RunningMode, s.allServices))).state;
      var all := UpdateStep(shown, KeyMsg("1")).state;
      && shown.allServices == Filtered(RunningMode, s.allServices)
      && Filtered(all.filterMode, all.allServices) == Filtered(RunningMode, s.allServices)
  {
    FilteredKeepsAll(AllMode, Filtered(RunningMode, s.allServices));
  }
}
