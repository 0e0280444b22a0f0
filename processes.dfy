/** The process table reader and the process-forest builder
    (internal/systemd/processes.go). The operating system's /proc is an input
    value: the directory listing and, per directory name, its cgroup, stat and
    cmdline files. */
module Processes {
  import opened Text
  import opened Types
  import opened ProcessForest

  // ---------------------------------------------------------------- /proc snapshot

  datatype DirEntry = DirEntry(name: Bytes, isDir: bool)

  /** The files of one /proc/<name> directory; None where the read fails. */
  datatype ProcDir = ProcDir(cgroup: Option<Bytes>, stat: Option<Bytes>, cmdline: Option<Bytes>)

  /** What os.ReadDir("/proc") returns, and the file contents by directory name. */
  datatype ProcFs = ProcFs(listing: Result<seq<DirEntry>>, dirs: map<Bytes, ProcDir>)

  function Entries(fs: ProcFs): seq<DirEntry>
  {
    if fs.listing.Ok? then fs.listing.value else []
  }

  function CgroupFile(fs: ProcFs, dir: Bytes): Option<Bytes>
  {
    if dir in fs.dirs then fs.dirs[dir].cgroup else None
  }

  function StatFile(fs: ProcFs, dir: Bytes): Option<Bytes>
  {
    if dir in fs.dirs then fs.dirs[dir].stat else None
  }

  function CmdlineFile(fs: ProcFs, dir: Bytes): Option<Bytes>
  {
    if dir in fs.dirs then fs.dirs[dir].cmdline else None
  }

  // ---------------------------------------------------------------- membership

  const SystemSlice: Bytes := "system.slice/"

  /** The cgroup test: the systemd v1 path or, failing that, the bare service name. */
  predicate InService(cgroup: Bytes, serviceName: Bytes)
  {
    Contains(cgroup, SystemSlice + serviceName) || Contains(cgroup, serviceName)
  }

  /** The first half of the test never decides anything: it reduces to "contains the name". */
  lemma InServiceIffContainsName(cgroup: Bytes, serviceName: Bytes)
    ensures InService(cgroup, serviceName) <==> Contains(cgroup, serviceName)
  {
    if Contains(cgroup, SystemSlice + serviceName) {
      ContainsSuffixPart(cgroup, SystemSlice, serviceName);
    }
  }

  /** A scan of /proc: who is a member of a service, or who is a child of a pid. */
  datatype Probe = MemberOf(serviceName: Bytes) | ChildOf(parentPid: int)

  /** The ppid field of a stat line: the second field after the last ')'. */
  function PpidField(afterParen: Bytes): Option<int>
  {
    var fields := Fields(afterParen);
    if |fields| >= 2 then Some(Atoi(fields[1]).value) else None
  }

  /** getAllServicePIDs on one /proc entry: its pid when it is a process
      directory whose cgroup names the service. */
  function MemberVerdict(fs: ProcFs, serviceName: Bytes, e: DirEntry): Option<int>
  {
    if !e.isDir then None
    else
      var pid := Atoi(e.name);
      if !pid.ok then None
      else
        match CgroupFile(fs, FormatInt(pid.value))
        case None => None
        case Some(cgroup) => if InService(cgroup, serviceName) then Some(pid.value) else None
  }

  /** findChildren on one /proc entry: its pid when it is a process directory
      whose stat line names `parentPid` as parent. */
  function ChildVerdict(fs: ProcFs, parentPid: int, e: DirEntry): Option<int>
  {
    if !e.isDir then None
    else
      var pid := Atoi(e.name);
      if !pid.ok then None
      else
        match StatFile(fs, e.name)
        case None => None
        case Some(stat) => if StatPpid(stat) == Some(parentPid) then Some(pid.value) else None
  }

  /** The parent pid findChildren reads from a stat line: the ppid field after
      the last ')', or None when there is no ')' or fewer than two fields. */
  function StatPpid(stat: Bytes): Option<int>
  {
    var close := LastIndexByte(stat, ')');
    if close == -1 then None else PpidField(stat[close + 1..])
  }

  /** The pid one directory entry contributes to a scan, if any. */
  function Probed(fs: ProcFs, probe: Probe, e: DirEntry): Option<int>
  {
    match probe
    case MemberOf(serviceName) => MemberVerdict(fs, serviceName, e)
    case ChildOf(parentPid) => ChildVerdict(fs, parentPid, e)
  }

  /** The verdict of a scan on each entry. */
  function Probes(fs: ProcFs, probe: Probe, es: seq<DirEntry>): (r: seq<Option<int>>)
    ensures |r| == |es| && forall k :: 0 <= k < |es| ==> r[k] == Probed(fs, probe, es[k])
  {
    seq(|es|, k requires 0 <= k < |es| => Probed(fs, probe, es[k]))
  }

  /** The accepted values, in order. */
  function Collect(opts: seq<Option<int>>): seq<int>
  {
    if opts == [] then [] else Collect(opts[..|opts| - 1]) + AsSeq(opts[|opts| - 1])
  }

  function AsSeq(o: Option<int>): (r: seq<int>)
    ensures |r| == (if o.Some? then 1 else 0)
    ensures o.Some? ==> r[0] == o.value
  {
    match o
    case Some(x) => [x]
    case None => []
  }

  /** Collecting keeps exactly the accepted values. */
  lemma {:induction false} CollectMembers(opts: seq<Option<int>>, x: int)
    ensures x in Collect(opts) <==> Some(x) in opts
  {
    if opts != [] {
      var front := opts[..|opts| - 1];
      CollectMembers(front, x);
      assert opts == front + [opts[|opts| - 1]];
    }
  }

  /** Collecting keeps the order: it distributes over concatenation. */
  lemma {:induction false} CollectConcat(a: seq<Option<int>>, b: seq<Option<int>>)
    ensures Collect(a + b) == Collect(a) + Collect(b)
  {
    if b != [] {
      var front, x := b[..|b| - 1], b[|b| - 1];
      var ab := a + b;
      CollectConcat(a, front);
      assert ab[..|ab| - 1] == a + front && ab[|ab| - 1] == x;
      assert Collect(ab) == Collect(a + front) + AsSeq(x);
      assert Collect(b) == Collect(front) + AsSeq(x);
    } else {
      assert a + b == a;
    }
  }

  /** One more verdict of a scan collected. */
  lemma CollectStep(opts: seq<Option<int>>, k: nat)
    requires k < |opts|
    ensures Collect(opts[..k + 1]) == Collect(opts[..k]) + AsSeq(opts[k])
  {
    assert opts[..k + 1][..k] == opts[..k];
  }

  lemma CollectAll(opts: seq<Option<int>>)
    ensures Collect(opts[..|opts|]) == Collect(opts)
  {
    assert opts[..|opts|] == opts;
  }

  /** The pids a scan collects from the entries, in listing order. */
  function Scan(fs: ProcFs, probe: Probe, es: seq<DirEntry>): seq<int>
  {
    Collect(Probes(fs, probe, es))
  }

  /** getAllServicePIDs: the pids of the /proc entries whose cgroup names the service. */
  function MemberPids(fs: ProcFs, serviceName: Bytes): seq<int>
  {
    Scan(fs, MemberOf(serviceName), Entries(fs))
  }

  /** The cgroup test on a /proc entry: a directory whose name parses to `pid`
      and whose cgroup file can be read and mentions the service name. */
  predicate IsMember(fs: ProcFs, serviceName: Bytes, e: DirEntry, pid: int)
  {
    e.isDir && Atoi(e.name) == AtoiResult(pid, true)
    && CgroupFile(fs, FormatInt(pid)).Some? && Contains(CgroupFile(fs, FormatInt(pid)).value, serviceName)
  }

  /** getAllServicePIDs keeps every member entry and nothing else, in listing order. */
  lemma MemberPidsSpec(fs: ProcFs, serviceName: Bytes, pid: int)
    ensures pid in MemberPids(fs, serviceName) <==>
      exists k :: 0 <= k < |Entries(fs)| && IsMember(fs, serviceName, Entries(fs)[k], pid)
  {
    var es := Entries(fs);
    var opts := Probes(fs, MemberOf(serviceName), es);
    CollectMembers(opts, pid);
    var cgroup := CgroupFile(fs, FormatInt(pid));
    if cgroup.Some? {
      InServiceIffContainsName(cgroup.value, serviceName);
    }
    if Some(pid) in opts {
      var k :| 0 <= k < |opts| && opts[k] == Some(pid);
      assert MemberVerdict(fs, serviceName, es[k]) == Some(pid);
      assert IsMember(fs, serviceName, es[k], pid);
    }
    if exists k :: 0 <= k < |es| && IsMember(fs, serviceName, es[k], pid) {
      var k :| 0 <= k < |es| && IsMember(fs, serviceName, es[k], pid);
      assert MemberVerdict(fs, serviceName, es[k]) == Some(pid);
    }
  }

  /** getAllServicePIDs: one pass over /proc; a failed directory read yields no pids. */
  method GetAllServicePids(fs: ProcFs, serviceName: Bytes) returns (pids: seq<int>)
    ensures pids == MemberPids(fs, serviceName)
  {
    pids := [];
    if fs.listing.Err? {
      return;
    }
    var entries := fs.listing.value;
    ghost var opts := Probes(fs, MemberOf(serviceName), entries);
    for k := 0 to |entries|
      invariant pids == Collect(opts[..k])
    {
      CollectStep(opts, k);
      var verdict := ExamineMember(fs, serviceName, entries[k]);
      if verdict.Some? {
        pids := pids + [verdict.value];
      }
    }
    CollectAll(opts);
  }

  /** One iteration of getAllServicePIDs' loop; None where the loop continues
      without appending. */
  method ExamineMember(fs: ProcFs, serviceName: Bytes, entry: DirEntry) returns (verdict: Option<int>)
    ensures verdict == MemberVerdict(fs, serviceName, entry)
  {
    var cgroupPath := SystemSlice + serviceName;
    if !entry.isDir {
      return None;
    }
    var pid := Atoi(entry.name);
    if !pid.ok {
      return None;
    }
    var data := CgroupFile(fs, FormatInt(pid.value));
    if data.None? {
      return None;
    }
    if Contains(data.value, cgroupPath) || Contains(data.value, serviceName) {
      return Some(pid.value);
    }
    return None;
  }

  const NoProcessFound: Bytes := "no process found for service"

  /** getServiceMainPID: the lowest member pid; the directory read error, or an
      error when no process matches. */
  method GetServiceMainPid(fs: ProcFs, serviceName: Bytes) returns (r: Result<int>)
    ensures fs.listing.Err? ==> r == Err(fs.listing.error)
    ensures fs.listing.Ok? && MemberPids(fs, serviceName) == [] ==> r == Err(NoProcessFound)
    ensures fs.listing.Ok? && MemberPids(fs, serviceName) != [] ==>
      r.Ok? && r.value in MemberPids(fs, serviceName)
      && forall q :: q in MemberPids(fs, serviceName) ==> r.value <= q
  {
    if fs.listing.Err? {
      return Err(fs.listing.error);
    }
    var pids := GetAllServicePids(fs, serviceName);
    if |pids| == 0 {
      return Err(NoProcessFound);
    }
    var minPid := pids[0];
    for k := 0 to |pids|
      invariant minPid in pids
      invariant forall j :: 0 <= j < k ==> minPid <= pids[j]
    {
      if pids[k] < minPid {
        minPid := pids[k];
      }
    }
    return Ok(minPid);
  }

  /** findChildren: the pids of the /proc entries whose stat names `parentPid` as parent. */
  function ChildPids(fs: ProcFs, parentPid: int): seq<int>
  {
    Scan(fs, ChildOf(parentPid), Entries(fs))
  }

  /** The stat test on a /proc entry: a directory whose name parses to `pid`
      and whose stat file can be read and names `parentPid` as parent. */
  predicate IsChild(fs: ProcFs, parentPid: int, e: DirEntry, pid: int)
  {
    e.isDir && Atoi(e.name) == AtoiResult(pid, true)
    && StatFile(fs, e.name).Some? && StatPpid(StatFile(fs, e.name).value) == Some(parentPid)
  }

  /** findChildren keeps every child entry and nothing else. */
  lemma ChildPidsSpec(fs: ProcFs, parentPid: int, pid: int)
    ensures pid in ChildPids(fs, parentPid) <==>
      exists k :: 0 <= k < |Entries(fs)| && IsChild(fs, parentPid, Entries(fs)[k], pid)
  {
    var es := Entries(fs);
    var opts := Probes(fs, ChildOf(parentPid), es);
    CollectMembers(opts, pid);
    if Some(pid) in opts {
      var k :| 0 <= k < |opts| && opts[k] == Some(pid);
      assert ChildVerdict(fs, parentPid, es[k]) == Some(pid);
      assert IsChild(fs, parentPid, es[k], pid);
    }
    if exists k :: 0 <= k < |es| && IsChild(fs, parentPid, es[k], pid) {
      var k :| 0 <= k < |es| && IsChild(fs, parentPid, es[k], pid);
      assert ChildVerdict(fs, parentPid, es[k]) == Some(pid);
    }
  }

  /** findChildren: one pass over /proc, matching the ppid field of each stat file. */
  method FindChildren(fs: ProcFs, parentPid: int) returns (children: seq<int>)
    ensures children == ChildPids(fs, parentPid)
  {
    children := [];
    if fs.listing.Err? {
      return;
    }
    var entries := fs.listing.value;
    ghost var opts := Probes(fs, ChildOf(parentPid), entries);
    for k := 0 to |entries|
      invariant children == Collect(opts[..k])
    {
      CollectStep(opts, k);
      var verdict := ExamineChild(fs, parentPid, entries[k]);
      if verdict.Some? {
        children := children + [verdict.value];
      }
    }
    CollectAll(opts);
  }

  /** One iteration of findChildren's loop; None where the loop continues
      without appending. */
  method ExamineChild(fs: ProcFs, parentPid: int, entry: DirEntry) returns (verdict: Option<int>)
    ensures verdict == ChildVerdict(fs, parentPid, entry)
  {
    if !entry.isDir {
      return None;
    }
    var pid := Atoi(entry.name);
    if !pid.ok {
      return None;
    }
    var statData := StatFile(fs, entry.name);
    if statData.None? {
      return None;
    }
    var ppid := StatPpid(statData.value);
    if ppid == Some(parentPid) {
      return Some(pid.value);
    }
    return None;
  }

  // ---------------------------------------------------------------- one process

  /** `i` is the position of the first '(' of `s`. */
  predicate FirstOpen(s: Bytes, i: int)
  {
    0 <= i < |s| && s[i] == '(' && forall k :: 0 <= k < i ==> s[k] != '('
  }

  /** `j` is the position of the last ')' of `s`. */
  predicate LastClose(s: Bytes, j: int)
  {
    0 <= j < |s| && s[j] == ')' && forall k :: j < k < |s| ==> s[k] != ')'
  }

  /** What getProcessInfo cuts out of a stat line: the name between the
      parentheses and the text after the last ')', where the ppid field is. */
  datatype StatSplit = StatSplit(name: Bytes, afterParen: Bytes)

  /** The stat split. None where the slice `stat[first '(' + 1 : last ')']` would
      panic because the first '(' comes after the last ')'; an empty name and
      nothing to read a ppid from when either delimiter is missing. */
  function SplitStat(stat: Bytes): (r: Option<StatSplit>)
    ensures '(' !in stat || ')' !in stat ==> r == Some(StatSplit([], []))
  {
    var startIdx := IndexByte(stat, '(');
    var endIdx := LastIndexByte(stat, ')');
    if startIdx != -1 && endIdx != -1 then
      if startIdx + 1 > endIdx then None
      else Some(StatSplit(stat[startIdx + 1..endIdx], stat[endIdx + 1..]))
    else Some(StatSplit([], []))
  }

  /** With both delimiters present the split panics exactly when the first '('
      comes after the last ')', and otherwise takes the name between them and
      the text after the last ')'. */
  lemma SplitStatSpec(stat: Bytes, i: nat, j: nat)
    requires FirstOpen(stat, i) && LastClose(stat, j)
    ensures SplitStat(stat).None? <==> j < i
    ensures i < j ==> SplitStat(stat) == Some(StatSplit(stat[i + 1..j], stat[j + 1..]))
  {
    DelimitersAt(stat, IndexByte(stat, '('), LastIndexByte(stat, ')'));
  }

  /** The parent pid getProcessInfo keeps: the ppid field, or 0 when it is missing. */
  function PpidOrZero(afterParen: Bytes): int
  {
    match PpidField(afterParen)
    case Some(p) => p
    case None => 0
  }

  /** strings.Index and strings.LastIndex find the delimiters FirstOpen and LastClose describe. */
  lemma DelimitersAt(stat: Bytes, startIdx: int, endIdx: int)
    requires startIdx == IndexByte(stat, '(') && endIdx == LastIndexByte(stat, ')')
    ensures forall i :: FirstOpen(stat, i) ==> i == startIdx
    ensures forall j :: LastClose(stat, j) ==> j == endIdx
  {
    assert startIdx != -1 ==> stat[startIdx] == '(';
    assert endIdx != -1 ==> stat[endIdx] == ')';
  }

  /** The stat line the kernel writes, "pid (comm) state ppid ...", splits back
      to its comm, whatever bytes the comm holds, and the fields after it
      (whose ppid TailPpid reads back). */
  lemma ParseKernelStat(pid: int, comm: Bytes, state: Byte, ppid: int, rest: Bytes)
    requires state != ')' && ')' !in rest
    ensures var tail := " " + [state] + " " + FormatInt(ppid) + rest;
      SplitStat(FormatInt(pid) + " (" + comm + ")" + tail) == Some(StatSplit(comm, tail))
  {
    FormatIntHasNoMarks(pid);
    FormatIntHasNoMarks(ppid);
    var tail := " " + [state] + " " + FormatInt(ppid) + rest;
    assert ')' !in tail;
    FramedStat(FormatInt(pid), comm, tail);
  }

  /** "head (comm)tail" splits into `comm` and `tail` when neither `head`
      holds a '(' nor `tail` a ')'. */
  lemma FramedStat(head: Bytes, comm: Bytes, tail: Bytes)
    requires '(' !in head && ')' !in tail
    ensures SplitStat(head + " (" + comm + ")" + tail) == Some(StatSplit(comm, tail))
  {
    StatDelimiters(head, comm, tail);
    SplitAt(head + " (" + comm + ")" + tail, |head| + 1, |head| + 2 + |comm|, comm, tail);
  }

  lemma SplitAt(stat: Bytes, i: nat, j: nat, name: Bytes, afterParen: Bytes)
    requires FirstOpen(stat, i) && LastClose(stat, j) && i < j
    requires stat[i + 1..j] == name && stat[j + 1..] == afterParen
    ensures SplitStat(stat) == Some(StatSplit(name, afterParen))
  {
    SplitStatSpec(stat, i, j);
  }

  /** In "head (comm)tail" the first '(' and the last ')' enclose `comm` when
      neither `head` holds a '(' nor `tail` a ')'. */
  lemma StatDelimiters(head: Bytes, comm: Bytes, tail: Bytes)
    requires '(' !in head && ')' !in tail
    ensures var stat := head + " (" + comm + ")" + tail;
      FirstOpen(stat, |head| + 1) && LastClose(stat, |head| + 2 + |comm|)
      && stat[|head| + 2..|head| + 2 + |comm|] == comm && stat[|head| + 3 + |comm|..] == tail
  {
    var stat := head + " (" + comm + ")" + tail;
    var j := |head| + 2 + |comm|;
    assert forall k :: 0 <= k < |head| ==> stat[k] == head[k];
    assert forall k :: j < k < |stat| ==> stat[k] == tail[k - j - 1];
  }

  /** The fields after the ')' are the state and then the ppid. */
  lemma TailPpid(state: Byte, ppid: int, rest: Bytes)
    requires MinInt64 <= ppid <= MaxInt64
    requires !IsAsciiSpace(state)
    requires LeadSpace(rest) > 0
    ensures PpidOrZero(" " + [state] + " " + FormatInt(ppid) + rest) == ppid
  {
    var pp := FormatInt(ppid);
    FormatIntHasNoMarks(ppid);
    var afterPp := pp + rest;
    NumberLeads(ppid, rest);
    assert " " + [state] + " " + pp + rest == " " + [state] + " " + afterPp;
    FieldsOfWord(pp, rest);
    SkipState(state, afterPp);
    AtoiFormatInt(ppid);
  }

  /** A formatted integer starts with no white space, whatever follows it. */
  lemma NumberLeads(n: int, rest: Bytes)
    ensures LeadSpace(FormatInt(n) + rest) == 0
  {
    FormatIntHasNoMarks(n);
    assert (FormatInt(n) + rest)[0] == FormatInt(n)[0];
  }

  /** A one-byte word between single spaces is skipped as the first field. */
  lemma SkipState(state: Byte, x: Bytes)
    requires !IsAsciiSpace(state)
    requires LeadSpace(x) == 0
    ensures Fields(" " + [state] + " " + x) == [[state]] + Fields(x)
  {
    var sx := " " + x;
    var w := [state] + sx;
    SpacedByte(state, x);
    OneSpace();
    FieldsSkipSpace(" ", w);
    FieldsOfWord([state], sx);
    FieldsSkipSpace(" ", x);
  }

  /** A byte that is not white space, then a space, leads with no white
      space; the space leads with one byte of it. */
  lemma SpacedByte(state: Byte, x: Bytes)
    requires !IsAsciiSpace(state)
    ensures LeadSpace([state] + (" " + x)) == 0 && LeadSpace(" " + x) == 1 && NoSpace([state])
    ensures " " + [state] + " " + x == " " + ([state] + (" " + x))
  {
    var w := [state] + (" " + x);
    assert w[0] == state && w[1] == ' ';
    assert (" " + x)[0] == ' ';
  }

  /** A single space is a run of white space. */
  lemma OneSpace()
    ensures AllSpace(" ")
  {
    assert LeadSpace(" ") == 1;
    assert " "[1..] == [];
  }

  /** A formatted integer holds no parenthesis and no white space, and starts
      with a digit or a minus sign. */
  lemma FormatIntHasNoMarks(n: int)
    ensures '(' !in FormatInt(n) && ')' !in FormatInt(n) && NoSpace(FormatInt(n))
    ensures IsDigit(FormatInt(n)[0]) || FormatInt(n)[0] == '-'
  {
    var d := FormatNat(if n < 0 then -n else n);
    assert forall k :: 0 <= k < |d| ==> IsDigit(d[k]);
    var s := FormatInt(n);
    assert forall k :: 0 <= k < |s| ==> IsDigit(s[k]) || s[k] == '-';
  }

  /** The command line getProcessInfo shows: NULs become spaces, white space at
      both ends is trimmed, and an empty result becomes "[name]". */
  function CmdlineText(raw: Bytes, name: Bytes): (r: Bytes)
    ensures r != []
    ensures TrimSpace(ReplaceNul(raw)) == [] ==> r == "[" + name + "]"
    ensures TrimSpace(ReplaceNul(raw)) != [] ==>
      r == TrimSpace(ReplaceNul(raw)) && NUL !in r && LeadSpace(r) == 0 && TrailSpace(r) == 0
  {
    var cmdline := TrimSpace(ReplaceNul(raw));
    if cmdline == [] then "[" + name + "]" else
      assert exists i :: Trimmed(ReplaceNul(raw), cmdline, i);
      cmdline
  }

  /** The kernel's /proc/<pid>/cmdline: every argument followed by a NUL. */
  function JoinNul(args: seq<Bytes>): Bytes
  {
    if args == [] then [] else args[0] + [NUL] + JoinNul(args[1..])
  }

  /** The arguments separated by single spaces. */
  function JoinSpace(args: seq<Bytes>): Bytes
  {
    if args == [] then []
    else if |args| == 1 then args[0]
    else args[0] + " " + JoinSpace(args[1..])
  }

  /** An argument vector shows as its arguments joined by spaces, provided it
      does not start or end with white space. */
  lemma {:induction false} CmdlineOfArgv(args: seq<Bytes>, name: Bytes)
    requires args != [] && forall k :: 0 <= k < |args| ==> NUL !in args[k]
    requires args[0] != [] && LeadSpace(args[0]) == 0
    requires args[|args| - 1] != [] && TrailSpace(args[|args| - 1]) == 0
    ensures CmdlineText(JoinNul(args), name) == JoinSpace(args)
  {
    ReplaceNulJoin(args);
    var x := JoinSpace(args);
    JoinSpaceLead(args);
    JoinSpaceTrail(args);
    TrimOneTrailingSpace(x);
  }

  lemma {:induction false} ReplaceNulJoin(args: seq<Bytes>)
    requires args != [] && forall k :: 0 <= k < |args| ==> NUL !in args[k]
    ensures ReplaceNul(JoinNul(args)) == JoinSpace(args) + " "
  {
    var s := JoinNul(args);
    var a := args[0];
    if |args| == 1 {
      assert JoinNul(args[1..]) == [];
      assert s == a + [NUL];
    } else {
      ReplaceNulJoin(args[1..]);
    }
    var t := JoinNul(args[1..]);
    assert s == a + [NUL] + t;
    ReplaceNulSplit(a + [NUL], t);
    ReplaceNulSplit(a, [NUL]);
    ReplaceNulNoNul(a);
  }

  lemma ReplaceNulSplit(a: Bytes, b: Bytes)
    ensures ReplaceNul(a + b) == ReplaceNul(a) + ReplaceNul(b)
  {
    var l := ReplaceNul(a + b);
    var r := ReplaceNul(a) + ReplaceNul(b);
    assert forall i :: 0 <= i < |a| ==> (a + b)[i] == a[i];
    assert forall i :: |a| <= i < |a| + |b| ==> (a + b)[i] == b[i - |a|];
    assert forall i :: 0 <= i < |l| ==> l[i] == r[i];
  }

  lemma ReplaceNulNoNul(a: Bytes)
    requires NUL !in a
    ensures ReplaceNul(a) == a
  {
    assert forall i :: 0 <= i < |a| ==> a[i] != NUL;
  }

  /** Joining keeps the white space the first argument starts with: the
      space after it begins a new character. */
  lemma JoinSpaceLead(args: seq<Bytes>)
    requires args != [] && args[0] != []
    ensures LeadSpace(JoinSpace(args)) == LeadSpace(args[0])
  {
    if |args| > 1 {
      var a := args[0];
      var x := " " + JoinSpace(args[1..]);
      assert JoinSpace(args) == a + x;
      LeadBeforeCode(a, x, 0);
      assert a[0..] == a && (a + x)[0..] == a + x;
    }
  }

  /** Joining keeps the white space the last argument ends with. */
  lemma {:induction false} JoinSpaceTrail(args: seq<Bytes>)
    requires args != [] && args[|args| - 1] != []
    ensures JoinSpace(args) != [] && TrailSpace(JoinSpace(args)) == TrailSpace(args[|args| - 1])
  {
    if |args| > 1 {
      JoinSpaceTrail(args[1..]);
      TrailAfterSpace(args[0], JoinSpace(args[1..]));
    }
  }

  /** Trimming a text that neither starts nor ends with white space, followed
      by one space, gives the text back. */
  lemma TrimOneTrailingSpace(x: Bytes)
    requires x != [] && LeadSpace(x) == 0 && TrailSpace(x) == 0
    ensures TrimSpace(x + " ") == x
  {
    var s := x + " ";
    LeadBeforeCode(x, " ", 0);
    assert s[0..] == s && x[0..] == x;
    assert SpaceRun(s) == 0;
    assert EndsWithCode(s, 1);
    assert s[..|s| - 1] == x;
    assert TrimRight(x) == x;
    assert TrimRight(s) == x;
  }

  /** What getProcessInfo yields for one pid. */
  datatype ProcInfo = Info(proc: Process) | Unreadable | StatPanic

  /** getProcessInfo: read /proc/<pid>/cmdline, then /proc/<pid>/stat. */
  function GetProcessInfo(fs: ProcFs, pid: int): (r: ProcInfo)
    ensures r.Unreadable? <==> CmdlineFile(fs, FormatInt(pid)).None? || StatFile(fs, FormatInt(pid)).None?
    ensures r.StatPanic? <==> !r.Unreadable? && SplitStat(StatFile(fs, FormatInt(pid)).value).None?
    ensures r.Info? ==> r.proc.pid == pid && r.proc.children == [] && r.proc.cmdline != []
    ensures r.Info? ==>
      && CmdlineFile(fs, FormatInt(pid)).Some? && StatFile(fs, FormatInt(pid)).Some?
      && SplitStat(StatFile(fs, FormatInt(pid)).value).Some?
      && var sp := SplitStat(StatFile(fs, FormatInt(pid)).value).value;
         && r.proc.name == sp.name
         && r.proc.parent == PpidOrZero(sp.afterParen)
         && r.proc.cmdline == CmdlineText(CmdlineFile(fs, FormatInt(pid)).value, sp.name)
  {
    var dir := FormatInt(pid);
    match CmdlineFile(fs, dir)
    case None => Unreadable
    case Some(raw) =>
      match StatFile(fs, dir)
      case None => Unreadable
      case Some(stat) =>
        match SplitStat(stat)
        case None => StatPanic
        case Some(sp) => Info(Process(pid, sp.name, CmdlineText(raw, sp.name), PpidOrZero(sp.afterParen), []))
  }

  // ---------------------------------------------------------------- the forest

  /** getProcessInfo on the snapshot, as a value the first pass is handed. */
  function ProcReader(fs: ProcFs): int -> ProcInfo
  {
    pid => GetProcessInfo(fs, pid)
  }

  /** What `read` yields for each pid. */
  function Reads(read: int -> ProcInfo, pids: seq<int>): (r: seq<ProcInfo>)
    ensures |r| == |pids| && forall k :: 0 <= k < |pids| ==> r[k] == read(pids[k])
  {
    seq(|pids|, k requires 0 <= k < |pids| => read(pids[k]))
  }

  /** What getProcessInfo yields for each pid. */
  function Infos(fs: ProcFs, pids: seq<int>): (r: seq<ProcInfo>)
    ensures |r| == |pids| && forall k :: 0 <= k < |pids| ==> r[k] == GetProcessInfo(fs, pids[k])
  {
    Reads(ProcReader(fs), pids)
  }

  /** A reader that labels every record it returns with the pid it was asked for,
      as getProcessInfo does. */
  ghost predicate KeepsPids(read: int -> ProcInfo)
  {
    forall pid :: read(pid).Info? ==> read(pid).proc.pid == pid
  }

  lemma ProcReaderKeepsPids(fs: ProcFs)
    ensures KeepsPids(ProcReader(fs))
  {
  }

  /** The records of the first `n` reads, in order, skipping the unreadable
      ones; None as soon as one read panics. */
  function Gather(infos: seq<ProcInfo>, n: nat): Option<seq<Process>>
    requires n <= |infos|
  {
    if n == 0 then Some([])
    else
      match Gather(infos, n - 1)
      case None => None
      case Some(procs) =>
        match infos[n - 1]
        case StatPanic => None
        case Unreadable => Some(procs)
        case Info(p) => Some(procs + [p])
  }

  /** Gathering fails exactly when some read panics; otherwise it keeps at
      most one record per read, and the record of every successful read. */
  lemma {:induction false} GatherSpec(infos: seq<ProcInfo>, n: nat)
    requires n <= |infos|
    ensures Gather(infos, n).None? <==> exists k :: 0 <= k < n && infos[k].StatPanic?
    ensures Gather(infos, n).Some? ==> |Gather(infos, n).value| <= n
    ensures Gather(infos, n).Some? ==>
      forall k :: 0 <= k < n && infos[k].Info? ==> infos[k].proc in Gather(infos, n).value
  {
    if n > 0 {
      GatherSpec(infos, n - 1);
    }
  }

  /** Every gathered record comes from a successful read. */
  lemma {:induction false} GatherFrom(infos: seq<ProcInfo>, n: nat, k: nat)
    requires n <= |infos| && Gather(infos, n).Some? && k < |Gather(infos, n).value|
    ensures exists j :: 0 <= j < n && infos[j] == Info(Gather(infos, n).value[k])
  {
    var procs := Gather(infos, n - 1).value;
    if k < |procs| {
      GatherFrom(infos, n - 1, k);
    } else {
      assert infos[n - 1] == Info(Gather(infos, n).value[k]);
    }
  }

  /** The first pass of GetServiceProcesses: getProcessInfo on every pid. */
  function ReadAll(fs: ProcFs, pids: seq<int>): Option<seq<Process>>
  {
    Gather(Infos(fs, pids), |pids|)
  }

  /** The first pass panics iff some stat line makes the parse panic; otherwise
      it keeps every readable process, and each record it keeps is a childless
      process of one of the pids, with a non-empty command line. */
  lemma ReadAllSpec(fs: ProcFs, pids: seq<int>)
    ensures ReadAll(fs, pids).None? <==> exists k :: 0 <= k < |pids| && GetProcessInfo(fs, pids[k]).StatPanic?
    ensures ReadAll(fs, pids).Some? ==>
      forall k :: 0 <= k < |pids| && GetProcessInfo(fs, pids[k]).Info? ==> GetProcessInfo(fs, pids[k]).proc in ReadAll(fs, pids).value
    ensures ReadAll(fs, pids).Some? ==>
      forall k :: 0 <= k < |ReadAll(fs, pids).value| ==>
        var p := ReadAll(fs, pids).value[k];
        p.pid in pids && p.children == [] && p.cmdline != []
  {
    var infos := Infos(fs, pids);
    GatherSpec(infos, |pids|);
    if ReadAll(fs, pids).Some? {
      forall k | 0 <= k < |ReadAll(fs, pids).value|
        ensures var p := ReadAll(fs, pids).value[k];
                p.pid in pids && p.children == [] && p.cmdline != []
      {
        GatherFrom(infos, |pids|, k);
      }
    }
  }

  /** The first pass: read every pid, skipping failures, and index the records
      by pid. `read` is the per-pid read, getProcessInfo on the snapshot. */
  method ReadProcesses(read: int -> ProcInfo, pids: seq<int>) returns (panicked: bool, processes: seq<Process>, processMap: map<int, nat>)
    requires KeepsPids(read)
    ensures panicked <==> Gather(Reads(read, pids), |pids|).None?
    ensures !panicked ==> processes == Gather(Reads(read, pids), |pids|).value && processMap == PidIndex(processes)
  {
    ghost var infos := Reads(read, pids);
    processes := [];
    processMap := map[];
    for k := 0 to |pids|
      invariant Gather(infos, k) == Some(processes)
      invariant processMap == PidIndex(processes)
    {
      var info := read(pids[k]);
      assert infos[k] == info;
      if info.StatPanic? {
        PanicSticks(infos, k + 1, |pids|);
        return true, [], map[];
      }
      if info.Info? {
        assert info.proc.pid == pids[k];
        PidIndexAppend(processes, info.proc);
        processMap := processMap[pids[k] := |processes|];
        processes := processes + [info.proc];
      }
    }
    panicked := false;
  }

  /** Once a read panics, gathering more reads cannot recover. */
  lemma {:induction false} PanicSticks(infos: seq<ProcInfo>, n: nat, m: nat)
    requires n <= m <= |infos| && Gather(infos, n).None?
    ensures Gather(infos, m).None?
  {
    if n < m {
      PanicSticks(infos, n, m - 1);
    }
  }

  const NotRunning: Bytes := "service not running or no processes found"

  /** What GetServiceProcesses returns: the root processes, an error, or a panic
      raised by the stat parse. */
  datatype TreeResult = Found(roots: seq<Process>) | TreeError(message: Bytes) | TreePanic

  /** GetServiceProcesses: scan for the service's pids, read each, link them. */
  method GetServiceProcesses(fs: ProcFs, serviceName: Bytes) returns (r: TreeResult)
    ensures MemberPids(fs, serviceName) == [] ==> r == TreeError(NotRunning)
    ensures MemberPids(fs, serviceName) != [] && ReadAll(fs, MemberPids(fs, serviceName)).None? ==> r == TreePanic
    ensures MemberPids(fs, serviceName) != [] && ReadAll(fs, MemberPids(fs, serviceName)).Some? ==>
      r == Found(Trees(Layout(ReadAll(fs, MemberPids(fs, serviceName)).value)))
  {
    var pids := GetAllServicePids(fs, serviceName);
    if |pids| == 0 {
      return TreeError(NotRunning);
    }
    ProcReaderKeepsPids(fs);
    var panicked, processes, processMap := ReadProcesses(ProcReader(fs), pids);
    PidIndexSpec(processes);
    if panicked {
      return TreePanic;
    }
    var f := LinkProcesses(processes, processMap);
    return Found(Trees(f));
  }

  /** When no process can be read the result is an empty slice, not an error. */
  lemma NothingReadable(fs: ProcFs, serviceName: Bytes)
    requires MemberPids(fs, serviceName) != []
    requires forall k :: 0 <= k < |MemberPids(fs, serviceName)| ==> GetProcessInfo(fs, MemberPids(fs, serviceName)[k]).Unreadable?
    ensures ReadAll(fs, MemberPids(fs, serviceName)) == Some([])
    ensures Layout([]).roots == []
  {
    var pids := MemberPids(fs, serviceName);
    var infos := Infos(fs, pids);
    GatherSpec(infos, |pids|);
    if Gather(infos, |pids|).value != [] {
      GatherFrom(infos, |pids|, 0);
    }
  }
}
