/**
  One run of the `checker()` coroutine that `check` builds for a host: build
  the connection arguments, connect, start the SFTP client, record the
  host's health state, run the configured checker on every folder, close the
  connection if it was opened.
*/
module HostCycle {
  import opened Wrappers
  import opened Metrics
  import opened FileMatch
  import opened Resources
  import opened Config
  import opened Checkers

  /** How `asyncssh.connect(**kw)` ends. */
  datatype Connect =
    | Connected
      /** An `asyncssh.Error`: caught, the host is in ConnectError. */
    | ConnectFailed
      /** `socket.gaierror`: caught, the host is in DNSError. */
    | NameNotResolved
      /** Any other `OSError` (refused, unreachable, timed out): not caught, nothing is recorded. */
    | Unreachable

  /** How `conn.start_sftp_client()` ends. */
  datatype SftpStart =
    | SftpStarted
      /** `asyncssh.SFTPError`: the host is in SFTPError. */
    | SftpRefused
      /** Another `asyncssh.Error`: it reaches the outer handler, the host is in ConnectError. */
    | SshFailed

  /**
    What one folder check meets: the date parser as `prepare_folder` calls it,
    the dates the matcher calls see, the directory (None when listing it raised
    `SFTPError`), the fresh `uuid4` token and the outcome of the probe.
  */
  datatype FolderEnv = FolderEnv(folderParse: DateParser, dates: DateEnv, listing: Option<seq<DirEntry>>,
                                 token: string, probe: Probe)

  /** The names `listdir` returns for the directory `readdir` describes. */
  function Names(entries: seq<DirEntry>): (r: seq<string>)
    ensures |r| == |entries|
    ensures forall i | 0 <= i < |entries| :: r[i] == entries[i].filename
  {
    if entries == [] then [] else [entries[0].filename] + Names(entries[1..])
  }

  function Listed(e: FolderEnv): Option<seq<string>>
  {
    if e.listing.None? then None else Some(Names(e.listing.value))
  }

  /** The folder as the checker receives it, after `prepare_folder`. */
  function Prepared(h: HostSettings, folder: string, e: FolderEnv): string
  {
    PrepareFolder(h.smartFolderDate, h.baseFolderDate, e.folderParse, e.dates.strftime, folder)
  }

  /** The gauge writes of the configured checker on one folder. */
  function FolderTrace(h: HostSettings, now: int, folder: string, e: FolderEnv): seq<Write>
  {
    var dir := Prepared(h, folder, e);
    match h.checker
    case Noop => NoopTrace(dir, now, h.MatchCallback(), e.dates, h, Listed(e))
    case Attributes => AttributesTrace(dir, h.MatchCallback(), e.dates, h, e.listing)
    case PutGetDel => PutGetDelTrace(dir, now, h.MatchCallback(), e.dates, h, Listed(e), e.token, e.probe)
  }

  /** The checks of the first `n` folders, one after another in the order of `h.folders`. */
  function FoldersTrace(h: HostSettings, now: int, envs: seq<FolderEnv>, n: nat): seq<Write>
    requires |envs| == |h.folders| && n <= |envs|
  {
    if n == 0 then []
    else FoldersTrace(h, now, envs, n - 1) + FolderTrace(h, now, h.folders[n - 1], envs[n - 1])
  }

  /** Some of the first `n` folders could not be listed. */
  predicate ListingFailedAmong(envs: seq<FolderEnv>, n: nat)
    requires n <= |envs|
  {
    n > 0 && (envs[n - 1].listing.None? || ListingFailedAmong(envs, n - 1))
  }

  predicate SomeListingFailed(envs: seq<FolderEnv>)
  {
    ListingFailedAmong(envs, |envs|)
  }

  /** A listing failed among the first `n` folders iff one of them has no listing. */
  lemma {:induction false} ListingFailedAmongIff(envs: seq<FolderEnv>, n: nat)
    requires n <= |envs|
    ensures ListingFailedAmong(envs, n) <==> exists i | 0 <= i < n :: envs[i].listing.None?
  {
    if n > 0 {
      ListingFailedAmongIff(envs, n - 1);
    }
  }

  function HostUpWrite(h: HostSettings, state: string, now: int): Write
  {
    Write(HostKey(h.host, h.username, state), now)
  }

  /**
    The gauge writes of one cycle. A listing that raises `SFTPError` leaves
    `gather` and reaches the `except asyncssh.Error` of the cycle, which then
    records ConnectError although Ok was recorded before.
  */
  function CycleTrace(h: HostSettings, now: int, conn: Connect, sftp: SftpStart, envs: seq<FolderEnv>): seq<Write>
    requires |envs| == |h.folders|
  {
    match conn
    case Unreachable => []
    case NameNotResolved => [HostUpWrite(h, "DNSError", now)]
    case ConnectFailed => [HostUpWrite(h, "ConnectError", now)]
    case Connected =>
      match sftp
      case SftpRefused => [HostUpWrite(h, "SFTPError", now)]
      case SshFailed => [HostUpWrite(h, "ConnectError", now)]
      case SftpStarted =>
        [HostUpWrite(h, "Ok", now)] + FoldersTrace(h, now, envs, |envs|)
          + (if SomeListingFailed(envs) then [HostUpWrite(h, "ConnectError", now)] else [])
  }

  /** The states of `sftp_host_up` a cycle records. */
  const HostStates: set<string> := {"Ok", "SFTPError", "ConnectError", "DNSError"}

  /** One folder check of the cycle: `check_callback(client, prepare_folder(folder), now, match_callback, ...)`. */
  method CheckFolder(reg: Registry, fs: Handles, h: HostSettings, now: int, folder: string, e: FolderEnv)
    returns (failed: bool)
    requires reg.Valid() && fs.Valid()
    modifies reg, fs
    ensures reg.Valid() && fs.Valid()
    ensures failed <==> e.listing.None?
    ensures reg.samples == old(reg.samples) + Written(FolderTrace(h, now, folder, e))
    ensures fs.live == old(fs.live)
  {
    var dir := PrepareFolder(h.smartFolderDate, h.baseFolderDate, e.folderParse, e.dates.strftime, folder);
    match h.checker {
      case Noop =>
        var matched := NoopChecker(reg, dir, now, h.MatchCallback(), e.dates, h, Listed(e));
        failed := matched.None?;
      case Attributes =>
        var matched := AttributesChecker(reg, dir, now, h.MatchCallback(), e.dates, h, e.listing);
        failed := matched.None?;
      case PutGetDel =>
        var remote;
        failed, remote := PutGetDelChecker(reg, fs, dir, now, h.MatchCallback(), e.dates, h, Listed(e), e.token, e.probe);
    }
  }

  /**
    One cycle of `checker()`. The connection is a handle of `conns`, acquired
    only when `connect` succeeds and released on every path after that; the
    probe's temporary files are handles of `fs`.
  */
  method RunCycle(reg: Registry, fs: Handles, conns: Handles, h: HostSettings, now: int,
                  conn: Connect, sftp: SftpStart, envs: seq<FolderEnv>)
    returns (kw: map<string, KwArg>)
    requires reg.Valid() && fs.Valid() && conns.Valid() && fs != conns
    requires |envs| == |h.folders|
    modifies reg, fs, conns
    ensures reg.Valid() && fs.Valid() && conns.Valid()
    ensures reg.samples == old(reg.samples) + Written(CycleTrace(h, now, conn, sftp, envs))
    ensures "client_factory" in kw <==> !h.validateKnownHosts
    ensures conns.issued == old(conns.issued) + (if conn.Connected? then 1 else 0)
    ensures conns.live == old(conns.live) && fs.live == old(fs.live)
  {
    kw := ConnectKwargs(h);
    ghost var m0 := reg.samples;
    match conn {
      case Unreachable =>
      case NameNotResolved =>
        reg.Set(HostUp, [h.host, h.username, "DNSError"], now);
        UnionOne(m0, HostUpWrite(h, "DNSError", now));
      case ConnectFailed =>
        reg.Set(HostUp, [h.host, h.username, "ConnectError"], now);
        UnionOne(m0, HostUpWrite(h, "ConnectError", now));
      case Connected =>
        var c := conns.Acquire();
        match sftp {
          case SftpRefused =>
            reg.Set(HostUp, [h.host, h.username, "SFTPError"], now);
            UnionOne(m0, HostUpWrite(h, "SFTPError", now));
          case SshFailed =>
            reg.Set(HostUp, [h.host, h.username, "ConnectError"], now);
            UnionOne(m0, HostUpWrite(h, "ConnectError", now));
          case SftpStarted =>
            StartedCycle(reg, fs, h, now, envs);
        }
        conns.Release(c);
    }
  }

  /** The started branch of a cycle: record Ok, check every folder, record ConnectError after a failed listing. */
  method StartedCycle(reg: Registry, fs: Handles, h: HostSettings, now: int, envs: seq<FolderEnv>)
    requires reg.Valid() && fs.Valid()
    requires |envs| == |h.folders|
    modifies reg, fs
    ensures reg.Valid() && fs.Valid()
    ensures reg.samples == old(reg.samples) + Written(CycleTrace(h, now, Connected, SftpStarted, envs))
    ensures fs.live == old(fs.live)
  {
    ghost var m0 := reg.samples;
    ghost var ok := HostUpWrite(h, "Ok", now);
    reg.Set(HostUp, [h.host, h.username, "Ok"], now);
    UnionOne(m0, ok);
    ghost var m1 := reg.samples;
    var anyFailed := CheckFolders(reg, fs, h, now, envs);
    ghost var folders := FoldersTrace(h, now, envs, |envs|);
    UnionAppend(m0, [ok], folders);
    if anyFailed {
      ghost var failure := HostUpWrite(h, "ConnectError", now);
      reg.Set(HostUp, [h.host, h.username, "ConnectError"], now);
      UnionSnoc(m0, [ok] + folders, failure);
      StartedCycleTrace(h, now, envs, [failure]);
    } else {
      assert [ok] + folders + [] == [ok] + folders;
      StartedCycleTrace(h, now, envs, []);
    }
  }

  /** The `gather` of the folder checks, run one after another. */
  method CheckFolders(reg: Registry, fs: Handles, h: HostSettings, now: int, envs: seq<FolderEnv>)
    returns (anyFailed: bool)
    requires reg.Valid() && fs.Valid()
    requires |envs| == |h.folders|
    modifies reg, fs
    ensures reg.Valid() && fs.Valid()
    ensures anyFailed <==> SomeListingFailed(envs)
    ensures reg.samples == old(reg.samples) + Written(FoldersTrace(h, now, envs, |envs|))
    ensures fs.live == old(fs.live)
  {
    ghost var m0 := reg.samples;
    assert m0 + Written([]) == m0;
    anyFailed := false;
    var i := 0;
    while i < |h.folders|
      invariant 0 <= i <= |h.folders|
      invariant reg.Valid() && fs.Valid() && fs.live == old(fs.live)
      invariant reg.samples == m0 + Written(FoldersTrace(h, now, envs, i))
      invariant anyFailed <==> ListingFailedAmong(envs, i)
    {
      ghost var done := FoldersTrace(h, now, envs, i);
      ghost var step := FolderTrace(h, now, h.folders[i], envs[i]);
      var failed := CheckFolder(reg, fs, h, now, h.folders[i], envs[i]);
      UnionAppend(m0, done, step);
      anyFailed := anyFailed || failed;
      i := i + 1;
    }
  }

  lemma StartedCycleTrace(h: HostSettings, now: int, envs: seq<FolderEnv>, tail: seq<Write>)
    requires |envs| == |h.folders|
    requires tail == if SomeListingFailed(envs) then [HostUpWrite(h, "ConnectError", now)] else []
    ensures CycleTrace(h, now, Connected, SftpStarted, envs)
         == [HostUpWrite(h, "Ok", now)] + FoldersTrace(h, now, envs, |envs|) + tail
  {
  }

  // ------------------------------------------------------------ properties

  /** No write of a trace is to `sftp_host_up`. */
  predicate NoHostUp(ws: seq<Write>)
  {
    forall i | 0 <= i < |ws| :: ws[i].key.gauge != HostUp
  }

  lemma {:induction false} LastSeenTraceNoHostUp(folder: string, host: string, now: int, matched: seq<string>)
    ensures NoHostUp(LastSeenTrace(folder, host, now, matched))
    decreases |matched|
  {
    if matched != [] {
      LastSeenTraceNoHostUp(folder, host, now, matched[..|matched| - 1]);
    }
  }

  lemma {:induction false} AttributeTraceNoHostUp(folder: string, host: string, matched: seq<DirEntry>)
    ensures NoHostUp(AttributeTrace(folder, host, matched))
    decreases |matched|
  {
    if matched != [] {
      AttributeTraceNoHostUp(folder, host, matched[..|matched| - 1]);
    }
  }

  /** A folder check never touches the host-health gauge. */
  lemma FolderTraceNoHostUp(h: HostSettings, now: int, folder: string, e: FolderEnv)
    ensures NoHostUp(FolderTrace(h, now, folder, e))
  {
    var dir := Prepared(h, folder, e);
    var m := h.MatchCallback();
    match h.checker
    case Noop =>
      if e.listing.Some? {
        LastSeenTraceNoHostUp(dir, h.host, now, Select(m, e.dates, Names(e.listing.value), Itself));
      }
    case Attributes =>
      if e.listing.Some? {
        AttributeTraceNoHostUp(dir, h.host, Select(m, e.dates, e.listing.value, Filename));
      }
    case PutGetDel =>
      if e.listing.Some? {
        LastSeenTraceNoHostUp(dir, h.host, now, Select(m, e.dates, Names(e.listing.value), Itself));
      }
  }

  lemma {:induction false} FoldersTraceNoHostUp(h: HostSettings, now: int, envs: seq<FolderEnv>, n: nat)
    requires |envs| == |h.folders| && n <= |envs|
    ensures NoHostUp(FoldersTrace(h, now, envs, n))
  {
    if n > 0 {
      FoldersTraceNoHostUp(h, now, envs, n - 1);
      FolderTraceNoHostUp(h, now, h.folders[n - 1], envs[n - 1]);
    }
  }

  /**
    Folder checks run only after the host was recorded Ok: a cycle that
    writes any other gauge opened its connection and its SFTP client, and its
    first write is `sftp_host_up` in state Ok.
  */
  lemma FoldersOnlyAfterOk(h: HostSettings, now: int, conn: Connect, sftp: SftpStart, envs: seq<FolderEnv>, i: nat)
    requires |envs| == |h.folders|
    requires i < |CycleTrace(h, now, conn, sftp, envs)|
    requires CycleTrace(h, now, conn, sftp, envs)[i].key.gauge != HostUp
    ensures conn.Connected? && sftp.SftpStarted?
    ensures 0 < i && CycleTrace(h, now, conn, sftp, envs)[0] == HostUpWrite(h, "Ok", now)
  {
    if conn.Connected? && sftp.SftpStarted? {
      FoldersTraceNoHostUp(h, now, envs, |envs|);
    }
  }

  /**
    Every `sftp_host_up` sample a cycle writes is for this host and user, in
    one of the four states Ok, SFTPError, ConnectError, DNSError.
  */
  lemma HostUpStates(h: HostSettings, now: int, conn: Connect, sftp: SftpStart, envs: seq<FolderEnv>, i: nat)
    requires |envs| == |h.folders|
    requires i < |CycleTrace(h, now, conn, sftp, envs)|
    requires CycleTrace(h, now, conn, sftp, envs)[i].key.gauge == HostUp
    ensures exists s | s in HostStates :: CycleTrace(h, now, conn, sftp, envs)[i] == HostUpWrite(h, s, now)
  {
    var t := CycleTrace(h, now, conn, sftp, envs);
    if conn.Connected? && sftp.SftpStarted? {
      var folders := FoldersTrace(h, now, envs, |envs|);
      FoldersTraceNoHostUp(h, now, envs, |envs|);
      if i == 0 {
        assert t[i] == HostUpWrite(h, "Ok", now);
      } else if i <= |folders| {
        assert false;
      } else {
        assert t[i] == HostUpWrite(h, "ConnectError", now);
      }
    } else if conn.NameNotResolved? {
      assert t[i] == HostUpWrite(h, "DNSError", now);
    } else if conn.ConnectFailed? || sftp.SshFailed? {
      assert t[i] == HostUpWrite(h, "ConnectError", now);
    } else {
      assert t[i] == HostUpWrite(h, "SFTPError", now);
    }
  }

  /** State Ok is recorded iff the connection and the SFTP client both came up. */
  lemma OkIffStarted(h: HostSettings, now: int, conn: Connect, sftp: SftpStart, envs: seq<FolderEnv>)
    requires |envs| == |h.folders|
    ensures HostKey(h.host, h.username, "Ok") in Written(CycleTrace(h, now, conn, sftp, envs))
            <==> conn.Connected? && sftp.SftpStarted?
  {
    var t := CycleTrace(h, now, conn, sftp, envs);
    WrittenKeys(t);
    if conn.Connected? && sftp.SftpStarted? {
      assert t[0].key == HostKey(h.host, h.username, "Ok");
    }
  }

  /** An unresolvable host name leaves exactly one sample: state DNSError at `now`. */
  lemma DnsFailureOnlyRecordsDnsError(h: HostSettings, now: int, sftp: SftpStart, envs: seq<FolderEnv>)
    requires |envs| == |h.folders|
    ensures Written(CycleTrace(h, now, NameNotResolved, sftp, envs)) == map[HostKey(h.host, h.username, "DNSError") := now]
  {
    WrittenOne(HostUpWrite(h, "DNSError", now));
  }

  /** An `OSError` other than a name-resolution failure escapes the cycle and records nothing. */
  lemma UnreachableRecordsNothing(h: HostSettings, now: int, sftp: SftpStart, envs: seq<FolderEnv>)
    requires |envs| == |h.folders|
    ensures Written(CycleTrace(h, now, Unreachable, sftp, envs)) == map[]
  {
  }

  /**
    After a started cycle the host is left in ConnectError as well as Ok
    exactly when some folder could not be listed.
  */
  lemma ListingFailureRecordsConnectError(h: HostSettings, now: int, envs: seq<FolderEnv>)
    requires |envs| == |h.folders|
    ensures HostKey(h.host, h.username, "ConnectError") in Written(CycleTrace(h, now, Connected, SftpStarted, envs))
            <==> exists i | 0 <= i < |envs| :: envs[i].listing.None?
  {
    ListingFailedAmongIff(envs, |envs|);
    var t := CycleTrace(h, now, Connected, SftpStarted, envs);
    var folders := FoldersTrace(h, now, envs, |envs|);
    var k := HostKey(h.host, h.username, "ConnectError");
    FoldersTraceNoHostUp(h, now, envs, |envs|);
    WrittenKeys(t);
    if SomeListingFailed(envs) {
      assert t[|t| - 1].key == k;
    }
  }

  /**
    The folder label of every sample a folder check writes is the folder from
    the configuration, rendered through the parsed base date only when smart
    folder dating is on. The capability gauges carry it third, the
    (folder, file, host) gauges first.
  */
  lemma FolderLabelIsPrepared(h: HostSettings, now: int, folder: string, e: FolderEnv, k: Sample)
    requires k in Written(FolderTrace(h, now, folder, e))
    ensures var dir := if h.smartFolderDate then e.dates.strftime(e.folderParse(h.baseFolderDate), folder) else folder;
      if k.gauge in {PutFileUp, GetFileUp, DelFileUp} then |k.labels| == 4 && k.labels[2] == dir
      else |k.labels| == 3 && k.labels[0] == dir
  {
    var dir := Prepared(h, folder, e);
    var m := h.MatchCallback();
    match h.checker
    case Noop =>
      LastSeenTraceEffect(dir, h.host, now, Select(m, e.dates, Names(e.listing.value), Itself));
    case Attributes =>
      AttributeTraceKeys(dir, h.host, Select(m, e.dates, e.listing.value, Filename));
    case PutGetDel =>
      var noop := NoopTrace(dir, now, m, e.dates, h, Listed(e));
      var pr := ProbeTrace(h, dir, now, ProbeContents(h, e.token), e.probe);
      WrittenAppend(noop, pr);
      if k in Written(pr) {
        WrittenKeys(pr);
        ProbeStepOrder(h, dir, now, ProbeContents(h, e.token), e.probe);
      } else {
        LastSeenTraceEffect(dir, h.host, now, Select(m, e.dates, Names(e.listing.value), Itself));
      }
  }

  /** The host states the handlers of `checker()` record for each outcome. */
  function RecordedStates(conn: Connect, sftp: SftpStart, envs: seq<FolderEnv>): set<string>
  {
    match conn
    case Unreachable => {}
    case NameNotResolved => {"DNSError"}
    case ConnectFailed => {"ConnectError"}
    case Connected =>
      match sftp
      case SftpRefused => {"SFTPError"}
      case SshFailed => {"ConnectError"}
      case SftpStarted => {"Ok"} + (if exists i | 0 <= i < |envs| :: envs[i].listing.None? then {"ConnectError"} else {})
  }

  /** A cycle leaves the host in exactly the states its outcome calls for, each at `now`. */
  lemma HostStatesRecorded(h: HostSettings, now: int, conn: Connect, sftp: SftpStart, envs: seq<FolderEnv>, st: string)
    requires |envs| == |h.folders|
    ensures HostKey(h.host, h.username, st) in Written(CycleTrace(h, now, conn, sftp, envs))
            <==> st in RecordedStates(conn, sftp, envs)
    ensures HostKey(h.host, h.username, st) in Written(CycleTrace(h, now, conn, sftp, envs))
            ==> Written(CycleTrace(h, now, conn, sftp, envs))[HostKey(h.host, h.username, st)] == now
  {
    var t := CycleTrace(h, now, conn, sftp, envs);
    var k := HostKey(h.host, h.username, st);
    WrittenKeys(t);
    if conn.Connected? && sftp.SftpStarted? {
      OkIffStarted(h, now, conn, sftp, envs);
      ListingFailureRecordsConnectError(h, now, envs);
      FoldersTraceNoHostUp(h, now, envs, |envs|);
      if k in Written(t) {
        var i :| 0 <= i < |t| && t[i].key == k;
        HostUpStates(h, now, conn, sftp, envs, i);
        var j := LastIndexOf(t, k, i);
        WrittenLastWins(t, j);
        HostUpStates(h, now, conn, sftp, envs, j);
      }
    } else if k in Written(t) {
      var i :| 0 <= i < |t| && t[i].key == k;
      assert i == 0;
      WrittenOne(t[0]);
    }
  }
}
