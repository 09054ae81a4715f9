/**
  The three folder checkers. Each lists a folder, keeps the names the matcher
  accepts and upserts gauges; the round-trip checker then writes, reads back
  and deletes a probe file. A listing that fails (`SFTPError` from
  `listdir`/`readdir`) leaves the checker by exception: modelled as a `None`
  listing and a `None` / `failed` result.

  Every checker is specified by the trace of gauge writes it makes.
*/
module Checkers {
  import opened Wrappers
  import opened Metrics
  import opened Paths
  import opened FileMatch
  import opened Resources
  import opened Config

  /** An `SFTPName` from `readdir`: a file name with its attributes. */
  datatype DirEntry = DirEntry(filename: string, mtime: int, atime: int, size: int)

  function Itself(s: string): string { s }

  function Filename(e: DirEntry): string { e.filename }

  // ---------------------------------------------------------------- noop

  function LastSeenTrace(folder: string, host: string, now: int, matched: seq<string>): seq<Write>
    decreases |matched|
  {
    if matched == [] then []
    else
      var n := |matched| - 1;
      LastSeenTrace(folder, host, now, matched[..n]) + [Write(FileKey(LastSeen, folder, matched[n], host), now)]
  }

  /** What `noop_checker` returns: the accepted names, or None when the listing raised. */
  function NoopResult(m: Matcher, env: DateEnv, listing: Option<seq<string>>): Option<seq<string>>
  {
    if listing.None? then None else Some(Select(m, env, listing.value, Itself))
  }

  /** The gauge writes of `noop_checker`. */
  function NoopTrace(folder: string, now: int, m: Matcher, env: DateEnv, h: HostSettings,
                     listing: Option<seq<string>>): seq<Write>
  {
    if listing.None? then [] else LastSeenTrace(folder, h.host, now, Select(m, env, listing.value, Itself))
  }

  /** The last-seen trace sets the last-seen gauge of exactly the matched names, all to `now`. */
  lemma {:induction false} LastSeenTraceEffect(folder: string, host: string, now: int, matched: seq<string>)
    ensures forall k :: k in Written(LastSeenTrace(folder, host, now, matched)) <==>
              exists j | 0 <= j < |matched| :: k == FileKey(LastSeen, folder, matched[j], host)
    ensures forall k | k in Written(LastSeenTrace(folder, host, now, matched)) ::
              Written(LastSeenTrace(folder, host, now, matched))[k] == now
    decreases |matched|
  {
    if matched != [] {
      var n := |matched| - 1;
      var front := matched[..n];
      var newKey := FileKey(LastSeen, folder, matched[n], host);
      LastSeenTraceEffect(folder, host, now, front);
      WrittenSnoc(LastSeenTrace(folder, host, now, front), Write(newKey, now));
      var w0 := Written(LastSeenTrace(folder, host, now, front));
      var w := Written(LastSeenTrace(folder, host, now, matched));
      assert w == w0[newKey := now];
      forall k
        ensures k in w <==> exists j | 0 <= j < |matched| :: k == FileKey(LastSeen, folder, matched[j], host)
      {
        if k in w0 {
          var j :| 0 <= j < n && k == FileKey(LastSeen, folder, front[j], host);
          assert front[j] == matched[j];
        }
        if exists j | 0 <= j < |matched| :: k == FileKey(LastSeen, folder, matched[j], host) {
          var j :| 0 <= j < |matched| && k == FileKey(LastSeen, folder, matched[j], host);
          if j < n {
            assert front[j] == matched[j];
            assert k in w0;
          }
        }
      }
    }
  }

  /**
    `noop_checker` sets `sftp_last_seen_timestamp[(folder, name, host)] = now`
    for exactly the listed names the matcher accepts, and writes no other key.
  */
  lemma NoopWritesExactlyMatched(folder: string, now: int, m: Matcher, env: DateEnv, h: HostSettings,
                                 names: seq<string>)
    ensures forall k :: k in Written(NoopTrace(folder, now, m, env, h, Some(names))) <==>
              exists i | 0 <= i < |names| :: Accepts(m, env, i, names[i]) && k == FileKey(LastSeen, folder, names[i], h.host)
    ensures forall k | k in Written(NoopTrace(folder, now, m, env, h, Some(names))) ::
              Written(NoopTrace(folder, now, m, env, h, Some(names)))[k] == now
  {
    var sel := Select(m, env, names, Itself);
    LastSeenTraceEffect(folder, h.host, now, sel);
    assert NoopTrace(folder, now, m, env, h, Some(names)) == LastSeenTrace(folder, h.host, now, sel);
    forall k
      ensures k in Written(LastSeenTrace(folder, h.host, now, sel)) <==>
              exists i | 0 <= i < |names| :: Accepts(m, env, i, names[i]) && k == FileKey(LastSeen, folder, names[i], h.host)
    {
      if exists j | 0 <= j < |sel| :: k == FileKey(LastSeen, folder, sel[j], h.host) {
        var j :| 0 <= j < |sel| && k == FileKey(LastSeen, folder, sel[j], h.host);
        SelectMembers(m, env, names, Itself, sel[j]);
      }
      if exists i | 0 <= i < |names| :: Accepts(m, env, i, names[i]) && k == FileKey(LastSeen, folder, names[i], h.host) {
        var i :| 0 <= i < |names| && Accepts(m, env, i, names[i]) && k == FileKey(LastSeen, folder, names[i], h.host);
        SelectMembers(m, env, names, Itself, names[i]);
        var j :| 0 <= j < |sel| && sel[j] == names[i];
      }
    }
  }

  method NoopChecker(reg: Registry, folder: string, now: int, m: Matcher, env: DateEnv, h: HostSettings,
                     listing: Option<seq<string>>) returns (matched: Option<seq<string>>)
    requires reg.Valid()
    modifies reg
    ensures reg.Valid()
    ensures matched == NoopResult(m, env, listing)
    ensures reg.samples == old(reg.samples) + Written(NoopTrace(folder, now, m, env, h, listing))
  {
    if listing.None? {
      matched := None;
      return;
    }
    var sel := Select(m, env, listing.value, Itself);
    var i := 0;
    while i < |sel|
      invariant 0 <= i <= |sel|
      invariant reg.Valid()
      invariant reg.samples == old(reg.samples) + Written(LastSeenTrace(folder, h.host, now, sel[..i]))
    {
      var w := Write(FileKey(LastSeen, folder, sel[i], h.host), now);
      assert sel[..i + 1][..i] == sel[..i];
      assert LastSeenTrace(folder, h.host, now, sel[..i + 1]) == LastSeenTrace(folder, h.host, now, sel[..i]) + [w];
      UnionSnoc(old(reg.samples), LastSeenTrace(folder, h.host, now, sel[..i]), w);
      reg.Set(LastSeen, [folder, sel[i], h.host], now);
      i := i + 1;
    }
    assert sel[..|sel|] == sel;
    matched := Some(sel);
  }

  // ---------------------------------------------------------- attributes

  function EntryWrites(folder: string, host: string, e: DirEntry): seq<Write>
  {
    [ Write(FileKey(FileModified, folder, e.filename, host), e.mtime),
      Write(FileKey(FileAccessed, folder, e.filename, host), e.atime),
      Write(FileKey(FileSize, folder, e.filename, host), e.size) ]
  }

  function AttributeTrace(folder: string, host: string, matched: seq<DirEntry>): seq<Write>
    decreases |matched|
  {
    if matched == [] then []
    else
      var n := |matched| - 1;
      AttributeTrace(folder, host, matched[..n]) + EntryWrites(folder, host, matched[n])
  }

  function AttributesResult(m: Matcher, env: DateEnv, listing: Option<seq<DirEntry>>): Option<seq<DirEntry>>
  {
    if listing.None? then None else Some(Select(m, env, listing.value, Filename))
  }

  /** The gauge writes of `attributes_checker`. */
  function AttributesTrace(folder: string, m: Matcher, env: DateEnv, h: HostSettings,
                           listing: Option<seq<DirEntry>>): seq<Write>
  {
    if listing.None? then [] else AttributeTrace(folder, h.host, Select(m, env, listing.value, Filename))
  }

  /** The three keys `attributes_checker` writes for one file. */
  function AttributeKeys(folder: string, file: string, host: string): set<Sample>
  {
    {FileKey(FileModified, folder, file, host), FileKey(FileAccessed, folder, file, host), FileKey(FileSize, folder, file, host)}
  }

  lemma EntryWritesEffect(folder: string, host: string, e: DirEntry)
    ensures Written(EntryWrites(folder, host, e)) ==
              map[FileKey(FileModified, folder, e.filename, host) := e.mtime,
                  FileKey(FileAccessed, folder, e.filename, host) := e.atime,
                  FileKey(FileSize, folder, e.filename, host) := e.size]
    ensures Written(EntryWrites(folder, host, e)).Keys == AttributeKeys(folder, e.filename, host)
  {
    var ws := EntryWrites(folder, host, e);
    assert ws == [ws[0]] + [ws[1]] + [ws[2]];
    WrittenOne(ws[0]);
    WrittenSnoc([ws[0]], ws[1]);
    WrittenSnoc([ws[0]] + [ws[1]], ws[2]);
  }

  /** The attribute trace writes exactly the three keys of each matched file. */
  lemma {:induction false} AttributeTraceKeys(folder: string, host: string, matched: seq<DirEntry>)
    ensures forall k :: k in Written(AttributeTrace(folder, host, matched)) <==>
              exists j | 0 <= j < |matched| :: k in AttributeKeys(folder, matched[j].filename, host)
    decreases |matched|
  {
    if matched != [] {
      var n := |matched| - 1;
      AttributeTraceKeys(folder, host, matched[..n]);
      WrittenAppend(AttributeTrace(folder, host, matched[..n]), EntryWrites(folder, host, matched[n]));
      EntryWritesEffect(folder, host, matched[n]);
      assert forall j | 0 <= j < n :: matched[..n][j] == matched[j];
    }
  }

  /** For each matched file, the values of its last listing entry are what the gauges hold. */
  lemma {:induction false} AttributeTraceLastEntryWins(folder: string, host: string, matched: seq<DirEntry>, j: nat)
    requires j < |matched|
    requires forall i | j < i < |matched| :: matched[i].filename != matched[j].filename
    ensures FileKey(FileModified, folder, matched[j].filename, host) in Written(AttributeTrace(folder, host, matched))
         && Written(AttributeTrace(folder, host, matched))[FileKey(FileModified, folder, matched[j].filename, host)] == matched[j].mtime
    ensures FileKey(FileAccessed, folder, matched[j].filename, host) in Written(AttributeTrace(folder, host, matched))
         && Written(AttributeTrace(folder, host, matched))[FileKey(FileAccessed, folder, matched[j].filename, host)] == matched[j].atime
    ensures FileKey(FileSize, folder, matched[j].filename, host) in Written(AttributeTrace(folder, host, matched))
         && Written(AttributeTrace(folder, host, matched))[FileKey(FileSize, folder, matched[j].filename, host)] == matched[j].size
    decreases |matched|
  {
    var n := |matched| - 1;
    WrittenAppend(AttributeTrace(folder, host, matched[..n]), EntryWrites(folder, host, matched[n]));
    EntryWritesEffect(folder, host, matched[n]);
    if j < n {
      assert forall i | j < i < n :: matched[..n][i] == matched[i];
      AttributeTraceLastEntryWins(folder, host, matched[..n], j);
    }
  }

  /**
    `attributes_checker` writes the mtime, atime and size gauges of exactly the
    accepted entries, with the values of the entry (the last one, should a name
    be listed twice).
  */
  lemma AttributesWriteExactlyMatched(folder: string, m: Matcher, env: DateEnv, h: HostSettings, entries: seq<DirEntry>)
    ensures forall k :: k in Written(AttributesTrace(folder, m, env, h, Some(entries))) <==>
              exists i | 0 <= i < |entries| ::
                Accepts(m, env, i, entries[i].filename) && k in AttributeKeys(folder, entries[i].filename, h.host)
  {
    var sel := Select(m, env, entries, Filename);
    AttributeTraceKeys(folder, h.host, sel);
    forall x ensures x in sel <==> exists i | 0 <= i < |entries| :: entries[i] == x && Accepts(m, env, i, x.filename) {
      SelectMembers(m, env, entries, Filename, x);
    }
  }

  method AttributesChecker(reg: Registry, folder: string, now: int, m: Matcher, env: DateEnv, h: HostSettings,
                           listing: Option<seq<DirEntry>>) returns (matched: Option<seq<DirEntry>>)
    requires reg.Valid()
    modifies reg
    ensures reg.Valid()
    ensures matched == AttributesResult(m, env, listing)
    ensures reg.samples == old(reg.samples) + Written(AttributesTrace(folder, m, env, h, listing))
  {
    if listing.None? {
      matched := None;
      return;
    }
    var sel := Select(m, env, listing.value, Filename);
    var i := 0;
    while i < |sel|
      invariant 0 <= i <= |sel|
      invariant reg.Valid()
      invariant reg.samples == old(reg.samples) + Written(AttributeTrace(folder, h.host, sel[..i]))
    {
      var e := sel[i];
      var done := AttributeTrace(folder, h.host, sel[..i]);
      var ws := EntryWrites(folder, h.host, e);
      assert sel[..i + 1][..i] == sel[..i];
      assert AttributeTrace(folder, h.host, sel[..i + 1]) == done + ws;
      assert done + ws == ((done + [ws[0]]) + [ws[1]]) + [ws[2]];
      UnionSnoc(old(reg.samples), done, ws[0]);
      UnionSnoc(old(reg.samples), done + [ws[0]], ws[1]);
      UnionSnoc(old(reg.samples), (done + [ws[0]]) + [ws[1]], ws[2]);
      reg.Set(FileModified, [folder, e.filename, h.host], e.mtime);
      reg.Set(FileAccessed, [folder, e.filename, h.host], e.atime);
      reg.Set(FileSize, [folder, e.filename, h.host], e.size);
      i := i + 1;
    }
    assert sel[..|sel|] == sel;
    matched := Some(sel);
  }

  // --------------------------------------------------------- put_get_del

  const DefaultCheckFileName: string := ".sftp-exporter-health-check"

  /**
    What the server does with the probe. `got` is the content `get` brings
    back, None when `get` raised `SFTPError`.
  */
  datatype Probe = Probe(putOk: bool, got: Option<string>, delOk: bool)

  function ProbeFileName(h: HostSettings): string
  {
    OrElse(h.checkFileName, DefaultCheckFileName)
  }

  /** `check_file_contents` if configured, else the fresh `uuid4().hex` token. */
  function ProbeContents(h: HostSettings, token: string): string
  {
    OrElse(h.checkFileContents, token)
  }

  function StateWrite(g: Gauge, h: HostSettings, folder: string, state: string, now: int): Write
  {
    Write(StateKey(g, h.host, h.username, folder, state), now)
  }

  /** The capability writes of the probe: a failed step leaves the later gauges unwritten. */
  function ProbeTrace(h: HostSettings, folder: string, now: int, contents: string, probe: Probe): seq<Write>
  {
    if !probe.putOk then [StateWrite(PutFileUp, h, folder, "Error", now)]
    else
      [StateWrite(PutFileUp, h, folder, "Ok", now)] +
      match probe.got
      case None => [StateWrite(GetFileUp, h, folder, "Error", now)]
      case Some(c) =>
        [ StateWrite(GetFileUp, h, folder, if c == contents then "Ok" else "Corrupted", now),
          StateWrite(DelFileUp, h, folder, if probe.delOk then "Ok" else "Error", now) ]
  }

  /** The gauge writes of `put_get_del_checker`: its listing, then the probe. */
  function PutGetDelTrace(folder: string, now: int, m: Matcher, env: DateEnv, h: HostSettings,
                          listing: Option<seq<string>>, token: string, probe: Probe): seq<Write>
  {
    NoopTrace(folder, now, m, env, h, listing)
      + (if listing.None? then [] else ProbeTrace(h, folder, now, ProbeContents(h, token), probe))
  }

  /** Local temporary files the probe creates: the write file once the listing succeeded, the read file once put succeeded. */
  function TempFilesCreated(listing: Option<seq<string>>, probe: Probe): nat
  {
    if listing.None? then 0 else if probe.putOk then 2 else 1
  }

  /** The keys a trace leaves other than the last-seen ones of its listing. */
  function CapabilityKeys(w: map<Sample, int>): set<Sample>
  {
    set k | k in w && k.gauge != LastSeen
  }

  lemma NoopTraceOnlyLastSeen(folder: string, now: int, m: Matcher, env: DateEnv, h: HostSettings,
                              listing: Option<seq<string>>)
    ensures forall k | k in Written(NoopTrace(folder, now, m, env, h, listing)) :: k.gauge == LastSeen
  {
    if listing.Some? {
      LastSeenTraceEffect(folder, h.host, now, Select(m, env, listing.value, Itself));
    }
  }

  lemma ProbeCapabilities(folder: string, now: int, m: Matcher, env: DateEnv, h: HostSettings,
                          names: seq<string>, token: string, probe: Probe)
    ensures CapabilityKeys(Written(PutGetDelTrace(folder, now, m, env, h, Some(names), token, probe)))
         == Written(ProbeTrace(h, folder, now, ProbeContents(h, token), probe)).Keys
    ensures forall k | k in CapabilityKeys(Written(PutGetDelTrace(folder, now, m, env, h, Some(names), token, probe))) ::
              Written(PutGetDelTrace(folder, now, m, env, h, Some(names), token, probe))[k] == now
  {
    var noop := NoopTrace(folder, now, m, env, h, Some(names));
    var pr := ProbeTrace(h, folder, now, ProbeContents(h, token), probe);
    WrittenAppend(noop, pr);
    NoopTraceOnlyLastSeen(folder, now, m, env, h, Some(names));
    WrittenKeys(pr);
    assert forall i | 0 <= i < |pr| :: pr[i].key.gauge != LastSeen && pr[i].value == now;
    assert forall k | k in Written(pr) :: Written(pr)[k] == now by {
      forall k | k in Written(pr) ensures Written(pr)[k] == now {
        var i :| 0 <= i < |pr| && pr[i].key == k;
        var last := LastIndexOf(pr, k, i);
        WrittenLastWins(pr, last);
      }
    }
  }

  /** If put fails, only `sftp_put_file_up` with state Error is written: get and del are left untouched. */
  lemma PutFailureWritesOnlyPutError(folder: string, now: int, m: Matcher, env: DateEnv, h: HostSettings,
                                     names: seq<string>, token: string, probe: Probe)
    requires !probe.putOk
    ensures CapabilityKeys(Written(PutGetDelTrace(folder, now, m, env, h, Some(names), token, probe)))
         == {StateKey(PutFileUp, h.host, h.username, folder, "Error")}
  {
    ProbeCapabilities(folder, now, m, env, h, names, token, probe);
  }

  /** If put succeeds and get fails, put Ok and get Error are written and delete is not attempted. */
  lemma GetFailureSkipsDelete(folder: string, now: int, m: Matcher, env: DateEnv, h: HostSettings,
                              names: seq<string>, token: string, probe: Probe)
    requires probe.putOk && probe.got.None?
    ensures CapabilityKeys(Written(PutGetDelTrace(folder, now, m, env, h, Some(names), token, probe)))
         == {StateKey(PutFileUp, h.host, h.username, folder, "Ok"), StateKey(GetFileUp, h.host, h.username, folder, "Error")}
  {
    ProbeCapabilities(folder, now, m, env, h, names, token, probe);
    var pr := ProbeTrace(h, folder, now, ProbeContents(h, token), probe);
    assert pr == [pr[0]] + [pr[1]];
    WrittenOne(pr[0]);
    WrittenSnoc([pr[0]], pr[1]);
  }

  /**
    If get succeeds, its state is Ok iff the content read back equals the
    content written, else Corrupted; delete is attempted either way and
    records Ok or Error.
  */
  lemma ReadBackDecidesGetState(folder: string, now: int, m: Matcher, env: DateEnv, h: HostSettings,
                                names: seq<string>, token: string, probe: Probe)
    requires probe.putOk && probe.got.Some?
    ensures CapabilityKeys(Written(PutGetDelTrace(folder, now, m, env, h, Some(names), token, probe)))
         == {StateKey(PutFileUp, h.host, h.username, folder, "Ok"),
             StateKey(GetFileUp, h.host, h.username, folder,
                      if probe.got.value == ProbeContents(h, token) then "Ok" else "Corrupted"),
             StateKey(DelFileUp, h.host, h.username, folder, if probe.delOk then "Ok" else "Error")}
  {
    ProbeCapabilities(folder, now, m, env, h, names, token, probe);
    var pr := ProbeTrace(h, folder, now, ProbeContents(h, token), probe);
    assert pr == [pr[0]] + [pr[1]] + [pr[2]];
    WrittenOne(pr[0]);
    WrittenSnoc([pr[0]], pr[1]);
    WrittenSnoc([pr[0]] + [pr[1]], pr[2]);
  }

  /** A full success writes exactly the three capability samples put = get = del = Ok. */
  lemma RoundTripSuccess(folder: string, now: int, m: Matcher, env: DateEnv, h: HostSettings,
                         names: seq<string>, token: string)
    ensures CapabilityKeys(Written(PutGetDelTrace(folder, now, m, env, h, Some(names), token,
                                                  Probe(true, Some(ProbeContents(h, token)), true))))
         == {StateKey(PutFileUp, h.host, h.username, folder, "Ok"),
          StateKey(GetFileUp, h.host, h.username, folder, "Ok"),
          StateKey(DelFileUp, h.host, h.username, folder, "Ok")}
  {
    ReadBackDecidesGetState(folder, now, m, env, h, names, token, Probe(true, Some(ProbeContents(h, token)), true));
  }

  /**
    The probe records put first, get only after a successful put and delete
    only after a successful get: one, two or three writes in that order.
  */
  lemma ProbeStepOrder(h: HostSettings, folder: string, now: int, contents: string, probe: Probe)
    ensures var pr := ProbeTrace(h, folder, now, contents, probe);
      && |pr| == (if !probe.putOk then 1 else if probe.got.None? then 2 else 3)
      && pr[0].key.gauge == PutFileUp
      && (|pr| > 1 ==> pr[1].key.gauge == GetFileUp && pr[0].key == StateKey(PutFileUp, h.host, h.username, folder, "Ok"))
      && (|pr| > 2 ==> pr[2].key.gauge == DelFileUp)
      && forall i | 0 <= i < |pr| :: pr[i].value == now && |pr[i].key.labels| == 4 && pr[i].key.labels[2] == folder
  {
  }

  /** Without `check_file_name` the probe file is `.sftp-exporter-health-check` inside the folder. */
  lemma DefaultProbeFile(h: HostSettings, folder: string)
    requires h.checkFileName.None?
    ensures Basename(Join(folder, ProbeFileName(h))) == ".sftp-exporter-health-check"
  {
    assert '/' !in DefaultCheckFileName;
    BasenameOfJoin(folder, DefaultCheckFileName);
  }

  /**
    Without `check_file_contents` every run writes its fresh token, so a copy
    left by a run with another token reads back as Corrupted.
  */
  lemma FreshTokenDetectsStaleCopy(h: HostSettings, folder: string, now: int, token: string, stale: string, probe: Probe)
    requires h.checkFileContents.None? && stale != token
    requires probe.putOk && probe.got == Some(stale)
    ensures StateKey(GetFileUp, h.host, h.username, folder, "Corrupted")
              in Written(ProbeTrace(h, folder, now, ProbeContents(h, token), probe))
  {
    var pr := ProbeTrace(h, folder, now, ProbeContents(h, token), probe);
    WrittenKeys(pr);
    assert pr[1].key == StateKey(GetFileUp, h.host, h.username, folder, "Corrupted");
  }

  /** With `check_file_contents` configured, the expected content is that value whatever the token. */
  lemma ConfiguredContentsIgnoreToken(h: HostSettings, folder: string, now: int, t1: string, t2: string, probe: Probe)
    requires h.checkFileContents.Some?
    ensures ProbeContents(h, t1) == h.checkFileContents.value
    ensures ProbeTrace(h, folder, now, ProbeContents(h, t1), probe) == ProbeTrace(h, folder, now, ProbeContents(h, t2), probe)
  {
  }

  /**
    The probe proper of `put_get_del_checker`: stage the content in a local
    write file, put it, fetch it into a local read file, compare, delete the
    remote file. The write file is released on every path, the read file
    whenever it was created.
  */
  method WriteReadDelete(reg: Registry, fs: Handles, h: HostSettings, folder: string, now: int,
                         contents: string, probe: Probe)
    requires reg.Valid() && fs.Valid()
    modifies reg, fs
    ensures reg.Valid() && fs.Valid()
    ensures reg.samples == old(reg.samples) + Written(ProbeTrace(h, folder, now, contents, probe))
    ensures fs.live == old(fs.live)
    ensures fs.issued == old(fs.issued) + (if probe.putOk then 2 else 1)
  {
    ghost var m0 := reg.samples;
    var pathw := fs.Acquire();
    if !probe.putOk {
      ghost var put := StateWrite(PutFileUp, h, folder, "Error", now);
      reg.Set(PutFileUp, [h.host, h.username, folder, "Error"], now);
      UnionOne(m0, put);
    } else {
      ghost var put := StateWrite(PutFileUp, h, folder, "Ok", now);
      reg.Set(PutFileUp, [h.host, h.username, folder, "Ok"], now);
      UnionOne(m0, put);
      assert reg.samples == m0 + Written([put]);
      var pathr := fs.Acquire();
      match probe.got {
        case None =>
          ghost var get := StateWrite(GetFileUp, h, folder, "Error", now);
          reg.Set(GetFileUp, [h.host, h.username, folder, "Error"], now);
          UnionSnoc(m0, [put], get);
          assert ProbeTrace(h, folder, now, contents, probe) == [put] + [get];
        case Some(c) =>
          var getState := if c == contents then "Ok" else "Corrupted";
          var delState := if probe.delOk then "Ok" else "Error";
          ghost var get := StateWrite(GetFileUp, h, folder, getState, now);
          ghost var del := StateWrite(DelFileUp, h, folder, delState, now);
          reg.Set(GetFileUp, [h.host, h.username, folder, getState], now);
          UnionSnoc(m0, [put], get);
          assert reg.samples == m0 + Written([put] + [get]);
          reg.Set(DelFileUp, [h.host, h.username, folder, delState], now);
          UnionSnoc(m0, [put] + [get], del);
          assert ProbeTrace(h, folder, now, contents, probe) == [put] + [get] + [del];
      }
      fs.Release(pathr);
    }
    fs.Release(pathw);
  }

  /** `put_get_del_checker`: the listing of `noop_checker`, then the probe in the folder. */
  method PutGetDelChecker(reg: Registry, fs: Handles, folder: string, now: int, m: Matcher, env: DateEnv,
                          h: HostSettings, listing: Option<seq<string>>, token: string, probe: Probe)
    returns (failed: bool, remote: Option<string>)
    requires reg.Valid() && fs.Valid()
    modifies reg, fs
    ensures reg.Valid() && fs.Valid()
    ensures failed <==> listing.None?
    ensures remote == if listing.None? then None else Some(Join(folder, ProbeFileName(h)))
    ensures reg.samples == old(reg.samples) + Written(PutGetDelTrace(folder, now, m, env, h, listing, token, probe))
    ensures fs.live == old(fs.live)
    ensures fs.issued == old(fs.issued) + TempFilesCreated(listing, probe)
  {
    ghost var m0 := reg.samples;
    ghost var noop := NoopTrace(folder, now, m, env, h, listing);
    var matched := NoopChecker(reg, folder, now, m, env, h, listing);
    if matched.None? {
      failed, remote := true, None;
      assert PutGetDelTrace(folder, now, m, env, h, listing, token, probe) == noop + [];
      assert noop + [] == noop;
      return;
    }
    failed := false;
    remote := Some(Join(folder, ProbeFileName(h)));
    var contents := ProbeContents(h, token);
    WriteReadDelete(reg, fs, h, folder, now, contents, probe);
    ghost var pr := ProbeTrace(h, folder, now, contents, probe);
    assert PutGetDelTrace(folder, now, m, env, h, listing, token, probe) == noop + pr;
    UnionAppend(m0, noop, pr);
  }
}
