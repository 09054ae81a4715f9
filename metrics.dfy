/**
  The Prometheus gauges of the exporter. A gauge holds the latest value per
  exact label tuple; the exporter only ever `set`s, so the whole registry is a
  last-write-wins map from (gauge, labels) to value.

  Checkers are specified by the sequence of `set` calls they make (a trace of
  `Write`s); `Written` folds a trace into the map of samples it leaves behind.
*/
module Metrics {

  datatype Gauge =
    | LastSeen       // sftp_last_seen_timestamp
    | HostUp         // sftp_host_up
    | PutFileUp      // sftp_put_file_up
    | GetFileUp      // sftp_get_file_up
    | DelFileUp      // sftp_del_file_up
    | FileModified   // sftp_file_modified_timestamp
    | FileAccessed   // sftp_file_access_timestamp
    | FileSize       // sftp_file_size

  /** The metric name the gauge is registered under. */
  function Name(g: Gauge): string
  {
    match g
    case LastSeen => "sftp_last_seen_timestamp"
    case HostUp => "sftp_host_up"
    case PutFileUp => "sftp_put_file_up"
    case GetFileUp => "sftp_get_file_up"
    case DelFileUp => "sftp_del_file_up"
    case FileModified => "sftp_file_modified_timestamp"
    case FileAccessed => "sftp_file_access_timestamp"
    case FileSize => "sftp_file_size"
  }

  /** The label names declared for each gauge. */
  function LabelNames(g: Gauge): seq<string>
  {
    match g
    case LastSeen | FileModified | FileAccessed | FileSize => ["folder", "file", "host"]
    case HostUp => ["host", "username", "state"]
    case PutFileUp | GetFileUp | DelFileUp => ["host", "username", "folder", "state"]
  }

  datatype Sample = Sample(gauge: Gauge, labels: seq<string>)

  /** One `gauge.labels(...).set(value)` call. */
  datatype Write = Write(key: Sample, value: int)

  /** Keys of the (folder, file, host) gauges. */
  function FileKey(g: Gauge, folder: string, file: string, host: string): Sample
  {
    Sample(g, [folder, file, host])
  }

  /** Keys of sftp_host_up. */
  function HostKey(host: string, username: string, state: string): Sample
  {
    Sample(HostUp, [host, username, state])
  }

  /** Keys of the put / get / del capability gauges. */
  function StateKey(g: Gauge, host: string, username: string, folder: string, state: string): Sample
  {
    Sample(g, [host, username, folder, state])
  }

  /** `labels()` refuses a label tuple of the wrong arity. */
  ghost predicate WellLabelled(k: Sample)
  {
    |k.labels| == |LabelNames(k.gauge)|
  }

  ghost predicate AllWellLabelled(ws: seq<Write>)
  {
    forall i | 0 <= i < |ws| :: WellLabelled(ws[i].key)
  }

  /** The samples a trace of writes leaves in an empty registry: the last write per key wins. */
  function Written(ws: seq<Write>): map<Sample, int>
    decreases |ws|
  {
    if ws == [] then map[]
    else
      var n := |ws| - 1;
      Written(ws[..n])[ws[n].key := ws[n].value]
  }

  /** A trace writes exactly the keys that occur in it. */
  lemma {:induction false} WrittenKeys(ws: seq<Write>)
    ensures forall k :: k in Written(ws) <==> exists i | 0 <= i < |ws| :: ws[i].key == k
    decreases |ws|
  {
    if ws != [] {
      var n := |ws| - 1;
      WrittenKeys(ws[..n]);
      forall k
        ensures k in Written(ws) <==> exists i | 0 <= i < |ws| :: ws[i].key == k
      {
        if k in Written(ws) && k != ws[n].key {
          assert k in Written(ws[..n]);
          var i :| 0 <= i < n && ws[..n][i].key == k;
          assert ws[i].key == k;
        }
        if (exists i | 0 <= i < |ws| :: ws[i].key == k) && k != ws[n].key {
          var i :| 0 <= i < |ws| && ws[i].key == k;
          assert i < n && ws[..n][i].key == k;
        }
      }
    }
  }

  /** The value left under a key is the one of the last write to it. */
  lemma {:induction false} WrittenLastWins(ws: seq<Write>, i: nat)
    requires i < |ws|
    requires forall j | i < j < |ws| :: ws[j].key != ws[i].key
    ensures ws[i].key in Written(ws) && Written(ws)[ws[i].key] == ws[i].value
    decreases |ws|
  {
    var n := |ws| - 1;
    if i < n {
      assert forall j | i < j < n :: ws[..n][j] == ws[j];
      WrittenLastWins(ws[..n], i);
    }
  }

  /** The last position of key k in a trace, at or after i. */
  function LastIndexOf(ws: seq<Write>, k: Sample, i: nat): (j: nat)
    requires i < |ws| && ws[i].key == k
    ensures i <= j < |ws| && ws[j].key == k
    ensures forall l | j < l < |ws| :: ws[l].key != k
    decreases |ws| - i
  {
    if exists l | i < l < |ws| :: ws[l].key == k then
      var l :| i < l < |ws| && ws[l].key == k;
      LastIndexOf(ws, k, l)
    else i
  }

  lemma WrittenSnoc(ws: seq<Write>, w: Write)
    ensures Written(ws + [w]) == Written(ws)[w.key := w.value]
  {
    assert (ws + [w])[..|ws|] == ws;
  }

  /** Writing one more sample into a registry that already holds a trace. */
  lemma UnionSnoc(m: map<Sample, int>, ws: seq<Write>, w: Write)
    ensures m + Written(ws + [w]) == (m + Written(ws))[w.key := w.value]
  {
    WrittenSnoc(ws, w);
  }

  lemma WrittenOne(w: Write)
    ensures Written([w]) == map[w.key := w.value]
  {
    assert [w][..0] == [];
  }

  /** A registry after a single write. */
  lemma UnionOne(m: map<Sample, int>, w: Write)
    ensures m + Written([w]) == m[w.key := w.value]
  {
    WrittenOne(w);
  }

  /** Running one trace after another is the map union, the later trace winning. */
  lemma {:induction false} WrittenAppend(a: seq<Write>, b: seq<Write>)
    ensures Written(a + b) == Written(a) + Written(b)
    decreases |b|
  {
    if b == [] {
      assert a + b == a;
    } else {
      var n := |b| - 1;
      assert a + b == (a + b[..n]) + [b[n]];
      assert b == b[..n] + [b[n]];
      WrittenAppend(a, b[..n]);
      WrittenSnoc(a + b[..n], b[n]);
      WrittenSnoc(b[..n], b[n]);
    }
  }

  /** A registry that runs one trace after another. */
  lemma UnionAppend(m: map<Sample, int>, a: seq<Write>, b: seq<Write>)
    ensures m + Written(a + b) == (m + Written(a)) + Written(b)
  {
    WrittenAppend(a, b);
  }

  /** A key no write of the trace mentions keeps its old value, or stays absent. */
  lemma Untouched(m: map<Sample, int>, ws: seq<Write>, k: Sample)
    requires forall i | 0 <= i < |ws| :: ws[i].key != k
    ensures k in m + Written(ws) <==> k in m
    ensures k in m ==> (m + Written(ws))[k] == m[k]
  {
    WrittenKeys(ws);
  }

  /**
    The metrics registry: the gauges' current samples. It is shared by every
    checker of every host; they only ever upsert.
  */
  class Registry {
    var samples: map<Sample, int>

    ghost predicate Valid()
      reads this
    {
      forall k | k in samples :: WellLabelled(k)
    }

    constructor ()
      ensures Valid() && samples == map[]
    {
      samples := map[];
    }

    /** `gauge.labels(*labels).set(value)`. */
    method Set(g: Gauge, labels: seq<string>, value: int)
      requires Valid()
      requires |labels| == |LabelNames(g)|
      modifies this
      ensures Valid()
      ensures samples == old(samples)[Sample(g, labels) := value]
    {
      samples := samples[Sample(g, labels) := value];
    }
  }
}
