/** The process sampler of the collector: it walks the pid listing the
    operating system returns, looks up each executable path, and keeps a
    record for every process whose path the classifier accepts. */
module Collector {

  import opened Classifier
  import opened Names

  /** A process identifier, the platform's 32-bit `pid_t`. */
  newtype Pid = x: int | -0x8000_0000 <= x < 0x8000_0000

  /** What the path lookup for one pid answers: its return code (positive on
      success) and the path text it wrote. */
  datatype PathReply = PathReply(ret: int, path: string)

  /** One sampled process. */
  datatype ProcessInfo = ProcessInfo(pid: Pid, name: string, path: string, isDevTool: bool)

  /** The text stored in a record's `path` field. The collector assigns the
      boolean `true` to that string field, which makes it the one-character
      string holding the character with code 1; the looked-up path itself is
      never stored. */
  const StoredPath: string := [1 as char]

  /** The pid entries the collector examines: the first `actualCount` entries
      of the filled buffer, none when the count is not positive. */
  function Examined(buffer: seq<Pid>, actualCount: int): (listing: seq<Pid>)
    requires actualCount <= |buffer|
    ensures |listing| == if actualCount > 0 then actualCount else 0
    ensures listing <= buffer
  {
    if actualCount > 0 then buffer[..actualCount] else []
  }

  /** A listed pid yields a record: it is not 0, its path lookup succeeded,
      and the path is a developer tool. */
  predicate Kept(pid: Pid, pidPath: Pid -> PathReply)
  {
    pid != 0 && pidPath(pid).ret > 0 && IsDevelopmentTool(pidPath(pid).path)
  }

  /** What a record built for `pid` says about it. */
  ghost predicate Describes(r: ProcessInfo, pid: Pid, pidPath: Pid -> PathReply)
  {
    r.pid == pid && pid != 0 &&
    pidPath(pid).ret > 0 && IsDevelopmentTool(pidPath(pid).path) &&
    r.isDevTool &&
    r.name == NameOf(pidPath(pid).path) &&
    r.path == StoredPath
  }

  /** The record the collector builds for a kept pid. */
  function RecordFor(pid: Pid, pidPath: Pid -> PathReply): (r: ProcessInfo)
    requires Kept(pid, pidPath)
    ensures Describes(r, pid, pidPath)
  {
    var path := pidPath(pid).path;
    ProcessInfo(pid, NameOf(path), StoredPath, IsDevelopmentTool(path))
  }

  /** The records the collector builds from a pid listing, one per kept entry,
      in listing order. */
  function Collected(listing: seq<Pid>, pidPath: Pid -> PathReply): (out: seq<ProcessInfo>)
    ensures |out| <= |listing|
    ensures forall j :: 0 <= j < |out| ==> Describes(out[j], out[j].pid, pidPath)
  {
    if listing == [] then []
    else
      var pid := listing[|listing| - 1];
      Collected(listing[..|listing| - 1], pidPath) +
      (if Kept(pid, pidPath) then [RecordFor(pid, pidPath)] else [])
  }

  /** No record stores the path it was classified by: the stored path is
      too short to be a developer tool, so it always differs. */
  lemma StoredPathIsNeverThePath(listing: seq<Pid>, pidPath: Pid -> PathReply)
    ensures forall j :: 0 <= j < |Collected(listing, pidPath)| ==>
              Collected(listing, pidPath)[j].path != pidPath(Collected(listing, pidPath)[j].pid).path
  {
    ShortPathNotDevelopmentTool(StoredPath);
  }

  /** The pids of a list of records, in order. */
  function PidsOf(records: seq<ProcessInfo>): (pids: seq<Pid>)
    ensures |pids| == |records|
    ensures forall j :: 0 <= j < |records| ==> pids[j] == records[j].pid
  {
    seq(|records|, j requires 0 <= j < |records| => records[j].pid)
  }

  /** Collecting distributes over concatenation of listings. */
  lemma {:induction false} CollectedAppend(a: seq<Pid>, b: seq<Pid>, pidPath: Pid -> PathReply)
    ensures Collected(a + b, pidPath) == Collected(a, pidPath) + Collected(b, pidPath)
    decreases |b|
  {
    if b == [] {
      assert a + b == a;
    } else {
      var last := b[|b| - 1];
      var tail := if Kept(last, pidPath) then [RecordFor(last, pidPath)] else [];
      assert (a + b)[..|a + b| - 1] == a + b[..|b| - 1];
      CollectedAppend(a, b[..|b| - 1], pidPath);
      calc {
        Collected(a + b, pidPath);
        Collected(a + b[..|b| - 1], pidPath) + tail;
        Collected(a, pidPath) + Collected(b[..|b| - 1], pidPath) + tail;
        Collected(a, pidPath) + Collected(b, pidPath);
      }
    }
  }

  /** The listing positions that yield a record, in increasing order. */
  ghost function KeptIndices(listing: seq<Pid>, pidPath: Pid -> PathReply): seq<nat>
  {
    if listing == [] then []
    else
      KeptIndices(listing[..|listing| - 1], pidPath) +
      (if Kept(listing[|listing| - 1], pidPath) then [|listing| - 1] else [])
  }

  /** One step of KeptIndices. */
  lemma KeptIndicesSnoc(listing: seq<Pid>, pidPath: Pid -> PathReply)
    requires listing != []
    ensures KeptIndices(listing, pidPath) ==
            KeptIndices(listing[..|listing| - 1], pidPath) +
            (if Kept(listing[|listing| - 1], pidPath) then [|listing| - 1] else [])
  {
  }

  /** KeptIndices lists exactly the positions of the listing whose pid is kept. */
  lemma {:induction false} KeptIndicesExact(listing: seq<Pid>, pidPath: Pid -> PathReply)
    ensures forall k :: k in KeptIndices(listing, pidPath) <==> 0 <= k < |listing| && Kept(listing[k], pidPath)
  {
    if listing != [] {
      var prefix := listing[..|listing| - 1];
      KeptIndicesExact(prefix, pidPath);
      KeptIndicesSnoc(listing, pidPath);
      assert forall k :: 0 <= k < |prefix| ==> prefix[k] == listing[k];
    }
  }

  /** KeptIndices is strictly increasing, so the records keep listing order. */
  lemma {:induction false} KeptIndicesIncreasing(listing: seq<Pid>, pidPath: Pid -> PathReply)
    ensures forall j, k :: 0 <= j < k < |KeptIndices(listing, pidPath)| ==>
              KeptIndices(listing, pidPath)[j] < KeptIndices(listing, pidPath)[k]
  {
    if listing != [] {
      var prefix := listing[..|listing| - 1];
      KeptIndicesIncreasing(prefix, pidPath);
      KeptIndicesExact(prefix, pidPath);
      KeptIndicesSnoc(listing, pidPath);
      var before := KeptIndices(prefix, pidPath);
      assert forall j :: 0 <= j < |before| ==> before[j] in before;
    }
  }

  /** The output is an order-preserving selection from the listing: the j-th
      record is built from the pid at the j-th kept position (with
      KeptIndicesExact: every kept position contributes exactly one record,
      in listing order, and no other position contributes). */
  lemma {:induction false} CollectedOrder(listing: seq<Pid>, pidPath: Pid -> PathReply)
    ensures |KeptIndices(listing, pidPath)| == |Collected(listing, pidPath)|
    ensures forall j :: 0 <= j < |KeptIndices(listing, pidPath)| ==>
              KeptIndices(listing, pidPath)[j] < |listing| &&
              Kept(listing[KeptIndices(listing, pidPath)[j]], pidPath) &&
              Collected(listing, pidPath)[j] == RecordFor(listing[KeptIndices(listing, pidPath)[j]], pidPath)
  {
    if listing != [] {
      var prefix, last := listing[..|listing| - 1], listing[|listing| - 1];
      CollectedOrder(prefix, pidPath);
      CollectedSnoc(listing, pidPath);
      KeptIndicesSnoc(listing, pidPath);
      var idx, before := KeptIndices(listing, pidPath), KeptIndices(prefix, pidPath);
      var out, earlier := Collected(listing, pidPath), Collected(prefix, pidPath);
      forall j | 0 <= j < |idx|
        ensures idx[j] < |listing| && Kept(listing[idx[j]], pidPath) &&
                out[j] == RecordFor(listing[idx[j]], pidPath)
      {
        if j < |before| {
          assert idx[j] == before[j] && out[j] == earlier[j];
          assert listing[idx[j]] == prefix[before[j]];
        } else {
          assert idx[j] == |listing| - 1 && out[j] == RecordFor(last, pidPath);
        }
      }
    }
  }

  /** One step of Collected: the records of a listing are those of all but
      its last entry, followed by the last entry's record when it is kept. */
  lemma CollectedSnoc(listing: seq<Pid>, pidPath: Pid -> PathReply)
    requires listing != []
    ensures var last := listing[|listing| - 1];
            Collected(listing, pidPath) ==
            Collected(listing[..|listing| - 1], pidPath) + (if Kept(last, pidPath) then [RecordFor(last, pidPath)] else [])
  {
  }

  lemma PidsOfAppend(a: seq<ProcessInfo>, b: seq<ProcessInfo>)
    ensures multiset(PidsOf(a + b)) == multiset(PidsOf(a)) + multiset(PidsOf(b))
  {
    assert PidsOf(a + b) == PidsOf(a) + PidsOf(b);
  }

  lemma MultisetSnoc(listing: seq<Pid>, p: Pid)
    requires listing != []
    ensures multiset(listing)[p] == multiset(listing[..|listing| - 1])[p] + multiset{listing[|listing| - 1]}[p]
  {
    assert listing == listing[..|listing| - 1] + [listing[|listing| - 1]];
  }

  /** How often a pid is reported: as often as it is listed when it is kept,
      never otherwise. */
  lemma {:induction false} CollectedPidCount(listing: seq<Pid>, pidPath: Pid -> PathReply, p: Pid)
    ensures multiset(PidsOf(Collected(listing, pidPath)))[p] ==
            if Kept(p, pidPath) then multiset(listing)[p] else 0
  {
    if listing != [] {
      var prefix, last := listing[..|listing| - 1], listing[|listing| - 1];
      CollectedPidCount(prefix, pidPath, p);
      var tail := if Kept(last, pidPath) then [RecordFor(last, pidPath)] else [];
      CollectedSnoc(listing, pidPath);
      PidsOfAppend(Collected(prefix, pidPath), tail);
      assert PidsOf(tail) == if Kept(last, pidPath) then [last] else [];
      MultisetSnoc(listing, p);
    }
  }

  /** A pid is reported exactly when it is listed and kept. */
  lemma ReportedIff(listing: seq<Pid>, pidPath: Pid -> PathReply, p: Pid)
    ensures p in PidsOf(Collected(listing, pidPath)) <==> p in listing && Kept(p, pidPath)
  {
    CollectedPidCount(listing, pidPath, p);
  }

  /** With the pid listed once, as the operating system lists live processes,
      a kept process is reported exactly once. */
  lemma ListedOnceReportedOnce(listing: seq<Pid>, pidPath: Pid -> PathReply, p: Pid)
    requires multiset(listing)[p] == 1 && Kept(p, pidPath)
    ensures multiset(PidsOf(Collected(listing, pidPath)))[p] == 1
  {
    CollectedPidCount(listing, pidPath, p);
  }

  /** Reference definition in two passes: first select the kept pids, then
      build their records. */
  function FilterKept(listing: seq<Pid>, pidPath: Pid -> PathReply): (kept: seq<Pid>)
    ensures |kept| <= |listing|
    ensures forall p :: p in kept ==> p in listing && Kept(p, pidPath)
  {
    if listing == [] then []
    else (if Kept(listing[0], pidPath) then [listing[0]] else []) + FilterKept(listing[1..], pidPath)
  }

  function BuildRecords(kept: seq<Pid>, pidPath: Pid -> PathReply): (records: seq<ProcessInfo>)
    requires forall p :: p in kept ==> Kept(p, pidPath)
    ensures |records| == |kept|
    ensures forall j :: 0 <= j < |kept| ==> Describes(records[j], kept[j], pidPath)
  {
    if kept == [] then [] else [RecordFor(kept[0], pidPath)] + BuildRecords(kept[1..], pidPath)
  }

  /** Classifying each process as it is found gives the same list as listing
      everything first and filtering afterwards. */
  lemma {:induction false} FusedEqualsTwoPass(listing: seq<Pid>, pidPath: Pid -> PathReply)
    ensures Collected(listing, pidPath) == BuildRecords(FilterKept(listing, pidPath), pidPath)
  {
    if listing != [] {
      var head, rest := listing[0], listing[1..];
      assert listing == [head] + rest;
      CollectedAppend([head], rest, pidPath);
      FusedEqualsTwoPass(rest, pidPath);
      assert [head][..0] == [];
      var first := if Kept(head, pidPath) then [head] else [];
      assert FilterKept(listing, pidPath) == first + FilterKept(rest, pidPath);
      BuildRecordsAppend(first, FilterKept(rest, pidPath), pidPath);
    }
  }

  lemma {:induction false} BuildRecordsAppend(a: seq<Pid>, b: seq<Pid>, pidPath: Pid -> PathReply)
    requires forall p :: p in a + b ==> Kept(p, pidPath)
    ensures BuildRecords(a + b, pidPath) == BuildRecords(a, pidPath) + BuildRecords(b, pidPath)
  {
    if a != [] {
      assert (a + b)[1..] == a[1..] + b;
      BuildRecordsAppend(a[1..], b, pidPath);
    }
  }

  /** Sample the running processes. `bytesNeeded` is the answer of the size
      query, `buffer` the pid buffer after it has been filled, `actualCount`
      the number of entries the fill reported, and `pidPath` the per-pid
      path lookup. */
  method GetProcesses(bytesNeeded: int, buffer: seq<Pid>, actualCount: int, pidPath: Pid -> PathReply)
    returns (processes: seq<ProcessInfo>)
    requires actualCount <= |buffer|
    ensures bytesNeeded <= 0 ==> processes == []
    ensures bytesNeeded > 0 ==> processes == Collected(Examined(buffer, actualCount), pidPath)
  {
    processes := [];
    if bytesNeeded <= 0 {
      // the size query failed: the empty list goes back (with a diagnostic)
      return;
    }
    // the C++ loop runs while i < actual_count, so not at all for a count <= 0
    var count := if actualCount > 0 then actualCount else 0;
    for i := 0 to count
      invariant processes == Collected(buffer[..i], pidPath)
    {
      assert buffer[..i + 1][..i] == buffer[..i];
      if buffer[i] == 0 {
        continue;
      }
      var reply := pidPath(buffer[i]);
      if reply.ret > 0 {
        var pathView := reply.path;
        if IsDevelopmentTool(pathView) {
          var info := ProcessInfo(0, "", "", false);
          info := info.(pid := buffer[i]);
          info := info.(path := StoredPath);
          info := info.(isDevTool := IsDevelopmentTool(pathView));
          info := info.(name := NameOf(pathView));
          processes := processes + [info];
        }
      }
    }
    assert buffer[..count] == Examined(buffer, actualCount);
  }
}
