/**
 The stateful top-N process reader: CPU use is the tick delta against the previous read, the
 list is ranked and cut to N.
 */
module TopProcesses {
  import opened GoTime
  import opened Wrappers
  import opened ProcStat

  datatype ProcessInfo = ProcessInfo(pid: int, name: string, cpuPercent: real, memMB: real)

  /** The outcome of scanning the process table. */
  datatype Scan = Unreadable | Scanned(samples: seq<ProcSample>, readAt: Time)

  const NANOSECONDS_PER_SECOND := 1_000_000_000.0

  function Seconds(d: Duration): real
  {
    d as real / NANOSECONDS_PER_SECOND
  }

  /** Ticks by pid; the last sample of a pid wins. */
  function TickTable(samples: seq<ProcSample>): map<int, nat>
  {
    if samples == [] then map[]
    else TickTable(samples[..|samples| - 1])[samples[|samples| - 1].pid := samples[|samples| - 1].cpuTicks]
  }

  function HaveBaseline(previous: Option<map<int, nat>>, elapsed: real): bool
  {
    previous.Some? && elapsed > 0.0
  }

  function CpuOf(previous: Option<map<int, nat>>, elapsed: real, s: ProcSample): real
  {
    if HaveBaseline(previous, elapsed) && s.pid in previous.value
    then CpuPercentBetween(previous.value[s.pid], s.cpuTicks, elapsed)
    else 0.0
  }

  function Describe(previous: Option<map<int, nat>>, elapsed: real, s: ProcSample): (info: ProcessInfo)
    ensures info.memMB * 1048576.0 == s.rssBytes as real
  {
    ProcessInfo(s.pid, s.name, CpuOf(previous, elapsed, s), s.rssBytes as real / 1048576.0)
  }

  function DescribeAll(previous: Option<map<int, nat>>, elapsed: real,
          samples: seq<ProcSample>): (all: seq<ProcessInfo>)
    ensures |all| == |samples|
  {
    seq(|samples|, (i: nat) requires i < |samples| => Describe(previous, elapsed, samples[i]))
  }

  /** The comparator: by CPU when there is a baseline and they differ, else by memory. */
  predicate Before(baseline: bool, a: ProcessInfo, b: ProcessInfo)
  {
    if baseline && a.cpuPercent != b.cpuPercent then a.cpuPercent > b.cpuPercent else a.memMB > b.memMB
  }

  /** The ranking it stands for: CPU first, memory between equals, memory alone without a baseline. */
  predicate AtLeast(baseline: bool, a: ProcessInfo, b: ProcessInfo)
  {
    if baseline then a.cpuPercent > b.cpuPercent || (a.cpuPercent == b.cpuPercent && a.memMB >= b.memMB)
    else a.memMB >= b.memMB
  }

  ghost predicate Ranked(baseline: bool, procs: seq<ProcessInfo>)
  {
    forall i, j :: 0 <= i < j < |procs| ==> AtLeast(baseline, procs[i], procs[j])
  }

  lemma InsertKeepsRanked(baseline: bool, ranked: seq<ProcessInfo>, k: nat, x: ProcessInfo)
    requires k <= |ranked| && Ranked(baseline, ranked)
    requires k > 0 ==> !Before(baseline, x, ranked[k - 1])
    requires forall j :: k <= j < |ranked| ==> Before(baseline, x, ranked[j])
    ensures Ranked(baseline, ranked[..k] + [x] + ranked[k..])
  {
  }

  method Insert(baseline: bool, ranked: seq<ProcessInfo>, x: ProcessInfo) returns (more: seq<ProcessInfo>)
    requires Ranked(baseline, ranked)
    ensures Ranked(baseline, more) && multiset(more) == multiset(ranked) + multiset{x}
  {
    var k := |ranked|;
    while k > 0 && Before(baseline, x, ranked[k - 1])
      invariant 0 <= k <= |ranked|
      invariant forall j :: k <= j < |ranked| ==> Before(baseline, x, ranked[j])
    {
      k := k - 1;
    }
    InsertKeepsRanked(baseline, ranked, k, x);
    more := ranked[..k] + [x] + ranked[k..];
    assert multiset(ranked[..k]) + multiset(ranked[k..]) == multiset(ranked) by {
      assert ranked == ranked[..k] + ranked[k..];
    }
  }

  /** A stand-in for `sort.Slice`: some ranked arrangement of the same entries. */
  method Sort(baseline: bool, procs: seq<ProcessInfo>) returns (ranked: seq<ProcessInfo>)
    ensures multiset(ranked) == multiset(procs)
    ensures Ranked(baseline, ranked)
  {
    ranked := [];
    for i := 0 to |procs|
      invariant multiset(ranked) == multiset(procs[..i])
      invariant Ranked(baseline, ranked)
    {
      assert procs[..i + 1] == procs[..i] + [procs[i]];
      ranked := Insert(baseline, ranked, procs[i]);
    }
    assert procs[..|procs|] == procs;
  }

  method Tabulate(samples: seq<ProcSample>) returns (current: map<int, nat>)
    ensures current == TickTable(samples)
  {
    current := map[];
    for i := 0 to |samples|
      invariant current == TickTable(samples[..i])
    {
      assert samples[..i + 1][..i] == samples[..i];
      current := current[samples[i].pid := samples[i].cpuTicks];
    }
    assert samples[..|samples|] == samples;
  }

  method List(previous: Option<map<int, nat>>, elapsed: real, samples: seq<ProcSample>)
    returns (procs: seq<ProcessInfo>)
    ensures procs == DescribeAll(previous, elapsed, samples)
  {
    procs := [];
    for i := 0 to |samples|
      invariant |procs| == i
      invariant forall k :: 0 <= k < i ==> procs[k] == Describe(previous, elapsed, samples[k])
    {
      var s := samples[i];
      var cpu := 0.0;
      if previous.Some? && elapsed > 0.0 && s.pid in previous.value {
        cpu := CpuPercentBetween(previous.value[s.pid], s.cpuTicks, elapsed);
      }
      procs := procs + [ProcessInfo(s.pid, s.name, cpu, s.rssBytes as real / 1048576.0)];
    }
  }

  /** `top` is the list's first `n` under the ranking, and `omitted` the rest. */
  ghost predicate IsTop(baseline: bool, all: seq<ProcessInfo>, n: nat, top: seq<ProcessInfo>,
          omitted: seq<ProcessInfo>)
  {
    && |top| == (if |all| < n then |all| else n)
    && multiset(top) + multiset(omitted) == multiset(all)
    && Ranked(baseline, top)
    && (forall kept, left :: kept in top && left in omitted ==> AtLeast(baseline, kept, left))
  }

  method Cut(baseline: bool, procs: seq<ProcessInfo>, n: nat)
    returns (top: seq<ProcessInfo>, ghost omitted: seq<ProcessInfo>)
    ensures IsTop(baseline, procs, n, top, omitted)
  {
    var ranked := Sort(baseline, procs);
    assert |ranked| == |procs| by {
      assert |multiset(ranked)| == |ranked| && |multiset(procs)| == |procs|;
    }
    top, omitted := ranked, [];
    if |ranked| > n {
      top, omitted := ranked[..n], ranked[n..];
    }
    assert ranked == top + omitted;
  }

  function Limit(n: int): nat
  {
    if n <= 0 then 5 else n
  }

  /** What a read answers: nothing when the table cannot be read, else the top of the entries
      described against the previous read. */
  ghost predicate Reports(previous: Option<map<int, nat>>, previousAt: Time, scan: Scan, limit: nat,
          top: Option<seq<ProcessInfo>>, omitted: seq<ProcessInfo>)
  {
    match scan
    case Unreadable => top == None
    case Scanned(samples, readAt) =>
      var elapsed := Seconds(Sub(readAt, previousAt));
      top.Some? && IsTop(HaveBaseline(previous, elapsed), DescribeAll(previous, elapsed, samples), limit,
                         top.value, omitted)
  }

  /** The row of a sample, read `window` nanoseconds after the previous one: its own pid, name and
      memory in MiB, and as CPU the ticks gained per second, none without something to compare with. */
  ghost predicate RowOf(row: ProcessInfo, s: ProcSample, previous: Option<map<int, nat>>, window: Duration)
  {
    && row.pid == s.pid && row.name == s.name
    && row.memMB * 1048576.0 == s.rssBytes as real
    && if window > 0 && previous.Some? && s.pid in previous.value && previous.value[s.pid] <= s.cpuTicks
       then row.cpuPercent * window as real == (s.cpuTicks - previous.value[s.pid]) as real * 1_000_000_000.0
       else row.cpuPercent == 0.0
  }

  lemma DescribedIsRow(s: ProcSample, previous: Option<map<int, nat>>, window: Duration)
    ensures RowOf(Describe(previous, Seconds(window), s), s, previous, window)
  {
    if window > 0 && previous.Some? && s.pid in previous.value {
      PercentTimesWindow(previous.value[s.pid], s.cpuTicks, Seconds(window));
      var cpu := CpuOf(previous, Seconds(window), s);
      assert cpu * window as real == cpu * Seconds(window) * 1_000_000_000.0;
    }
  }

  /** `rows` has one row for every sample. */
  ghost predicate RowsOf(rows: seq<ProcessInfo>, samples: seq<ProcSample>, previous: Option<map<int, nat>>,
          window: Duration)
  {
    |rows| == |samples| && forall i :: 0 <= i < |rows| ==> RowOf(rows[i], samples[i], previous, window)
  }

  /** Nothing in `top` ranks below what follows it or what was left out. */
  ghost predicate RanksFirst(baseline: bool, top: seq<ProcessInfo>, omitted: seq<ProcessInfo>)
  {
    && (forall i, j :: 0 <= i < j < |top| ==> AtLeast(baseline, top[i], top[j]))
    && (forall kept, left :: kept in top && left in omitted ==> AtLeast(baseline, kept, left))
  }

  /** What a report is, in the scan's own terms: one row for every sample, cut to the first `n` of the
      ranking by CPU if there is something to compare with, else by memory. */
  lemma ReportMeans(previous: Option<map<int, nat>>, previousAt: Time, scan: Scan, limit: nat,
          top: Option<seq<ProcessInfo>>, omitted: seq<ProcessInfo>)
    requires Reports(previous, previousAt, scan, limit, top, omitted)
    ensures top.None? <==> scan.Unreadable?
    ensures scan.Scanned? ==>
              && |top.value| == (if |scan.samples| < limit then |scan.samples| else limit)
              && RanksFirst(previous.Some? && scan.readAt > previousAt, top.value, omitted)
              && exists rows ::
                   && RowsOf(rows, scan.samples, previous, Sub(scan.readAt, previousAt))
                   && multiset(rows) == multiset(top.value) + multiset(omitted)
  {
    if scan.Scanned? {
      var window := Sub(scan.readAt, previousAt);
      var rows := DescribeAll(previous, Seconds(window), scan.samples);
      forall i | 0 <= i < |rows| ensures RowOf(rows[i], scan.samples[i], previous, window) {
        DescribedIsRow(scan.samples[i], previous, window);
      }
      assert RowsOf(rows, scan.samples, previous, window);
    }
  }

  class Reader {
    var previous: Option<map<int, nat>>
    var readAt: Time

    constructor ()
      ensures previous == None && readAt == ZERO_TIME
    {
      previous, readAt := None, ZERO_TIME;
    }

    /** The `n` first of the ranked list (5 when `n` is not positive). Nothing left out ranks
        strictly above anything kept, and the entries are those described before the cut. */
    method Read(n: int, scan: Scan) returns (top: Option<seq<ProcessInfo>>, ghost omitted: seq<ProcessInfo>)
      modifies this
      ensures scan.Unreadable? ==> previous == old(previous) && readAt == old(readAt)
      ensures scan.Scanned? ==> previous == Some(TickTable(scan.samples)) && readAt == scan.readAt
      ensures Reports(old(previous), old(readAt), scan, Limit(n), top, omitted)
      ensures top.None? <==> scan.Unreadable?
      ensures scan.Scanned? && n > 0 ==> |top.value| == (if |scan.samples| < n then |scan.samples| else n)
      ensures scan.Scanned? && n <= 0 ==> |top.value| == (if |scan.samples| < 5 then |scan.samples| else 5)
      ensures scan.Scanned? ==>
                && RanksFirst(old(previous).Some? && scan.readAt > old(readAt), top.value, omitted)
                && exists rows ::
                     && RowsOf(rows, scan.samples, old(previous), Sub(scan.readAt, old(readAt)))
                     && multiset(rows) == multiset(top.value) + multiset(omitted)
    {
      omitted := [];
      if scan.Unreadable? {
        return None, [];
      }
      var before, beforeAt := previous, readAt;
      var current := Tabulate(scan.samples);
      previous, readAt := Some(current), scan.readAt;

      var elapsed := Seconds(Sub(scan.readAt, beforeAt));
      var procs := List(before, elapsed, scan.samples);
      procs, omitted := Cut(HaveBaseline(before, elapsed), procs, Limit(n));
      top := Some(procs);
      ReportMeans(before, beforeAt, scan, Limit(n), top, omitted);
    }
  }

  // ---------------------------------------------------------------------------------------
  // Over consecutive reads
  // ---------------------------------------------------------------------------------------

  /** What the reader holds after some scans: the ticks and the time of the last successful one. */
  function PreviousAfter(scans: seq<Scan>): (Option<map<int, nat>>, Time)
  {
    if scans == [] then (None, ZERO_TIME)
    else
      match scans[|scans| - 1]
      case Unreadable => PreviousAfter(scans[..|scans| - 1])
      case Scanned(samples, readAt) => (Some(TickTable(samples)), readAt)
  }

  /** What was listed and what was left out over a series of reads by one reader. */
  ghost predicate SeriesOf(scans: seq<Scan>, limit: nat, tops: seq<Option<seq<ProcessInfo>>>,
          omitted: seq<seq<ProcessInfo>>)
  {
    && |tops| == |omitted| == |scans|
    && (scans != [] ==>
          var n := |scans| - 1;
          && SeriesOf(scans[..n], limit, tops[..n], omitted[..n])
          && Reports(PreviousAfter(scans[..n]).0, PreviousAfter(scans[..n]).1, scans[n], limit, tops[n], omitted[n]))
  }

  lemma SeriesGrows(scans: seq<Scan>, limit: nat, tops: seq<Option<seq<ProcessInfo>>>,
          omitted: seq<seq<ProcessInfo>>, scan: Scan, top: Option<seq<ProcessInfo>>, rest: seq<ProcessInfo>)
    requires SeriesOf(scans, limit, tops, omitted)
    requires Reports(PreviousAfter(scans).0, PreviousAfter(scans).1, scan, limit, top, rest)
    ensures SeriesOf(scans + [scan], limit, tops + [top], omitted + [rest])
  {
    assert (scans + [scan])[..|scans|] == scans;
    assert (tops + [top])[..|scans|] == tops && (omitted + [rest])[..|scans|] == omitted;
  }

  /** The reader itself, driven by any scans, failed ones included. */
  method ReadSeries(scans: seq<Scan>, n: int)
    returns (reader: Reader, tops: seq<Option<seq<ProcessInfo>>>, ghost omitted: seq<seq<ProcessInfo>>)
    ensures (reader.previous, reader.readAt) == PreviousAfter(scans)
    ensures SeriesOf(scans, Limit(n), tops, omitted)
  {
    reader := new Reader();
    tops, omitted := [], [];
    for i := 0 to |scans|
      invariant fresh(reader) && (reader.previous, reader.readAt) == PreviousAfter(scans[..i])
      invariant SeriesOf(scans[..i], Limit(n), tops, omitted)
    {
      var top;
      ghost var rest;
      top, rest := reader.Read(n, scans[i]);
      SeriesGrows(scans[..i], Limit(n), tops, omitted, scans[i], top, rest);
      assert scans[..i] + [scans[i]] == scans[..i + 1];
      assert scans[..i + 1][..i] == scans[..i];
      tops, omitted := tops + [top], omitted + [rest];
    }
    assert scans[..|scans|] == scans;
  }

  /** The percentage that a report's rows show for a process, zero when no row is about it. */
  function ShownFor(rows: seq<ProcessInfo>, pid: int): (cpu: real)
    ensures (exists row :: row in rows && row.pid == pid && row.cpuPercent == cpu)
            || (cpu == 0.0 && forall row :: row in rows ==> row.pid != pid)
  {
    if rows == [] then 0.0
    else if rows[0].pid == pid then rows[0].cpuPercent
    else ShownFor(rows[1..], pid)
  }

  /** Seconds since the last successful scan. */
  function Window(earlier: seq<Scan>, scan: Scan): real
  {
    match scan
    case Unreadable => 0.0
    case Scanned(_, readAt) => Seconds(Sub(readAt, PreviousAfter(earlier).1))
  }

  /** Percentage times window, for one report. */
  function ShownIn(earlier: seq<Scan>, scan: Scan, top: Option<seq<ProcessInfo>>, omitted: seq<ProcessInfo>,
          pid: int): real
  {
    if top.None? then 0.0 else ShownFor(top.value + omitted, pid) * Window(earlier, scan)
  }

  /** The same, added up over a series of reads. */
  function ShownWork(scans: seq<Scan>, tops: seq<Option<seq<ProcessInfo>>>, omitted: seq<seq<ProcessInfo>>,
          pid: int): real
    requires |tops| == |omitted| == |scans|
  {
    if scans == [] then 0.0
    else
      var n := |scans| - 1;
      ShownWork(scans[..n], tops[..n], omitted[..n], pid) + ShownIn(scans[..n], scans[n], tops[n], omitted[n], pid)
  }

  /** The ticks a process gained between two scans that both saw it, at a later clock reading; a
      count that went back (a reused pid) is no gain. */
  function Gain(previous: Option<map<int, nat>>, elapsed: real, samples: seq<ProcSample>, pid: int): nat
  {
    var now := TickTable(samples);
    if previous.Some? && elapsed > 0.0 && pid in previous.value && pid in now && now[pid] > previous.value[pid]
    then now[pid] - previous.value[pid] else 0
  }

  function GainIn(earlier: seq<Scan>, scan: Scan, pid: int): nat
  {
    if scan.Unreadable? then 0
    else Gain(PreviousAfter(earlier).0, Window(earlier, scan), scan.samples, pid)
  }

  function Gained(scans: seq<Scan>, pid: int): nat
  {
    if scans == [] then 0
    else
      var init := scans[..|scans| - 1];
      Gained(init, pid) + GainIn(init, scans[|scans| - 1], pid)
  }

  /** The scan has at most one entry for the process, as a process table does. */
  ghost predicate ListsOnce(samples: seq<ProcSample>, pid: int)
  {
    forall r, s :: r in samples && s in samples && r.pid == pid && s.pid == pid ==> r == s
  }

  lemma {:induction false} TableHoldsTicks(samples: seq<ProcSample>, s: ProcSample)
    requires forall r :: r in samples && r.pid == s.pid ==> r == s
    ensures s in samples ==> s.pid in TickTable(samples) && TickTable(samples)[s.pid] == s.cpuTicks
  {
    if samples != [] {
      assert samples == samples[..|samples| - 1] + [samples[|samples| - 1]];
      assert forall r :: r in samples[..|samples| - 1] ==> r in samples;
      assert samples[|samples| - 1] in samples;
      TableHoldsTicks(samples[..|samples| - 1], s);
    }
  }

  /** The last sample of a pid is the one remembered. */
  lemma {:induction false} TableHoldsLast(samples: seq<ProcSample>, i: nat)
    requires i < |samples| && forall j :: i < j < |samples| ==> samples[j].pid != samples[i].pid
    ensures samples[i].pid in TickTable(samples) && TickTable(samples)[samples[i].pid] == samples[i].cpuTicks
  {
    if i < |samples| - 1 {
      TableHoldsLast(samples[..|samples| - 1], i);
    }
  }

  lemma {:induction false} TableHasOnlySampled(samples: seq<ProcSample>, pid: int)
    requires forall s :: s in samples ==> s.pid != pid
    ensures pid !in TickTable(samples)
  {
    if samples != [] {
      assert samples[|samples| - 1] in samples;
      assert forall s :: s in samples[..|samples| - 1] ==> s in samples;
      TableHasOnlySampled(samples[..|samples| - 1], pid);
    }
  }

  /** The percentage that a gain of some ticks makes over a window. */
  function Rate(gain: nat, elapsed: real): real
  {
    CpuPercentBetween(0, gain, elapsed)
  }

  lemma CpuIsRate(previous: Option<map<int, nat>>, elapsed: real, samples: seq<ProcSample>, s: ProcSample)
    requires ListsOnce(samples, s.pid) && s in samples
    ensures CpuOf(previous, elapsed, s) == Rate(Gain(previous, elapsed, samples, s.pid), elapsed)
  {
    TableHoldsTicks(samples, s);
  }

  lemma RateTimesWindow(shown: real, gain: nat, elapsed: real)
    requires shown == Rate(gain, elapsed)
    requires elapsed > 0.0 || gain == 0
    ensures shown * elapsed == gain as real
  {
    if elapsed > 0.0 {
      PercentTimesWindow(0, gain, elapsed);
    }
  }

  /** Every row about `pid` shows the `cpu` of a sample of it, and there is one if there is a sample. */
  ghost predicate RowsShow(rows: seq<ProcessInfo>, samples: seq<ProcSample>, cpu: ProcSample -> real, pid: int)
  {
    && (forall row :: row in rows && row.pid == pid ==>
          exists s :: s in samples && s.pid == pid && row.cpuPercent == cpu(s))
    && ((forall row :: row in rows ==> row.pid != pid) ==> forall s :: s in samples ==> s.pid != pid)
  }

  lemma ShownIsTheOne(rows: seq<ProcessInfo>, samples: seq<ProcSample>, cpu: ProcSample -> real, pid: int,
          value: real)
    requires RowsShow(rows, samples, cpu, pid)
    requires forall s :: s in samples && s.pid == pid ==> cpu(s) == value
    requires (forall s :: s in samples ==> s.pid != pid) ==> value == 0.0
    ensures ShownFor(rows, pid) == value
  {
  }

  function CpuAgainst(previous: Option<map<int, nat>>, elapsed: real): ProcSample -> real
  {
    (s: ProcSample) => CpuOf(previous, elapsed, s)
  }

  lemma RowsAreSamples(previous: Option<map<int, nat>>, elapsed: real, samples: seq<ProcSample>,
          rows: seq<ProcessInfo>, pid: int)
    requires multiset(rows) == multiset(DescribeAll(previous, elapsed, samples))
    ensures RowsShow(rows, samples, CpuAgainst(previous, elapsed), pid)
  {
    var all, cpu := DescribeAll(previous, elapsed, samples), CpuAgainst(previous, elapsed);
    forall row | row in rows && row.pid == pid
      ensures exists s :: s in samples && s.pid == pid && row.cpuPercent == cpu(s)
    {
      assert row in multiset(rows) && row in all;
      var i :| 0 <= i < |all| && all[i] == row;
      assert samples[i] in samples;
    }
    forall s | s in samples && s.pid == pid ensures exists row :: row in rows && row.pid == pid {
      var i :| 0 <= i < |samples| && samples[i] == s;
      assert all[i] in multiset(all) && all[i] in multiset(rows);
    }
  }

  lemma CpusAreRate(previous: Option<map<int, nat>>, elapsed: real, samples: seq<ProcSample>, pid: int)
    requires ListsOnce(samples, pid)
    ensures var rate := Rate(Gain(previous, elapsed, samples, pid), elapsed);
            && (forall s :: s in samples && s.pid == pid ==> CpuAgainst(previous, elapsed)(s) == rate)
            && ((forall s :: s in samples ==> s.pid != pid) ==> rate == 0.0)
  {
    forall s | s in samples && s.pid == pid
      ensures CpuAgainst(previous, elapsed)(s) == Rate(Gain(previous, elapsed, samples, pid), elapsed)
    {
      CpuIsRate(previous, elapsed, samples, s);
    }
    if forall s :: s in samples ==> s.pid != pid {
      TableHasOnlySampled(samples, pid);
    }
  }

  /** A report shows for a process, listed or left out, the rate of the ticks it gained. */
  lemma ReportShowsRate(previous: Option<map<int, nat>>, previousAt: Time, scan: Scan, limit: nat,
          top: Option<seq<ProcessInfo>>, omitted: seq<ProcessInfo>, pid: int)
    requires Reports(previous, previousAt, scan, limit, top, omitted)
    requires scan.Scanned? ==> ListsOnce(scan.samples, pid)
    ensures top.Some? <==> scan.Scanned?
    ensures scan.Scanned? ==>
              var elapsed := Seconds(Sub(scan.readAt, previousAt));
              ShownFor(top.value + omitted, pid) == Rate(Gain(previous, elapsed, scan.samples, pid), elapsed)
  {
    if scan.Scanned? {
      var samples, rows, elapsed := scan.samples, top.value + omitted, Seconds(Sub(scan.readAt, previousAt));
      RowsAreSamples(previous, elapsed, samples, rows, pid);
      CpusAreRate(previous, elapsed, samples, pid);
      ShownIsTheOne(rows, samples, CpuAgainst(previous, elapsed), pid,
                    Rate(Gain(previous, elapsed, samples, pid), elapsed));
    }
  }

  /** A report shows the rate of what the process gained since the last successful scan. */
  ghost predicate ShowsRate(earlier: seq<Scan>, scan: Scan, top: Option<seq<ProcessInfo>>,
          omitted: seq<ProcessInfo>, pid: int)
  {
    && (top.Some? <==> scan.Scanned?)
    && (top.Some? ==> ShownFor(top.value + omitted, pid) == Rate(GainIn(earlier, scan, pid), Window(earlier, scan)))
  }

  ghost predicate ShowsRates(scans: seq<Scan>, tops: seq<Option<seq<ProcessInfo>>>,
          omitted: seq<seq<ProcessInfo>>, pid: int)
    requires |tops| == |omitted| == |scans|
  {
    scans != [] ==>
      var n := |scans| - 1;
      && ShowsRates(scans[..n], tops[..n], omitted[..n], pid)
      && ShowsRate(scans[..n], scans[n], tops[n], omitted[n], pid)
  }

  lemma RateIsGain(earlier: seq<Scan>, scan: Scan, top: Option<seq<ProcessInfo>>, omitted: seq<ProcessInfo>,
          pid: int)
    requires ShowsRate(earlier, scan, top, omitted, pid)
    ensures ShownIn(earlier, scan, top, omitted, pid) == GainIn(earlier, scan, pid) as real
  {
    if scan.Scanned? {
      var shown := ShownFor(top.value + omitted, pid);
      RateTimesWindow(shown, GainIn(earlier, scan, pid), Window(earlier, scan));
    }
  }

  lemma {:induction false} SeriesShowsRates(scans: seq<Scan>, limit: nat, tops: seq<Option<seq<ProcessInfo>>>,
          omitted: seq<seq<ProcessInfo>>, pid: int)
    requires SeriesOf(scans, limit, tops, omitted)
    requires forall i :: 0 <= i < |scans| && scans[i].Scanned? ==> ListsOnce(scans[i].samples, pid)
    ensures ShowsRates(scans, tops, omitted, pid)
  {
    if scans != [] {
      var n := |scans| - 1;
      SeriesShowsRates(scans[..n], limit, tops[..n], omitted[..n], pid);
      ReportShowsRate(PreviousAfter(scans[..n]).0, PreviousAfter(scans[..n]).1, scans[n], limit, tops[n],
                      omitted[n], pid);
    }
  }

  lemma {:induction false} RatesAddUp(scans: seq<Scan>, tops: seq<Option<seq<ProcessInfo>>>,
          omitted: seq<seq<ProcessInfo>>, pid: int)
    requires |tops| == |omitted| == |scans| && ShowsRates(scans, tops, omitted, pid)
    ensures ShownWork(scans, tops, omitted, pid) == Gained(scans, pid) as real
  {
    if scans != [] {
      var n := |scans| - 1;
      RatesAddUp(scans[..n], tops[..n], omitted[..n], pid);
      RateIsGain(scans[..n], scans[n], tops[n], omitted[n], pid);
    }
  }

  /** Conservation: over any series of reads, failed ones included, the percentages in the rows
      listed or left out for a process, weighted by their windows, add up to exactly the ticks it
      gained from scan to scan. */
  lemma ReportsAddUp(scans: seq<Scan>, limit: nat, tops: seq<Option<seq<ProcessInfo>>>,
          omitted: seq<seq<ProcessInfo>>, pid: int)
    requires SeriesOf(scans, limit, tops, omitted)
    requires forall i :: 0 <= i < |scans| && scans[i].Scanned? ==> ListsOnce(scans[i].samples, pid)
    ensures ShownWork(scans, tops, omitted, pid) == Gained(scans, pid) as real
  {
    SeriesShowsRates(scans, limit, tops, omitted, pid);
    RatesAddUp(scans, tops, omitted, pid);
  }

  /** One process present in every scan, once, with ticks that never go back, while the clock goes
      forward. */
  ghost predicate Tracks(scans: seq<Scan>, ticks: seq<nat>, pid: int)
  {
    && |ticks| == |scans|
    && (forall i :: 0 <= i < |scans| ==>
          scans[i].Scanned? && pid in TickTable(scans[i].samples) && TickTable(scans[i].samples)[pid] == ticks[i])
    && (forall i :: 0 < i < |scans| ==>
          ticks[i - 1] <= ticks[i] && scans[i].readAt > scans[i - 1].readAt)
  }

  lemma LastGain(scans: seq<Scan>, ticks: seq<nat>, pid: int)
    requires |scans| > 1 && Tracks(scans, ticks, pid)
    ensures var n := |scans| - 1;
            GainIn(scans[..n], scans[n], pid) == ticks[n] - ticks[n - 1]
  {
    var n := |scans| - 1;
    assert scans[..n][n - 1] == scans[n - 1];
    assert PreviousAfter(scans[..n]) == (Some(TickTable(scans[n - 1].samples)), scans[n - 1].readAt);
  }

  lemma {:induction false} GainsTelescope(scans: seq<Scan>, ticks: seq<nat>, pid: int)
    requires scans != [] && Tracks(scans, ticks, pid)
    ensures ticks[0] + Gained(scans, pid) == ticks[|ticks| - 1]
  {
    var n := |scans| - 1;
    if n == 0 {
      assert scans[..n] == [] && PreviousAfter([]) == (None, ZERO_TIME);
    } else {
      GainsTelescope(scans[..n], ticks[..n], pid);
      LastGain(scans, ticks, pid);
    }
  }

  /** For such a process the reports add up to all it used between the first scan and the last. */
  lemma SteadyProcessAddsUp(scans: seq<Scan>, limit: nat, tops: seq<Option<seq<ProcessInfo>>>,
          omitted: seq<seq<ProcessInfo>>, ticks: seq<nat>, pid: int)
    requires scans != [] && SeriesOf(scans, limit, tops, omitted) && Tracks(scans, ticks, pid)
    requires forall i :: 0 <= i < |scans| ==> ListsOnce(scans[i].samples, pid)
    ensures ShownWork(scans, tops, omitted, pid) == ticks[|ticks| - 1] as real - ticks[0] as real
  {
    ReportsAddUp(scans, limit, tops, omitted, pid);
    GainsTelescope(scans, ticks, pid);
  }

  /** Over one window, percentage times seconds is the tick delta, and a process that went back
      (a reused pid) counts as idle. */
  lemma PercentTimesWindow(before: nat, after: nat, elapsed: real)
    requires elapsed > 0.0
    ensures CpuPercentBetween(before, after, elapsed) * elapsed
            == if after < before then 0.0 else (after - before) as real
  {
  }
}
