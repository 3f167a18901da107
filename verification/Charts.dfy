/** The chart histories of the TUI: bounded windows over everything sampled since the last refresh. */
module Charts {
  import opened Text

  const HISTORY_LEN: nat := 300

  /** One more element at the end of a window: the window of the longer record. */
  lemma WindowPush<T>(xs: seq<T>, v: T, n: nat)
    requires n > 0
    ensures Last(xs + [v], n) == (if |Last(xs, n)| >= n then Last(xs, n)[1..] else Last(xs, n)) + [v]
  {
  }

  /** A chart: `max` is its capacity. The series of a chart list are owned values, so a datatype. */
  datatype TimeSeries = TimeSeries(data: seq<real>, max: nat)

  /** `TimeSeries::push`: drop the oldest value when full, append. */
  function Pushed(t: TimeSeries, value: real): TimeSeries {
    var kept := if |t.data| >= t.max && t.data != [] then t.data[1..] else t.data;
    t.(data := kept + [value])
  }

  datatype NetSample = NetSample(rxBytes: nat, txBytes: nat)

  datatype Snapshot = Snapshot(
    cpu: seq<real>, memTotal: nat, memUsed: nat, net: seq<NetSample>, disk: seq<nat>, latencyNs: nat)

  // ---- The full record --------------------------------------------------------------------

  function Window(values: seq<real>): TimeSeries {
    TimeSeries(Last(values, HISTORY_LEN), HISTORY_LEN)
  }

  /** The longest row. */
  function Width(rows: seq<seq<real>>): nat {
    if rows == [] then 0
    else
      var n, last := Width(rows[..|rows| - 1]), |rows[|rows| - 1]|;
      if last > n then last else n
  }

  /** The values at index `i` of the rows that have one, oldest first. */
  function Column(rows: seq<seq<real>>, i: nat): seq<real> {
    if rows == [] then []
    else
      var last := rows[|rows| - 1];
      Column(rows[..|rows| - 1], i) + if i < |last| then [last[i]] else []
  }

  /** One window per index that ever occurred. */
  function SeriesOf(rows: seq<seq<real>>): seq<TimeSeries> {
    seq(Width(rows), (i: nat) => Window(Column(rows, i)))
  }

  function Rx(net: seq<NetSample>): seq<real> {
    seq(|net|, i requires 0 <= i < |net| => net[i].rxBytes as real)
  }

  function Tx(net: seq<NetSample>): seq<real> {
    seq(|net|, i requires 0 <= i < |net| => net[i].txBytes as real)
  }

  function Io(disk: seq<nat>): seq<real> {
    seq(|disk|, i requires 0 <= i < |disk| => disk[i] as real)
  }

  function CpuRows(taken: seq<Snapshot>): seq<seq<real>> {
    if taken == [] then [] else CpuRows(taken[..|taken| - 1]) + [taken[|taken| - 1].cpu]
  }

  function RxRows(taken: seq<Snapshot>): seq<seq<real>> {
    if taken == [] then [] else RxRows(taken[..|taken| - 1]) + [Rx(taken[|taken| - 1].net)]
  }

  function TxRows(taken: seq<Snapshot>): seq<seq<real>> {
    if taken == [] then [] else TxRows(taken[..|taken| - 1]) + [Tx(taken[|taken| - 1].net)]
  }

  function IoRows(taken: seq<Snapshot>): seq<seq<real>> {
    if taken == [] then [] else IoRows(taken[..|taken| - 1]) + [Io(taken[|taken| - 1].disk)]
  }

  function Percent(s: Snapshot): real
    requires s.memTotal > 0
  {
    s.memUsed as real / s.memTotal as real * 100.0
  }

  function MemValues(taken: seq<Snapshot>): seq<real> {
    if taken == [] then []
    else
      var last := taken[|taken| - 1];
      MemValues(taken[..|taken| - 1]) + if last.memTotal > 0 then [Percent(last)] else []
  }

  function Latencies(taken: seq<Snapshot>): seq<real> {
    if taken == [] then []
    else Latencies(taken[..|taken| - 1]) + [taken[|taken| - 1].latencyNs as real / 1000.0]
  }

  /** The last value of a chart; `None` for an empty one. */
  function Latest(t: TimeSeries): Option<real> {
    if t.data == [] then None else Some(t.data[|t.data| - 1])
  }

  lemma LatestOfRow(rows: seq<seq<real>>, row: seq<real>, i: nat)
    requires i < |row|
    ensures i < |SeriesOf(rows + [row])| && Latest(SeriesOf(rows + [row])[i]) == Some(row[i])
  {
    OneMoreRow(rows, row, i);
    LatestOfWindow(Column(rows, i), row[i]);
  }

  lemma LatestOfWindow(values: seq<real>, v: real)
    ensures Latest(Window(values + [v])) == Some(v)
  {
  }

  lemma {:induction false} ColumnBeyond(rows: seq<seq<real>>, i: nat)
    requires i >= Width(rows)
    ensures Column(rows, i) == []
  {
    if rows == [] {
    } else {
      ColumnBeyond(rows[..|rows| - 1], i);
    }
  }

  lemma OneMoreRow(rows: seq<seq<real>>, row: seq<real>, i: nat)
    ensures Column(rows + [row], i) == Column(rows, i) + if i < |row| then [row[i]] else []
    ensures Width(rows + [row]) == if |row| > Width(rows) then |row| else Width(rows)
  {
    assert (rows + [row])[..|rows|] == rows;
  }

  lemma PushIsWindow(values: seq<real>, v: real)
    ensures Pushed(Window(values), v) == Window(values + [v])
  {
    WindowPush(values, v, HISTORY_LEN);
  }

  // ---- The loops ----------------------------------------------------------------------------

  /** What the loops have done to series `i` when they have pushed the values below `done`. */
  ghost predicate Half(series: seq<TimeSeries>, rows: seq<seq<real>>, row: seq<real>, done: nat) {
    && done <= |row| <= |series|
    && |series| == Width(rows + [row])
    && (forall i :: 0 <= i < done ==> series[i] == Window(Column(rows + [row], i)))
    && (forall i :: done <= i < |series| ==> series[i] == Window(Column(rows, i)))
  }

  /** Charts for all indices so far and empty ones behind them. */
  ghost predicate Grown(series: seq<TimeSeries>, rows: seq<seq<real>>) {
    |series| >= Width(rows) && forall i :: 0 <= i < |series| ==> series[i] == Window(Column(rows, i))
  }

  lemma GrowKeeps(series: seq<TimeSeries>, rows: seq<seq<real>>)
    requires Grown(series, rows)
    ensures Grown(series + [TimeSeries([], HISTORY_LEN)], rows)
  {
    ColumnBeyond(rows, |series|);
  }

  lemma GrownIsHalf(series: seq<TimeSeries>, rows: seq<seq<real>>, row: seq<real>)
    requires Grown(series, rows) && |row| <= |series| && (|series| == Width(rows) || |series| == |row|)
    ensures Half(series, rows, row, 0)
  {
    OneMoreRow(rows, row, 0);
  }

  /** The growth loop: new empty charts up to the number of values. */
  method Grow(series: seq<TimeSeries>, n: nat, ghost rows: seq<seq<real>>, ghost row: seq<real>)
    returns (r: seq<TimeSeries>)
    requires series == SeriesOf(rows) && n == |row|
    ensures Half(r, rows, row, 0)
  {
    r := series;
    while |r| < n
      invariant |r| == |series| || |r| <= n
      invariant Grown(r, rows)
    {
      GrowKeeps(r, rows);
      r := r + [TimeSeries([], HISTORY_LEN)];
    }
    GrownIsHalf(r, rows, row);
  }

  lemma PushKeeps(series: seq<TimeSeries>, rows: seq<seq<real>>, row: seq<real>, i: nat)
    requires Half(series, rows, row, i) && i < |row|
    ensures Half(series[i := Pushed(series[i], row[i])], rows, row, i + 1)
  {
    OneMoreRow(rows, row, i);
    PushIsWindow(Column(rows, i), row[i]);
  }

  lemma HalfIsAll(series: seq<TimeSeries>, rows: seq<seq<real>>, row: seq<real>)
    requires Half(series, rows, row, |row|)
    ensures series == SeriesOf(rows + [row])
  {
    forall i: nat | i < |series| ensures series[i] == Window(Column(rows + [row], i)) {
      OneMoreRow(rows, row, i);
    }
  }

  /** One list of charts takes one row of values. */
  method PushRow(series: seq<TimeSeries>, row: seq<real>, ghost rows: seq<seq<real>>) returns (r: seq<TimeSeries>)
    requires series == SeriesOf(rows)
    ensures r == SeriesOf(rows + [row])
  {
    r := Grow(series, |row|, rows, row);
    for i := 0 to |row|
      invariant Half(r, rows, row, i)
    {
      if i < |r| {
        PushKeeps(r, rows, row, i);
        r := r[i := Pushed(r[i], row[i])];
      }
    }
    HalfIsAll(r, rows, row);
  }

  class Charts {
    var cpu: seq<TimeSeries>
    var mem: TimeSeries
    var netRx: seq<TimeSeries>
    var netTx: seq<TimeSeries>
    var disk: seq<TimeSeries>
    var latency: TimeSeries
    /** Every snapshot since the last refresh. */
    ghost var taken: seq<Snapshot>

    constructor ()
      ensures Valid() && taken == []
    {
      cpu, netRx, netTx, disk := [], [], [], [];
      mem, latency := TimeSeries([], HISTORY_LEN), TimeSeries([], HISTORY_LEN);
      taken := [];
    }

    /** Every chart is the last 300 values of its part of the full record. */
    ghost predicate Valid()
      reads this
    {
      && cpu == SeriesOf(CpuRows(taken))
      && mem == Window(MemValues(taken))
      && netRx == SeriesOf(RxRows(taken))
      && netTx == SeriesOf(TxRows(taken))
      && disk == SeriesOf(IoRows(taken))
      && latency == Window(Latencies(taken))
    }

    /** Every chart ends with the snapshot's own value: percent of memory, bytes, requests and microseconds. */
    ghost predicate Shows(snap: Snapshot)
      reads this
    {
      && (forall i :: 0 <= i < |snap.cpu| ==> i < |cpu| && Latest(cpu[i]) == Some(snap.cpu[i]))
      && (forall i :: 0 <= i < |snap.net| ==> i < |netRx| && Latest(netRx[i]) == Some(snap.net[i].rxBytes as real))
      && (forall i :: 0 <= i < |snap.net| ==> i < |netTx| && Latest(netTx[i]) == Some(snap.net[i].txBytes as real))
      && (forall i :: 0 <= i < |snap.disk| ==> i < |disk| && Latest(disk[i]) == Some(snap.disk[i] as real))
      && (snap.memTotal > 0 ==>
            Latest(mem).Some? && Latest(mem).value * snap.memTotal as real == 100.0 * snap.memUsed as real)
      && Latest(latency).Some? && Latest(latency).value * 1000.0 == snap.latencyNs as real
    }

    /** The history part of `refresh_verify`. */
    method Reset()
      modifies this
      ensures Valid() && taken == []
    {
      cpu, netRx, netTx, disk := [], [], [], [];
      mem, latency := TimeSeries([], HISTORY_LEN), TimeSeries([], HISTORY_LEN);
      taken := [];
    }

    /** `ingest_snapshot`. */
    method Ingest(snap: Snapshot)
      requires Valid()
      modifies this
      ensures Valid() && taken == old(taken) + [snap]
      ensures snap.memTotal == 0 ==> mem == old(mem)
    {
      ghost var longer := taken + [snap];
      RecordGrows(taken, snap);
      cpu := PushRow(cpu, snap.cpu, CpuRows(taken));
      mem := PushMemory(mem, snap, taken);
      SameWidth(taken);
      netRx, netTx := PushNet(netRx, netTx, snap.net, RxRows(taken), TxRows(taken));
      disk := PushRow(disk, Io(snap.disk), IoRows(taken));
      latency := PushLatency(latency, snap, taken);
      taken := longer;
    }
  }

  /** Behind every snapshot each chart ends with that snapshot's value. */
  lemma RecordIsShown(charts: Charts, before: seq<Snapshot>, snap: Snapshot)
    requires charts.Valid() && charts.taken == before + [snap]
    ensures charts.Shows(snap)
  {
    RecordGrows(before, snap);
    forall i | 0 <= i < |snap.cpu| {
      LatestOfRow(CpuRows(before), snap.cpu, i);
    }
    forall i | 0 <= i < |Rx(snap.net)| {
      LatestOfRow(RxRows(before), Rx(snap.net), i);
    }
    forall i | 0 <= i < |Tx(snap.net)| {
      LatestOfRow(TxRows(before), Tx(snap.net), i);
    }
    forall i | 0 <= i < |Io(snap.disk)| {
      LatestOfRow(IoRows(before), Io(snap.disk), i);
    }
    ScalarsAreShown(charts, before, snap);
  }

  lemma ScalarsAreShown(charts: Charts, before: seq<Snapshot>, snap: Snapshot)
    requires charts.Valid() && charts.taken == before + [snap]
    ensures snap.memTotal > 0 ==>
              Latest(charts.mem).Some? &&
              Latest(charts.mem).value * snap.memTotal as real == 100.0 * snap.memUsed as real
    ensures Latest(charts.latency).Some? && Latest(charts.latency).value * 1000.0 == snap.latencyNs as real
  {
    assert charts.taken[..|before|] == before;
    LatestOfWindow(Latencies(before), snap.latencyNs as real / 1000.0);
    if snap.memTotal > 0 {
      LatestOfWindow(MemValues(before), Percent(snap));
      Share(snap.memUsed as real, snap.memTotal as real);
    }
  }

  lemma Share(used: real, total: real)
    requires total > 0.0
    ensures used / total * 100.0 * total == 100.0 * used
  {
    assert used / total * total == used;
  }

  lemma RecordGrows(taken: seq<Snapshot>, snap: Snapshot)
    ensures CpuRows(taken + [snap]) == CpuRows(taken) + [snap.cpu]
    ensures RxRows(taken + [snap]) == RxRows(taken) + [Rx(snap.net)]
    ensures TxRows(taken + [snap]) == TxRows(taken) + [Tx(snap.net)]
    ensures IoRows(taken + [snap]) == IoRows(taken) + [Io(snap.disk)]
  {
    assert (taken + [snap])[..|taken|] == taken;
  }

  /** No value when the total is unknown. */
  method PushMemory(mem: TimeSeries, snap: Snapshot, ghost taken: seq<Snapshot>) returns (r: TimeSeries)
    requires mem == Window(MemValues(taken))
    ensures r == Window(MemValues(taken + [snap]))
    ensures snap.memTotal == 0 ==> r == mem
  {
    assert (taken + [snap])[..|taken|] == taken;
    r := mem;
    if snap.memTotal > 0 {
      var percent := Percent(snap);
      PushIsWindow(MemValues(taken), percent);
      r := Pushed(mem, percent);
    }
  }

  method PushLatency(latency: TimeSeries, snap: Snapshot, ghost taken: seq<Snapshot>) returns (r: TimeSeries)
    requires latency == Window(Latencies(taken))
    ensures r == Window(Latencies(taken + [snap]))
  {
    assert (taken + [snap])[..|taken|] == taken;
    var micros := snap.latencyNs as real / 1000.0;
    PushIsWindow(Latencies(taken), micros);
    r := Pushed(latency, micros);
  }

  /** The two network lists grow together, guarded by the length of the first one only. */
  method GrowNet(
    rx: seq<TimeSeries>, tx: seq<TimeSeries>, net: seq<NetSample>,
    ghost rxRows: seq<seq<real>>, ghost txRows: seq<seq<real>>)
    returns (rx': seq<TimeSeries>, tx': seq<TimeSeries>)
    requires rx == SeriesOf(rxRows) && tx == SeriesOf(txRows) && |rx| == |tx|
    ensures Half(rx', rxRows, Rx(net), 0) && Half(tx', txRows, Tx(net), 0)
  {
    rx', tx' := rx, tx;
    while |rx'| < |net|
      invariant |rx'| == |rx| || |rx'| <= |net|
      invariant |rx'| == |tx'| && Grown(rx', rxRows) && Grown(tx', txRows)
    {
      GrowKeeps(rx', rxRows);
      GrowKeeps(tx', txRows);
      rx' := rx' + [TimeSeries([], HISTORY_LEN)];
      tx' := tx' + [TimeSeries([], HISTORY_LEN)];
    }
    GrownIsHalf(rx', rxRows, Rx(net));
    GrownIsHalf(tx', txRows, Tx(net));
  }

  /** The push loop is guarded by the RX length too, so it relies on the lists having equal length. */
  method PushNet(
    rx: seq<TimeSeries>, tx: seq<TimeSeries>, net: seq<NetSample>,
    ghost rxRows: seq<seq<real>>, ghost txRows: seq<seq<real>>)
    returns (rx': seq<TimeSeries>, tx': seq<TimeSeries>)
    requires rx == SeriesOf(rxRows) && tx == SeriesOf(txRows) && |rx| == |tx|
    ensures rx' == SeriesOf(rxRows + [Rx(net)]) && tx' == SeriesOf(txRows + [Tx(net)])
  {
    rx', tx' := GrowNet(rx, tx, net, rxRows, txRows);
    for i := 0 to |net|
      invariant Half(rx', rxRows, Rx(net), i) && Half(tx', txRows, Tx(net), i)
    {
      if i < |rx'| {
        PushKeeps(rx', rxRows, Rx(net), i);
        PushKeeps(tx', txRows, Tx(net), i);
        rx' := rx'[i := Pushed(rx'[i], net[i].rxBytes as real)];
        tx' := tx'[i := Pushed(tx'[i], net[i].txBytes as real)];
      }
    }
    HalfIsAll(rx', rxRows, Rx(net));
    HalfIsAll(tx', txRows, Tx(net));
  }

  /** The RX and TX lists always have equal length. */
  lemma {:induction false} SameWidth(taken: seq<Snapshot>)
    ensures |SeriesOf(RxRows(taken))| == |SeriesOf(TxRows(taken))|
  {
    if taken == [] {
    } else {
      var init, last := taken[..|taken| - 1], taken[|taken| - 1];
      SameWidth(init);
      OneMoreRow(RxRows(init), Rx(last.net), 0);
      OneMoreRow(TxRows(init), Tx(last.net), 0);
    }
  }

  /** Chart `i` of a list holds exactly the last 300 values of the rows that had index `i`. */
  lemma ChartIsWindow(rows: seq<seq<real>>, i: nat)
    requires i < |SeriesOf(rows)|
    ensures var d := SeriesOf(rows)[i].data;
            d == Last(Column(rows, i), 300) && 1 <= |d| <= 300
  {
    ColumnOccurs(rows, i);
  }

  lemma {:induction false} ColumnOccurs(rows: seq<seq<real>>, i: nat)
    requires i < Width(rows)
    ensures Column(rows, i) != []
  {
    var init, last := rows[..|rows| - 1], rows[|rows| - 1];
    if i >= |last| {
      ColumnOccurs(init, i);
    }
  }
}
