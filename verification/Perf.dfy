/** Performance accounting of lib/secure_gateway.c: packet and drop counters per port, and the load
    of the spin loop. Counters are unbounded here. */
module Perf {
  import opened Common
  import opened SecurityPolicies

  const UNITS := 4
  const NON_PAYLOAD_BYTES := 12  // MAVLink 2 header and checksum
  const REPORT_INTERVAL := 5_000_000

  datatype PortUnit = PortUnit(prevSeq: byte, succ: nat, drop: nat, bytes: nat,
                               lastSucc: nat, lastDrop: nat, lastBytes: nat, lastQuery: nat)

  datatype ExecUnit = ExecUnit(total: nat, loadUs: nat, lastTotal: nat, lastLoadUs: nat, lastQuery: nat)

  datatype PortResult = PortResult(duration: int, succ: int, drop: int, bytes: int)
  datatype ExecResult = ExecResult(duration: int, count: int, loadUs: int)

  const NEW_PORT := PortUnit(0, 0, 0, 0, 0, 0, 0, 0)
  const NEW_EXEC := ExecUnit(0, 0, 0, 0, 0)

  /** Frames missing between sequence numbers `prev` and `seqno`, as the source computes it. */
  function DropCount(prev: byte, seqno: byte): int {
    var d := seqno - prev - 1;
    if d < 0 then 256 + d else d
  }

  function SourceUpdate(u: PortUnit, mav: Mavlink): PortUnit {
    var counted := mav.compid == 1;
    var d := DropCount(u.prevSeq, mav.seqno);
    u.(prevSeq := if counted then mav.seqno else u.prevSeq,
       succ := u.succ + 1,
       drop := u.drop + (if counted then d else 0),
       bytes := u.bytes + mav.len + NON_PAYLOAD_BYTES)
  }

  function SinkUpdate(u: PortUnit, mav: Mavlink): PortUnit {
    u.(succ := u.succ + 1, bytes := u.bytes + mav.len + NON_PAYLOAD_BYTES)
  }

  // Sequence-drop accounting.

  function SourceRun(u: PortUnit, msgs: seq<Mavlink>): PortUnit {
    if msgs == [] then u else SourceUpdate(SourceRun(u, msgs[..|msgs| - 1]), msgs[|msgs| - 1])
  }

  /** The messages of component 1, the only ones whose sequence numbers are looked at. */
  function Autopilot(msgs: seq<Mavlink>): seq<Mavlink> {
    if msgs == [] then [] else
    Autopilot(msgs[..|msgs| - 1]) + (if msgs[|msgs| - 1].compid == 1 then [msgs[|msgs| - 1]] else [])
  }

  /** Over any run from a fresh unit, received plus dropped frames agree with the last sequence number
      modulo 256. */
  lemma {:induction false} DropsMatchSequence(msgs: seq<Mavlink>)
    ensures var u := SourceRun(NEW_PORT, msgs);
            && (|Autopilot(msgs)| + u.drop) % 256 == u.prevSeq
            && u.succ == |msgs|
  {
    if msgs != [] {
      var before, m := msgs[..|msgs| - 1], msgs[|msgs| - 1];
      DropsMatchSequence(before);
      var u := SourceRun(NEW_PORT, before);
      if m.compid == 1 {
        SeqStep(|Autopilot(before)| + u.drop, u.prevSeq, m.seqno);
      }
    }
  }

  lemma SeqStep(total: nat, prev: byte, seqno: byte)
    requires total % 256 == prev
    ensures 0 <= DropCount(prev, seqno) < 256
    ensures (total + 1 + DropCount(prev, seqno)) % 256 == seqno
  {
  }

  /** One arrival counts the frames truly lost before it exactly when fewer than 256 were. */
  lemma DropExactIff(from: nat, to: nat)
    requires from < to
    ensures DropCount(from % 256, to % 256) == to - from - 1 <==> to - from - 1 < 256
  {
  }

  /** Messages from a single autopilot whose frames are numbered consecutively at the sender. */
  ghost predicate Numbered(msgs: seq<Mavlink>, frames: seq<nat>) {
    && |frames| == |msgs|
    && (forall i :: 0 <= i < |msgs| ==> msgs[i].compid == 1 && msgs[i].seqno == frames[i] % 256)
    && (forall i :: 0 < i < |msgs| ==> frames[i - 1] < frames[i] && frames[i] - frames[i - 1] - 1 < 256)
  }

  /** The messages of other components leave the drop count and the last sequence number alone. */
  lemma {:induction false} OthersAreIgnored(u: PortUnit, msgs: seq<Mavlink>)
    ensures SourceRun(u, msgs).drop == SourceRun(u, Autopilot(msgs)).drop
    ensures SourceRun(u, msgs).prevSeq == SourceRun(u, Autopilot(msgs)).prevSeq
  {
    if msgs != [] {
      var before, m := msgs[..|msgs| - 1], msgs[|msgs| - 1];
      OthersAreIgnored(u, before);
      if m.compid == 1 {
        assert Autopilot(msgs)[..|Autopilot(msgs)| - 1] == Autopilot(before);
      } else {
        assert Autopilot(msgs) == Autopilot(before);
      }
    }
  }

  lemma {:induction false} AutopilotOfPrefix(msgs: seq<Mavlink>, n: nat)
    requires n <= |msgs|
    ensures Autopilot(msgs[..n]) <= Autopilot(msgs)
    decreases |msgs|
  {
    if n == |msgs| {
      assert msgs[..n] == msgs;
    } else {
      var before := msgs[..|msgs| - 1];
      AutopilotOfPrefix(before, n);
      assert before[..n] == msgs[..n];
    }
  }

  /** For a sender that numbers its frames consecutively and loses fewer than 256 in a row, whatever other
      components send in between: the drops counted since its first arrival, which is the n-th message,
      are the frames truly lost since then. */
  lemma DropsAreTrueLosses(u: PortUnit, msgs: seq<Mavlink>, frames: seq<nat>, n: nat)
    requires n <= |msgs| && |Autopilot(msgs[..n])| == 1 && Numbered(Autopilot(msgs), frames)
    ensures var k := |frames|;
            && k > 0
            && SourceRun(u, msgs).prevSeq == frames[k - 1] % 256
            && SourceRun(u, msgs).drop - SourceRun(u, msgs[..n]).drop == frames[k - 1] - frames[0] + 1 - k
  {
    AutopilotOfPrefix(msgs, n);
    OthersAreIgnored(u, msgs);
    OthersAreIgnored(u, msgs[..n]);
    assert Autopilot(msgs)[..1] == Autopilot(msgs[..n]);
    NumberedLosses(u, Autopilot(msgs), frames);
  }

  lemma {:induction false} NumberedLosses(u: PortUnit, msgs: seq<Mavlink>, frames: seq<nat>)
    requires msgs != [] && Numbered(msgs, frames)
    ensures var n := |msgs|;
            && SourceRun(u, msgs).prevSeq == frames[n - 1] % 256
            && SourceRun(u, msgs).drop - SourceRun(u, msgs[..1]).drop == frames[n - 1] - frames[0] + 1 - n
  {
    var n := |msgs|;
    if n == 1 {
      assert msgs[..1] == msgs;
      assert msgs[..0] == [];
    } else {
      NumberedLosses(u, msgs[..n - 1], frames[..n - 1]);
      assert msgs[..n - 1][..1] == msgs[..1];
      DropExactIff(frames[n - 2], frames[n - 1]);
    }
  }

  // Load.

  datatype Report = Report(source: PortResult, sink: PortResult, exec: ExecResult)

  /** `struct perf_t`, the time of the last report and the reports so far. */
  datatype State = State(sources: seq<PortUnit>, sinks: seq<PortUnit>, exec: ExecUnit, last: nat, reports: seq<Report>)

  predicate Shaped(s: State) {
    |s.sources| == UNITS && |s.sinks| == UNITS
  }

  function NewPerf(): State {
    State(seq(UNITS, _ => NEW_PORT), seq(UNITS, _ => NEW_PORT), NEW_EXEC, 0, [])
  }

  function CountSource(s: State, id: nat, mav: Mavlink): State
    requires Shaped(s) && id < UNITS
  {
    s.(sources := s.sources[id := SourceUpdate(s.sources[id], mav)])
  }

  function CountSink(s: State, id: nat, mav: Mavlink): State
    requires Shaped(s) && id < UNITS
  {
    s.(sinks := s.sinks[id := SinkUpdate(s.sinks[id], mav)])
  }

  function CountTurn(s: State, duration: nat, loaded: bool): State {
    s.(exec := s.exec.(total := s.exec.total + 1,
                       loadUs := if loaded then s.exec.loadUs + duration else s.exec.loadUs))
  }

  function PortQuery(u: PortUnit, now: nat): (PortUnit, PortResult) {
    (u.(lastQuery := now, lastSucc := u.succ, lastDrop := u.drop, lastBytes := u.bytes),
     PortResult(now - u.lastQuery, u.succ - u.lastSucc, u.drop - u.lastDrop, u.bytes - u.lastBytes))
  }

  function ExecQuery(e: ExecUnit, now: nat): (ExecUnit, ExecResult) {
    (e.(lastQuery := now, lastTotal := e.total, lastLoadUs := e.loadUs),
     ExecResult(now - e.lastQuery, e.total - e.lastTotal, e.loadUs - e.lastLoadUs))
  }

  /** perf_show: nothing before the interval is over, then a query of the selected units, which are
      the VMC source and sink, and of the load. */
  function Show(s: State, now: nat): State
    requires Shaped(s)
  {
    if now - s.last < REPORT_INTERVAL then s
    else
      var (source, sourceResult) := PortQuery(s.sources[SOURCE_VMC], now);
      var (sink, sinkResult) := PortQuery(s.sinks[SINK_VMC], now);
      var (exec, execResult) := ExecQuery(s.exec, now);
      State(s.sources[SOURCE_VMC := source], s.sinks[SINK_VMC := sink], exec, now,
            s.reports + [Report(sourceResult, sinkResult, execResult)])
  }

  /** A report changes no total. */
  lemma ShowKeeps(s: State, now: nat)
    requires Shaped(s)
    ensures Shaped(Show(s, now))
    ensures forall i :: 0 <= i < UNITS ==>
              && Show(s, now).sources[i].succ == s.sources[i].succ
              && Show(s, now).sinks[i].succ == s.sinks[i].succ
  {
  }

  // Reports.

  function AddPort(a: PortResult, b: PortResult): PortResult {
    PortResult(a.duration + b.duration, a.succ + b.succ, a.drop + b.drop, a.bytes + b.bytes)
  }

  function AddExec(a: ExecResult, b: ExecResult): ExecResult {
    ExecResult(a.duration + b.duration, a.count + b.count, a.loadUs + b.loadUs)
  }

  /** The reports added up. */
  function Totals(reports: seq<Report>): Report {
    if reports == [] then Report(PortResult(0, 0, 0, 0), PortResult(0, 0, 0, 0), ExecResult(0, 0, 0)) else
    var t, r := Totals(reports[..|reports| - 1]), reports[|reports| - 1];
    Report(AddPort(t.source, r.source), AddPort(t.sink, r.sink), AddExec(t.exec, r.exec))
  }

  /** What the queries of a unit have shown so far. */
  function Shown(u: PortUnit): PortResult {
    PortResult(u.lastQuery, u.lastSucc, u.lastDrop, u.lastBytes)
  }

  /** Together the reports show everything up to the last one, and nothing twice. */
  predicate Accounted(s: State)
    requires Shaped(s)
  {
    var t := Totals(s.reports);
    && t.source == Shown(s.sources[SOURCE_VMC])
    && t.sink == Shown(s.sinks[SINK_VMC])
    && t.exec == ExecResult(s.exec.lastQuery, s.exec.lastTotal, s.exec.lastLoadUs)
  }

  /** Showing a report, or not yet, keeps the account and changes no total. */
  lemma ShowAccounts(s: State, now: nat)
    requires Shaped(s) && Accounted(s)
    ensures var s' := Show(s, now);
            && Shaped(s') && Accounted(s')
            && s'.exec.total == s.exec.total && s'.exec.loadUs == s.exec.loadUs
            && (forall i :: 0 <= i < UNITS ==>
                  s'.sources[i].succ == s.sources[i].succ && s'.sources[i].drop == s.sources[i].drop
                  && s'.sinks[i].succ == s.sinks[i].succ)
            && (now - s.last >= REPORT_INTERVAL ==>
                  && Totals(s'.reports).source.succ == s.sources[SOURCE_VMC].succ
                  && Totals(s'.reports).source.drop == s.sources[SOURCE_VMC].drop
                  && Totals(s'.reports).sink.succ == s.sinks[SINK_VMC].succ
                  && Totals(s'.reports).exec.count == s.exec.total
                  && Totals(s'.reports).exec.loadUs == s.exec.loadUs)
  {
    var s' := Show(s, now);
    if s' != s {
      assert s'.reports[..|s'.reports| - 1] == s.reports;
    }
  }

  /** A report that divides by a positive duration, the same for all units, and shows a load no longer
      than it. */
  predicate Sensible(r: Report) {
    && r.source.duration == r.sink.duration == r.exec.duration >= REPORT_INTERVAL
    && 0 <= r.exec.loadUs <= r.exec.duration
  }

  /** At `time`, the loaded time since the last query is no longer than the time since then. */
  predicate Metered(s: State, time: nat)
    requires Shaped(s)
  {
    && s.sources[SOURCE_VMC].lastQuery == s.sinks[SINK_VMC].lastQuery == s.exec.lastQuery == s.last <= time
    && 0 <= s.exec.loadUs - s.exec.lastLoadUs <= time - s.last
    && (forall i :: 0 <= i < |s.reports| ==> Sensible(s.reports[i]))
  }

  /** One turn of the spin loop, from `tstart` to `tend`, with perf_show reading `now`. */
  lemma TurnMetered(s: State, time: nat, tstart: nat, tend: nat, now: nat, loaded: bool)
    requires Shaped(s) && Metered(s, time) && time <= tstart <= tend <= now
    ensures var s' := Show(CountTurn(s, tend - tstart, loaded), now);
            Shaped(s') && Metered(s', now)
  {
  }

  lemma PercentBound(a: int, d: int)
    requires 0 <= a <= d && d > 0
    ensures 0 <= a * 100 / d <= 100
  {
    var q := a * 100 / d;
    assert a * 100 == d * q + a * 100 % d;
    assert d * 101 == d * 100 + d;
    Less(d, q, 101);
    assert d * -1 == -d;
    Less(d, -1, q);
  }

  lemma Less(d: int, x: int, y: int)
    requires d > 0 && d * x < d * y
    ensures x < y
  {
    assert d * (y - x) == d * y - d * x;
  }

  /** The printed integer and fraction are together the exact truncation of the ratio: `scale` digits
      of `a * unit / d` come from one more division and a remainder. */
  lemma PrintedExactly(a: nat, d: int, unit: nat, scale: int)
    requires d > 0 && scale > 0
    ensures (a * unit / d) * scale + (a * unit * scale / d) % scale == a * unit * scale / d
  {
    var x := a * unit;
    NestedDivision(x, d, scale);
    var y := x * scale / d;
    assert y == scale * (y / scale) + y % scale;
  }

  lemma NestedDivision(x: nat, d: int, scale: int)
    requires d > 0 && scale > 0
    ensures x * scale / d / scale == x / d
  {
    var q, r := x / d, x % d;
    var y := x * scale / d;
    assert x == d * q + r && 0 <= r < d;
    assert d * y <= x * scale < d * y + d;
    Scaled(x, d, q, r, scale);
    Between(d, q * scale, y, (q + 1) * scale, x * scale);
    QuotientFrom(y, q, scale);
  }

  lemma Scaled(x: int, d: int, q: int, r: int, scale: int)
    requires x == d * q + r && 0 <= r < d && scale > 0
    ensures d * (q * scale) <= x * scale < d * ((q + 1) * scale)
  {
    assert x * scale == d * (q * scale) + r * scale;
    assert (d - r) * scale == d * scale - r * scale;
    assert (d - r) * scale > 0;
    assert d * ((q + 1) * scale) == d * (q * scale) + d * scale;
  }

  lemma Between(d: int, lo: int, y: int, hi: int, n: int)
    requires d > 0 && d * lo <= n < d * hi && d * y <= n < d * y + d
    ensures lo <= y < hi
  {
    assert d * (y + 1) == d * y + d;
    Less(d, lo, y + 1);
    Less(d, y, hi);
  }

  lemma QuotientFrom(y: int, q: int, s: int)
    requires s > 0 && q * s <= y < (q + 1) * s
    ensures y / s == q
  {
    var r := y - q * s;
    assert y == s * q + r && 0 <= r < s;
    var z := y / s;
    assert y == s * z + y % s;
    assert s * (z + 1) == s * z + s && s * (q + 1) == s * q + s;
    Less(s, z, q + 1);
    Less(s, q, z + 1);
  }

  class PerfCounters {
    var sources: seq<PortUnit>
    var sinks: seq<PortUnit>
    var exec: ExecUnit
    var last: nat
    ghost var reports: seq<Report>

    ghost function View(): State
      reads this
    {
      State(sources, sinks, exec, last, reports)
    }

    constructor ()
      ensures View() == NewPerf()
    {
      sources, sinks := seq(UNITS, _ => NEW_PORT), seq(UNITS, _ => NEW_PORT);
      exec, last, reports := NEW_EXEC, 0, [];
    }

    method UpdateSource(id: nat, mav: Mavlink)
      requires Shaped(View()) && id < UNITS
      modifies this`sources
      ensures View() == CountSource(old(View()), id, mav)
    {
      var unit := sources[id];
      var dropCount := 0;
      if mav.compid == 1 {
        dropCount := mav.seqno - unit.prevSeq - 1;
        unit := unit.(prevSeq := mav.seqno);
        dropCount := if dropCount < 0 then 256 + dropCount else dropCount;
      }
      unit := unit.(succ := unit.succ + 1, drop := unit.drop + dropCount,
                    bytes := unit.bytes + mav.len + NON_PAYLOAD_BYTES);
      sources := sources[id := unit];
    }

    method UpdateSink(id: nat, mav: Mavlink)
      requires Shaped(View()) && id < UNITS
      modifies this`sinks
      ensures View() == CountSink(old(View()), id, mav)
    {
      var unit := sinks[id];
      sinks := sinks[id := unit.(succ := unit.succ + 1, bytes := unit.bytes + mav.len + NON_PAYLOAD_BYTES)];
    }

    method UpdateExec(duration: nat, loaded: bool)
      modifies this`exec
      ensures View() == CountTurn(old(View()), duration, loaded)
    {
      exec := exec.(total := exec.total + 1);
      if loaded {
        exec := exec.(loadUs := exec.loadUs + duration);
      }
    }

    method ShowReport(now: nat)
      requires Shaped(View())
      modifies this
      ensures View() == Show(old(View()), now)
    {
      if now - last < REPORT_INTERVAL {
        return;
      }
      var (source, sourceResult) := PortQuery(sources[SOURCE_VMC], now);
      var (sink, sinkResult) := PortQuery(sinks[SINK_VMC], now);
      var (unit, result) := ExecQuery(exec, now);
      sources, sinks := sources[SOURCE_VMC := source], sinks[SINK_VMC := sink];
      exec, last := unit, now;
      reports := reports + [Report(sourceResult, sinkResult, result)];
    }
  }
}
