/** Nothing the log sink is given goes unaccounted for (backend/app/core/logging.py:379-448, 489-514). */
module LogSinkLaws {
  import opened LogSink

  // ----- Reading the history ------------------------------------------------------------

  /** How many of the rows ever queued were records, and how many summaries. */
  function Originals(log: seq<Row>): nat {
    if log == [] then 0 else Originals(log[..|log| - 1]) + if log[|log| - 1].Original? then 1 else 0
  }

  function Summaries(log: seq<Row>): nat {
    if log == [] then 0 else Summaries(log[..|log| - 1]) + if log[|log| - 1].Summary? then 1 else 0
  }

  /** The repetitions all the summaries speak for. */
  function Carried(log: seq<Row>): nat {
    if log == [] then 0
    else Carried(log[..|log| - 1]) + if log[|log| - 1].Summary? then log[|log| - 1].times else 0
  }

  /** The repetitions no summary has spoken for yet. */
  function Pending(dedupe: seq<Entry>): nat {
    if dedupe == [] then 0 else Pending(dedupe[..|dedupe| - 1]) + dedupe[|dedupe| - 1].suppressed
  }

  function Count(flags: seq<bool>, which: bool): nat {
    if flags == [] then 0 else Count(flags[..|flags| - 1], which) + if flags[|flags| - 1] == which then 1 else 0
  }

  // ----- The invariant ------------------------------------------------------------------

  /** The queue is what has not left it of all that was put on it, in the same order. */
  ghost predicate InOrder(s: State) {
    && |s.log| == |s.taken| + |s.queue|
    && s.queue == s.log[|s.taken|..]
  }

  ghost predicate Bounded(c: Config, s: State) {
    |s.queue| <= Bound(c) && |s.dedupe| <= MAX_DEDUPE_KEYS
  }

  ghost predicate OneWindowEach(dedupe: seq<Entry>) {
    forall i, j :: 0 <= i < j < |dedupe| ==> dedupe[i].identity != dedupe[j].identity
  }

  ghost predicate QueueCounts(s: State) {
    && s.enqueued == |s.log| == Originals(s.log) + Summaries(s.log)
    && s.dropped == Count(s.taken, false)
    && s.enqueued == s.dropped + Count(s.taken, true) + |s.queue|
  }

  /** All records are accounted for but the `open` last ones. */
  ghost predicate RecordCounts(s: State, open: nat) {
    && s.seen == s.filtered + s.suppressed + Originals(s.log) + open
    && s.suppressed == Carried(s.log) + Pending(s.dedupe)
  }

  ghost predicate Inv(c: Config, s: State) {
    Bounded(c, s) && OneWindowEach(s.dedupe) && InOrder(s) && QueueCounts(s) && RecordCounts(s, 0)
  }

  /** What holds while a locked section is under way: the windows may be one too many. */
  ghost predicate Midway(c: Config, s: State, open: nat) {
    && |s.queue| <= Bound(c) && OneWindowEach(s.dedupe) && InOrder(s) && QueueCounts(s) && RecordCounts(s, open)
  }

  // ----- Sums ---------------------------------------------------------------------------

  lemma OneMoreRow(log: seq<Row>, row: Row)
    ensures Originals(log + [row]) == Originals(log) + if row.Original? then 1 else 0
    ensures Summaries(log + [row]) == Summaries(log) + if row.Summary? then 1 else 0
    ensures Carried(log + [row]) == Carried(log) + if row.Summary? then row.times else 0
  {
    assert (log + [row])[..|log|] == log;
  }

  lemma OneMoreFlag(flags: seq<bool>, flag: bool, which: bool)
    ensures Count(flags + [flag], which) == Count(flags, which) + if flag == which then 1 else 0
  {
    assert (flags + [flag])[..|flags|] == flags;
  }

  lemma {:induction false} ManyMoreFlags(flags: seq<bool>, n: nat)
    ensures Count(flags + seq(n, i => true), true) == Count(flags, true) + n
    ensures Count(flags + seq(n, i => true), false) == Count(flags, false)
  {
    if n == 0 {
      assert flags + seq(n, i => true) == flags;
    } else {
      ManyMoreFlags(flags, n - 1);
      var fewer := flags + seq(n - 1, i => true);
      assert flags + seq(n, i => true) == fewer + [true];
      OneMoreFlag(fewer, true, true);
      OneMoreFlag(fewer, true, false);
    }
  }

  lemma PendingOfOneMore(dedupe: seq<Entry>, e: Entry)
    ensures Pending(dedupe + [e]) == Pending(dedupe) + e.suppressed
  {
    assert (dedupe + [e])[..|dedupe|] == dedupe;
  }

  lemma {:induction false} PendingOfSum(a: seq<Entry>, b: seq<Entry>)
    ensures Pending(a + b) == Pending(a) + Pending(b)
  {
    hide Pending;
    if b == [] {
      assert a + b == a;
      PendingOfNone();
    } else {
      var front, last := b[..|b| - 1], b[|b| - 1];
      PendingOfSum(a, front);
      assert b == front + [last] && a + b == (a + front) + [last];
      PendingOfOneMore(a + front, last);
      PendingOfOneMore(front, last);
    }
  }

  lemma PendingOfNone()
    ensures Pending([]) == 0
  {
  }

  lemma PendingOfUpdate(dedupe: seq<Entry>, i: nat, e: Entry)
    requires i < |dedupe|
    ensures Pending(dedupe[i := e]) == Pending(dedupe) - dedupe[i].suppressed + e.suppressed
  {
    hide Pending;
    var before, after := dedupe[..i], dedupe[i + 1..];
    assert dedupe == (before + [dedupe[i]]) + after && dedupe[i := e] == (before + [e]) + after;
    PendingOfOneMore(before, dedupe[i]);
    PendingOfOneMore(before, e);
    PendingOfSum(before + [dedupe[i]], after);
    PendingOfSum(before + [e], after);
  }

  lemma PendingWithout(dedupe: seq<Entry>, i: nat)
    requires i < |dedupe|
    ensures Pending(Without(dedupe, i)) == Pending(dedupe) - dedupe[i].suppressed
  {
    hide Pending;
    var before, after := dedupe[..i], dedupe[i + 1..];
    assert dedupe == (before + [dedupe[i]]) + after;
    PendingOfOneMore(before, dedupe[i]);
    PendingOfSum(before + [dedupe[i]], after);
    PendingOfSum(before, after);
  }

  // ----- One window for each message ----------------------------------------------------

  lemma WithoutKeepsOneEach(dedupe: seq<Entry>, i: nat)
    requires OneWindowEach(dedupe) && i < |dedupe|
    ensures OneWindowEach(Without(dedupe, i))
  {
    var left := Without(dedupe, i);
    assert forall k :: 0 <= k < |left| ==> left[k] == dedupe[if k < i then k else k + 1];
  }

  lemma ReplacedKeepsOneEach(dedupe: seq<Entry>, i: nat, e: Entry)
    requires OneWindowEach(dedupe) && i < |dedupe| && e.identity == dedupe[i].identity
    ensures OneWindowEach(dedupe[i := e])
  {
  }

  lemma AddedKeepsOneEach(dedupe: seq<Entry>, e: Entry)
    requires OneWindowEach(dedupe) && Find(dedupe, e.identity) == |dedupe|
    ensures OneWindowEach(dedupe + [e])
  {
  }

  // ----- Every step keeps the invariant -------------------------------------------------

  /** Queueing a row keeps its counts, and what it speaks for passes from `open` to the log. */
  lemma EnqueueKeeps(c: Config, s: State, row: Row, open: nat)
    requires |s.queue| <= Bound(c) && InOrder(s) && QueueCounts(s) && (row.Original? ==> open > 0)
    requires s.seen == s.filtered + s.suppressed + Originals(s.log) + open
    requires s.suppressed == Carried(s.log) + Pending(s.dedupe) + if row.Summary? then row.times else 0
    ensures var after := Enqueue(c, s, row);
            && |after.queue| <= Bound(c) && InOrder(after) && QueueCounts(after) && after.dedupe == s.dedupe
            && RecordCounts(after, if row.Original? then open - 1 else open)
  {
    var after := Enqueue(c, s, row);
    OneMoreRow(s.log, row);
    if after.dropped > s.dropped {
      assert after.queue == after.log[|after.taken|..];
    } else {
      assert after.queue == after.log[|s.taken|..];
    }
    OneMoreFlag(s.taken, false, false);
    OneMoreFlag(s.taken, false, true);
  }

  /** The windows are changed, and the old one, if any, has its summary queued. */
  lemma WindowsChange(c: Config, s: State, dedupe: seq<Entry>, old_: Entry, open: nat)
    requires Midway(c, s, open) && OneWindowEach(dedupe) && Pending(dedupe) + old_.suppressed == Pending(s.dedupe)
    ensures var after := Summarise(c, s.(dedupe := dedupe), old_); Midway(c, after, open) && after.dedupe == dedupe
  {
    hide Enqueue, OneWindowEach, Pending;
    if old_.suppressed > 0 {
      EnqueueKeeps(c, s.(dedupe := dedupe), Summary(old_.last, old_.suppressed), open);
    }
  }

  lemma RetireKeeps(c: Config, s: State, i: nat, open: nat)
    requires Midway(c, s, open) && i < |s.dedupe|
    ensures Midway(c, Retire(c, s, i), open) && |Retire(c, s, i).dedupe| == |s.dedupe| - 1
  {
    hide Summarise, OneWindowEach, Pending, InOrder, QueueCounts, RecordCounts;
    PendingWithout(s.dedupe, i);
    WithoutKeepsOneEach(s.dedupe, i);
    WindowsChange(c, s, Without(s.dedupe, i), s.dedupe[i], open);
  }

  lemma {:induction false} TrimKeeps(c: Config, s: State, open: nat)
    requires Midway(c, s, open)
    ensures Midway(c, Trim(c, s), open) && |Trim(c, s).dedupe| <= MAX_DEDUPE_KEYS
    decreases |s.dedupe|
  {
    hide Midway, Retire;
    if |s.dedupe| > MAX_DEDUPE_KEYS {
      RetireKeeps(c, s, Oldest(s.dedupe), open);
      TrimKeeps(c, Retire(c, s, Oldest(s.dedupe)), open);
    }
  }

  lemma NothingToSummarise(c: Config, s: State, e: Entry)
    requires e.suppressed == 0
    ensures Summarise(c, s, e) == s
  {
  }

  lemma ReopenKeeps(c: Config, s: State, record: Record, now: real, open: nat)
    requires Midway(c, s, open)
    ensures Midway(c, Reopened(c, s, record, now), open)
  {
    hide Summarise, OneWindowEach, Pending, InOrder, QueueCounts, RecordCounts;
    var i := Find(s.dedupe, record.identity);
    var window := Entry(record.identity, now, 0, record);
    if i < |s.dedupe| {
      PendingOfUpdate(s.dedupe, i, window);
      ReplacedKeepsOneEach(s.dedupe, i, window);
      WindowsChange(c, s, s.dedupe[i := window], s.dedupe[i], open);
    } else {
      PendingOfOneMore(s.dedupe, window);
      AddedKeepsOneEach(s.dedupe, window);
      WindowsChange(c, s, s.dedupe + [window], window, open);
      NothingToSummarise(c, s.(dedupe := s.dedupe + [window]), window);
    }
  }

  lemma StoreKeeps(c: Config, s: State, record: Record, now: real)
    requires Midway(c, s, 1)
    ensures Inv(c, Stored(c, s, record, now))
  {
    ReopenKeeps(c, s, record, now, 1);
    TrimKeeps(c, Reopened(c, s, record, now), 1);
    EnqueueKeeps(c, Trim(c, Reopened(c, s, record, now)), Original(record), 1);
  }

  lemma RepeatKeeps(c: Config, s: State, i: nat, record: Record)
    requires Midway(c, s, 1) && i < |s.dedupe| <= MAX_DEDUPE_KEYS && s.dedupe[i].identity == record.identity
    ensures Inv(c, Repeated(s, i, record))
  {
    var e := s.dedupe[i];
    PendingOfUpdate(s.dedupe, i, e.(suppressed := e.suppressed + 1, last := record));
  }

  lemma RecordArrives(c: Config, s: State)
    requires Inv(c, s)
    ensures Midway(c, s.(seen := s.seen + 1), 1) && |s.dedupe| <= MAX_DEDUPE_KEYS
    ensures Inv(c, s.(seen := s.seen + 1).(filtered := s.filtered + 1))
  {
  }

  lemma EmitKeepsInv(c: Config, level: int, s: State, record: Record, force: bool, now: real)
    requires Inv(c, s)
    ensures Inv(c, Emitted(c, level, s, record, force, now))
  {
    hide Inv, Midway, Repeated, Stored;
    var seen, i := s.(seen := s.seen + 1), Find(s.dedupe, record.identity);
    RecordArrives(c, s);
    if !force && record.severity < level {
    } else if i < |s.dedupe| && Open(c, s.dedupe[i], now) {
      RepeatKeeps(c, seen, i, record);
    } else {
      StoreKeeps(c, seen, record, now);
    }
  }

  lemma {:induction false} SweepKeeps(c: Config, s: State, i: nat, force: bool, now: real)
    requires Midway(c, s, 0) && i <= |s.dedupe|
    ensures Midway(c, Sweep(c, s, i, force, now), 0) && |Sweep(c, s, i, force, now).dedupe| <= |s.dedupe|
    ensures force ==> |Sweep(c, s, i, force, now).dedupe| == i
    decreases |s.dedupe| - i
  {
    hide Midway, Retire;
    if i < |s.dedupe| {
      if !force && Open(c, s.dedupe[i], now) {
        SweepKeeps(c, s, i + 1, force, now);
      } else {
        RetireKeeps(c, s, i, 0);
        SweepKeeps(c, Retire(c, s, i), i, force, now);
      }
    }
  }

  lemma TakeKeeps(c: Config, s: State)
    requires Inv(c, s)
    ensures Inv(c, Take(s))
  {
    ManyMoreFlags(s.taken, BatchSize(s));
  }

  lemma DrainKeepsInv(c: Config, s: State, force: bool, now: real)
    requires Inv(c, s)
    ensures Inv(c, Drained(c, s, force, now))
  {
    SweepKeeps(c, s, 0, force, now);
    TakeKeeps(c, Sweep(c, s, 0, force, now));
  }

  // ----- Runs of locked sections, from any number of threads ------------------------------

  /** `level` is the least severity taken just then: it may be set anew between any two sections. */
  datatype Section = Emit(level: int, record: Record, force: bool, now: real) | Drain(force: bool, now: real)

  function After(c: Config, s: State, section: Section): State {
    match section
    case Emit(level, record, force, now) => Emitted(c, level, s, record, force, now)
    case Drain(force, now) => Drained(c, s, force, now)
  }

  function Run(c: Config, sections: seq<Section>): State {
    if sections == [] then Initial() else After(c, Run(c, sections[..|sections| - 1]), sections[|sections| - 1])
  }

  lemma StepKeepsInv(c: Config, s: State, section: Section)
    requires Inv(c, s)
    ensures Inv(c, After(c, s, section))
  {
    match section
    case Emit(level, record, force, now) => EmitKeepsInv(c, level, s, record, force, now);
    case Drain(force, now) => DrainKeepsInv(c, s, force, now);
  }

  /** Whatever the interleaving and whatever the clock says, every record is accounted for. */
  lemma {:induction false} RunKeepsInv(c: Config, sections: seq<Section>)
    ensures Inv(c, Run(c, sections))
  {
    if sections != [] {
      var before, section := Run(c, sections[..|sections| - 1]), sections[|sections| - 1];
      RunKeepsInv(c, sections[..|sections| - 1]);
      StepKeepsInv(c, before, section);
    }
  }

  /** How many records a row speaks for. */
  function Weight(row: Row): nat {
    if row.Original? then 1 else row.times
  }

  /** The records spoken for by the rows that left the queue one way or the other. */
  function Voice(log: seq<Row>, taken: seq<bool>, which: bool): nat
    requires |taken| <= |log|
  {
    if taken == [] then 0
    else
      var n := |taken| - 1;
      Voice(log, taken[..n], which) + if taken[n] == which then Weight(log[n]) else 0
  }

  lemma {:induction false} VoicesAddUp(log: seq<Row>, taken: seq<bool>, n: nat)
    requires n <= |taken| == |log|
    ensures Voice(log, taken[..n], true) + Voice(log, taken[..n], false) == Originals(log[..n]) + Carried(log[..n])
  {
    if n > 0 {
      VoicesAddUp(log, taken, n - 1);
      assert taken[..n][..n - 1] == taken[..n - 1] && log[..n][..n - 1] == log[..n - 1];
    }
  }

  /** Once nothing is buffered, every record seen was below the level, is spoken for by a row that was
      taken to be written, or went with a row the full queue dropped. */
  lemma EmptySinkHasSpoken(c: Config, s: State)
    requires Inv(c, s) && s.queue == [] && s.dedupe == []
    ensures s.seen == s.filtered + Voice(s.log, s.taken, true) + Voice(s.log, s.taken, false)
  {
    var n := |s.log|;
    VoicesAddUp(s.log, s.taken, n);
    assert s.log[..n] == s.log && s.taken[..n] == s.taken;
  }

  /** The rows taken, in the order they were queued. */
  function Picked(log: seq<Row>, taken: seq<bool>): seq<Row>
    requires |taken| <= |log|
  {
    if taken == [] then []
    else
      var n := |taken| - 1;
      if taken[n] then Picked(log, taken[..n]) + [log[n]] else Picked(log, taken[..n])
  }

  lemma {:induction false} PickedFromLonger(log: seq<Row>, more: seq<Row>, taken: seq<bool>)
    requires |taken| <= |log|
    ensures Picked(log + more, taken) == Picked(log, taken)
  {
    if taken != [] {
      PickedFromLonger(log, more, taken[..|taken| - 1]);
    }
  }

  lemma EnqueuePicksNothing(c: Config, s: State, row: Row)
    requires InOrder(s)
    ensures var after := Enqueue(c, s, row); InOrder(after) && Picked(after.log, after.taken) == Picked(s.log, s.taken)
  {
    var after := Enqueue(c, s, row);
    PickedFromLonger(s.log, [row], s.taken);
    if after.dropped > s.dropped {
      assert after.queue == after.log[|after.taken|..];
      assert (s.taken + [false])[..|s.taken|] == s.taken;
    } else {
      assert after.queue == after.log[|s.taken|..];
    }
  }

  lemma {:induction false} SweepPicksNothing(c: Config, s: State, i: nat, force: bool, now: real)
    requires InOrder(s) && i <= |s.dedupe|
    ensures var after := Sweep(c, s, i, force, now);
            InOrder(after) && Picked(after.log, after.taken) == Picked(s.log, s.taken)
    decreases |s.dedupe| - i
  {
    if i < |s.dedupe| {
      if !force && Open(c, s.dedupe[i], now) {
        SweepPicksNothing(c, s, i + 1, force, now);
      } else {
        var e := s.dedupe[i];
        EnqueuePicksNothing(c, s.(dedupe := Without(s.dedupe, i)), Summary(e.last, e.suppressed));
        SweepPicksNothing(c, Retire(c, s, i), i, force, now);
      }
    }
  }

  lemma {:induction false} TakePicks(log: seq<Row>, taken: seq<bool>, n: nat)
    requires |taken| + n <= |log|
    ensures Picked(log, taken + seq(n, i => true)) == Picked(log, taken) + log[|taken|..|taken| + n]
  {
    if n == 0 {
      assert taken + seq(n, i => true) == taken;
    } else {
      TakePicks(log, taken, n - 1);
      var all := taken + seq(n, i => true);
      assert all[..|all| - 1] == taken + seq(n - 1, i => true);
      assert log[|taken|..|taken| + n] == log[|taken|..|taken| + n - 1] + [log[|taken| + n - 1]];
    }
  }

  // ----- A forced flush with nobody else emitting ----------------------------------------

  /** Sweeping turns windows into rows, never more of them. */
  lemma {:induction false} SweepShrinks(c: Config, s: State, i: nat, force: bool, now: real)
    requires i <= |s.dedupe|
    ensures var after := Sweep(c, s, i, force, now);
            |after.queue| + |after.dedupe| <= |s.queue| + |s.dedupe| && |after.dedupe| <= |s.dedupe|
            && after.seen == s.seen
    decreases |s.dedupe| - i
  {
    if i < |s.dedupe| {
      if !force && Open(c, s.dedupe[i], now) {
        SweepShrinks(c, s, i + 1, force, now);
      } else {
        SweepShrinks(c, Retire(c, s, i), i, force, now);
      }
    }
  }

  ghost predicate Sound(sink: DatabaseLogSink)
    reads sink
  {
    Inv(sink.config, sink.Now())
  }

  ghost function PickedBy(sink: DatabaseLogSink): seq<Row>
    reads sink
  {
    if |sink.taken| <= |sink.log| then Picked(sink.log, sink.taken) else []
  }

  /** What a drain takes goes on after what was taken before it, and there is less left unless it was
      empty. */
  lemma DrainSpec(c: Config, s: State, forced: bool, now: real)
    requires Inv(c, s)
    ensures var (swept, after) := (Sweep(c, s, 0, forced, now), Drained(c, s, forced, now));
            && Inv(c, after) && after.seen == s.seen
            && Picked(after.log, after.taken) == Picked(s.log, s.taken) + swept.queue[..BatchSize(swept)]
            && |after.dedupe| <= |s.dedupe| && (forced ==> after.dedupe == [])
            && if BatchSize(swept) == 0 then after.queue == []
               else |after.queue| + |after.dedupe| < |s.queue| + |s.dedupe|
  {
    var swept := Sweep(c, s, 0, forced, now);
    SweepKeeps(c, s, 0, forced, now);
    SweepShrinks(c, s, 0, forced, now);
    SweepPicksNothing(c, s, 0, forced, now);
    TakeKeeps(c, swept);
    TakePicks(swept.log, swept.taken, BatchSize(swept));
    assert swept.log[|swept.taken|..|swept.taken| + BatchSize(swept)] == swept.queue[..BatchSize(swept)];
  }

  /** One locked section of `flush`. */
  method DrainOnce(sink: DatabaseLogSink, forced: bool, now: real) returns (batch: seq<Row>)
    requires Sound(sink)
    modifies sink
    ensures Sound(sink) && sink.seen == old(sink.seen)
    ensures PickedBy(sink) == old(PickedBy(sink)) + batch
    ensures |sink.dedupe| <= |old(sink.dedupe)| && (forced ==> sink.dedupe == [])
    ensures if batch == [] then sink.queue == []
            else |sink.queue| + |sink.dedupe| < |old(sink.queue)| + |old(sink.dedupe)|
  {
    DrainSpec(sink.config, sink.Now(), forced, now);
    sink.SweepLocked(forced, now);
    batch := sink.TakeLocked();
  }

  /** `flush`: drain until a batch comes back empty; only the first sweep is forced. What is written is
      what was queued, in order. */
  method Flush(sink: DatabaseLogSink, clock: nat -> real, force: bool) returns (written: seq<Row>)
    requires Sound(sink)
    modifies sink
    ensures Sound(sink) && sink.seen == old(sink.seen)
    ensures sink.queue == [] && (force ==> sink.dedupe == [])
    ensures PickedBy(sink) == old(PickedBy(sink)) + written
  {
    written := [];
    var forced := force;
    var turn := 0;
    ghost var picked := PickedBy(sink);
    while true
      invariant Sound(sink) && sink.seen == old(sink.seen)
      invariant force && !forced ==> sink.dedupe == []
      invariant PickedBy(sink) == picked + written
      decreases |sink.queue| + |sink.dedupe|
    {
      var batch := DrainOnce(sink, forced, clock(turn));
      assert (picked + written) + batch == picked + (written + batch);
      written := written + batch;
      if batch == [] {
        break;
      }
      forced := false;
      turn := turn + 1;
    }
  }
}
