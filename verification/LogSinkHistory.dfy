/** What the log sink makes of each record, told from the history of its locked sections
    (backend/app/core/logging.py:379-448, 489-514). */
module LogSinkHistory {
  import opened Options
  import opened LogSink
  import opened LogSinkLaws

  // ----- What a section should do ---------------------------------------------------------

  /** A record that is not severe enough, and that nobody insists on. */
  predicate IsBelowLevel(section: Section) {
    section.Emit? && !section.force && section.record.severity < section.level
  }

  /** Some window of the message started less than its length before now; a negative length counts as
      none. */
  ghost predicate InWindow(c: Config, dedupe: seq<Entry>, identity: Identity, now: real) {
    exists e :: e in dedupe && e.identity == identity && (now < e.started || now < e.started + c.window)
  }

  ghost predicate IsRepetition(c: Config, s: State, section: Section) {
    && section.Emit? && !IsBelowLevel(section)
    && InWindow(c, s.dedupe, section.record.identity, section.now)
  }

  ghost predicate IsStored(c: Config, s: State, section: Section) {
    && section.Emit? && !IsBelowLevel(section)
    && !InWindow(c, s.dedupe, section.record.identity, section.now)
  }

  /** How many sections of a history are below the level. */
  function BelowLevel(sections: seq<Section>): nat {
    if sections == [] then 0
    else BelowLevel(sections[..|sections| - 1]) + if IsBelowLevel(sections[|sections| - 1]) then 1 else 0
  }

  /** The records of the sections that came outside a window of their message, in order. */
  ghost function Heard(c: Config, sections: seq<Section>): seq<Record> {
    if sections == [] then []
    else
      var before, section := sections[..|sections| - 1], sections[|sections| - 1];
      Heard(c, before) + if IsStored(c, Run(c, before), section) then [section.record] else []
  }

  /** How often a message was repeated inside a window. */
  ghost function Repetitions(c: Config, sections: seq<Section>, identity: Identity): nat {
    if sections == [] then 0
    else
      var before, section := sections[..|sections| - 1], sections[|sections| - 1];
      Repetitions(c, before, identity)
      + if IsRepetition(c, Run(c, before), section) && section.record.identity == identity then 1 else 0
  }

  /** The latest window a message was given: when it was stored last, how often it was repeated since,
      and the latest record of it. */
  ghost function Latest(c: Config, sections: seq<Section>, identity: Identity): Option<Entry> {
    if sections == [] then None
    else
      var before, section := sections[..|sections| - 1], sections[|sections| - 1];
      var latest := Latest(c, before, identity);
      if section.Drain? || section.record.identity != identity then latest
      else if IsStored(c, Run(c, before), section) then Some(Entry(identity, section.now, 0, section.record))
      else if IsRepetition(c, Run(c, before), section) && latest.Some? then
        Some(latest.value.(suppressed := latest.value.suppressed + 1, last := section.record))
      else latest
  }

  // ----- Reading the log and the windows --------------------------------------------------

  /** The records among the rows, in order. */
  function Records(log: seq<Row>): seq<Record> {
    if log == [] then []
    else
      var row := log[|log| - 1];
      Records(log[..|log| - 1]) + if row.Original? then [row.record] else []
  }

  /** The repetitions the summaries of one message speak for. */
  function Spoken(log: seq<Row>, identity: Identity): nat {
    if log == [] then 0
    else
      var row := log[|log| - 1];
      Spoken(log[..|log| - 1], identity) + if row.Summary? && row.last.identity == identity then row.times else 0
  }

  function WindowOf(dedupe: seq<Entry>, identity: Identity): Option<Entry> {
    var i := Find(dedupe, identity);
    if i < |dedupe| then Some(dedupe[i]) else None
  }

  /** The repetitions of a message that no summary speaks for yet. */
  function Unspoken(s: State, identity: Identity): nat {
    match WindowOf(s.dedupe, identity)
    case Some(e) => e.suppressed
    case None => 0
  }

  /** The record a window remembers is one of its message. */
  ghost predicate OwnLast(dedupe: seq<Entry>) {
    forall e :: e in dedupe ==> e.last.identity == e.identity
  }

  ghost predicate Tidy(s: State) {
    OneWindowEach(s.dedupe) && OwnLast(s.dedupe)
  }

  lemma OneRowMore(log: seq<Row>, row: Row, identity: Identity)
    ensures Records(log + [row]) == Records(log) + if row.Original? then [row.record] else []
    ensures Spoken(log + [row], identity)
         == Spoken(log, identity) + if row.Summary? && row.last.identity == identity then row.times else 0
  {
    assert (log + [row])[..|log|] == log;
  }

  lemma FoundIsOpen(c: Config, dedupe: seq<Entry>, identity: Identity, now: real)
    requires OneWindowEach(dedupe)
    ensures InWindow(c, dedupe, identity, now)
       <==> Find(dedupe, identity) < |dedupe| && Open(c, dedupe[Find(dedupe, identity)], now)
  {
    var i := Find(dedupe, identity);
    if i < |dedupe| {
      assert dedupe[i] in dedupe;
    }
  }

  lemma WindowAt(dedupe: seq<Entry>, i: nat)
    requires OneWindowEach(dedupe) && i < |dedupe|
    ensures WindowOf(dedupe, dedupe[i].identity) == Some(dedupe[i])
  {
    var f := Find(dedupe, dedupe[i].identity);
    assert f <= i;
  }

  lemma WindowWithout(dedupe: seq<Entry>, i: nat, identity: Identity)
    requires OneWindowEach(dedupe) && i < |dedupe|
    ensures WindowOf(Without(dedupe, i), identity)
         == if dedupe[i].identity == identity then None else WindowOf(dedupe, identity)
  {
    hide WindowOf;
    var left := Without(dedupe, i);
    WithoutKeepsOneEach(dedupe, i);
    WindowAt(dedupe, i);
    assert forall k :: 0 <= k < |left| ==> left[k] == dedupe[if k < i then k else k + 1];
    var f := Find(dedupe, identity);
    if f < |dedupe| && f != i {
      var k := if f < i then f else f - 1;
      assert left[k] == dedupe[f];
      WindowAt(left, k);
      WindowAt(dedupe, f);
    } else {
      NoWindow(left, identity);
      if f == |dedupe| { NoWindow(dedupe, identity); }
    }
  }

  lemma NoWindow(dedupe: seq<Entry>, identity: Identity)
    ensures (forall e :: e in dedupe ==> e.identity != identity) <==> WindowOf(dedupe, identity) == None
  {
  }

  lemma WindowUpdated(dedupe: seq<Entry>, i: nat, e: Entry, identity: Identity)
    requires OneWindowEach(dedupe) && i < |dedupe| && e.identity == dedupe[i].identity
    ensures WindowOf(dedupe[i := e], identity)
         == if e.identity == identity then Some(e) else WindowOf(dedupe, identity)
  {
    hide WindowOf;
    var updated := dedupe[i := e];
    ReplacedKeepsOneEach(dedupe, i, e);
    WindowAt(updated, i);
    if e.identity != identity {
      var f := Find(dedupe, identity);
      if f < |dedupe| {
        WindowAt(dedupe, f);
        WindowAt(updated, f);
      } else {
        NoWindow(dedupe, identity);
        NoWindow(updated, identity);
      }
    }
  }

  lemma WindowAdded(dedupe: seq<Entry>, e: Entry, identity: Identity)
    requires OneWindowEach(dedupe) && Find(dedupe, e.identity) == |dedupe|
    ensures WindowOf(dedupe + [e], identity)
         == if e.identity == identity then Some(e) else WindowOf(dedupe, identity)
  {
    hide WindowOf;
    var more := dedupe + [e];
    AddedKeepsOneEach(dedupe, e);
    WindowAt(more, |dedupe|);
    if e.identity != identity {
      var f := Find(dedupe, identity);
      if f < |dedupe| {
        WindowAt(dedupe, f);
        WindowAt(more, f);
      } else {
        NoWindow(dedupe, identity);
        NoWindow(more, identity);
      }
    }
  }

  // ----- What one locked step does to one message -----------------------------------------

  /** All there is to say about one message, and the records of all of them. */
  datatype View = View(records: seq<Record>, filtered: nat, spoken: nat, window: Option<Entry>)

  function ViewOf(s: State, identity: Identity): View {
    View(Records(s.log), s.filtered, Spoken(s.log, identity), WindowOf(s.dedupe, identity))
  }

  /** The window is gone, and a summary speaks for what was repeated in it. */
  function Closed(v: View): View {
    match v.window
    case Some(e) => v.(spoken := v.spoken + e.suppressed, window := None)
    case None => v
  }

  lemma EnqueueView(c: Config, s: State, row: Row, identity: Identity)
    ensures var (v, after) := (ViewOf(s, identity), ViewOf(Enqueue(c, s, row), identity));
            if row.Original? then after == v.(records := v.records + [row.record])
            else if row.last.identity == identity then after == v.(spoken := v.spoken + row.times)
            else after == v
  {
    hide WindowOf;
    OneRowMore(s.log, row, identity);
  }

  /** Windows other than the message's are changed, or its own is, and an old one has its summary queued. */
  lemma SummariseView(c: Config, s: State, dedupe: seq<Entry>, gone: Entry, identity: Identity)
    requires gone.last.identity == gone.identity
    ensures var after := ViewOf(Summarise(c, s.(dedupe := dedupe), gone), identity);
            && Summarise(c, s.(dedupe := dedupe), gone).dedupe == dedupe
            && after == ViewOf(s, identity).(spoken := after.spoken, window := WindowOf(dedupe, identity))
            && after.spoken == Spoken(s.log, identity) + if gone.identity == identity then gone.suppressed else 0
  {
    hide WindowOf;
    if gone.suppressed > 0 {
      EnqueueView(c, s.(dedupe := dedupe), Summary(gone.last, gone.suppressed), identity);
    }
  }

  lemma RetireView(c: Config, s: State, i: nat, identity: Identity)
    requires Tidy(s) && i < |s.dedupe|
    ensures var (v, after) := (ViewOf(s, identity), ViewOf(Retire(c, s, i), identity));
            after == if s.dedupe[i].identity == identity then Closed(v) else v
    ensures Tidy(Retire(c, s, i)) && Retire(c, s, i).dedupe == Without(s.dedupe, i)
  {
    hide WindowOf, Summarise;
    SummariseView(c, s, Without(s.dedupe, i), s.dedupe[i], identity);
    WindowWithout(s.dedupe, i, identity);
    WindowAt(s.dedupe, i);
    WithoutKeepsOneEach(s.dedupe, i);
  }

  lemma ReopenView(c: Config, s: State, record: Record, now: real, identity: Identity)
    requires Tidy(s)
    ensures var (v, after) := (ViewOf(s, identity), ViewOf(Reopened(c, s, record, now), identity));
            after == if record.identity != identity then v
                     else Closed(v).(window := Some(Entry(identity, now, 0, record)))
    ensures Tidy(Reopened(c, s, record, now))
  {
    hide WindowOf, Summarise;
    var i := Find(s.dedupe, record.identity);
    var window := Entry(record.identity, now, 0, record);
    if i < |s.dedupe| {
      SummariseView(c, s, s.dedupe[i := window], s.dedupe[i], identity);
      WindowUpdated(s.dedupe, i, window, identity);
      WindowAt(s.dedupe, i);
      ReplacedKeepsOneEach(s.dedupe, i, window);
    } else {
      WindowAdded(s.dedupe, window, identity);
      AddedKeepsOneEach(s.dedupe, window);
      NoWindow(s.dedupe, record.identity);
    }
  }

  lemma {:induction false} TrimView(c: Config, s: State, identity: Identity)
    requires Tidy(s)
    ensures var (v, after) := (ViewOf(s, identity), ViewOf(Trim(c, s), identity)); after == v || after == Closed(v)
    ensures Tidy(Trim(c, s))
    decreases |s.dedupe|
  {
    hide ViewOf, Retire, Tidy;
    if |s.dedupe| > MAX_DEDUPE_KEYS {
      var oldest := Oldest(s.dedupe);
      RetireView(c, s, oldest, identity);
      TrimView(c, Retire(c, s, oldest), identity);
    }
  }

  lemma EnqueueKeepsWindows(c: Config, s: State, row: Row)
    ensures Enqueue(c, s, row).dedupe == s.dedupe
  {
  }

  lemma StoreView(c: Config, s: State, record: Record, now: real, identity: Identity)
    requires Tidy(s)
    ensures var (v, after) := (ViewOf(s, identity), ViewOf(Stored(c, s, record, now), identity));
            var begun := if record.identity != identity then v
                           else Closed(v).(window := Some(Entry(identity, now, 0, record)));
            var louder := begun.(records := v.records + [record]);
            after == louder || after == Closed(louder)
    ensures Tidy(Stored(c, s, record, now))
  {
    hide ViewOf, Reopened, Trim, Enqueue;
    var reopened := Reopened(c, s, record, now);
    ReopenView(c, s, record, now, identity);
    TrimView(c, reopened, identity);
    EnqueueView(c, Trim(c, reopened), Original(record), identity);
    EnqueueKeepsWindows(c, Trim(c, reopened), Original(record));
  }

  lemma RepeatView(c: Config, s: State, i: nat, record: Record, identity: Identity)
    requires Tidy(s) && i < |s.dedupe| && s.dedupe[i].identity == record.identity
    ensures var (v, after) := (ViewOf(s, identity), ViewOf(Repeated(s, i, record), identity));
            var e := s.dedupe[i];
            after == if record.identity != identity then v
                     else v.(window := Some(e.(suppressed := e.suppressed + 1, last := record)))
    ensures Tidy(Repeated(s, i, record))
  {
    hide WindowOf;
    var e := s.dedupe[i];
    WindowUpdated(s.dedupe, i, e.(suppressed := e.suppressed + 1, last := record), identity);
    ReplacedKeepsOneEach(s.dedupe, i, e.(suppressed := e.suppressed + 1, last := record));
  }

  /** A window of the message, the `i`-th or a later one, is to be closed. */
  ghost predicate IsOver(c: Config, dedupe: seq<Entry>, i: nat, force: bool, now: real, identity: Identity) {
    exists j :: i <= j < |dedupe| && dedupe[j].identity == identity && (force || !Open(c, dedupe[j], now))
  }

  lemma OverWithout(c: Config, dedupe: seq<Entry>, i: nat, force: bool, now: real, identity: Identity)
    requires OneWindowEach(dedupe) && i < |dedupe| && (force || !Open(c, dedupe[i], now))
    ensures IsOver(c, Without(dedupe, i), i, force, now, identity)
       <==> dedupe[i].identity != identity && IsOver(c, dedupe, i, force, now, identity)
  {
    var left := Without(dedupe, i);
    assert forall k :: i <= k < |left| ==> left[k] == dedupe[k + 1];
    assert forall k :: i < k < |dedupe| ==> dedupe[k] == left[k - 1];
  }

  lemma {:induction false} SweepView(c: Config, s: State, i: nat, force: bool, now: real, identity: Identity)
    requires Tidy(s) && i <= |s.dedupe|
    ensures var (v, after) := (ViewOf(s, identity), ViewOf(Sweep(c, s, i, force, now), identity));
            after == if IsOver(c, s.dedupe, i, force, now, identity) then Closed(v) else v
    ensures Tidy(Sweep(c, s, i, force, now))
    decreases |s.dedupe| - i
  {
    hide Retire, ViewOf, WindowOf, Open, Tidy;
    if i < |s.dedupe| {
      if !force && Open(c, s.dedupe[i], now) {
        SweepView(c, s, i + 1, force, now, identity);
      } else {
        var after := Retire(c, s, i);
        RetireView(c, s, i, identity);
        SweepView(c, after, i, force, now, identity);
        TidyHasOneEach(s);
        OverWithout(c, s.dedupe, i, force, now, identity);
      }
    }
  }

  lemma TidyHasOneEach(s: State)
    requires Tidy(s)
    ensures OneWindowEach(s.dedupe) && OwnLast(s.dedupe)
  {
  }

  /** A drain closes the window of a message, if it has one, when it is forced or the window is over. */
  lemma DrainView(c: Config, s: State, force: bool, now: real, identity: Identity)
    requires Tidy(s)
    ensures var (v, after) := (ViewOf(s, identity), ViewOf(Drained(c, s, force, now), identity));
            after == if force || !InWindow(c, s.dedupe, identity, now) then Closed(v) else v
    ensures Tidy(Drained(c, s, force, now))
  {
    hide Sweep, Open;
    SweepView(c, s, 0, force, now, identity);
    FoundIsOpen(c, s.dedupe, identity, now);
    var f := Find(s.dedupe, identity);
    if f < |s.dedupe| {
      assert forall j :: 0 <= j < |s.dedupe| && s.dedupe[j].identity == identity ==> j == f;
    }
  }

  /** The three things that can become of a record, and what each does to a message. */
  lemma EmitView(c: Config, s: State, section: Section, identity: Identity)
    requires Tidy(s) && section.Emit?
    ensures var (v, after) := (ViewOf(s, identity), ViewOf(After(c, s, section), identity));
            var record, own := section.record, section.record.identity == identity;
            if IsBelowLevel(section) then after == v.(filtered := v.filtered + 1)
            else if IsRepetition(c, s, section) then
              if own then
                && v.window.Some?
                && after == v.(window := Some(v.window.value.(suppressed := v.window.value.suppressed + 1, last := record)))
              else after == v
            else
              var begun := if own then Closed(v).(window := Some(Entry(identity, section.now, 0, record))) else v;
              var louder := begun.(records := v.records + [record]);
              after == louder || after == Closed(louder)
    ensures Tidy(After(c, s, section))
  {
    hide Stored, Repeated, Open, InWindow;
    var seen, record := s.(seen := s.seen + 1), section.record;
    var i := Find(s.dedupe, record.identity);
    FoundIsOpen(c, s.dedupe, record.identity, section.now);
    if IsBelowLevel(section) {
    } else if IsRepetition(c, s, section) {
      RepeatView(c, seen, i, record, identity);
    } else {
      StoreView(c, seen, record, section.now, identity);
    }
  }

  // ----- Whole histories ------------------------------------------------------------------

  /** What the sections of a history say of one message. */
  ghost predicate Tells(c: Config, sections: seq<Section>, v: View, identity: Identity) {
    && v.filtered == BelowLevel(sections)
    && v.records == Heard(c, sections)
    && v.spoken + (if v.window.Some? then v.window.value.suppressed else 0) == Repetitions(c, sections, identity)
    && (v.window.Some? ==> v.window == Latest(c, sections, identity))
  }

  lemma OneMoreSection(c: Config, sections: seq<Section>, section: Section, identity: Identity)
    ensures var (all, s) := (sections + [section], Run(c, sections));
            var (stored, repeated) := (IsStored(c, s, section), IsRepetition(c, s, section));
            && BelowLevel(all) == BelowLevel(sections) + (if IsBelowLevel(section) then 1 else 0)
            && Heard(c, all) == Heard(c, sections) + (if stored then [section.record] else [])
            && Repetitions(c, all, identity)
               == Repetitions(c, sections, identity)
                  + (if repeated && section.record.identity == identity then 1 else 0)
    ensures var (all, s, latest) := (sections + [section], Run(c, sections), Latest(c, sections, identity));
            Latest(c, all, identity) ==
            if section.Drain? || section.record.identity != identity then latest
            else if IsStored(c, s, section) then Some(Entry(identity, section.now, 0, section.record))
            else if IsRepetition(c, s, section) && latest.Some? then
              Some(latest.value.(suppressed := latest.value.suppressed + 1, last := section.record))
            else latest
  {
    hide Run, InWindow;
    assert (sections + [section])[..|sections|] == sections;
  }

  lemma EmitTells(c: Config, sections: seq<Section>, section: Section, identity: Identity)
    requires Tidy(Run(c, sections)) && Tells(c, sections, ViewOf(Run(c, sections), identity), identity) && section.Emit?
    ensures Tells(c, sections + [section], ViewOf(After(c, Run(c, sections), section), identity), identity)
  {
    hide ViewOf, Run, After, IsBelowLevel, InWindow, BelowLevel, Heard, Repetitions, Latest;
    OneMoreSection(c, sections, section, identity);
    EmitView(c, Run(c, sections), section, identity);
  }

  lemma DrainTells(c: Config, sections: seq<Section>, section: Section, identity: Identity)
    requires Tidy(Run(c, sections)) && Tells(c, sections, ViewOf(Run(c, sections), identity), identity) && section.Drain?
    ensures Tells(c, sections + [section], ViewOf(After(c, Run(c, sections), section), identity), identity)
  {
    hide ViewOf, Run, InWindow, Drained, BelowLevel, Heard, Repetitions, Latest;
    OneMoreSection(c, sections, section, identity);
    DrainView(c, Run(c, sections), section.force, section.now, identity);
  }

  lemma StepKeepsTidy(c: Config, s: State, section: Section)
    requires Tidy(s)
    ensures Tidy(After(c, s, section))
  {
    var any := Identity("", "", "", None, None, "");
    match section
    case Emit(_, _, _, _) => EmitView(c, s, section, any);
    case Drain(force, now) => DrainView(c, s, force, now, any);
  }

  lemma {:induction false} HistoryTells(c: Config, sections: seq<Section>, identity: Identity)
    ensures Tells(c, sections, ViewOf(Run(c, sections), identity), identity) && Tidy(Run(c, sections))
  {
    if sections != [] {
      hide Tells, ViewOf, After, Tidy;
      var before, section := sections[..|sections| - 1], sections[|sections| - 1];
      HistoryTells(c, before, identity);
      assert before + [section] == sections;
      StepKeepsTidy(c, Run(c, before), section);
      if section.Emit? {
        EmitTells(c, before, section, identity);
      } else {
        DrainTells(c, before, section, identity);
      }
    }
  }

  /** A record is left out for its severity exactly when it is not forced and below the level of its
      section. */
  lemma FilteredAreBelowLevel(c: Config, sections: seq<Section>)
    ensures Run(c, sections).filtered == BelowLevel(sections)
  {
    HistoryTells(c, sections, Identity("", "", "", None, None, ""));
  }

  /** The records queued so far are those that came outside a window of their message, in order. */
  lemma StoredAreHeard(c: Config, sections: seq<Section>)
    ensures Records(Run(c, sections).log) == Heard(c, sections)
  {
    HistoryTells(c, sections, Identity("", "", "", None, None, ""));
  }

  /** Of each message, the summaries and its window together speak for exactly its own repetitions. */
  lemma RepetitionsAreSpokenFor(c: Config, sections: seq<Section>, identity: Identity)
    ensures var s := Run(c, sections);
            Spoken(s.log, identity) + Unspoken(s, identity) == Repetitions(c, sections, identity)
  {
    HistoryTells(c, sections, identity);
  }

  /** A window started when its message was stored last, counts how often it was repeated since, and
      remembers the latest record of it. */
  lemma WindowsAreLatest(c: Config, sections: seq<Section>, e: Entry)
    requires e in Run(c, sections).dedupe
    ensures Latest(c, sections, e.identity) == Some(e)
  {
    var dedupe := Run(c, sections).dedupe;
    HistoryTells(c, sections, e.identity);
    var i :| 0 <= i < |dedupe| && dedupe[i] == e;
    WindowAt(dedupe, i);
  }

  // ----- How long a window lasts ----------------------------------------------------------

  /** Of all windows, and of one that starts now after them, the first that started earliest. */
  ghost predicate IsEarliest(dedupe: seq<Entry>, i: nat, now: real)
    requires i < |dedupe|
  {
    && dedupe[i].started <= now
    && forall j :: 0 <= j < |dedupe| ==>
         dedupe[i].started <= dedupe[j].started && (j < i ==> dedupe[i].started < dedupe[j].started)
  }

  /** A message not in the windows comes when there are as many as there may be. */
  predicate IsOneTooMany(s: State, identity: Identity) {
    |s.dedupe| == MAX_DEDUPE_KEYS && WindowOf(s.dedupe, identity) == None
  }

  lemma ReopenedWindows(c: Config, s: State, record: Record, now: real)
    ensures var i := Find(s.dedupe, record.identity);
            Reopened(c, s, record, now).dedupe ==
            if i < |s.dedupe| then s.dedupe[i := Entry(record.identity, now, 0, record)]
            else s.dedupe + [Entry(record.identity, now, 0, record)]
  {
  }

  lemma TrimmedWindows(c: Config, s: State)
    requires |s.dedupe| <= MAX_DEDUPE_KEYS + 1
    ensures Trim(c, s).dedupe
         == if |s.dedupe| > MAX_DEDUPE_KEYS then Without(s.dedupe, Oldest(s.dedupe)) else s.dedupe
  {
    hide Oldest, Enqueue;
    if |s.dedupe| > MAX_DEDUPE_KEYS {
      var e := s.dedupe[Oldest(s.dedupe)];
      EnqueueKeepsWindows(c, s.(dedupe := Without(s.dedupe, Oldest(s.dedupe))), Summary(e.last, e.suppressed));
    }
  }

  lemma EarliestIsOldest(dedupe: seq<Entry>, i: nat, e: Entry)
    requires i < |dedupe|
    ensures IsEarliest(dedupe, i, e.started) <==> Oldest(dedupe + [e]) == i
    ensures (forall j :: 0 <= j < |dedupe| ==> e.started < dedupe[j].started) <==> Oldest(dedupe + [e]) == |dedupe|
  {
    hide Oldest;
    var more, o := dedupe + [e], Oldest(dedupe + [e]);
    assert more[i] == dedupe[i] && more[|dedupe|] == e;
    assert forall j :: 0 <= j < |dedupe| ==> more[j] == dedupe[j];
  }

  /** What is left of the windows once there is one for the record. */
  lemma StoredWindows(c: Config, s: State, section: Section)
    requires Tidy(s) && IsStored(c, s, section) && |s.dedupe| <= MAX_DEDUPE_KEYS
    ensures var (i, record) := (Find(s.dedupe, section.record.identity), section.record);
            var (window, after) := (Entry(record.identity, section.now, 0, record), After(c, s, section));
            if i < |s.dedupe| then after.dedupe == s.dedupe[i := window]
            else if |s.dedupe| < MAX_DEDUPE_KEYS then after.dedupe == s.dedupe + [window]
            else after.dedupe == Without(s.dedupe + [window], Oldest(s.dedupe + [window]))
  {
    hide Open, InWindow, Oldest, Enqueue, Trim, Reopened;
    var seen, record := s.(seen := s.seen + 1), section.record;
    var reopened := Reopened(c, seen, record, section.now);
    FoundIsOpen(c, s.dedupe, record.identity, section.now);
    ReopenedWindows(c, seen, record, section.now);
    EnqueueKeepsWindows(c, Trim(c, reopened), Original(record));
    TrimmedWindows(c, reopened);
  }

  /** A stored record has a window from now on, whichever it had before, and the others keep theirs; only
      when that is one too many does the earliest of them all go. */
  lemma StoringOpensAWindow(c: Config, s: State, section: Section, i: nat)
    requires Inv(c, s) && Tidy(s) && IsStored(c, s, section) && i < |s.dedupe|
    ensures var (own, after) := (section.record.identity, After(c, s, section));
            && WindowOf(after.dedupe, own)
               == (if IsOneTooMany(s, own) && (forall e :: e in s.dedupe ==> section.now < e.started) then None
                   else Some(Entry(own, section.now, 0, section.record)))
            && (s.dedupe[i].identity != own ==>
                  WindowOf(after.dedupe, s.dedupe[i].identity)
                  == if IsOneTooMany(s, own) && IsEarliest(s.dedupe, i, section.now) then None else Some(s.dedupe[i]))
  {
    hide WindowOf, Without, After, IsEarliest, InWindow, Oldest;
    var own := section.record.identity;
    var window := Entry(own, section.now, 0, section.record);
    var (more, f) := (s.dedupe + [window], Find(s.dedupe, own));
    StoredWindows(c, s, section);
    WindowAt(s.dedupe, i);
    NoWindow(s.dedupe, own);
    if f < |s.dedupe| {
      WindowUpdated(s.dedupe, f, window, own);
      WindowUpdated(s.dedupe, f, window, s.dedupe[i].identity);
    } else {
      WindowAdded(s.dedupe, window, own);
      WindowAdded(s.dedupe, window, s.dedupe[i].identity);
      AddedKeepsOneEach(s.dedupe, window);
      EarliestIsOldest(s.dedupe, i, window);
      WindowWithout(more, Oldest(more), own);
      WindowWithout(more, Oldest(more), s.dedupe[i].identity);
    }
  }

  // ----- What the rows of one section say, and how many are lost ----------------------------

  /** The row says how often the message of one of the windows was repeated in it. */
  ghost predicate SpeaksFor(windows: seq<Entry>, row: Row) {
    exists e :: e in windows && e.suppressed > 0 && row == Summary(e.last, e.suppressed)
  }

  /** Since `before`, rows were queued only for windows of its own, each saying how often its message was
      repeated in it; and the queue lost exactly what it could not hold. */
  ghost predicate Speaks(c: Config, windows: seq<Entry>, before: State, s: State) {
    && before.log <= s.log
    && (forall k :: |before.log| <= k < |s.log| ==>
          SpeaksFor(windows, s.log[k]))
    && HoldsWhatItCan(c, before, s)
    && (forall e :: e in s.dedupe && e.suppressed > 0 ==> e in windows)
  }

  /** From `before` to `s` no row was taken, and each one beyond the bound pushed another one out. */
  ghost predicate HoldsWhatItCan(c: Config, before: State, s: State) {
    && |before.queue| <= Bound(c) && |before.log| <= |s.log|
    && var all := |before.queue| + (|s.log| - |before.log|);
       && |s.queue| == (if all <= Bound(c) then all else Bound(c))
       && s.dropped - before.dropped == all - |s.queue|
  }

  lemma EnqueueHoldsWhatItCan(c: Config, before: State, s: State, row: Row)
    requires HoldsWhatItCan(c, before, s)
    ensures HoldsWhatItCan(c, before, Enqueue(c, s, row)) && Enqueue(c, s, row).log == s.log + [row]
  {
  }

  lemma WindowGoes(c: Config, windows: seq<Entry>, before: State, s: State, dedupe: seq<Entry>, gone: Entry)
    requires Speaks(c, windows, before, s) && gone in s.dedupe
    requires forall e :: e in dedupe && e.suppressed > 0 ==> e in s.dedupe
    ensures var after := Summarise(c, s.(dedupe := dedupe), gone);
            Speaks(c, windows, before, after) && after.dedupe == dedupe
  {
    hide Enqueue, SpeaksFor;
    if gone.suppressed > 0 {
      var narrowed, row := s.(dedupe := dedupe), Summary(gone.last, gone.suppressed);
      EnqueueKeepsWindows(c, narrowed, row);
      EnqueueHoldsWhatItCan(c, before, narrowed, row);
      GoneIsSpokenFor(windows, gone);
    }
  }

  lemma GoneIsSpokenFor(windows: seq<Entry>, gone: Entry)
    requires gone in windows && gone.suppressed > 0
    ensures SpeaksFor(windows, Summary(gone.last, gone.suppressed))
  {
  }

  lemma RetireSpeaks(c: Config, windows: seq<Entry>, before: State, s: State, i: nat)
    requires Speaks(c, windows, before, s) && i < |s.dedupe|
    ensures Speaks(c, windows, before, Retire(c, s, i)) && |Retire(c, s, i).dedupe| == |s.dedupe| - 1
  {
    hide Speaks, Summarise;
    WindowGoes(c, windows, before, s, Without(s.dedupe, i), s.dedupe[i]);
  }

  lemma {:induction false} TrimSpeaks(c: Config, windows: seq<Entry>, before: State, s: State)
    requires Speaks(c, windows, before, s)
    ensures Speaks(c, windows, before, Trim(c, s))
    decreases |s.dedupe|
  {
    hide Speaks, Retire;
    if |s.dedupe| > MAX_DEDUPE_KEYS {
      RetireSpeaks(c, windows, before, s, Oldest(s.dedupe));
      TrimSpeaks(c, windows, before, Retire(c, s, Oldest(s.dedupe)));
    }
  }

  lemma {:induction false} SweepSpeaks(c: Config, windows: seq<Entry>, before: State, s: State, i: nat, force: bool,
                                       now: real)
    requires Speaks(c, windows, before, s) && i <= |s.dedupe|
    ensures Speaks(c, windows, before, Sweep(c, s, i, force, now))
    decreases |s.dedupe| - i
  {
    hide Speaks, Retire;
    if i < |s.dedupe| {
      if !force && Open(c, s.dedupe[i], now) {
        SweepSpeaks(c, windows, before, s, i + 1, force, now);
      } else {
        RetireSpeaks(c, windows, before, s, i);
        SweepSpeaks(c, windows, before, Retire(c, s, i), i, force, now);
      }
    }
  }

  lemma ReopenSpeaks(c: Config, s: State, record: Record, now: real)
    requires |s.queue| <= Bound(c)
    ensures Speaks(c, s.dedupe, s, Reopened(c, s, record, now))
  {
    hide Summarise;
    var i, window := Find(s.dedupe, record.identity), Entry(record.identity, now, 0, record);
    if i < |s.dedupe| {
      WindowGoes(c, s.dedupe, s, s, s.dedupe[i := window], s.dedupe[i]);
    }
  }

  lemma StoringSpeaks(c: Config, s: State, record: Record, now: real)
    requires |s.queue| <= Bound(c)
    ensures var after := Stored(c, s, record, now);
            && HoldsWhatItCan(c, s, after)
            && s.log < after.log && after.log[|after.log| - 1] == Original(record)
            && forall k :: |s.log| <= k < |after.log| - 1 ==> SpeaksFor(s.dedupe, after.log[k])
  {
    hide Reopened, Trim, Enqueue, SpeaksFor;
    var trimmed := Trim(c, Reopened(c, s, record, now));
    ReopenSpeaks(c, s, record, now);
    TrimSpeaks(c, s.dedupe, s, Reopened(c, s, record, now));
    EnqueueHoldsWhatItCan(c, s, trimmed, Original(record));
  }

  /** A record that is stored has the summaries of some windows queued, each with its own count, and then
      itself; any other has nothing queued. Rows are lost for want of room only, as many as do not fit. */
  lemma EmittingSpeaks(c: Config, s: State, section: Section)
    requires Tidy(s) && |s.queue| <= Bound(c) && section.Emit?
    ensures var after := After(c, s, section);
            && HoldsWhatItCan(c, s, after)
            && if IsStored(c, s, section) then
                 && s.log < after.log && after.log[|after.log| - 1] == Original(section.record)
                 && forall k :: |s.log| <= k < |after.log| - 1 ==> SpeaksFor(s.dedupe, after.log[k])
               else after.log == s.log
  {
    hide Open, InWindow, Stored, SpeaksFor;
    FoundIsOpen(c, s.dedupe, section.record.identity, section.now);
    StoringSpeaks(c, s.(seen := s.seen + 1), section.record, section.now);
  }

  /** A drain queues summaries only, each of a window with its own count, and then takes the oldest rows,
      at most a batch of them. */
  lemma DrainingSpeaks(c: Config, s: State, force: bool, now: real)
    requires |s.queue| <= Bound(c)
    ensures var (swept, after) := (Sweep(c, s, 0, force, now), Drained(c, s, force, now));
            && HoldsWhatItCan(c, s, swept)
            && after.log == swept.log && s.log <= after.log
            && (forall k :: |s.log| <= k < |after.log| ==>
                  SpeaksFor(s.dedupe, after.log[k]))
            && |after.queue| == (if |swept.queue| < MAX_BATCH then 0 else |swept.queue| - MAX_BATCH)
  {
    hide Sweep, Open, SpeaksFor;
    SweepSpeaks(c, s.dedupe, s, s, 0, force, now);
  }
}
