/**
 * The sync cursor: each successful run of all modules lists from the end of the last one, minus an
 * overlap. Times are whole seconds.
 */
module SyncCursor {
  import opened Options

  /** Zero overlap hours stand for an unset field. */
  datatype Config = Config(enabled: bool, overlapHours: nat, startDate: Option<int>)
  {
    function Overlap(): nat {
      3600 * if overlapHours != 0 then overlapHours else 24
    }
  }

  const THIRTY_DAYS := 30 * 24 * 3600

  /**
   * One call: when it began and ended, whether it covers every module, whether some listing was cut at
   * the maximum number of records, and how it went.
   */
  datatype Call = Call(begin: int, end: int, allModules: bool, cut: bool, dry: bool, succeeds: bool)
  {
    /** The run imports what it lists and finishes. */
    predicate Lands() { succeeds && !dry }
  }

  /** The creation times a landed run lists, unless it is cut: from `start`, up to its own beginning. */
  datatype Window = Window(start: int, begin: int, end: int)
  {
    predicate Lists(created: int) { start <= created < begin }
  }

  function StartTime(config: Config, cursor: Option<int>, c: Call): int {
    if c.allModules && cursor.Some? then cursor.value - config.Overlap()
    else if config.startDate.Some? then config.startDate.value
    else c.begin - THIRTY_DAYS
  }

  function CursorAfter(config: Config, cursor: Option<int>, c: Call): Option<int> {
    if config.enabled && c.Lands() then Some(c.end) else cursor
  }

  /** The windows of the runs that land, in order. */
  function Windows(config: Config, cursor: Option<int>, calls: seq<Call>): seq<Window>
    decreases |calls|
  {
    if calls == [] then []
    else
      var rest := Windows(config, CursorAfter(config, cursor, calls[0]), calls[1..]);
      if config.enabled && calls[0].Lands()
      then [Window(StartTime(config, cursor, calls[0]), calls[0].begin, calls[0].end)] + rest
      else rest
  }

  /** The connection's cursor, moved by landed runs only. */
  class Connection {
    const config: Config
    var cursor: Option<int>

    constructor (config: Config)
      ensures this.config == config && cursor == None
    {
      this.config, this.cursor := config, None;
    }

    /** One run; `window` is what it listed, if it was not disabled. */
    method RunSync(c: Call) returns (window: Option<Window>)
      modifies this`cursor
      ensures cursor == CursorAfter(config, old(cursor), c)
      ensures !c.Lands() ==> cursor == old(cursor)
      ensures config.enabled && c.succeeds && !c.dry ==> cursor == Some(c.end)
      ensures !config.enabled || !c.succeeds || c.dry ==> cursor == old(cursor)
      ensures window.Some? ==>
                var hours := if config.overlapHours == 0 then 24 else config.overlapHours;
                window.value.start == if c.allModules && old(cursor).Some? then old(cursor).value - 3600 * hours
                                      else if config.startDate.Some? then config.startDate.value
                                      else c.begin - 30 * 24 * 3600
      ensures window == if config.enabled then Some(Window(StartTime(config, old(cursor), c), c.begin, c.end)) else None
    {
      if !config.enabled {
        return None;
      }
      window := Some(Window(StartTime(config, cursor, c), c.begin, c.end));
      if c.succeeds {
        if !c.dry {
          cursor := Some(c.end);
        }
      }
    }
  }

  /**
   * Where a listing starts: the overlap, a day unless set, before the cursor for a run of all modules that
   * has one; else the start date; else thirty days before the run.
   */
  lemma StartMeans(config: Config, cursor: Option<int>, c: Call)
    ensures var hours := if config.overlapHours == 0 then 24 else config.overlapHours;
            StartTime(config, cursor, c)
            == if c.allModules && cursor.Some? then cursor.value - 3600 * hours
               else if config.startDate.Some? then config.startDate.value
               else c.begin - 2_592_000
    ensures CursorAfter(config, cursor, c) == if config.enabled && c.succeeds && !c.dry then Some(c.end) else cursor
  {
  }

  // ---------------------------------------------------------------- no gaps

  /** Calls follow one another; a call ends no earlier than it begins. */
  predicate Sequential(calls: seq<Call>) {
    && (forall i | 0 <= i < |calls| :: calls[i].begin <= calls[i].end)
    && (forall i, j | 0 <= i < j < |calls| :: calls[i].end <= calls[j].begin)
  }

  /** Every call covers all modules, and none is cut. */
  predicate AllWhole(calls: seq<Call>) {
    forall c | c in calls :: c.allModules && !c.cut
  }

  /** Each window starts the overlap before the end of the one before it, and runs do not overlap. */
  ghost predicate Chained(config: Config, ws: seq<Window>) {
    && (forall i | 0 <= i < |ws| :: ws[i].begin <= ws[i].end)
    && (forall i | 0 <= i < |ws| - 1 :: ws[i + 1].start == ws[i].end - config.Overlap())
    && (forall i, j | 0 <= i < j < |ws| :: ws[i].end <= ws[j].begin)
  }

  lemma {:induction false} WindowsBeginAfter(config: Config, cursor: Option<int>, calls: seq<Call>, t: int)
    requires forall c | c in calls :: t <= c.begin <= c.end
    ensures forall w | w in Windows(config, cursor, calls) :: t <= w.begin <= w.end
    decreases |calls|
  {
    if calls != [] {
      WindowsBeginAfter(config, CursorAfter(config, cursor, calls[0]), calls[1..], t);
    }
  }

  lemma ChainGrows(config: Config, w: Window, rest: seq<Window>)
    requires Chained(config, rest) && w.begin <= w.end
    requires forall v | v in rest :: w.end <= v.begin
    requires rest != [] ==> rest[0].start == w.end - config.Overlap()
    ensures Chained(config, [w] + rest)
  {
    var ws := [w] + rest;
    forall i | 0 < i < |ws| ensures ws[i] == rest[i - 1] && w.end <= ws[i].begin {
      assert rest[i - 1] in rest;
    }
    forall i | 0 <= i < |ws| - 1 ensures ws[i + 1].start == ws[i].end - config.Overlap() {
      if i > 0 {
        assert ws[i + 1] == rest[(i - 1) + 1];
      }
    }
    forall i, j | 0 <= i < j < |ws| ensures ws[i].end <= ws[j].begin {
      if i > 0 {
        assert rest[i - 1].end <= rest[j - 1].begin;
      }
    }
  }

  lemma {:induction false} WindowsAreChained(config: Config, cursor: Option<int>, calls: seq<Call>)
    requires config.enabled && Sequential(calls) && AllWhole(calls)
    ensures Chained(config, Windows(config, cursor, calls))
    ensures cursor.Some? && Windows(config, cursor, calls) != [] ==>
              Windows(config, cursor, calls)[0].start == cursor.value - config.Overlap()
    decreases |calls|
  {
    if calls != [] {
      var c, after, later := calls[0], CursorAfter(config, cursor, calls[0]), calls[1..];
      assert forall d | d in later :: d in calls;
      WindowsAreChained(config, after, later);
      if c.Lands() {
        WindowsBeginAfter(config, after, later, c.end);
        ChainGrows(config, Window(StartTime(config, cursor, c), c.begin, c.end), Windows(config, after, later));
      }
    }
  }

  ghost predicate Covered(ws: seq<Window>, created: int) {
    exists w | w in ws :: w.Lists(created)
  }

  /** Every record created from the first window's start until the last run began was listed. */
  ghost predicate GapFree(ws: seq<Window>)
    requires ws != []
  {
    forall created | ws[0].start <= created < ws[|ws| - 1].begin :: Covered(ws, created)
  }

  predicate WithinOverlap(config: Config, w: Window) {
    w.end - w.begin <= config.Overlap()
  }

  lemma {:induction false} CoveredUpTo(config: Config, ws: seq<Window>, k: nat, created: int)
    requires Chained(config, ws) && k < |ws|
    requires forall i | 0 <= i < k :: WithinOverlap(config, ws[i])
    requires ws[0].start <= created < ws[k].begin
    ensures Covered(ws, created)
  {
    if ws[k].start <= created {
      assert ws[k] in ws && ws[k].Lists(created);
    } else {
      CoveredUpTo(config, ws, k - 1, created);
    }
  }

  /** Starts never move back. */
  lemma StartsAdvance(config: Config, ws: seq<Window>, i: nat, j: nat)
    requires Chained(config, ws) && 0 < i <= j < |ws|
    ensures ws[i].start <= ws[j].start
  {
    if i < j {
      assert ws[(i - 1) + 1].start == ws[i - 1].end - config.Overlap();
      assert ws[(j - 1) + 1].start == ws[j - 1].end - config.Overlap();
    }
  }

  /** A landed run longer than the overlap loses the records created while it ran and listed by no other. */
  lemma LongRunLosesRecords(config: Config, ws: seq<Window>, k: nat)
    requires Chained(config, ws) && k < |ws| - 1 && !WithinOverlap(config, ws[k])
    requires ws[0].start <= ws[0].begin
    ensures ws[0].start <= ws[k].begin < ws[|ws| - 1].begin && !Covered(ws, ws[k].begin)
  {
    var lost := ws[k].begin;
    assert ws[k + 1].start == ws[k].end - config.Overlap();
    forall w | w in ws ensures !w.Lists(lost) {
      var i :| 0 <= i < |ws| && ws[i] == w;
      if i > k {
        StartsAdvance(config, ws, k + 1, i);
      }
    }
  }

  /**
   * Over any sequence of sequential, uncut runs of all modules, successful, failed and dry ones mixed, no
   * record between the first window's start and the beginning of the last landed run is missed if
   * and only if every landed run but the last took no longer than the overlap.
   */
  lemma GapFreeExactlyWhen(config: Config, cursor: Option<int>, calls: seq<Call>)
    requires config.enabled && Sequential(calls) && AllWhole(calls)
    requires Windows(config, cursor, calls) != []
    requires var w := Windows(config, cursor, calls)[0]; w.start <= w.begin
    ensures var ws := Windows(config, cursor, calls);
            GapFree(ws) <==> forall i | 0 <= i < |ws| - 1 :: WithinOverlap(config, ws[i])
  {
    var ws := Windows(config, cursor, calls);
    WindowsAreChained(config, cursor, calls);
    if forall i | 0 <= i < |ws| - 1 :: WithinOverlap(config, ws[i]) {
      forall created | ws[0].start <= created < ws[|ws| - 1].begin ensures Covered(ws, created) {
        CoveredUpTo(config, ws, |ws| - 1, created);
      }
    } else {
      var k :| 0 <= k < |ws| - 1 && !WithinOverlap(config, ws[k]);
      LongRunLosesRecords(config, ws, k);
    }
  }

  /** Failed and dry runs leave the cursor, and so every later window, as if they had not happened. */
  lemma {:induction false} UnlandedRunsLeaveNoTrace(config: Config, cursor: Option<int>, calls: seq<Call>)
    ensures Windows(config, cursor, calls) == Windows(config, cursor, Landed(calls))
    decreases |calls|
  {
    if calls != [] {
      UnlandedRunsLeaveNoTrace(config, CursorAfter(config, cursor, calls[0]), calls[1..]);
      if calls[0].Lands() {
        assert ([calls[0]] + Landed(calls[1..]))[1..] == Landed(calls[1..]);
      }
    }
  }

  function Landed(calls: seq<Call>): seq<Call> {
    if calls == [] then [] else if calls[0].Lands() then [calls[0]] + Landed(calls[1..]) else Landed(calls[1..])
  }

  /** The run covers every module, lists all it is to list, and lands. */
  predicate Full(c: Call) { c.Lands() && c.allModules && !c.cut }

  /**
   * A run limited to one module, or cut at its maximum, moves the cursor too: between two full runs it
   * can push the second window past records which then no full run lists.
   */
  lemma ModuleRunLosesRecords(config: Config, first: Call, limited: Call, second: Call)
    requires config.enabled && Full(first) && Full(second) && limited.Lands() && !Full(limited)
    requires first.end <= limited.begin && limited.end <= second.begin
    ensures var ws := Windows(config, None, [first, limited, second]);
            && |ws| == 3
            && ((forall created | first.begin <= created < second.begin :: ws[0].Lists(created) || ws[2].Lists(created))
                <==> (limited.end - first.begin <= config.Overlap() || second.begin <= first.begin))
  {
    var calls := [first, limited, second];
    var ws := Windows(config, None, calls);
    assert calls[1..] == [limited, second] && [limited, second][1..] == [second] && [second][1..] == [];
    var w1, w2, w3 := Window(StartTime(config, None, first), first.begin, first.end),
      Window(StartTime(config, Some(first.end), limited), limited.begin, limited.end),
      Window(StartTime(config, Some(limited.end), second), second.begin, second.end);
    assert Windows(config, Some(limited.end), [second]) == [w3];
    assert Windows(config, Some(first.end), [limited, second]) == [w2] + [w3];
    assert ws == [w1] + ([w2] + [w3]);
    assert ws[2] == Window(limited.end - config.Overlap(), second.begin, second.end);
    if limited.end - first.begin > config.Overlap() && first.begin < second.begin {
      assert !ws[0].Lists(first.begin) && !ws[2].Lists(first.begin);
    }
  }

  // ---------------------------------------------------------------- full, limited and cut runs, mixed

  /** The cursor that call `j` finds. */
  function CursorBefore(config: Config, cursor: Option<int>, calls: seq<Call>, j: nat): Option<int>
    requires j <= |calls|
  {
    if j == 0 then cursor else CursorAfter(config, CursorBefore(config, cursor, calls, j - 1), calls[j - 1])
  }

  /** What call `j` lists if it lands. */
  function WindowAt(config: Config, cursor: Option<int>, calls: seq<Call>, j: nat): Window
    requires j < |calls|
  {
    Window(StartTime(config, CursorBefore(config, cursor, calls, j), calls[j]), calls[j].begin, calls[j].end)
  }

  lemma {:induction false} CursorShifts(config: Config, cursor: Option<int>, calls: seq<Call>, j: nat)
    requires j < |calls|
    ensures CursorBefore(config, cursor, calls, j + 1)
         == CursorBefore(config, CursorAfter(config, cursor, calls[0]), calls[1..], j)
  {
    if j != 0 {
      CursorShifts(config, cursor, calls, j - 1);
    }
  }

  /** The windows in order are those of the calls that land. */
  lemma {:induction false} WindowsAreThoseOfLandedCalls(config: Config, cursor: Option<int>, calls: seq<Call>,
                                                        w: Window)
    requires config.enabled
    ensures w in Windows(config, cursor, calls) <==>
            exists j: nat :: j < |calls| && calls[j].Lands() && w == WindowAt(config, cursor, calls, j)
    decreases |calls|
  {
    if calls != [] {
      var after, rest := CursorAfter(config, cursor, calls[0]), calls[1..];
      WindowsAreThoseOfLandedCalls(config, after, rest, w);
      forall j: nat | j < |rest| ensures WindowAt(config, cursor, calls, j + 1) == WindowAt(config, after, rest, j) {
        CursorShifts(config, cursor, calls, j);
      }
      if j: nat :| j < |rest| && rest[j].Lands() && w == WindowAt(config, after, rest, j) {
        assert calls[j + 1].Lands() && w == WindowAt(config, cursor, calls, j + 1);
      }
      if j: nat :| j < |calls| && calls[j].Lands() && w == WindowAt(config, cursor, calls, j) {
        if j > 0 {
          assert rest[j - 1].Lands() && w == WindowAt(config, after, rest, j - 1);
        } else {
          assert w == WindowAt(config, cursor, calls, 0);
        }
      }
    }
  }

  /** Some full run lists the record. */
  ghost predicate ListedInFull(config: Config, cursor: Option<int>, calls: seq<Call>, created: int) {
    exists k: nat :: k < |calls| && Full(calls[k]) && WindowAt(config, cursor, calls, k).Lists(created)
  }

  /** From the start of the first full run's window to the beginning of the last full run, every record is listed. */
  ghost predicate FullyListed(config: Config, cursor: Option<int>, calls: seq<Call>, first: nat, last: nat)
    requires first < |calls| && last < |calls|
  {
    forall created | WindowAt(config, cursor, calls, first).start <= created < calls[last].begin ::
      ListedInFull(config, cursor, calls, created)
  }

  /** The two runs are full, and none between them is. */
  ghost predicate Successive(calls: seq<Call>, i: nat, j: nat) {
    && i < j < |calls| && Full(calls[i]) && Full(calls[j])
    && forall k | i < k < j :: !Full(calls[k])
  }

  /** Whatever landed between two successive full runs ended within the overlap from the beginning of the earlier. */
  ghost predicate InTime(config: Config, calls: seq<Call>) {
    forall i: nat, m: nat, j: nat | Successive(calls, i, j) && i <= m < j && calls[m].Lands() ::
      calls[m].end - calls[i].begin <= config.Overlap()
  }

  ghost predicate FirstAndLastFull(calls: seq<Call>, first: nat, last: nat) {
    && first <= last < |calls| && Full(calls[first]) && Full(calls[last])
    && forall k | 0 <= k < |calls| && Full(calls[k]) :: first <= k <= last
  }

  /** Behind a landed run the cursor is where the latest landed run ended. */
  lemma {:induction false} CursorIsLatestEnd(config: Config, cursor: Option<int>, calls: seq<Call>, m: nat, j: nat)
    requires config.enabled && Sequential(calls) && m < j <= |calls| && calls[m].Lands()
    ensures var c := CursorBefore(config, cursor, calls, j);
            && c.Some? && c.value >= calls[m].end
            && exists k: nat :: m <= k < j && calls[k].Lands() && c.value == calls[k].end
  {
    if m < j - 1 && !calls[j - 1].Lands() {
      CursorIsLatestEnd(config, cursor, calls, m, j - 1);
    } else {
      assert calls[j - 1].Lands() && CursorBefore(config, cursor, calls, j) == Some(calls[j - 1].end);
    }
  }

  lemma PreviousFull(calls: seq<Call>, first: nat, j: nat) returns (i: nat)
    requires first < j < |calls| && Full(calls[first]) && Full(calls[j])
    ensures first <= i && Successive(calls, i, j)
  {
    i := j - 1;
    while !Full(calls[i])
      invariant first <= i < j && forall k | i < k < j :: !Full(calls[k])
      decreases i
    {
      i := i - 1;
    }
  }

  lemma {:induction false} ListedBefore(config: Config, cursor: Option<int>, calls: seq<Call>, first: nat, j: nat,
                                        created: int)
    requires config.enabled && Sequential(calls) && InTime(config, calls)
    requires first <= j < |calls| && Full(calls[first]) && Full(calls[j])
    requires WindowAt(config, cursor, calls, first).start <= created < calls[j].begin
    ensures ListedInFull(config, cursor, calls, created)
    decreases j
  {
    if WindowAt(config, cursor, calls, j).start <= created {
      assert WindowAt(config, cursor, calls, j).Lists(created);
    } else {
      var i := PreviousFull(calls, first, j);
      CursorIsLatestEnd(config, cursor, calls, i, j);
      var m: nat :| i <= m < j && calls[m].Lands() && CursorBefore(config, cursor, calls, j) == Some(calls[m].end);
      assert calls[m].end - calls[i].begin <= config.Overlap();
      ListedBefore(config, cursor, calls, first, i, created);
    }
  }

  lemma BeginsAdvance(calls: seq<Call>, i: nat, j: nat)
    requires Sequential(calls) && i <= j < |calls|
    ensures calls[i].begin <= calls[j].begin
  {
  }

  /** A run that lands late between two full ones hides what was created when the earlier one began. */
  lemma LateRunLosesRecords(config: Config, cursor: Option<int>, calls: seq<Call>, i: nat, m: nat, j: nat)
    requires config.enabled && Sequential(calls)
    requires Successive(calls, i, j) && i <= m < j && calls[m].Lands()
    requires calls[m].end - calls[i].begin > config.Overlap()
    ensures calls[i].begin < calls[j].begin && !ListedInFull(config, cursor, calls, calls[i].begin)
  {
    forall k: nat | k < |calls| && Full(calls[k]) ensures !WindowAt(config, cursor, calls, k).Lists(calls[i].begin) {
      if k < i {
        assert calls[k].begin <= calls[k].end <= calls[i].begin;
      } else if k > i {
        assert k >= j;
        CursorIsLatestEnd(config, cursor, calls, m, k);
      }
    }
  }

  /**
   * Over any sequence of sequential runs, of all modules and of single ones, whole and cut, successful,
   * failed and dry, the full runs, on which a module without runs of its own depends, miss no record created between
   * the first one's window and the beginning of the last if and only if every run that lands ends within
   * the overlap from the beginning of the full run before it, where another full run follows.
   */
  lemma MixedRunsGapFreeExactlyWhen(config: Config, cursor: Option<int>, calls: seq<Call>, first: nat, last: nat)
    requires config.enabled && Sequential(calls) && FirstAndLastFull(calls, first, last)
    requires WindowAt(config, cursor, calls, first).start <= calls[first].begin
    ensures FullyListed(config, cursor, calls, first, last) <==> InTime(config, calls)
  {
    if InTime(config, calls) {
      forall created | WindowAt(config, cursor, calls, first).start <= created < calls[last].begin
        ensures ListedInFull(config, cursor, calls, created)
      {
        ListedBefore(config, cursor, calls, first, last, created);
      }
    } else {
      var i: nat, m: nat, j: nat :| Successive(calls, i, j) && i <= m < j && calls[m].Lands()
                                    && calls[m].end - calls[i].begin > config.Overlap();
      LateRunLosesRecords(config, cursor, calls, i, m, j);
      BeginsAdvance(calls, first, i);
      BeginsAdvance(calls, j, last);
    }
  }
}
