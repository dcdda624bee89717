// The windowed media snapshot and the live table it stands for
// (app/analysis/editorial_review_sources.py).

module MediaSnapshot {
  import opened Reals
  import opened Wrappers
  import opened Sorting

  datatype MediaRow = MediaRow(id: nat, session: nat, path: string, start: Option<real>, end: Option<real>)

  datatype MediaWindow = MediaWindow(session: nat, start: real, end: real)

  datatype Snapshot = Snapshot(rows: seq<MediaRow>, windows: seq<MediaWindow>, fullSessions: set<nat>)

  // A stored table, in id order.
  type Table = rows: seq<MediaRow> | Ascending(rows)

  ghost predicate Ascending(rows: seq<MediaRow>) {
    forall i, j | 0 <= i < j < |rows| :: rows[i].id < rows[j].id
  }

  // ----- Selecting rows

  predicate Untimed(row: MediaRow) {
    row.start.None? || row.end.None?
  }

  // The rows of a session that a range needs; without both ends, all of them.
  predicate Overlaps(row: MediaRow, session: nat, start: Option<real>, end: Option<real>) {
    && row.session == session
    && (start.None? || end.None? || Untimed(row) || (row.start.value < end.value && row.end.value > start.value))
  }

  function Filter(rows: seq<MediaRow>, keep: MediaRow -> bool): seq<MediaRow> {
    if rows == [] then []
    else (if keep(rows[0]) then [rows[0]] else []) + Filter(rows[1..], keep)
  }

  function Selected(rows: seq<MediaRow>, session: nat, start: Option<real>, end: Option<real>): seq<MediaRow> {
    Filter(rows, (row: MediaRow) => Overlaps(row, session, start, end))
  }

  lemma {:induction false} FilterMembers(rows: seq<MediaRow>, keep: MediaRow -> bool)
    ensures forall row :: row in Filter(rows, keep) <==> row in rows && keep(row)
    ensures Ascending(rows) ==> Ascending(Filter(rows, keep))
  {
    if rows != [] {
      FilterMembers(rows[1..], keep);
      assert rows == [rows[0]] + rows[1..];
      if Ascending(rows) {
        var rest, all := Filter(rows[1..], keep), Filter(rows, keep);
        forall i | 0 <= i < |rest| ensures rows[0].id < rest[i].id {
          assert rest[i] in rest;
          var j :| 0 <= j < |rows[1..]| && rows[1..][j] == rest[i];
        }
      }
    }
  }

  // A table is determined by its rows.
  lemma {:induction false} SameMembers(a: seq<MediaRow>, b: seq<MediaRow>)
    requires Ascending(a) && Ascending(b) && forall row :: row in a <==> row in b
    ensures a == b
  {
    assert a != [] ==> a[0] in b;
    assert b != [] ==> b[0] in a;
    if a != [] {
      forall row ensures row in a[1..] <==> row in b[1..] {
        TailMembers(a, row);
        TailMembers(b, row);
      }
      SameMembers(a[1..], b[1..]);
    }
  }

  lemma TailMembers(a: seq<MediaRow>, row: MediaRow)
    requires Ascending(a) && a != []
    ensures row in a[1..] <==> row in a && row != a[0]
  {
    if row in a && row != a[0] {
      var k :| 0 <= k < |a| && a[k] == row;
      assert a[1..][k - 1] == row;
    }
    if row in a[1..] {
      var k :| 0 <= k < |a[1..]| && a[1..][k] == row;
      assert a[k + 1] == row;
    }
  }

  // ----- Loading the snapshot

  datatype Condition = InSessions(ids: set<nat>) | InWindow(window: MediaWindow)

  predicate Meets(row: MediaRow, condition: Condition) {
    match condition
    case InSessions(ids) => row.session in ids
    case InWindow(w) => Overlaps(row, w.session, Some(w.start), Some(w.end))
  }

  predicate MeetsAny(row: MediaRow, conditions: seq<Condition>) {
    exists c <- conditions :: Meets(row, c)
  }

  ghost predicate Loaded(row: MediaRow, ids: set<nat>, windows: seq<MediaWindow>) {
    row.session in ids || exists w <- windows :: Overlaps(row, w.session, Some(w.start), Some(w.end))
  }

  function Conditions(ids: set<nat>, windows: seq<MediaWindow>): seq<Condition> {
    (if ids == {} then [] else [InSessions(ids)]) + seq(|windows|, i requires 0 <= i < |windows| => InWindow(windows[i]))
  }

  lemma LoadedMeets(row: MediaRow, ids: set<nat>, windows: seq<MediaWindow>)
    requires Loaded(row, ids, windows)
    ensures MeetsAny(row, Conditions(ids, windows))
  {
    var cs := Conditions(ids, windows);
    if row.session in ids {
      assert cs[0] == InSessions(ids) && cs[0] in cs;
    } else {
      var skip := if ids == {} then 0 else 1;
      var w :| w in windows && Overlaps(row, w.session, Some(w.start), Some(w.end));
      var i :| 0 <= i < |windows| && windows[i] == w;
      assert cs[skip + i] == InWindow(w) && cs[skip + i] in cs;
    }
  }

  lemma ConditionsLoad(row: MediaRow, ids: set<nat>, windows: seq<MediaWindow>)
    ensures MeetsAny(row, Conditions(ids, windows)) <==> Loaded(row, ids, windows)
  {
    if Loaded(row, ids, windows) {
      LoadedMeets(row, ids, windows);
    }
  }

  // The rows that meet one of a batch of conditions, by id.
  function Query(table: Table, batch: seq<Condition>): seq<MediaRow> {
    Filter(table, (row: MediaRow) => MeetsAny(row, batch))
  }

  // The snapshot that was loaded from a table.
  ghost predicate LoadedFrom(s: Snapshot, table: Table) {
    Ascending(s.rows) && forall row :: row in s.rows <==> row in table && Loaded(row, s.fullSessions, s.windows)
  }

  // Conditions are sent in batches of 100; the union is kept by row id.
  method LoadSnapshot(table: Table, ids: set<nat>, windows: seq<MediaWindow>) returns (snapshot: Snapshot)
    ensures snapshot.windows == windows && snapshot.fullSessions == ids
    ensures LoadedFrom(snapshot, table)
  {
    var conditions := Conditions(ids, windows);
    var selected: set<nat> := {};
    var offset := 0;
    while offset < |conditions|
      invariant 0 <= offset <= |conditions|
      invariant forall i | 0 <= i < |table| :: table[i].id in selected <==> MeetsAny(table[i], conditions[..offset])
    {
      var next := if offset + 100 <= |conditions| then offset + 100 else |conditions|;
      var batch := conditions[offset..next];
      var hits := Query(table, batch);
      FilterMembers(table, (row: MediaRow) => MeetsAny(row, batch));
      assert conditions[..next] == conditions[..offset] + batch;
      var found := set row | row in hits :: row.id;
      forall i | 0 <= i < |table|
        ensures table[i].id in selected + found <==> MeetsAny(table[i], conditions[..next])
      {
        if table[i].id in found {
          var row :| row in hits && row.id == table[i].id;
          assert row in table && row == table[i];
        }
      }
      selected := selected + found;
      offset := next;
    }
    assert conditions[..|conditions|] == conditions;
    var keep := (row: MediaRow) => row.id in selected;
    var rows := Filter(table, keep);
    FilterMembers(table, keep);
    forall row ensures row in rows <==> row in table && Loaded(row, ids, windows) {
      ConditionsLoad(row, ids, windows);
    }
    snapshot := Snapshot(rows, windows, ids);
  }

  // ----- Whether the snapshot covers a range

  predicate Before(a: MediaWindow, b: MediaWindow) {
    a.start < b.start
  }

  predicate StartsUpTo(a: MediaWindow, b: MediaWindow) {
    a.start <= b.start
  }

  ghost predicate ByStart(windows: seq<MediaWindow>) {
    forall i, j | 0 <= i < j < |windows| :: windows[i].start <= windows[j].start
  }

  // The windows of one session, in the order of their starts.
  method SortedWindows(windows: seq<MediaWindow>, session: nat) returns (sorted: seq<MediaWindow>)
    ensures ByStart(sorted)
    ensures forall w :: w in sorted <==> w in windows && w.session == session
  {
    var mine: seq<MediaWindow> := [];
    for k := 0 to |windows|
      invariant forall w :: w in mine <==> w in windows[..k] && w.session == session
    {
      if windows[k].session == session {
        mine := mine + [windows[k]];
      }
      assert windows[..k + 1] == windows[..k] + [windows[k]];
    }
    assert windows[..|windows|] == windows;
    sorted := Sort(mine, Before, StartsUpTo);
    assert forall w :: w in sorted <==> w in multiset(sorted);
    assert forall w :: w in mine <==> w in multiset(mine);
    assert forall i, j | 0 <= i < j < |sorted| :: StartsUpTo(sorted[i], sorted[j]);
  }

  function CoverSweep(windows: seq<MediaWindow>, cursor: real, upper: real): bool {
    if windows == [] || windows[0].start > cursor then false
    else
      var c := Max(cursor, windows[0].end);
      c >= upper || CoverSweep(windows[1..], c, upper)
  }

  method Covers(s: Snapshot, session: nat, start: Option<real>, end: Option<real>) returns (covered: bool)
    ensures covered <==> session in s.fullSessions || (start.Some? && end.Some? && Reaches(s.windows, session, start.value, end.value))
  {
    if session in s.fullSessions {
      return true;
    }
    if start.None? || end.None? {
      return false;
    }
    var cursor, upper := start.value, end.value;
    var windows := SortedWindows(s.windows, session);
    SweepReaches(s.windows, windows, session, cursor, upper);
    covered := false;
    for k := 0 to |windows|
      invariant CoverSweep(windows, start.value, upper) == CoverSweep(windows[k..], cursor, upper)
    {
      var window := windows[k];
      assert windows[k..][0] == window && windows[k..][1..] == windows[k + 1..];
      if window.start > cursor {
        break;
      }
      if window.end > cursor {
        cursor := window.end;
      }
      if cursor >= upper {
        return true;
      }
    }
  }

  ghost predicate PointCovered(windows: seq<MediaWindow>, session: nat, t: real) {
    exists i :: 0 <= i < |windows| && windows[i].session == session && windows[i].start <= t <= windows[i].end
  }

  // What `covers` decides for two given ends: every point of a non-empty range
  // lies in a closed window; an empty range only asks for a window that starts in time.
  ghost predicate Reaches(windows: seq<MediaWindow>, session: nat, start: real, end: real) {
    if start < end then forall t: real | start <= t <= end :: PointCovered(windows, session, t)
    else exists i :: 0 <= i < |windows| && windows[i].session == session && windows[i].start <= start
  }

  lemma {:induction false} SweepExact(windows: seq<MediaWindow>, session: nat, cursor: real, upper: real)
    requires ByStart(windows) && (forall i | 0 <= i < |windows| :: windows[i].session == session) && cursor < upper
    ensures CoverSweep(windows, cursor, upper) <==> forall t: real | cursor < t <= upper :: PointCovered(windows, session, t)
    ensures CoverSweep(windows, cursor, upper) ==> PointCovered(windows, session, cursor)
  {
    if windows == [] {
      assert !PointCovered(windows, session, upper);
    } else if windows[0].start > cursor {
      var t := if windows[0].start <= upper then (cursor + windows[0].start) / 2.0 else upper;
      assert !PointCovered(windows, session, t);
    } else {
      var c, rest := Max(cursor, windows[0].end), windows[1..];
      if c < upper {
        SweepExact(rest, session, c, upper);
        forall t: real | c <= t ensures PointCovered(rest, session, t) && t <= upper ==> PointCovered(windows, session, t) {
          if i :| 0 <= i < |rest| && rest[i].session == session && rest[i].start <= t <= rest[i].end {
            assert windows[i + 1] == rest[i];
          }
        }
        forall t: real | c < t <= upper ensures PointCovered(windows, session, t) ==> PointCovered(rest, session, t) {
          if i :| 0 <= i < |windows| && windows[i].session == session && windows[i].start <= t <= windows[i].end {
            assert windows[i] == rest[i - 1];
          }
        }
      }
    }
  }

  lemma SweepReaches(all: seq<MediaWindow>, windows: seq<MediaWindow>, session: nat, start: real, end: real)
    requires ByStart(windows) && forall w :: w in windows <==> w in all && w.session == session
    ensures CoverSweep(windows, start, end) <==> Reaches(all, session, start, end)
  {
    forall i | 0 <= i < |windows| ensures windows[i].session == session {
      assert windows[i] in windows;
    }
    forall t: real ensures PointCovered(windows, session, t) <==> PointCovered(all, session, t) {
      if i :| 0 <= i < |windows| && windows[i].session == session && windows[i].start <= t <= windows[i].end {
        var j :| 0 <= j < |all| && all[j] == windows[i];
      }
      if i :| 0 <= i < |all| && all[i].session == session && all[i].start <= t <= all[i].end {
        assert all[i] in windows;
        var j :| 0 <= j < |windows| && windows[j] == all[i];
      }
    }
    if start < end {
      SweepExact(windows, session, start, end);
    } else {
      if CoverSweep(windows, start, end) {
        var j :| 0 <= j < |all| && all[j] == windows[0];
      }
      if i :| 0 <= i < |all| && all[i].session == session && all[i].start <= start {
        assert all[i] in windows;
        var j :| 0 <= j < |windows| && windows[j] == all[i];
        assert windows[0].start <= windows[j].start;
      }
    }
  }

  // ----- Whether the live rows still match

  ghost predicate Covered(s: Snapshot, session: nat, start: Option<real>, end: Option<real>) {
    session in s.fullSessions || (start.Some? && end.Some? && Reaches(s.windows, session, start.value, end.value))
  }

  method Matches(s: Snapshot, rows: seq<MediaRow>, session: nat, start: Option<real>, end: Option<real>)
    returns (r: bool)
    ensures r <==> Covered(s, session, start, end) && Selected(rows, session, start, end) == Selected(s.rows, session, start, end)
  {
    var covered := Covers(s, session, start, end);
    r := covered && Selected(rows, session, start, end) == Selected(s.rows, session, start, end);
  }

  predicate PositiveOrUntimed(row: MediaRow) {
    Untimed(row) || row.start.value < row.end.value
  }

  // One window reaches strictly past both ends of the row.
  ghost predicate InsideOneWindow(row: MediaRow, windows: seq<MediaWindow>) {
    !Untimed(row) && exists w <- windows :: w.session == row.session && w.start < row.end.value && row.start.value < w.end
  }

  // In a covered range that is non-empty or open, a row that the range needs was
  // loaded exactly when it is untimed, positive, or inside one window.
  lemma NeededRowIsLoadedExactlyWhen(s: Snapshot, row: MediaRow, session: nat, start: Option<real>, end: Option<real>)
    requires Covered(s, session, start, end) && Overlaps(row, session, start, end)
    requires start.Some? && end.Some? ==> start.value < end.value
    ensures Loaded(row, s.fullSessions, s.windows) <==>
              session in s.fullSessions || PositiveOrUntimed(row) || InsideOneWindow(row, s.windows)
  {
    if session !in s.fullSessions && PositiveOrUntimed(row) {
      var low := if Untimed(row) || row.start.value < start.value then start.value else row.start.value;
      var high := if Untimed(row) || row.end.value > end.value then end.value else row.end.value;
      var t := (low + high) / 2.0;
      assert PointCovered(s.windows, session, t);
      var i :| 0 <= i < |s.windows| && s.windows[i].session == session && s.windows[i].start <= t <= s.windows[i].end;
      assert s.windows[i] in s.windows;
    }
  }

  lemma SelectedLoaded(s: Snapshot, table: Table, session: nat, start: Option<real>, end: Option<real>)
    requires LoadedFrom(s, table)
    ensures Selected(s.rows, session, start, end) == Selected(table, session, start, end) <==>
            forall row <- table | Overlaps(row, session, start, end) :: Loaded(row, s.fullSessions, s.windows)
  {
    var keep := (row: MediaRow) => Overlaps(row, session, start, end);
    FilterMembers(s.rows, keep);
    FilterMembers(table, keep);
    if forall row <- table | Overlaps(row, session, start, end) :: Loaded(row, s.fullSessions, s.windows) {
      SameMembers(Filter(s.rows, keep), Filter(table, keep));
    }
    if Filter(s.rows, keep) == Filter(table, keep) {
      forall row <- table | Overlaps(row, session, start, end) ensures Loaded(row, s.fullSessions, s.windows) {
        assert row in Filter(table, keep);
      }
    }
  }

  lemma {:induction false} FilterAgain(rows: seq<MediaRow>, keep: MediaRow -> bool)
    ensures Filter(Filter(rows, keep), keep) == Filter(rows, keep)
  {
    if rows != [] {
      FilterAgain(rows[1..], keep);
      var rest := Filter(rows[1..], keep);
      if keep(rows[0]) {
        assert ([rows[0]] + rest)[1..] == rest;
      } else {
        assert [] + rest == rest;
      }
    }
  }

  // The live table, read through the same query, matches the snapshot.
  ghost predicate MatchesTable(s: Snapshot, live: Table, session: nat, start: Option<real>, end: Option<real>) {
    Selected(Selected(live, session, start, end), session, start, end) == Selected(s.rows, session, start, end)
  }

  // The rows a covered range needs are judged rightly against every later state
  // of the table exactly when none of them is degenerate outside every window.
  lemma SnapshotIsFaithfulExactlyWhen(s: Snapshot, table: Table, session: nat, start: Option<real>, end: Option<real>)
    requires LoadedFrom(s, table) && Covered(s, session, start, end)
    requires start.Some? && end.Some? ==> start.value < end.value
    ensures (forall live: Table :: MatchesTable(s, live, session, start, end)
                                   <==> Selected(live, session, start, end) == Selected(table, session, start, end))
       <==> (forall row <- table | Overlaps(row, session, start, end) ::
               session in s.fullSessions || PositiveOrUntimed(row) || InsideOneWindow(row, s.windows))
  {
    var keep := (row: MediaRow) => Overlaps(row, session, start, end);
    SelectedLoaded(s, table, session, start, end);
    forall row <- table | Overlaps(row, session, start, end)
      ensures Loaded(row, s.fullSessions, s.windows) <==>
                session in s.fullSessions || PositiveOrUntimed(row) || InsideOneWindow(row, s.windows)
    {
      NeededRowIsLoadedExactlyWhen(s, row, session, start, end);
    }
    forall live: Table
      ensures MatchesTable(s, live, session, start, end)
         <==> Selected(live, session, start, end) == Selected(s.rows, session, start, end)
    {
      FilterAgain(live, keep);
    }
    if forall live: Table :: MatchesTable(s, live, session, start, end)
                             <==> Selected(live, session, start, end) == Selected(table, session, start, end) {
      assert MatchesTable(s, table, session, start, end);
    }
  }

  // So a table whose timed rows end after they start is always judged rightly.
  lemma OrderedRowsAreFaithful(s: Snapshot, table: Table, live: Table, session: nat, start: Option<real>, end: Option<real>)
    requires LoadedFrom(s, table) && Covered(s, session, start, end)
    requires start.Some? && end.Some? ==> start.value < end.value
    requires forall row <- table :: PositiveOrUntimed(row)
    ensures MatchesTable(s, live, session, start, end)
       <==> Selected(live, session, start, end) == Selected(table, session, start, end)
  {
    SnapshotIsFaithfulExactlyWhen(s, table, session, start, end);
  }

  // ----- The two places where the plain reading fails

  // An instantaneous row on the seam of two windows is needed but never loaded.
  lemma SeamRowIsMissed()
    ensures var windows := [MediaWindow(1, 0.0, 1.0), MediaWindow(1, 1.0, 2.0)];
            var row := MediaRow(7, 1, "p", Some(1.0), Some(1.0));
            && Reaches(windows, 1, 0.0, 2.0) && Overlaps(row, 1, Some(0.0), Some(2.0))
            && !Loaded(row, {}, windows)
  {
    var windows := [MediaWindow(1, 0.0, 1.0), MediaWindow(1, 1.0, 2.0)];
    forall t: real | 0.0 <= t <= 2.0 ensures PointCovered(windows, 1, t) {
      assert t <= 1.0 ==> windows[0].start <= t <= windows[0].end;
      assert t > 1.0 ==> windows[1].start <= t <= windows[1].end;
    }
  }

  // An empty range is accepted although its point lies in no window.
  lemma EmptyRangeIsAccepted()
    ensures var windows := [MediaWindow(1, 0.0, 1.0)];
            Reaches(windows, 1, 5.0, 5.0) && !PointCovered(windows, 1, 5.0)
  {
    assert [MediaWindow(1, 0.0, 1.0)][0].start <= 5.0;
  }
}
