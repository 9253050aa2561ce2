/**
 * The table-header tracker: which header is active after the units seen so far. The regular
 * expressions it uses are functions the proofs quantify over.
 */
module HeaderTrackers {
  import opened Text
  import opened Chunks

  /** What the tracker reads off a unit or a header. */
  datatype TablePatterns = TablePatterns(
    /** startPattern: a header row and its separator row. It is anchored, so a match is the whole text. */
    startsTable: string -> bool,
    /** tableRowPattern */
    hasRow: string -> bool,
    /** firstTableRowColumnCount, 0 for a text without a table row. */
    rowColumns: string -> nat,
    /** headerTableColumnCount */
    headerColumns: string -> nat,
    /** headerColumnRow, "" for a header without column names. */
    columnRow: string -> string,
    /** isEmptyTableHeaderRow */
    emptyHeader: string -> bool,
    /** extractSeparatorLine */
    separatorLine: string -> string)
  {
    /** Both patterns have to match a pipe. */
    ghost predicate Valid() {
      forall t: string :: startsTable(t) || hasRow(t) ==> '|' in t
    }

    /** headerColumnMismatch */
    predicate Mismatch(headers: string, unit: string) {
      headerColumns(headers) > 0 && rowColumns(unit) > 0 && headerColumns(headers) != rowColumns(unit)
    }

    /** headerAlreadyPresent || headerColumnMismatch */
    predicate Redundant(headers: string, overlap: string, unit: string) {
      || Contains(overlap, headers) || Contains(unit, headers)
      || (columnRow(headers) != "" && (Contains(overlap, columnRow(headers)) || Contains(unit, columnRow(headers))))
      || Mismatch(headers, unit)
    }
  }

  /** strings.Contains */
  predicate Contains(s: string, part: string) {
    part <= s || (s != "" && Contains(s[1..], part))
  }

  /** The class \s of a regular expression: narrower than IsSpace. */
  predicate PatternSpace(c: char) {
    c == '\t' || c == '\n' || c == '\U{0C}' || c == '\r' || c == ' '
  }

  /** endPattern: only spaces, or a first other rune that is no pipe. */
  predicate EndsTable(unit: string) {
    unit == "" || if PatternSpace(unit[0]) then EndsTable(unit[1..]) else unit[0] != '|'
  }

  /** splitEndsWithParagraphBreak */
  predicate EndsParagraph(unit: string) {
    if unit != "" && unit[|unit| - 1] in " \t\r" then EndsParagraph(unit[..|unit| - 1])
    else HasSuffix(unit, "\n\n") || HasSuffix(unit, "\r\n\r\n")
  }

  predicate HasSuffix(s: string, suffix: string) {
    |suffix| <= |s| && s[|s| - |suffix|..] == suffix
  }

  /** A pipe at i, and only spaces before it. */
  predicate OpensWithPipe(unit: string, i: int) {
    0 <= i < |unit| && unit[i] == '|' && forall j :: 0 <= j < i ==> PatternSpace(unit[j])
  }

  /** A unit goes on with a table exactly when a pipe is the first thing in it. */
  lemma {:induction false} EndsTableMeans(unit: string)
    ensures EndsTable(unit) <==> !exists i :: OpensWithPipe(unit, i)
  {
    if unit == "" {
    } else if PatternSpace(unit[0]) {
      EndsTableMeans(unit[1..]);
      forall i | OpensWithPipe(unit[1..], i) ensures OpensWithPipe(unit, i + 1) {
        assert unit[i + 1] == unit[1..][i];
        assert forall j :: 0 < j < i + 1 ==> unit[j] == unit[1..][j - 1];
      }
      forall i | OpensWithPipe(unit, i) ensures OpensWithPipe(unit[1..], i - 1) {
      }
    } else if unit[0] == '|' {
      assert OpensWithPipe(unit, 0);
    }
  }

  /** A blank line ends at k, and only blanks follow. */
  predicate BreaksAt(unit: string, k: int) {
    && 0 <= k <= |unit| && (forall j :: k <= j < |unit| ==> unit[j] in " \t\r")
    && (HasSuffix(unit[..k], "\n\n") || HasSuffix(unit[..k], "\r\n\r\n"))
  }

  /** A paragraph ends with the unit when nothing but blanks follows a blank line. */
  lemma {:induction false} EndsParagraphMeans(unit: string)
    ensures EndsParagraph(unit) <==> exists k :: BreaksAt(unit, k)
  {
    hide BreaksAt;
    var n := |unit| - 1;
    if unit != "" && unit[n] in " \t\r" {
      EndsParagraphMeans(unit[..n]);
      forall k ensures BreaksAt(unit, k) <==> BreaksAt(unit[..n], k) {
        BlankBehind(unit, k);
      }
    } else {
      BreaksAtEnd(unit);
    }
  }

  lemma BlankBehind(unit: string, k: int)
    requires unit != "" && unit[|unit| - 1] in " \t\r"
    ensures BreaksAt(unit, k) <==> BreaksAt(unit[..|unit| - 1], k)
  {
    var n := |unit| - 1;
    if 0 <= k <= n {
      assert unit[..n][..k] == unit[..k];
    } else {
      assert unit[..|unit|] == unit;
    }
  }

  lemma BreaksAtEnd(unit: string)
    requires unit == "" || unit[|unit| - 1] !in " \t\r"
    ensures (exists k :: BreaksAt(unit, k)) <==> HasSuffix(unit, "\n\n") || HasSuffix(unit, "\r\n\r\n")
  {
    assert unit[..|unit|] == unit;
    assert BreaksAt(unit, |unit|) <==> HasSuffix(unit, "\n\n") || HasSuffix(unit, "\r\n\r\n");
    forall k | BreaksAt(unit, k) ensures k == |unit| {
    }
  }

  /** The tracker's fields. There is one hook, so each map from priorities is one value. */
  datatype TrackerState = TrackerState(
    active: Option<string>,
    ended: bool,
    pendingExtend: bool,
    pendingBreak: bool,
    endedThisUnit: bool)

  // ---- the update as a function ---------------------------------------------

  function Cleared(s: TrackerState): TrackerState {
    s.(active := None, ended := true, pendingExtend := false)
  }

  /** The blank line after a table row, resolved by the unit that follows it. */
  function BreakResolved(p: TablePatterns, s: TrackerState, unit: string): TrackerState {
    var r := s.(pendingBreak := false, endedThisUnit := false);
    if s.pendingBreak && s.active.Some? then Cleared(r).(endedThisUnit := p.rowColumns(unit) > 0) else r
  }

  function ProseResumed(s: TrackerState, unit: string): TrackerState {
    if s.active.Some? && EndsTable(unit) then Cleared(s) else s
  }

  function RowChecked(p: TablePatterns, s: TrackerState, unit: string): TrackerState {
    if s.active.None? || s.pendingExtend then s
    else if EndsParagraph(unit) then s.(pendingBreak := true)
    else if p.Mismatch(s.active.value, unit) then Cleared(s).(endedThisUnit := true)
    else s
  }

  /** An empty header row is replaced by the first data row. */
  function Extended(p: TablePatterns, s: TrackerState, unit: string): TrackerState {
    if !s.pendingExtend then s
    else if s.active.Some? && p.hasRow(unit) then
      s.(active := Some(unit + p.separatorLine(s.active.value)), pendingExtend := false)
    else s.(pendingExtend := false)
  }

  function Started(p: TablePatterns, s: TrackerState, unit: string): TrackerState {
    var r := if s.active.None? && !s.ended && p.startsTable(unit)
             then s.(active := Some(unit), pendingExtend := s.pendingExtend || p.emptyHeader(unit)) else s;
    if r.active.None? then r.(ended := false) else r
  }

  function Updated(p: TablePatterns, s: TrackerState, unit: string): TrackerState {
    Started(p, Extended(p, RowChecked(p, ProseResumed(BreakResolved(p, s, unit), unit), unit), unit), unit)
  }

  /** The tracker after the texts of all units seen. */
  function TrackerAfter(p: TablePatterns, seen: seq<string>): TrackerState {
    if seen == [] then TrackerState(None, false, false, false, false)
    else Updated(p, TrackerAfter(p, seen[..|seen| - 1]), seen[|seen| - 1])
  }

  class HeaderTracker {
    var activeHeader: Option<string>
    var ended: bool
    var pendingExtend: bool
    var pendingTableBreak: bool
    var headerEndedThisUnit: bool

    function State(): TrackerState
      reads this
    {
      TrackerState(activeHeader, ended, pendingExtend, pendingTableBreak, headerEndedThisUnit)
    }

    /** newHeaderTracker */
    constructor ()
      ensures forall p: TablePatterns :: State() == TrackerAfter(p, [])
    {
      activeHeader, ended, pendingExtend, pendingTableBreak, headerEndedThisUnit := None, false, false, false, false;
    }

    method ClearTableHeader()
      modifies this
      ensures State() == Cleared(old(State()))
    {
      ended := true;
      activeHeader := None;
      pendingExtend := false;
    }

    /** update: one unit's text, in the order the hooks look at it. */
    method Update(p: TablePatterns, unit: string)
      modifies this
      ensures State() == Updated(p, old(State()), unit)
    {
      headerEndedThisUnit := false;
      if pendingTableBreak {
        pendingTableBreak := false;
        if activeHeader.Some? {
          ClearTableHeader();
          if p.rowColumns(unit) > 0 {
            headerEndedThisUnit := true;
          }
        }
      }
      assert State() == BreakResolved(p, old(State()), unit);
      if activeHeader.Some? && EndsTable(unit) {
        ClearTableHeader();
      }
      if activeHeader.Some? && !pendingExtend {
        if EndsParagraph(unit) {
          pendingTableBreak := true;
        } else if p.Mismatch(activeHeader.value, unit) {
          ClearTableHeader();
          headerEndedThisUnit := true;
        }
      }
      if pendingExtend {
        if activeHeader.Some? && p.hasRow(unit) {
          activeHeader := Some(unit + p.separatorLine(activeHeader.value));
        }
        pendingExtend := false;
      }
      if activeHeader.None? && !ended && p.startsTable(unit) {
        activeHeader := Some(unit);
        if p.emptyHeader(unit) {
          pendingExtend := true;
        }
      }
      if activeHeader.None? {
        ended := false;
      }
    }

    /** getHeaders */
    function GetHeaders(): string
      reads this
    {
      HeadersIn(State())
    }
  }

  function HeadersIn(s: TrackerState): string {
    if s.active.Some? then s.active.value else ""
  }

  // ---- what a run of updates keeps ------------------------------------------

  /** Active headers are not empty, and only an active header awaits its column names. */
  predicate Sound(s: TrackerState) {
    (s.active.Some? ==> s.active.value != "") && (s.pendingExtend ==> s.active.Some?)
  }

  lemma {:induction false} AlwaysSound(p: TablePatterns, seen: seq<string>)
    requires p.Valid()
    ensures Sound(TrackerAfter(p, seen))
  {
    if seen != [] {
      AlwaysSound(p, seen[..|seen| - 1]);
    }
  }

  lemma {:induction false} BlankEnds(unit: string)
    requires Blank(unit)
    ensures EndsTable(unit) && '|' !in unit
  {
    if unit == "" {
    } else {
      BlankEnds(unit[1..]);
      assert unit == [unit[0]] + unit[1..];
    }
  }

  /** After a unit of whitespace no header is active. */
  lemma BlankClears(p: TablePatterns, seen: seq<string>, unit: string)
    requires p.Valid() && Blank(unit)
    ensures HeadersIn(TrackerAfter(p, seen + [unit])) == ""
  {
    BlankEnds(unit);
    AlwaysSound(p, seen);
    assert (seen + [unit])[..|seen|] == seen;
  }

  /** A header that a unit starts is that unit, so it is not put before it once more. */
  lemma StartsRedundant(p: TablePatterns, seen: seq<string>, unit: string, overlap: string)
    requires p.Valid() && HeadersIn(TrackerAfter(p, seen)) == ""
    ensures var h := HeadersIn(TrackerAfter(p, seen + [unit]));
            h == "" || (Contains(unit, h) && p.Redundant(h, overlap, unit))
  {
    AlwaysSound(p, seen);
    assert (seen + [unit])[..|seen|] == seen;
  }

  // ---- whose header is active -----------------------------------------------

  /** The unit at i is compared with the header of the table that starts at k. */
  predicate Compared(p: TablePatterns, seen: seq<string>, k: int, i: int)
    requires 0 <= k < |seen|
  {
    i > k + 1 || (i == k + 1 && !p.emptyHeader(seen[k]))
  }

  /**
   * h is the header of the table that starts at unit k and has not ended since: no prose, no
   * blank line, no row of another width; only the row that names the columns of an empty
   * header is not looked at in this way.
   */
  predicate HeaderSince(p: TablePatterns, seen: seq<string>, k: int, h: string) {
    && 0 <= k < |seen| && p.startsTable(seen[k])
    && (h == seen[k] || (k + 1 < |seen| && p.emptyHeader(seen[k]) && h == seen[k + 1] + p.separatorLine(seen[k])))
    && (forall i :: k < i < |seen| ==> !EndsTable(seen[i]))
    && (forall i :: k < i < |seen| && Compared(p, seen, k, i) ==>
          if EndsParagraph(seen[i]) then i == |seen| - 1 else !p.Mismatch(h, seen[i]))
  }

  /** What one unit does to the active header: it keeps it, extends it, ends it, or starts one where there was none. */
  lemma OneUnit(p: TablePatterns, s: TrackerState, unit: string)
    requires Sound(s) && Updated(p, s, unit).active.Some?
    ensures var s' := Updated(p, s, unit);
            if s.active.None? then
              s'.active == Some(unit) && p.startsTable(unit) && s'.pendingExtend == p.emptyHeader(unit) && !s'.pendingBreak
            else
              && !s.pendingBreak && !EndsTable(unit) && !s'.pendingExtend
              && (s'.active == s.active || (s.pendingExtend && s'.active == Some(unit + p.separatorLine(s.active.value))))
              && (s'.pendingBreak <==> !s.pendingExtend && EndsParagraph(unit))
              && (!s.pendingExtend && !EndsParagraph(unit) ==> !p.Mismatch(s.active.value, unit))
  {
    hide EndsTable, EndsParagraph;
  }

  /** A tracked table: its header, whether that awaits its column names, and whether a blank line was just seen. */
  predicate InTable(p: TablePatterns, seen: seq<string>, s: TrackerState, k: int) {
    && s.active.Some? && HeaderSince(p, seen, k, s.active.value)
    && (s.pendingExtend <==> k == |seen| - 1 && p.emptyHeader(seen[k]))
    && (s.pendingBreak <==> JustBroken(p, seen, k))
  }

  /** The last row of the table that starts at k ends with a blank line. */
  predicate JustBroken(p: TablePatterns, seen: seq<string>, k: int) {
    0 <= k < |seen| - 1 && Compared(p, seen, k, |seen| - 1) && EndsParagraph(seen[|seen| - 1])
  }

  lemma NextRow(p: TablePatterns, before: seq<string>, s: TrackerState, k: int, unit: string)
    requires Sound(s) && InTable(p, before, s, k) && Updated(p, s, unit).active.Some?
    ensures InTable(p, before + [unit], Updated(p, s, unit), k)
  {
    OneUnit(p, s, unit);
    hide EndsTable, EndsParagraph, Updated;
    var seen := before + [unit];
    assert forall i :: 0 <= i < |before| ==> seen[i] == before[i];
  }

  /** The active header is always that of the table the last unit is in. */
  lemma {:induction false} HeaderOfThisTable(p: TablePatterns, seen: seq<string>) returns (k: int)
    requires p.Valid() && TrackerAfter(p, seen).active.Some?
    ensures InTable(p, seen, TrackerAfter(p, seen), k)
  {
    var before, unit := seen[..|seen| - 1], seen[|seen| - 1];
    var s := TrackerAfter(p, before);
    AlwaysSound(p, before);
    assert before + [unit] == seen;
    if s.active.None? {
      OneUnit(p, s, unit);
      k := |seen| - 1;
    } else {
      k := HeaderOfThisTable(p, before);
      NextRow(p, before, s, k, unit);
    }
  }

  /** unit is a row of another width than the table that starts at k with header h. */
  predicate OtherWidth(p: TablePatterns, seen: seq<string>, k: int, h: string, unit: string)
    requires 0 <= k < |seen|
  {
    && Compared(p, seen + [unit], k, |seen|) && !EndsParagraph(unit)
    && p.headerColumns(h) > 0 && p.rowColumns(unit) > 0 && p.headerColumns(h) != p.rowColumns(unit)
  }

  /**
   * What the next unit does to the table that is tracked. The table goes on unless a blank line
   * came before the unit, prose resumes, or the unit is a row of another width; only a row that
   * ends it asks for a flush; and only an empty header is replaced, by its first row.
   */
  lemma NextUnitExactly(p: TablePatterns, seen: seq<string>, k: int, unit: string)
    requires p.Valid() && InTable(p, seen, TrackerAfter(p, seen), k)
    ensures var h, s' := TrackerAfter(p, seen).active.value, TrackerAfter(p, seen + [unit]);
            && (s'.active.Some? <==> !JustBroken(p, seen, k) && !EndsTable(unit) && !OtherWidth(p, seen, k, h, unit))
            && (s'.endedThisUnit <==>
                  if JustBroken(p, seen, k) then p.rowColumns(unit) > 0 else !EndsTable(unit) && OtherWidth(p, seen, k, h, unit))
            && (s'.active.Some? ==>
                  s'.active.value == if k == |seen| - 1 && p.emptyHeader(h) && p.hasRow(unit) then unit + p.separatorLine(h) else h)
  {
    hide EndsTable, EndsParagraph;
    AlwaysSound(p, seen);
    assert (seen + [unit])[..|seen|] == seen;
  }

  /** Where no table is tracked, no unit asks for a flush. */
  lemma NoTableNoFlush(p: TablePatterns, seen: seq<string>, unit: string)
    requires TrackerAfter(p, seen).active.None?
    ensures !TrackerAfter(p, seen + [unit]).endedThisUnit
  {
    assert (seen + [unit])[..|seen|] == seen;
  }

  // ---- where the next table's header is missed ------------------------------

  /**
   * Where no header is active, or a blank line was just seen, a header row is tracked if and
   * only if none is active: the row that ends a header cannot start the next one.
   */
  lemma TrackedExactly(p: TablePatterns, seen: seq<string>, unit: string)
    requires p.Valid() && p.startsTable(unit)
    requires TrackerAfter(p, seen).active.None? || TrackerAfter(p, seen).pendingBreak
    ensures TrackerAfter(p, seen + [unit]).active == (if TrackerAfter(p, seen).active.None? then Some(unit) else None)
  {
    AlwaysSound(p, seen);
    assert (seen + [unit])[..|seen|] == seen;
  }

  lemma OtherUnit(p: TablePatterns, seen: seq<string>, unit: string)
    requires p.Valid() && TrackerAfter(p, seen).active.None? && !p.startsTable(unit)
    ensures TrackerAfter(p, seen + [unit]).active.None?
  {
    hide Updated;
    AlwaysSound(p, seen);
    assert (seen + [unit])[..|seen|] == seen;
    if Updated(p, TrackerAfter(p, seen), unit).active.Some? {
      OneUnit(p, TrackerAfter(p, seen), unit);
    }
  }

  /** Without a header row nothing becomes active. */
  lemma {:induction false} RowsWithoutHeader(p: TablePatterns, seen: seq<string>, rows: seq<string>)
    requires p.Valid() && TrackerAfter(p, seen).active.None? && forall i :: 0 <= i < |rows| ==> !p.startsTable(rows[i])
    ensures TrackerAfter(p, seen + rows).active.None?
  {
    if rows == [] {
      assert seen + rows == seen;
    } else {
      var n := |rows| - 1;
      RowsWithoutHeader(p, seen, rows[..n]);
      assert seen + rows == (seen + rows[..n]) + [rows[n]];
      OtherUnit(p, seen + rows[..n], rows[n]);
    }
  }

  const FIRST_TABLE := ["| A |\n| --- |\n", "| 1 |\n\n"]
  const SECOND_HEADER := "| B |\n| --- |\n"

  /** No row of a table that follows another after one blank line gets its header. */
  lemma SecondTableBare(p: TablePatterns, rows: seq<string>)
    requires p.Valid() && p.startsTable(FIRST_TABLE[0]) && !p.startsTable(FIRST_TABLE[1]) && p.startsTable(SECOND_HEADER)
    requires !p.emptyHeader(FIRST_TABLE[0]) && forall i :: 0 <= i < |rows| ==> !p.startsTable(rows[i])
    ensures HeadersIn(TrackerAfter(p, FIRST_TABLE[..1])) == FIRST_TABLE[0]
    ensures HeadersIn(TrackerAfter(p, FIRST_TABLE + [SECOND_HEADER] + rows)) == ""
  {
    TrackedExactly(p, [], FIRST_TABLE[0]);
    assert [] + [FIRST_TABLE[0]] == FIRST_TABLE[..1];
    assert EndsParagraph(FIRST_TABLE[1]) && !EndsTable(FIRST_TABLE[1]);
    TrackedExactly(p, FIRST_TABLE, SECOND_HEADER);
    RowsWithoutHeader(p, FIRST_TABLE + [SECOND_HEADER], rows);
  }
}
