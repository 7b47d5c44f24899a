/** `get_changes`: the `pebble changes` table decoded into change records. */
module Changes {
  import opened Types
  import opened PyStr
  import opened Columns

  const ChangeColumns: seq<string> := ["ID", "Status", "Spawn", "Ready", "Summary"]

  /** A change from its five fields. `ready` is computed from the ID field
      (field 0), not from the status; the ready-time column is read but not
      used; the spawn time must be an ISO-8601 timestamp. */
  function ChangeOfFields(fields: seq<string>, isIso: string -> bool): (r: Result<Change>)
    requires |fields| == 5
    ensures r.Err? <==> !isIso(fields[2])
    ensures r.Ok? ==> (r.value.ready <==> fields[0] in {"Done", "Error"})
    ensures r.Ok? ==> r.value.id == fields[0] && r.value.status == fields[1] && r.value.summary == fields[4]
  {
    if !isIso(fields[2]) then Err(ValueError(BadTimestamp(fields[2])))
    else Ok(Change(
      id := fields[0], kind := "unknown", ready := fields[0] == "Done" || fields[0] == "Error",
      status := fields[1], spawnTime := fields[2], summary := fields[4]))
  }

  function ChangeDecoder(isIso: string -> bool): seq<string> --> Result<Change>
  {
    (fields: seq<string>) requires |fields| == 5 => ChangeOfFields(fields, isIso)
  }

  /** The parse of `pebble changes --abs-time`: no changes when the stripped
      output has fewer than two lines or its first line reads "No changes.";
      otherwise the header gives the column starts and every other non-blank
      line one change. */
  function ChangesOf(stdout: string, isIso: string -> bool): Result<seq<Change>>
  {
    var lines := SplitLines(Strip(stdout));
    if |lines| < 2 || Strip(lines[0]) == "No changes." then Ok([])
    else match ColumnStarts(lines[0], ChangeColumns)
      case Err(e) => Err(e)
      case Ok(starts) => DecodeRows(lines[1..], starts, ChangeDecoder(isIso))
  }

  method ParseChanges(stdout: string, isIso: string -> bool) returns (r: Result<seq<Change>>)
    ensures r == ChangesOf(stdout, isIso)
  {
    var lines := SplitLines(Strip(stdout));
    if |lines| < 2 || Strip(lines[0]) == "No changes." {
      return Ok([]);
    }
    var starts := FindColumns(lines[0], ChangeColumns);
    if starts.Err? {
      return Err(starts.error);
    }
    r := DecodeTableRows(lines[1..], starts.value, ChangeDecoder(isIso));
  }

  /** Output that is one line once stripped (empty, "No changes.", a header
      alone, with or without a final newline) has no changes. */
  lemma {:induction false} ChangesOfOneLine(stdout: string, isIso: string -> bool)
    requires NoLineBreak(Strip(stdout))
    ensures ChangesOf(stdout, isIso) == Ok([])
  {
    SplitLinesOfLine(Strip(stdout));
  }

  /** A first line reading "No changes." means no changes, whatever lines
      follow it. */
  lemma NoChangesSentinel(lead: string, rest: string, isIso: string -> bool)
    requires AllSpace(lead)
    ensures ChangesOf(lead + "No changes." + "\n" + rest, isIso) == Ok([])
  {
    var s := lead + "No changes." + "\n" + rest;
    var sentinel := "No changes.";
    var r := Strip(s);
    var y := SentinelStrip(lead, rest);
    assert y == [] || y[0] == '\n';
    assert NoLineBreak(sentinel);
    LineEndOfFree(sentinel, y);
    var lines := SplitLines(r);
    if |lines| >= 2 {
      assert lines[0] == r[..11];
      StripTrimmed(sentinel);
    }
  }

  /** Stripping a text whose first non-blank line is the sentinel leaves
      the sentinel, then nothing or a line break. */
  lemma SentinelStrip(lead: string, rest: string) returns (y: string)
    requires AllSpace(lead)
    ensures Strip(lead + "No changes." + "\n" + rest) == "No changes." + y
    ensures y == [] || y[0] == '\n'
  {
    var s := lead + "No changes." + "\n" + rest;
    var sentinel := "No changes.";
    var m := |lead|;
    StripIsSlice(s);
    var k := LeadingSpaces(s);
    var r := Strip(s);
    assert s[m] == 'N' && s[m + 10] == '.' && s[m + 11] == '\n';
    assert k == m by {
      assert s[..k] == s[0..k];
      AllSpaceBetween(s, 0, k);
      assert lead == s[0..m];
      AllSpaceBetween(s, 0, m);
    }
    AllSpaceBetween(s, k + |r|, |s|);
    assert k + |r| > m + 10;
    assert r[..11] == sentinel by {
      assert forall i :: 0 <= i < 11 ==> r[i] == s[m + i];
    }
    y := r[11..];
    assert r == sentinel + y;
  }

  /** The five fields the command prints for a change. */
  function ChangeFields(c: Change, readyTime: string): seq<string>
  {
    [c.id, c.status, c.spawnTime, readyTime, c.summary]
  }

  /** What a decoded change always looks like. */
  predicate Decodable(c: Change, isIso: string -> bool)
  {
    c.kind == "unknown" && c.ready == (c.id in {"Done", "Error"}) && isIso(c.spawnTime)
  }

  /** A row printed from a change, each cell padded to its column's width,
      decodes back to that change whatever its ready-time column holds. */
  lemma {:induction false} ChangeOfAlignedRow(c: Change, readyTime: string, widths: seq<nat>, isIso: string -> bool)
    requires Decodable(c, isIso)
    requires FitsWidths(ChangeFields(c, readyTime), widths)
    requires forall cell :: cell in ChangeFields(c, readyTime) ==> Trimmed(cell)
    ensures ChangeOfFields(RowFields(AlignedRow(ChangeFields(c, readyTime), widths), Offsets(widths)), isIso) == Ok(c)
  {
    var cells := ChangeFields(c, readyTime);
    assert forall i :: 0 <= i < |cells| ==> cells[i] in cells;
    RowFieldsOfAlignedRow(cells, widths);
  }

  /** As written, the ready flag follows the ID field: a change whose ID is
      a number, as every ID the command prints is, is never reported ready,
      even when its status is "Done". */
  lemma NumericIdNeverReady(fields: seq<string>, isIso: string -> bool)
    requires |fields| == 5 && fields[0] != [] && AllDigits(fields[0])
    requires ChangeOfFields(fields, isIso).Ok?
    ensures !ChangeOfFields(fields, isIso).value.ready
  {
    assert IsDigit(fields[0][0]);
  }

  /** The decoding the source evidently intends: the ready flag follows the
      status field (field 1); everything else is as `ChangeOfFields`. */
  function ChangeOfFieldsByStatus(fields: seq<string>, isIso: string -> bool): (r: Result<Change>)
    requires |fields| == 5
    ensures r.Err? <==> !isIso(fields[2])
    ensures r.Ok? ==> (r.value.ready <==> r.value.status in {"Done", "Error"})
  {
    match ChangeOfFields(fields, isIso)
    case Err(e) => Err(e)
    case Ok(c) => Ok(c.(ready := fields[1] == "Done" || fields[1] == "Error"))
  }

  /** The two decodings fail alike and differ in at most the ready flag,
      and they agree whenever the ID and the status agree on readiness. */
  lemma ByStatusDiffersOnlyInReady(fields: seq<string>, isIso: string -> bool)
    requires |fields| == 5
    ensures var w := ChangeOfFields(fields, isIso);
      var c := ChangeOfFieldsByStatus(fields, isIso);
      && (w.Err? <==> c.Err?)
      && (w.Err? ==> w == c)
      && (w.Ok? ==> c.value == w.value.(ready := c.value.ready))
      && (w.Ok? && (fields[0] in {"Done", "Error"} <==> fields[1] in {"Done", "Error"}) ==> w == c)
  {
  }

  /** With the corrected decoding, the row `1  Done  ...` is ready. */
  lemma DoneChangeReadyByStatus(spawn: string, readyTime: string, summary: string, isIso: string -> bool)
    requires isIso(spawn)
    ensures var fields := ["1", "Done", spawn, readyTime, summary];
      && ChangeOfFieldsByStatus(fields, isIso).Ok?
      && ChangeOfFieldsByStatus(fields, isIso).value.status == "Done"
      && ChangeOfFieldsByStatus(fields, isIso).value.ready
  {
  }

  /** The row `1  Done  ...` decodes to a change whose status is "Done" but
      which is not ready. */
  lemma DoneChangeNotReady(spawn: string, readyTime: string, summary: string, isIso: string -> bool)
    requires isIso(spawn)
    ensures var fields := ["1", "Done", spawn, readyTime, summary];
      && ChangeOfFields(fields, isIso).Ok?
      && ChangeOfFields(fields, isIso).value.status == "Done"
      && !ChangeOfFields(fields, isIso).value.ready
  {
    var fields := ["1", "Done", spawn, readyTime, summary];
    assert fields[0] != "Done" && fields[0] != "Error" by { assert fields[0][0] == '1'; }
  }
}
