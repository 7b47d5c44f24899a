/** `get_checks`: the `pebble checks` table decoded into check records. */
module Checks {
  import opened Types
  import opened PyStr

  /** The data rows after the header: a blank row or one of fewer than three
      words is skipped; otherwise its first three words give a check when the
      name is selected. This parser never fails. */
  function CheckRows(rows: seq<string>, names: seq<string>): seq<CheckInfo>
  {
    if rows == [] then []
    else
      var parts := Words(rows[0]);
      if Strip(rows[0]) == [] || |parts| < 3 || !Selected(parts[0], names) then CheckRows(rows[1..], names)
      else [CheckInfo(parts[0], parts[1], parts[2])] + CheckRows(rows[1..], names)
  }

  /** The parse of `pebble checks`: the stripped output is split on "\n" and
      its first line, the header, is dropped. */
  function ChecksOf(stdout: string, names: seq<string>): seq<CheckInfo>
  {
    CheckRows(SplitOn(Strip(stdout), '\n')[1..], names)
  }

  method ParseChecks(stdout: string, names: seq<string>) returns (checks: seq<CheckInfo>)
    ensures checks == ChecksOf(stdout, names)
  {
    var lines := SplitOn(Strip(stdout), '\n');
    var rows := lines[1..];
    checks := [];
    var i := 0;
    assert rows[0..] == rows;
    while i < |rows|
      invariant 0 <= i <= |rows|
      invariant CheckRows(rows, names) == checks + CheckRows(rows[i..], names)
    {
      assert rows[i..][1..] == rows[i + 1..];
      if Strip(rows[i]) != [] {
        var parts := Words(rows[i]);
        if |parts| >= 3 {
          var name := parts[0];
          if Selected(name, names) {
            checks := checks + [CheckInfo(name, parts[1], parts[2])];
          }
        }
      }
      i := i + 1;
    }
    assert rows[i..] == [];
    assert checks + [] == checks;
  }

  /** The checks among `checks` whose names are selected, in order. */
  function NamedChecks(checks: seq<CheckInfo>, names: seq<string>): (r: seq<CheckInfo>)
    ensures forall c :: c in r ==> c in checks && Selected(c.name, names)
  {
    if checks == [] then []
    else if Selected(checks[0].name, names) then [checks[0]] + NamedChecks(checks[1..], names)
    else NamedChecks(checks[1..], names)
  }

  /** Filtering by name is the unfiltered listing with the unselected checks
      removed, order kept. */
  lemma {:induction false} CheckRowsNamed(rows: seq<string>, names: seq<string>)
    ensures CheckRows(rows, names) == NamedChecks(CheckRows(rows, []), names)
  {
    if rows != [] {
      CheckRowsNamed(rows[1..], names);
    }
  }

  /** Output whose stripped text has no newline (empty, or a header alone,
      trailing newline or not) has no checks. */
  lemma {:induction false} ChecksOfOneLine(stdout: string, names: seq<string>)
    requires '\n' !in Strip(stdout)
    ensures ChecksOf(stdout, names) == []
  {
    var t := Strip(stdout);
    assert Join([t], "\n") == t;
    SplitOnOfJoin([t], '\n');
  }

  // ---------------------------------------------------------------------------
  // The table as the command prints it

  const ChecksHeader: string := "Check Level Status Failures Change"

  predicate Printable(c: CheckInfo)
  {
    IsWord(c.name) && IsWord(c.level) && IsWord(c.status)
  }

  /** A check's line: its three columns, then the columns the parser ignores. */
  function CheckLine(c: CheckInfo, more: seq<string>): string
  {
    Join([c.name, c.level, c.status] + more, " ")
  }

  function CheckLines(checks: seq<CheckInfo>, more: seq<string>): (lines: seq<string>)
    ensures |lines| == |checks|
    ensures forall i :: 0 <= i < |checks| ==> lines[i] == CheckLine(checks[i], more)
  {
    seq(|checks|, i requires 0 <= i < |checks| => CheckLine(checks[i], more))
  }

  function ChecksTable(checks: seq<CheckInfo>, more: seq<string>): string
  {
    Join([ChecksHeader] + CheckLines(checks, more), "\n")
  }

  lemma CheckLineShape(c: CheckInfo, more: seq<string>)
    requires Printable(c) && forall w :: w in more ==> IsWord(w)
    ensures var line := CheckLine(c, more);
      && Words(line) == [c.name, c.level, c.status] + more
      && line != [] && !IsSpace(line[0]) && !IsSpace(line[|line| - 1])
      && '\n' !in line
  {
    var ws := [c.name, c.level, c.status] + more;
    assert forall w :: w in ws ==> w in more || w == c.name || w == c.level || w == c.status;
    WordLine(ws);
  }

  lemma {:induction false} CheckRowsOfLines(checks: seq<CheckInfo>, more: seq<string>)
    requires forall c :: c in checks ==> Printable(c)
    requires forall w :: w in more ==> IsWord(w)
    ensures CheckRows(CheckLines(checks, more), []) == checks
  {
    if checks != [] {
      var lines := CheckLines(checks, more);
      CheckLineShape(checks[0], more);
      StripEmpty(lines[0]);
      var parts := Words(lines[0]);
      assert |parts| >= 3 && parts[0] == checks[0].name && parts[1] == checks[0].level && parts[2] == checks[0].status;
      assert CheckRows(lines, []) == [CheckInfo(parts[0], parts[1], parts[2])] + CheckRows(lines[1..], []);
      assert lines[1..] == CheckLines(checks[1..], more);
      CheckRowsOfLines(checks[1..], more);
      assert [checks[0]] + checks[1..] == checks;
    }
  }

  /** Parsing the printed table gives back the checks, in order, whatever the
      columns after the status hold. */
  lemma {:induction false} ChecksOfTable(checks: seq<CheckInfo>, more: seq<string>)
    requires forall c :: c in checks ==> Printable(c)
    requires forall w :: w in more ==> IsWord(w)
    ensures ChecksOf(ChecksTable(checks, more), []) == checks
  {
    var lines := [ChecksHeader] + CheckLines(checks, more);
    var table := ChecksTable(checks, more);
    forall i | 0 <= i < |lines|
      ensures lines[i] != [] && '\n' !in lines[i]
      ensures !IsSpace(lines[i][0]) && !IsSpace(lines[i][|lines[i]| - 1])
    {
      if i > 0 {
        assert checks[i - 1] in checks;
        CheckLineShape(checks[i - 1], more);
      }
    }
    JoinEnds(lines, "\n");
    StripTrimmed(table);
    SplitOnOfJoin(lines, '\n');
    assert lines[1..] == CheckLines(checks, more);
    CheckRowsOfLines(checks, more);
  }
}
