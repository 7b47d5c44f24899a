/** `get_services`: the `pebble services` table decoded into service records. */
module Services {
  import opened Types
  import opened PyStr

  const NoServices: string := "Plan has no services."

  /** The data rows after the header: a blank row or one of fewer than four
      words is skipped; a row of more than four words fails the tuple
      unpacking, even when its service is not among `names`; a row of exactly
      four words gives a service when its name is selected. */
  function ServiceRows(rows: seq<string>, names: seq<string>): Result<seq<ServiceInfo>>
  {
    if rows == [] then Ok([])
    else
      var parts := Words(rows[0]);
      if Strip(rows[0]) == [] || |parts| < 4 then ServiceRows(rows[1..], names)
      else if |parts| > 4 then Err(ValueError(TooManyValues))
      else if !Selected(parts[0], names) then ServiceRows(rows[1..], names)
      else Prepend([ServiceInfo(parts[0], parts[1], parts[2])], ServiceRows(rows[1..], names))
  }

  /** The parse of `pebble services --abs-time`: nothing for the "no
      services" sentinel, otherwise the rows after the header. */
  function ServicesOf(stdout: string, names: seq<string>): Result<seq<ServiceInfo>>
  {
    if Strip(stdout) == NoServices then Ok([])
    else
      var lines := SplitLines(Strip(stdout));
      ServiceRows(if lines == [] then [] else lines[1..], names)
  }

  method ParseServices(stdout: string, names: seq<string>) returns (r: Result<seq<ServiceInfo>>)
    ensures r == ServicesOf(stdout, names)
  {
    if Strip(stdout) == NoServices {
      return Ok([]);
    }
    var lines := SplitLines(Strip(stdout));
    var rows := if lines == [] then [] else lines[1..];
    var services: seq<ServiceInfo> := [];
    var i := 0;
    PrependNil(ServiceRows(rows, names));
    assert rows[0..] == rows;
    while i < |rows|
      invariant 0 <= i <= |rows|
      invariant ServiceRows(rows, names) == Prepend(services, ServiceRows(rows[i..], names))
    {
      assert rows[i..][1..] == rows[i + 1..];
      if Strip(rows[i]) != [] {
        var parts := Words(rows[i]);
        if |parts| >= 4 {
          if |parts| > 4 {
            return Err(ValueError(TooManyValues));
          }
          if Selected(parts[0], names) {
            var service := ServiceInfo(parts[0], parts[1], parts[2]);
            PrependPrepend(services, [service], ServiceRows(rows[i + 1..], names));
            services := services + [service];
          }
        }
      }
      i := i + 1;
    }
    assert rows[i..] == [];
    assert services + [] == services;
    return Ok(services);
  }

  /** The rows fail exactly when one of them has more than four words, and
      then with the unpacking error. */
  lemma {:induction false} ServiceRowsFail(rows: seq<string>, names: seq<string>)
    ensures ServiceRows(rows, names).Err? <==> exists i :: 0 <= i < |rows| && |Words(rows[i])| > 4
    ensures ServiceRows(rows, names).Err? ==> ServiceRows(rows, names).error == ValueError(TooManyValues)
  {
    if rows != [] {
      ServiceRowsFail(rows[1..], names);
      if Strip(rows[0]) == [] {
        WordsOfBlank(rows[0]);
      }
      assert (exists i :: 0 <= i < |rows| && |Words(rows[i])| > 4)
         <==> |Words(rows[0])| > 4 || exists i :: 0 <= i < |rows[1..]| && |Words(rows[1..][i])| > 4 by {
        if exists i :: 0 <= i < |rows| && |Words(rows[i])| > 4 {
          var i :| 0 <= i < |rows| && |Words(rows[i])| > 4;
          if i > 0 {
            assert |Words(rows[1..][i - 1])| > 4;
          }
        }
        if exists i :: 0 <= i < |rows[1..]| && |Words(rows[1..][i])| > 4 {
          var i :| 0 <= i < |rows[1..]| && |Words(rows[1..][i])| > 4;
          assert rows[i + 1] == rows[1..][i];
        }
      }
    }
  }

  /** The services among `services` whose names are selected, in order. */
  function Named(services: seq<ServiceInfo>, names: seq<string>): (r: seq<ServiceInfo>)
    ensures forall s :: s in r ==> s in services && Selected(s.name, names)
  {
    if services == [] then []
    else if Selected(services[0].name, names) then [services[0]] + Named(services[1..], names)
    else Named(services[1..], names)
  }

  function NamedResult(r: Result<seq<ServiceInfo>>, names: seq<string>): Result<seq<ServiceInfo>>
  {
    match r
    case Ok(services) => Ok(Named(services, names))
    case Err(e) => Err(e)
  }

  /** Filtering by name is the unfiltered listing with the unselected
      services removed, order kept. */
  lemma {:induction false} ServiceRowsNamed(rows: seq<string>, names: seq<string>)
    ensures ServiceRows(rows, names) == NamedResult(ServiceRows(rows, []), names)
  {
    if rows != [] {
      ServiceRowsNamed(rows[1..], names);
    }
  }

  /** Output that is one line once stripped (empty, the sentinel, a header
      alone, with or without a final newline) has no services. */
  lemma {:induction false} ServicesOfOneLine(stdout: string, names: seq<string>)
    requires NoLineBreak(Strip(stdout))
    ensures ServicesOf(stdout, names) == Ok([])
  {
    SplitLinesOfLine(Strip(stdout));
  }

  // ---------------------------------------------------------------------------
  // The table as the command prints it

  const ServicesHeader: string := "Service Startup Current Since"

  predicate Printable(s: ServiceInfo)
  {
    IsWord(s.name) && IsWord(s.startup) && IsWord(s.current)
  }

  function ServiceLine(s: ServiceInfo, since: string): string
  {
    Join([s.name, s.startup, s.current, since], " ")
  }

  function ServiceLines(services: seq<ServiceInfo>, since: string): (lines: seq<string>)
    ensures |lines| == |services|
    ensures forall i :: 0 <= i < |services| ==> lines[i] == ServiceLine(services[i], since)
  {
    seq(|services|, i requires 0 <= i < |services| => ServiceLine(services[i], since))
  }

  function ServicesTable(services: seq<ServiceInfo>, since: string): string
  {
    Join([ServicesHeader] + ServiceLines(services, since), "\n")
  }

  /** A printed service line is one non-blank line of four words. */
  lemma ServiceLineShape(s: ServiceInfo, since: string)
    requires Printable(s) && IsWord(since)
    ensures var line := ServiceLine(s, since);
      && Words(line) == [s.name, s.startup, s.current, since]
      && line != [] && !IsSpace(line[0]) && !IsSpace(line[|line| - 1])
      && NoLineBreak(line)
  {
    WordLine([s.name, s.startup, s.current, since]);
  }

  lemma {:induction false} ServiceRowsOfLines(services: seq<ServiceInfo>, since: string)
    requires forall s :: s in services ==> Printable(s)
    requires IsWord(since)
    ensures ServiceRows(ServiceLines(services, since), []) == Ok(services)
  {
    if services != [] {
      var lines := ServiceLines(services, since);
      ServiceLineShape(services[0], since);
      StripEmpty(lines[0]);
      assert lines[1..] == ServiceLines(services[1..], since);
      ServiceRowsOfLines(services[1..], since);
      assert [services[0]] + services[1..] == services;
    }
  }

  lemma TableLinesShape(services: seq<ServiceInfo>, since: string)
    requires forall s :: s in services ==> Printable(s)
    requires IsWord(since)
    ensures var lines := [ServicesHeader] + ServiceLines(services, since);
      forall i :: 0 <= i < |lines| ==>
        && lines[i] != [] && NoLineBreak(lines[i])
        && !IsSpace(lines[i][0]) && !IsSpace(lines[i][|lines[i]| - 1])
  {
    var lines := [ServicesHeader] + ServiceLines(services, since);
    forall i | 0 <= i < |lines|
      ensures lines[i] != [] && NoLineBreak(lines[i])
      ensures !IsSpace(lines[i][0]) && !IsSpace(lines[i][|lines[i]| - 1])
    {
      if i > 0 {
        assert services[i - 1] in services;
        ServiceLineShape(services[i - 1], since);
      }
    }
  }

  /** Parsing the printed table gives back the services, in order. */
  lemma {:induction false} ServicesOfTable(services: seq<ServiceInfo>, since: string)
    requires forall s :: s in services ==> Printable(s)
    requires IsWord(since)
    ensures ServicesOf(ServicesTable(services, since), []) == Ok(services)
  {
    var lines := [ServicesHeader] + ServiceLines(services, since);
    var table := ServicesTable(services, since);
    TableLinesShape(services, since);
    JoinEnds(lines, "\n");
    StripTrimmed(table);
    assert table[0] == 'S';
    SplitLinesOfJoin(lines);
    assert lines[1..] == ServiceLines(services, since);
    ServiceRowsOfLines(services, since);
  }
}
