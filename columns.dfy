/** Header-offset slicing of the column-aligned tables that `pebble changes`
    and `pebble notices` print: each column starts where its name first occurs
    in the header line, and a data row's field is the stripped text between
    two consecutive starts. */
module Columns {
  import opened Types
  import opened PyStr

  // ---------------------------------------------------------------------------
  // Locating the columns

  /** Where each named column starts in `header` (the first occurrence of its
      name), or the `ValueError` for the first name that does not occur. */
  function ColumnStarts(header: string, columns: seq<string>): (r: Result<seq<nat>>)
    ensures r.Ok? ==> |r.value| == |columns|
  {
    if columns == [] then Ok([])
    else
      var idx := Find(header, columns[0]);
      if idx == -1 then Err(ValueError(ColumnNotFound(columns[0], header)))
      else Prepend([idx as nat], ColumnStarts(header, columns[1..]))
  }

  /** The lookup succeeds exactly when every name occurs in the header; each
      start is then that name's first occurrence; otherwise the error names
      the first column that is missing. */
  lemma {:induction false} ColumnStartsMeaning(header: string, columns: seq<string>)
    ensures var r := ColumnStarts(header, columns);
      && (r.Ok? <==> forall i :: 0 <= i < |columns| ==> Find(header, columns[i]) != -1)
      && (r.Ok? ==> |r.value| == |columns|
                    && forall i :: 0 <= i < |columns| ==> r.value[i] == Find(header, columns[i]))
      && (r.Err? ==> exists i :: 0 <= i < |columns|
                       && Find(header, columns[i]) == -1
                       && (forall j :: 0 <= j < i ==> Find(header, columns[j]) != -1)
                       && r.error == ValueError(ColumnNotFound(columns[i], header)))
  {
    if columns != [] {
      var tail := columns[1..];
      ColumnStartsMeaning(header, tail);
      var idx := Find(header, columns[0]);
      if idx != -1 {
        var rest := ColumnStarts(header, tail);
        if rest.Err? {
          var i :| 0 <= i < |tail| && Find(header, tail[i]) == -1
                   && (forall j :: 0 <= j < i ==> Find(header, tail[j]) != -1)
                   && rest.error == ValueError(ColumnNotFound(tail[i], header));
          assert columns[i + 1] == tail[i];
          assert forall j :: 1 <= j < i + 1 ==> columns[j] == tail[j - 1];
        } else {
          assert forall i :: 1 <= i < |columns| ==> columns[i] == tail[i - 1];
        }
      } else {
        assert Find(header, columns[0]) == -1;
      }
    }
  }

  /** The loop that collects the column starts of the header. */
  method FindColumns(header: string, columns: seq<string>) returns (r: Result<seq<nat>>)
    ensures r == ColumnStarts(header, columns)
  {
    var starts: seq<nat> := [];
    var i := 0;
    PrependNil(ColumnStarts(header, columns));
    assert columns[0..] == columns;
    while i < |columns|
      invariant 0 <= i <= |columns|
      invariant ColumnStarts(header, columns) == Prepend(starts, ColumnStarts(header, columns[i..]))
    {
      assert columns[i..][1..] == columns[i + 1..];
      var idx := Find(header, columns[i]);
      if idx == -1 {
        return Err(ValueError(ColumnNotFound(columns[i], header)));
      }
      PrependPrepend(starts, [idx as nat], ColumnStarts(header, columns[i + 1..]));
      starts := starts + [idx as nat];
      i := i + 1;
    }
    assert columns[i..] == [];
    assert starts + [] == starts;
    return Ok(starts);
  }

  // ---------------------------------------------------------------------------
  // Slicing a data row

  /** Field `i` of `line`: from column `i`'s start up to the next column's
      start (the last column runs to the end of the line), stripped. */
  function FieldAt(line: string, starts: seq<nat>, i: nat): string
    requires i < |starts|
  {
    if i + 1 < |starts| then Strip(Slice(line, starts[i], starts[i + 1]))
    else Strip(Slice(line, starts[i], |line|))
  }

  function RowFields(line: string, starts: seq<nat>): (fields: seq<string>)
    ensures |fields| == |starts|
    ensures forall i :: 0 <= i < |starts| ==> fields[i] == FieldAt(line, starts, i)
  {
    seq(|starts|, i requires 0 <= i < |starts| => FieldAt(line, starts, i))
  }

  /** One field: up to the next column's start, or to the end of the line
      for the last column. */
  method SliceField(line: string, starts: seq<nat>, i: nat) returns (value: string)
    requires i < |starts|
    ensures value == FieldAt(line, starts, i)
  {
    if i + 1 < |starts| {
      value := Strip(Slice(line, starts[i], starts[i + 1]));
    } else {
      value := Strip(Slice(line, starts[i], |line|));
    }
  }

  /** The sequence `f(0), ..., f(n - 1)`, built one element at a time. */
  function Tabulate<T>(f: nat -> T, n: nat): (r: seq<T>)
    ensures |r| == n
  {
    if n == 0 then [] else Tabulate(f, n - 1) + [f(n - 1)]
  }

  lemma {:induction false} TabulateIndex<T>(f: nat -> T, n: nat)
    ensures forall k :: 0 <= k < n ==> Tabulate(f, n)[k] == f(k)
  {
    if n > 0 {
      TabulateIndex(f, n - 1);
    }
  }

  /** Field `k` of the row, for every column position `k`. */
  function FieldOf(line: string, starts: seq<nat>): nat -> string
  {
    (k: nat) => if k < |starts| then FieldAt(line, starts, k) else []
  }

  /** The inner loop of the parsers: one field per column, in column order. */
  method SliceFields(line: string, starts: seq<nat>) returns (fields: seq<string>)
    ensures fields == RowFields(line, starts)
  {
    ghost var f := FieldOf(line, starts);
    fields := [];
    var i := 0;
    while i < |starts|
      invariant 0 <= i <= |starts|
      invariant fields == Tabulate(f, i)
    {
      var value := SliceField(line, starts, i);
      assert value == f(i);
      fields := fields + [value];
      i := i + 1;
    }
    TabulateIndex(f, i);
    RowFieldsOfFields(line, starts, fields);
  }

  /** A sequence holding field `k` at every position `k` is the row's fields. */
  lemma RowFieldsOfFields(line: string, starts: seq<nat>, fields: seq<string>)
    requires |fields| == |starts|
    requires forall k :: 0 <= k < |starts| ==> fields[k] == FieldAt(line, starts, k)
    ensures fields == RowFields(line, starts)
  {
  }

  // ---------------------------------------------------------------------------
  // Decoding the data rows

  /** The rows that are not blank (`line.strip()` is non-empty), in order. */
  function NonBlank(rows: seq<string>): (r: seq<string>)
    ensures |r| <= |rows|
  {
    if rows == [] then []
    else if Strip(rows[0]) == [] then NonBlank(rows[1..])
    else [rows[0]] + NonBlank(rows[1..])
  }

  /** Decoding every non-blank row's fields with `decode`; the first row that
      fails to decode fails the whole table. */
  function DecodeRows<T>(rows: seq<string>, starts: seq<nat>, decode: seq<string> --> Result<T>): Result<seq<T>>
    requires forall fields :: |fields| == |starts| ==> decode.requires(fields)
  {
    if rows == [] then Ok([])
    else if Strip(rows[0]) == [] then DecodeRows(rows[1..], starts, decode)
    else match decode(RowFields(rows[0], starts))
      case Err(e) => Err(e)
      case Ok(x) => Prepend([x], DecodeRows(rows[1..], starts, decode))
  }

  /** `r` is what decoding the rows `kept` in order yields: it succeeds
      exactly when every row decodes, and then record `k` is the decoding of
      row `k`; otherwise its error is the one of the first row that fails. */
  ghost predicate DecodedAs<T>(kept: seq<string>, starts: seq<nat>, decode: seq<string> --> Result<T>, r: Result<seq<T>>)
    requires forall fields :: |fields| == |starts| ==> decode.requires(fields)
  {
    && (r.Ok? <==> forall k :: 0 <= k < |kept| ==> decode(RowFields(kept[k], starts)).Ok?)
    && (r.Ok? ==> |r.value| == |kept|
                  && forall k :: 0 <= k < |kept| ==> decode(RowFields(kept[k], starts)) == Ok(r.value[k]))
    && (r.Err? ==> exists k :: 0 <= k < |kept|
                     && (forall j :: 0 <= j < k ==> decode(RowFields(kept[j], starts)).Ok?)
                     && decode(RowFields(kept[k], starts)) == Err(r.error))
  }

  /** Decoding one more row in front keeps `DecodedAs`. */
  lemma DecodedCons<T>(row: string, rest: seq<string>, starts: seq<nat>, decode: seq<string> --> Result<T>, more: Result<seq<T>>)
    requires forall fields :: |fields| == |starts| ==> decode.requires(fields)
    requires DecodedAs(rest, starts, decode, more)
    ensures DecodedAs([row] + rest, starts, decode,
                      match decode(RowFields(row, starts)) case Err(e) => Err(e) case Ok(x) => Prepend([x], more))
  {
    var d := decode(RowFields(row, starts));
    if d.Err? {
      var kept := [row] + rest;
      assert kept[0] == row;
    } else if more.Ok? {
      DecodedConsOk(row, rest, starts, decode, d.value, more.value);
    } else {
      DecodedConsErr(row, rest, starts, decode, d.value, more.error);
    }
  }

  lemma DecodedConsOk<T>(row: string, rest: seq<string>, starts: seq<nat>, decode: seq<string> --> Result<T>, x: T, xs: seq<T>)
    requires forall fields :: |fields| == |starts| ==> decode.requires(fields)
    requires decode(RowFields(row, starts)) == Ok(x)
    requires DecodedAs(rest, starts, decode, Ok(xs))
    ensures DecodedAs([row] + rest, starts, decode, Ok([x] + xs))
  {
    var kept := [row] + rest;
    assert forall k :: 1 <= k < |kept| ==> kept[k] == rest[k - 1];
  }

  lemma DecodedConsErr<T>(row: string, rest: seq<string>, starts: seq<nat>, decode: seq<string> --> Result<T>, x: T, e: Error)
    requires forall fields :: |fields| == |starts| ==> decode.requires(fields)
    requires decode(RowFields(row, starts)) == Ok(x)
    requires DecodedAs(rest, starts, decode, Err(e))
    ensures DecodedAs([row] + rest, starts, decode, Err(e))
  {
    var kept := [row] + rest;
    var k :| 0 <= k < |rest|
             && (forall j :: 0 <= j < k ==> decode(RowFields(rest[j], starts)).Ok?)
             && decode(RowFields(rest[k], starts)) == Err(e);
    assert kept[k + 1] == rest[k];
    assert forall j :: 1 <= j < |kept| ==> kept[j] == rest[j - 1];
  }

  /** Every non-blank row yields exactly one record, in input order: the
      table decodes exactly when each non-blank row does, and then record `k`
      is the decoding of the `k`-th non-blank row; otherwise the error is the
      one of the first row that fails. */
  lemma {:induction false} DecodeRowsMeaning<T>(rows: seq<string>, starts: seq<nat>, decode: seq<string> --> Result<T>)
    requires forall fields :: |fields| == |starts| ==> decode.requires(fields)
    ensures DecodedAs(NonBlank(rows), starts, decode, DecodeRows(rows, starts, decode))
  {
    if rows != [] {
      var tail := rows[1..];
      DecodeRowsMeaning(tail, starts, decode);
      if Strip(rows[0]) != [] {
        assert NonBlank(rows) == [rows[0]] + NonBlank(tail);
        DecodedCons(rows[0], NonBlank(tail), starts, decode, DecodeRows(tail, starts, decode));
      }
    }
  }

  /** The loop over the data rows of a table, appending one record per
      non-blank row. */
  method DecodeTableRows<T>(rows: seq<string>, starts: seq<nat>, decode: seq<string> --> Result<T>)
    returns (r: Result<seq<T>>)
    requires forall fields :: |fields| == |starts| ==> decode.requires(fields)
    ensures r == DecodeRows(rows, starts, decode)
  {
    var records: seq<T> := [];
    var i := 0;
    PrependNil(DecodeRows(rows, starts, decode));
    assert rows[0..] == rows;
    while i < |rows|
      invariant 0 <= i <= |rows|
      invariant DecodeRows(rows, starts, decode) == Prepend(records, DecodeRows(rows[i..], starts, decode))
    {
      assert rows[i..][1..] == rows[i + 1..];
      if Strip(rows[i]) != [] {
        var fields := SliceFields(rows[i], starts);
        var record := decode(fields);
        if record.Err? {
          return Err(record.error);
        }
        PrependPrepend(records, [record.value], DecodeRows(rows[i + 1..], starts, decode));
        records := records + [record.value];
      }
      i := i + 1;
    }
    assert rows[i..] == [];
    assert records + [] == records;
    return Ok(records);
  }

  // ---------------------------------------------------------------------------
  // Aligned rows

  function Sum(widths: seq<nat>): nat
  {
    if widths == [] then 0 else Sum(widths[..|widths| - 1]) + widths[|widths| - 1]
  }

  /** The column starts of a table whose columns have the given widths. */
  function Offsets(widths: seq<nat>): (starts: seq<nat>)
    ensures |starts| == |widths|
    ensures forall i :: 0 <= i < |widths| ==> starts[i] == Sum(widths[..i])
  {
    seq(|widths|, i requires 0 <= i < |widths| => Sum(widths[..i]))
  }

  /** A cell padded with blanks to its column's width. */
  function Pad(cell: string, width: nat): (s: string)
    requires |cell| <= width
    ensures |s| == width
  {
    cell + Spaces(width - |cell|)
  }

  predicate FitsWidths(cells: seq<string>, widths: seq<nat>)
  {
    |cells| == |widths| && forall i :: 0 <= i < |cells| ==> |cells[i]| <= widths[i]
  }

  /** A row as the command prints it: every cell padded to its column's width. */
  function AlignedRow(cells: seq<string>, widths: seq<nat>): (line: string)
    requires FitsWidths(cells, widths)
    ensures |line| == Sum(widths)
  {
    if cells == [] then []
    else
      var n := |cells| - 1;
      AlignedRow(cells[..n], widths[..n]) + Pad(cells[n], widths[n])
  }

  lemma {:induction false} SumPrefix(widths: seq<nat>, i: nat)
    requires i <= |widths|
    ensures Sum(widths[..i]) <= Sum(widths)
    decreases |widths|
  {
    if i < |widths| {
      var n := |widths| - 1;
      assert widths[..n][..i] == widths[..i];
      SumPrefix(widths[..n], i);
    } else {
      assert widths[..i] == widths;
    }
  }

  /** Column `i` of an aligned row holds its padded cell. */
  lemma {:induction false} AlignedRowCell(cells: seq<string>, widths: seq<nat>, i: nat)
    requires FitsWidths(cells, widths) && i < |cells|
    ensures Sum(widths[..i]) + widths[i] <= Sum(widths)
    ensures AlignedRow(cells, widths)[Sum(widths[..i])..Sum(widths[..i]) + widths[i]] == Pad(cells[i], widths[i])
    decreases |cells|
  {
    var n := |cells| - 1;
    var line := AlignedRow(cells, widths);
    var front := AlignedRow(cells[..n], widths[..n]);
    assert widths[..n + 1] == widths;
    if i == n {
      assert widths[..i] == widths[..n];
      assert line[|front|..] == Pad(cells[n], widths[n]);
    } else {
      var a, b := Sum(widths[..i]), Sum(widths[..i]) + widths[i];
      assert b <= |front| && front[a..b] == Pad(cells[i], widths[i]) by {
        assert widths[..n][..i] == widths[..i];
        assert FitsWidths(cells[..n], widths[..n]);
        AlignedRowCell(cells[..n], widths[..n], i);
        assert cells[..n][i] == cells[i];
      }
      assert line[a..b] == front[a..b];
    }
  }

  /** Slicing an aligned row at the columns' offsets gives back its cells,
      when no cell has whitespace at either end. */
  lemma {:induction false} RowFieldsOfAlignedRow(cells: seq<string>, widths: seq<nat>)
    requires FitsWidths(cells, widths)
    requires forall i :: 0 <= i < |cells| ==> Trimmed(cells[i])
    ensures RowFields(AlignedRow(cells, widths), Offsets(widths)) == cells
  {
    var fields := RowFields(AlignedRow(cells, widths), Offsets(widths));
    forall i | 0 <= i < |cells|
      ensures fields[i] == cells[i]
    {
      AlignedRowField(cells, widths, i);
    }
  }

  /** Field `i` of an aligned row is cell `i`, when the cell has no blanks
      at either end. */
  lemma AlignedRowField(cells: seq<string>, widths: seq<nat>, i: nat)
    requires FitsWidths(cells, widths) && i < |cells| && Trimmed(cells[i])
    ensures FieldAt(AlignedRow(cells, widths), Offsets(widths), i) == cells[i]
  {
    var line := AlignedRow(cells, widths);
    var starts := Offsets(widths);
    var a := starts[i];
    assert a == Sum(widths[..i]);
    var b := a + widths[i];
    assert FieldAt(line, starts, i) == Strip(Slice(line, a, b)) by {
      OffsetsNext(widths, i);
    }
    assert Slice(line, a, b) == Pad(cells[i], widths[i]) by {
      AlignedRowSlice(cells, widths, i, a, b);
    }
    var pad := Spaces(widths[i] - |cells[i]|);
    assert Pad(cells[i], widths[i]) == cells[i] + pad;
    StripPadded(cells[i], pad);
    assert FieldAt(line, starts, i) == cells[i];
  }

  /** Column `i` ends where the next one starts, or at the row's end. */
  lemma OffsetsNext(widths: seq<nat>, i: nat)
    requires i < |widths|
    ensures i + 1 < |widths| ==> Offsets(widths)[i + 1] == Offsets(widths)[i] + widths[i]
    ensures i + 1 == |widths| ==> Sum(widths) == Offsets(widths)[i] + widths[i]
  {
    var front := widths[..i + 1];
    assert front[..i] == widths[..i] && front[i] == widths[i];
    assert Sum(front) == Sum(widths[..i]) + widths[i];
    if i + 1 == |widths| {
      assert front == widths;
    }
  }

  lemma AlignedRowSlice(cells: seq<string>, widths: seq<nat>, i: nat, a: nat, b: nat)
    requires FitsWidths(cells, widths) && i < |cells|
    requires a == Sum(widths[..i]) && b == a + widths[i]
    ensures Slice(AlignedRow(cells, widths), a, b) == Pad(cells[i], widths[i])
  {
    var line := AlignedRow(cells, widths);
    AlignedRowCell(cells, widths, i);
    assert b <= |line| && line[a..b] == Pad(cells[i], widths[i]);
    if a < b {
      assert Min(b, |line|) == b;
    }
  }
}
