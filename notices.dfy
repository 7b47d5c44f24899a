/** `get_notices`: the `pebble notices` table decoded into notice records. */
module Notices {
  import opened Types
  import opened PyStr
  import opened Columns

  const NoticeColumns: seq<string> := ["ID", "User", "Type", "Key", "First", "Repeated", "Occurrences"]

  /** A notice from its seven fields: the user is absent for "public" and
      otherwise an integer; the occurrence count is an integer; the first and
      last times are kept as printed. */
  function NoticeOfFields(fields: seq<string>): (r: Result<Notice>)
    requires |fields| == 7
    ensures r.Ok? ==> (r.value.userId == None <==> fields[1] == "public")
    ensures r.Ok? && fields[1] != "public" ==> ParseInt(fields[1]) == Some(r.value.userId.value)
    ensures r.Ok? ==> ParseInt(fields[6]) == Some(r.value.occurrences)
    ensures r.Err? <==> (fields[1] != "public" && ParseInt(fields[1]).None?) || ParseInt(fields[6]).None?
  {
    if fields[1] != "public" && ParseInt(fields[1]).None? then Err(ValueError(NotAnInteger(fields[1])))
    else if ParseInt(fields[6]).None? then Err(ValueError(NotAnInteger(fields[6])))
    else Ok(Notice(
      id := fields[0],
      userId := if fields[1] == "public" then None else Some(ParseInt(fields[1]).value),
      noticeType := fields[2], key := fields[3],
      firstOccurred := fields[4], lastRepeated := fields[5],
      occurrences := ParseInt(fields[6]).value))
  }

  function NoticeDecoder(): seq<string> --> Result<Notice>
  {
    (fields: seq<string>) requires |fields| == 7 => NoticeOfFields(fields)
  }

  /** The parse of `pebble notices --abs-time`: no notices when the stripped
      output has fewer than two lines (there is no sentinel check); otherwise
      the header gives the column starts and every other non-blank line one
      notice. */
  function NoticesOf(stdout: string): Result<seq<Notice>>
  {
    var lines := SplitLines(Strip(stdout));
    if |lines| < 2 then Ok([])
    else match ColumnStarts(lines[0], NoticeColumns)
      case Err(e) => Err(e)
      case Ok(starts) => DecodeRows(lines[1..], starts, NoticeDecoder())
  }

  method ParseNotices(stdout: string) returns (r: Result<seq<Notice>>)
    ensures r == NoticesOf(stdout)
  {
    var lines := SplitLines(Strip(stdout));
    if |lines| < 2 {
      return Ok([]);
    }
    var starts := FindColumns(lines[0], NoticeColumns);
    if starts.Err? {
      return Err(starts.error);
    }
    r := DecodeTableRows(lines[1..], starts.value, NoticeDecoder());
  }

  /** Output that is one line once stripped (a header alone, with or without
      a final newline) has no notices. */
  lemma {:induction false} NoticesOfOneLine(stdout: string)
    requires NoLineBreak(Strip(stdout))
    ensures NoticesOf(stdout) == Ok([])
  {
    SplitLinesOfLine(Strip(stdout));
  }

  function UserText(userId: Option<int>): string
  {
    match userId
    case None => "public"
    case Some(u) => IntToString(u)
  }

  /** The seven fields the command prints for a notice. */
  function NoticeFields(n: Notice): seq<string>
  {
    [n.id, UserText(n.userId), n.noticeType, n.key, n.firstOccurred, n.lastRepeated, IntToString(n.occurrences)]
  }

  /** Decoding the printed fields of a notice gives the notice back. */
  lemma {:induction false} NoticeOfNoticeFields(n: Notice)
    ensures NoticeOfFields(NoticeFields(n)) == Ok(n)
  {
    var fields := NoticeFields(n);
    assert ParseInt(fields[6]) == Some(n.occurrences) by {
      ParseIntOfIntToString(n.occurrences);
    }
    if n.userId.Some? {
      var u := n.userId.value;
      assert fields[1] == IntToString(u);
      assert ParseInt(fields[1]) == Some(u) by {
        ParseIntOfIntToString(u);
      }
      assert fields[1] != "public" by {
        ParseIntOfIntToString(u);
        assert fields[1][0] == '-' || IsDigit(fields[1][0]);
      }
    } else {
      assert fields[1] == "public";
    }
  }

  /** A row printed from a notice, each cell padded to its column's width,
      decodes back to that notice. */
  lemma {:induction false} NoticeOfAlignedRow(n: Notice, widths: seq<nat>)
    requires FitsWidths(NoticeFields(n), widths)
    requires Trimmed(n.id) && Trimmed(n.noticeType) && Trimmed(n.key)
    requires Trimmed(n.firstOccurred) && Trimmed(n.lastRepeated)
    ensures NoticeOfFields(RowFields(AlignedRow(NoticeFields(n), widths), Offsets(widths))) == Ok(n)
  {
    var cells := NoticeFields(n);
    IntTextShape(n.occurrences);
    if n.userId.Some? {
      IntTextShape(n.userId.value);
    }
    RowFieldsOfAlignedRow(cells, widths);
    NoticeOfNoticeFields(n);
  }
}
