/** `list_files`: the `pebble ls --abs-time -l` listing decoded into file
    records. Each line has six whitespace-separated columns: the type letter
    and permission string, the owner, the group, the size, the ISO-8601
    modification time and the name, which may itself contain blanks. */
module Files {
  import opened Types
  import opened PyStr
  import opened Decoders

  /** What the listing needs from the caller's environment: the caller's own
      user and group ids (`os.getuid()`, `os.getgid()`), shell-pattern
      matching (`fnmatch.fnmatch`) and the ISO-8601 check of
      `datetime.fromisoformat`. */
  datatype Host = Host(uid: int, gid: int, fnmatch: (string, string) -> bool, isIso: string -> bool)

  /** The split limit the source passes to `split(None, ...)`. */
  const WrittenMaxSplit: nat := 6

  /** The split limit that keeps the sixth column, the name, in one piece. */
  const ListingMaxSplit: nat := 5

  /** No pattern (or an empty one) keeps every name. */
  predicate Matches(name: string, pattern: Option<string>, host: Host)
  {
    pattern.None? || pattern.value == [] || host.fnmatch(name, pattern.value)
  }

  /** A file from a split line of at least six parts; the name is the last
      part. Decoding fails on a permission string that is not nine
      characters after the type letter, on a size `_human_size_to_int`
      rejects, and on a time that is not ISO-8601, in that order. */
  function FileOfParts(parts: seq<string>, path: string, host: Host): (r: Result<FileInfo>)
    requires |parts| >= 6
    ensures r.Ok? ==> r.value.name == parts[|parts| - 1] && r.value.path == path
    ensures r.Ok? ==> (r.value.fileType == Directory <==> StartsWith(parts[0], "d"))
    ensures r.Ok? ==> r.value.userId == (if parts[1] == "root" then 0 else host.uid)
    ensures r.Ok? ==> r.value.groupId == (if parts[2] == "root" then 0 else host.gid)
    ensures r.Ok? ==> 0 <= r.value.permissions < 512
  {
    var mode := Slice(parts[0], 1, |parts[0]|);
    if |mode| != 9 then Err(ValueError(BadPermissionLength))
    else match HumanSizeToInt(parts[3])
      case Err(e) => Err(e)
      case Ok(size) =>
        if !host.isIso(parts[4]) then Err(ValueError(BadTimestamp(parts[4])))
        else
          PermissionsDigits(mode);
          Ok(FileInfo(
            path := path, name := parts[|parts| - 1],
            fileType := if StartsWith(parts[0], "d") then Directory else File,
            permissions := PermissionsValue(mode),
            user := parts[1], userId := if parts[1] == "root" then 0 else host.uid,
            group := parts[2], groupId := if parts[2] == "root" then 0 else host.gid,
            size := size, lastModified := parts[4]))
  }

  /** The body of the loop for one line that is kept: the `FileInfo`
      construction with its decoders. */
  method DecodeFile(parts: seq<string>, path: string, host: Host) returns (r: Result<FileInfo>)
    requires |parts| >= 6
    ensures r == FileOfParts(parts, path, host)
  {
    var permissions := PermissionsToInt(Slice(parts[0], 1, |parts[0]|));
    if permissions.Err? {
      return Err(permissions.error);
    }
    var user := parts[1];
    var userId := if user == "root" then 0 else host.uid;
    var group := parts[2];
    var groupId := if group == "root" then 0 else host.gid;
    var size := HumanSizeToInt(parts[3]);
    if size.Err? {
      return Err(size.error);
    }
    if !host.isIso(parts[4]) {
      return Err(ValueError(BadTimestamp(parts[4])));
    }
    return Ok(FileInfo(
      path := path, name := parts[|parts| - 1],
      fileType := if StartsWith(parts[0], "d") then Directory else File,
      permissions := permissions.value, user := user, userId := userId,
      group := group, groupId := groupId, size := size.value, lastModified := parts[4]));
  }

  /** The listing's lines, with no header to skip: a blank line or one of
      fewer than six parts is skipped, a name the pattern rejects is skipped
      before anything else is decoded, and the first line that fails to
      decode fails the listing. */
  function FileRows(rows: seq<string>, path: string, pattern: Option<string>, host: Host, maxsplit: nat): Result<seq<FileInfo>>
  {
    if rows == [] then Ok([])
    else
      var parts := SplitMax(rows[0], maxsplit);
      if Strip(rows[0]) == [] || |parts| < 6 then FileRows(rows[1..], path, pattern, host, maxsplit)
      else if !Matches(parts[|parts| - 1], pattern, host) then FileRows(rows[1..], path, pattern, host, maxsplit)
      else match FileOfParts(parts, path, host)
        case Err(e) => Err(e)
        case Ok(f) => Prepend([f], FileRows(rows[1..], path, pattern, host, maxsplit))
  }

  /** The parse of the listing with a given split limit. */
  function FilesOf(stdout: string, path: string, pattern: Option<string>, host: Host, maxsplit: nat): Result<seq<FileInfo>>
  {
    FileRows(SplitOn(Strip(stdout), '\n'), path, pattern, host, maxsplit)
  }

  /** The parse loop, with the split limit as a parameter: `WrittenMaxSplit`
      is the source as written, `ListingMaxSplit` the corrected one. */
  method ParseFiles(stdout: string, path: string, pattern: Option<string>, host: Host, maxsplit: nat)
    returns (r: Result<seq<FileInfo>>)
    ensures r == FilesOf(stdout, path, pattern, host, maxsplit)
  {
    var rows := SplitOn(Strip(stdout), '\n');
    var files: seq<FileInfo> := [];
    var i := 0;
    PrependNil(FileRows(rows, path, pattern, host, maxsplit));
    assert rows[0..] == rows;
    while i < |rows|
      invariant 0 <= i <= |rows|
      invariant FileRows(rows, path, pattern, host, maxsplit)
                == Prepend(files, FileRows(rows[i..], path, pattern, host, maxsplit))
    {
      var row := ParseRow(rows, i, path, pattern, host, maxsplit);
      if row.Err? {
        return Err(row.error);
      }
      if row.value.Some? {
        var file := row.value.value;
        PrependPrepend(files, [file], FileRows(rows[i + 1..], path, pattern, host, maxsplit));
        files := files + [file];
      }
      i := i + 1;
    }
    assert rows[i..] == [];
    assert files + [] == files;
    return Ok(files);
  }

  /** One pass of the loop over line `i`: an error, a skipped line
      (`None`) or the decoded file. */
  method ParseRow(rows: seq<string>, i: nat, path: string, pattern: Option<string>, host: Host, maxsplit: nat)
    returns (r: Result<Option<FileInfo>>)
    requires i < |rows|
    ensures r.Err? ==> FileRows(rows[i..], path, pattern, host, maxsplit) == Err(r.error)
    ensures r == Ok(None) ==> FileRows(rows[i..], path, pattern, host, maxsplit) == FileRows(rows[i + 1..], path, pattern, host, maxsplit)
    ensures r.Ok? && r.value.Some? ==>
      FileRows(rows[i..], path, pattern, host, maxsplit) == Prepend([r.value.value], FileRows(rows[i + 1..], path, pattern, host, maxsplit))
  {
    assert rows[i..][1..] == rows[i + 1..];
    var line := rows[i];
    if Strip(line) == [] {
      return Ok(None);
    }
    var parts := SplitMax(line, maxsplit);
    if |parts| < 6 {
      return Ok(None);
    }
    var name := parts[|parts| - 1];
    if !Matches(name, pattern, host) {
      return Ok(None);
    }
    var decoded := DecodeFile(parts, path, host);
    if decoded.Err? {
      return Err(decoded.error);
    }
    return Ok(Some(decoded.value));
  }

  // ---------------------------------------------------------------------------
  // Filtering by pattern

  function Matching(files: seq<FileInfo>, pattern: Option<string>, host: Host): (r: seq<FileInfo>)
    ensures forall f :: f in r ==> f in files && Matches(f.name, pattern, host)
  {
    if files == [] then []
    else if Matches(files[0].name, pattern, host) then [files[0]] + Matching(files[1..], pattern, host)
    else Matching(files[1..], pattern, host)
  }

  /** When the whole listing decodes, a pattern keeps exactly the files whose
      names it matches, in order. */
  lemma {:induction false} FileRowsMatching(rows: seq<string>, path: string, pattern: Option<string>, host: Host, maxsplit: nat)
    requires FileRows(rows, path, None, host, maxsplit).Ok?
    ensures FileRows(rows, path, pattern, host, maxsplit)
            == Ok(Matching(FileRows(rows, path, None, host, maxsplit).value, pattern, host))
  {
    if rows != [] {
      FileRowsMatching(rows[1..], path, pattern, host, maxsplit);
    }
  }

  /** A non-blank line of at least six parts whose name the pattern rejects:
      the loop moves on before decoding anything else on it. */
  predicate Rejected(row: string, pattern: Option<string>, host: Host, maxsplit: nat)
  {
    var parts := SplitMax(row, maxsplit);
    Strip(row) != [] && |parts| >= 6 && !Matches(parts[|parts| - 1], pattern, host)
  }

  /** The lines a pattern leaves for decoding, in order. */
  function KeptRows(rows: seq<string>, pattern: Option<string>, host: Host, maxsplit: nat): (kept: seq<string>)
    ensures forall row :: row in kept ==> row in rows && !Rejected(row, pattern, host, maxsplit)
  {
    if rows == [] then []
    else if Rejected(rows[0], pattern, host, maxsplit) then KeptRows(rows[1..], pattern, host, maxsplit)
    else [rows[0]] + KeptRows(rows[1..], pattern, host, maxsplit)
  }

  /** Listing with a pattern is listing, without a pattern, only the lines
      whose names it matches: a line the pattern rejects can never fail the
      listing, however malformed its other columns are. */
  lemma {:induction false} FileRowsKept(rows: seq<string>, path: string, pattern: Option<string>, host: Host, maxsplit: nat)
    ensures FileRows(rows, path, pattern, host, maxsplit)
            == FileRows(KeptRows(rows, pattern, host, maxsplit), path, None, host, maxsplit)
  {
    if rows != [] {
      FileRowsKept(rows[1..], path, pattern, host, maxsplit);
      var kept := KeptRows(rows, pattern, host, maxsplit);
      if !Rejected(rows[0], pattern, host, maxsplit) {
        assert kept[0] == rows[0] && kept[1..] == KeptRows(rows[1..], pattern, host, maxsplit);
      }
    }
  }

  // ---------------------------------------------------------------------------
  // The listing as the command prints it

  function TypeLetter(t: FileType): char
  {
    if t == Directory then 'd' else '-'
  }

  function SizeText(size: Option<int>): string
  {
    match size
    case None => "-"
    case Some(n) => IntToString(n) + "B"
  }

  /** A file the listing can describe: the owner and group columns carry the
      ids the parser infers, and every column but the name is one word. */
  predicate Listable(f: FileInfo, path: string, host: Host)
  {
    && f.path == path
    && 0 <= f.permissions < 512
    && IsWord(f.user) && f.userId == (if f.user == "root" then 0 else host.uid)
    && IsWord(f.group) && f.groupId == (if f.group == "root" then 0 else host.gid)
    && IsWord(f.lastModified) && host.isIso(f.lastModified)
    && f.name != [] && Trimmed(f.name) && '\n' !in f.name
  }

  /** The five leading columns; the mode is printed modulo 0o1000. */
  function Columns(f: FileInfo): seq<string>
  {
    [[TypeLetter(f.fileType)] + ModeString(f.permissions % 512), f.user, f.group, SizeText(f.size), f.lastModified]
  }

  /** The line the command prints for a file, one blank between columns. */
  function ListingLine(f: FileInfo): string
  {
    Join(Columns(f) + [f.name], " ")
  }

  /** The size column is one word, and it decodes back to the size. */
  lemma SizeTextDecodes(size: Option<int>)
    ensures IsWord(SizeText(size))
    ensures HumanSizeToInt(SizeText(size)) == Ok(size)
  {
    match size
    case None =>
      assert SizeText(size) == "-";
    case Some(n) =>
      assert SizeText(size) == IntToString(n) + "B";
      SizeTextWord(n);
      UpperB();
      HumanSizeOfText(n, "B", Bytes);
      assert UnitFactor(Bytes) == 1;
      assert n * 1 == n;
  }

  lemma UpperB()
    ensures Upper("B") == UnitSuffix(Bytes)
  {
    assert Upper("B")[0] == UpperChar('B');
  }

  lemma SizeTextWord(n: int)
    ensures IsWord(IntToString(n) + "B")
  {
    var s := IntToString(n);
    var t := s + "B";
    IntTextShape(n);
    forall i | 0 <= i < |t| ensures !IsSpace(t[i]) {
      if i < |s| { assert t[i] == s[i]; }
    }
  }

  lemma FirstColumnWord(t: FileType, mode: nat)
    requires mode < 512
    ensures IsWord([TypeLetter(t)] + ModeString(mode))
  {
    var first := [TypeLetter(t)] + ModeString(mode);
    ModeStringWord(mode);
    forall i | 0 <= i < |first| ensures !IsSpace(first[i]) {
      if i > 0 { assert first[i] == ModeString(mode)[i - 1]; }
    }
  }

  /** The five leading columns of a listable file are words, and they decode
      back to the file whatever the name part is. */
  lemma {:induction false} FileOfColumns(f: FileInfo, path: string, host: Host, name: string)
    requires Listable(f, path, host)
    ensures forall w :: w in Columns(f) ==> IsWord(w)
    ensures FileOfParts(Columns(f) + [name], path, host) == Ok(f.(name := name))
  {
    var cols := Columns(f);
    var first := cols[0];
    assert f.permissions % 512 == f.permissions;
    FirstColumnWord(f.fileType, f.permissions);
    SizeTextDecodes(f.size);
    var parts := cols + [name];
    assert parts[0] == first && parts[3] == SizeText(f.size) && parts[4] == f.lastModified;
    assert Slice(first, 1, |first|) == ModeString(f.permissions);
    PermissionsOfModeString(f.permissions);
    assert StartsWith(first, "d") <==> f.fileType == Directory by {
      assert first[..1] == [TypeLetter(f.fileType)];
    }
  }

  /** A listable file whose printed line a split limit reads back: the
      corrected limit always, a larger one (the source's) only when the name
      holds no blank. */
  predicate Readable(f: FileInfo, path: string, host: Host, maxsplit: nat)
  {
    Listable(f, path, host) && (maxsplit == ListingMaxSplit || (maxsplit > ListingMaxSplit && NoSpace(f.name)))
  }

  /** A readable file's printed line splits into its columns and its name,
      and decoding those gives the file back. */
  lemma {:induction false} FileRowOfListingLine(f: FileInfo, path: string, host: Host, maxsplit: nat)
    requires Readable(f, path, host, maxsplit)
    ensures SplitMax(ListingLine(f), maxsplit) == Columns(f) + [f.name]
    ensures FileOfParts(Columns(f) + [f.name], path, host) == Ok(f)
  {
    FileOfColumns(f, path, host, f.name);
    if maxsplit == ListingMaxSplit {
      SplitMaxOfJoin(Columns(f), f.name);
    } else {
      SplitMaxOfWords(Columns(f), f.name, maxsplit);
    }
    assert f.(name := f.name) == f;
  }

  function ListingLines(files: seq<FileInfo>): (lines: seq<string>)
    ensures |lines| == |files|
    ensures forall i :: 0 <= i < |files| ==> lines[i] == ListingLine(files[i])
  {
    seq(|files|, i requires 0 <= i < |files| => ListingLine(files[i]))
  }

  function Listing(files: seq<FileInfo>): string
  {
    Join(ListingLines(files), "\n")
  }

  /** A printed line is a non-blank line, and it has no newline. */
  lemma ListingLineShape(f: FileInfo, path: string, host: Host)
    requires Listable(f, path, host)
    ensures var line := ListingLine(f);
      line != [] && !IsSpace(line[0]) && !IsSpace(line[|line| - 1]) && '\n' !in line
  {
    var parts := Columns(f) + [f.name];
    FileOfColumns(f, path, host, f.name);
    assert forall i :: 0 <= i < |parts| ==> parts[i] != [];
    JoinEnds(parts, " ");
    assert forall p :: p in parts ==> '\n' !in p by {
      forall p | p in parts ensures '\n' !in p {
        if p != f.name { assert p in Columns(f); WordNoLineBreak(p); }
      }
    }
    JoinWithout(parts, " ", '\n');
  }

  lemma {:induction false} FileRowsOfLines(files: seq<FileInfo>, path: string, host: Host, maxsplit: nat)
    requires forall f :: f in files ==> Readable(f, path, host, maxsplit)
    ensures FileRows(ListingLines(files), path, None, host, maxsplit) == Ok(files)
  {
    if files != [] {
      var f := files[0];
      var lines := ListingLines(files);
      ListingLinesTail(files);
      assert forall g :: g in files[1..] ==> g in files;
      FileRowsOfLines(files[1..], path, host, maxsplit);
      assert Readable(f, path, host, maxsplit);
      ListingRowFirst(lines, f, path, host, maxsplit);
      assert [f] + files[1..] == files;
    }
  }

  lemma ListingLinesTail(files: seq<FileInfo>)
    requires files != []
    ensures ListingLines(files)[1..] == ListingLines(files[1..])
  {
    var lines := ListingLines(files);
    assert forall i :: 0 <= i < |files| - 1 ==> lines[1..][i] == ListingLine(files[1..][i]);
  }

  /** A listing whose first line prints `f` decodes `f` first. */
  lemma ListingRowFirst(lines: seq<string>, f: FileInfo, path: string, host: Host, maxsplit: nat)
    requires lines != [] && lines[0] == ListingLine(f) && Readable(f, path, host, maxsplit)
    ensures FileRows(lines, path, None, host, maxsplit)
         == Prepend([f], FileRows(lines[1..], path, None, host, maxsplit))
  {
    assert Strip(lines[0]) != [] by {
      ListingLineShape(f, path, host);
      StripEmpty(lines[0]);
    }
    FileRowOfListingLine(f, path, host, maxsplit);
  }

  /** Parsing a printed listing gives back its files, in order: with the
      corrected split limit for any names, with the source's limit when no
      name holds a blank. */
  lemma {:induction false} FilesOfListing(files: seq<FileInfo>, path: string, host: Host, maxsplit: nat)
    requires forall f :: f in files ==> Readable(f, path, host, maxsplit)
    ensures FilesOf(Listing(files), path, None, host, maxsplit) == Ok(files)
  {
    if files == [] {
      var rows: seq<string> := [[]];
      assert Listing(files) == [] && Strip([]) == [];
      assert SplitOn([], '\n') == rows by {
        assert Join(rows, "\n") == [];
        SplitOnOfJoin(rows, '\n');
      }
      assert rows[1..] == [];
      assert FileRows(rows, path, None, host, maxsplit) == FileRows([], path, None, host, maxsplit);
      return;
    }
    var lines := ListingLines(files);
    forall i | 0 <= i < |lines|
      ensures lines[i] != [] && '\n' !in lines[i]
      ensures !IsSpace(lines[i][0]) && !IsSpace(lines[i][|lines[i]| - 1])
    {
      assert files[i] in files;
      ListingLineShape(files[i], path, host);
    }
    JoinEnds(lines, "\n");
    StripTrimmed(Listing(files));
    SplitOnOfJoin(lines, '\n');
    FileRowsOfLines(files, path, host, maxsplit);
  }

  // ---------------------------------------------------------------------------
  // The split limit as written

  /** A listing of a single line holds the file that line decodes to. */
  lemma {:induction false} FilesOfLine(line: string, path: string, host: Host, maxsplit: nat)
    requires line != [] && Trimmed(line) && '\n' !in line
    requires |SplitMax(line, maxsplit)| >= 6
    ensures var d := FileOfParts(SplitMax(line, maxsplit), path, host);
      FilesOf(line, path, None, host, maxsplit) == if d.Ok? then Ok([d.value]) else Err(d.error)
  {
    StripTrimmed(line);
    assert Join([line], "\n") == line;
    SplitOnOfJoin([line], '\n');
    var rows := SplitOn(Strip(line), '\n');
    assert rows == [line];
    assert Strip(rows[0]) != [];
    assert rows[1..] == [];
    var parts := SplitMax(line, maxsplit);
    assert FileRows(rows[1..], path, None, host, maxsplit) == Ok([]);
    assert FilesOf(line, path, None, host, maxsplit)
        == match FileOfParts(parts, path, host)
           case Err(e) => Err(e)
           case Ok(f) => Prepend([f], Ok([]));
    match FileOfParts(parts, path, host)
    case Err(e) =>
    case Ok(f) =>
      assert [f] + [] == [f];
  }

  lemma {:induction false} WrittenSplit(f: FileInfo, head: string, rest: string)
    requires IsWord(head) && rest != [] && !IsSpace(rest[0]) && f.name == head + " " + rest
    requires forall w :: w in Columns(f) ==> IsWord(w)
    ensures SplitMax(ListingLine(f), WrittenMaxSplit) == Columns(f) + [head, rest]
  {
    var cols := Columns(f);
    JoinMergeLast(cols, head, rest);
    assert cols + [head, rest] == (cols + [head]) + [rest];
    assert forall w :: w in cols + [head] ==> w in cols || w == head;
    SplitMaxOfJoin(cols + [head], rest);
  }

  /** The source splits each line at most six times although it has only six
      columns, so a name holding a blank is split once more and loses its
      first word: the line of "my notes.txt" lists a file named "notes.txt",
      that of "a b c" one named "b c". The corrected split limit keeps the
      whole name. */
  lemma {:induction false} WrittenSplitDropsNameWords(f: FileInfo, path: string, host: Host, head: string, rest: string)
    requires Listable(f, path, host)
    requires IsWord(head) && rest != [] && !IsSpace(rest[0]) && f.name == head + " " + rest
    ensures FilesOf(ListingLine(f), path, None, host, WrittenMaxSplit) == Ok([f.(name := rest)])
    ensures FilesOf(ListingLine(f), path, None, host, ListingMaxSplit) == Ok([f])
  {
    var cols := Columns(f);
    var line := ListingLine(f);
    FileOfColumns(f, path, host, rest);
    WrittenSplit(f, head, rest);
    var parts := cols + [head, rest];
    assert FileOfParts(parts, path, host) == FileOfParts(cols + [rest], path, host) by {
      assert parts[..5] == (cols + [rest])[..5];
      assert parts[|parts| - 1] == rest;
    }
    ListingLineShape(f, path, host);
    FilesOfLine(line, path, host, WrittenMaxSplit);
    FileRowOfListingLine(f, path, host, ListingMaxSplit);
    FilesOfLine(line, path, host, ListingMaxSplit);
  }
}
