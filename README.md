# shimmer's `PebbleCliClient`, modelled in Dafny

shimmer gives Python callers the same client interface as the Pebble HTTP
API. Behind that interface it runs the `pebble` command-line binary. This
project models the core of that client:

- **The argument vectors.** `PebbleCliClient` builds one for each operation
  (`services`, `start`, `signal`, `checks`, `ls`, `mkdir`, `push`, `exec`,
  `changes`, `notices`, `notify`, `identities`, `version`). The vectors of
  `start`/`stop`/`restart`, `mkdir`, `push`, `exec`, `notify` and `notices`
  are proved to read back as requested through a generic option reader
  defined in `Commands` (switches, valued options, `--`, operands). That
  reader is not pebble's own parser.
- **`_run_command`.** It turns the outcome of running the binary into either
  the completed process or one of the client's errors (`APIError`,
  `TimeoutError`, `ConnectionError`).
- **The text-output decoders.** These cover:
  - word-split tables (services, checks, identities, file listings);
  - column-aligned tables sliced at the header's column offsets (changes,
    notices);
  - the one-line replies (`notify`, `version`);
  - the decoders `_permissions_to_int` and `_human_size_to_int`.
- **`ExecProcess`.** This is the handle `exec` returns. It waits with
  escalation on timeout, remembers the output it collected, combines
  standard error into standard output, and forwards signals.

Every parser has two forms:

- a specification function over the text;
- a method with the source's loop, proved equal to the function.

Round-trip lemmas tie parsers to renderers:

- Whole tables round-trip for services (`Services.ServicesOfTable`), checks
  (`Checks.ChecksOfTable`) and file listings (`Files.FilesOfListing`).
- Changes and notices round-trip per row: a fixed-width row decodes back to
  its record (`Changes.ChangeOfAlignedRow`, `Notices.NoticeOfAlignedRow`).
  Locating the columns from a rendered header is not proved.
- Identities have no renderer. `Identities.IdentityRowsMeaning` and
  `Identities.IdentityRowsFail` state what the parse gives.

The operating system is an oracle:

- `Client.Subprocess` answers each `subprocess.run` / `subprocess.Popen` call
  from a script and records the launches in order.
- `Process.Popen` answers from a script and records every call made on the
  handle.
- The client's methods state exactly which launch they make and what result
  they return for any answer the oracle gives.

Host facts are parameters:

- `Files.Host` supplies the current user and group ids, `fnmatch`, and the
  validity test of `datetime.fromisoformat`.
- `Types.SignalModule` supplies the `signal` module.

Python's string operations are modelled with their real semantics in
`PyStr`:

- `strip` and `split` on any whitespace;
- `split(None, n)`;
- `split(sep)` and `splitlines`;
- `find`, slicing with clamping, and `upper`;
- `int()` and `oct()`.

Modules and files:

| file | module | models |
|---|---|---|
| types.dfy | `Types` | `Option`/`Result`, the error taxonomy, the record types |
| pystr.dfy | `PyStr` | the Python string built-ins used by the client |
| decoders.dfy | `Decoders` | `_permissions_to_int`, `_human_size_to_int` |
| columns.dfy | `Columns` | the fixed-column table slicing shared by `get_changes` and `get_notices` |
| commands.dfy | `Commands` | argument vectors and how a generic option reader reads them back |
| runner.dfy | `Runner` | `_run_command`'s error mapping |
| services.dfy, checks.dfy, files.dfy, changes.dfy, notices.dfy, identities.dfy, replies.dfy | one per operation | output parsing |
| process.dfy | `Process` | `ExecProcess` and the `Popen` oracle |
| client.dfy | `Client` | `PebbleCliClient` and the `subprocess` oracle |

## Model

| member | source | states |
|---|---|---|
| Runner.FailureMessage | src/shimmer/_client.py:96-102 | The `APIError` message is the standard error when that is non-empty, and the failed command with its exit status otherwise. |
| Runner.RunCommand | src/shimmer/_client.py:75-108 | A run succeeds iff the binary exited with status 0 (or `check` is off), and the completed process carries the full command and the output unchanged. A non-zero exit is an `APIError` with that code (never 0) and a non-empty message. A timeout is a `TimeoutError` naming the full command. A missing binary is a `ConnectionError` naming the binary. |
| Client.Subprocess.Run | src/shimmer/_client.py:85-95 | `subprocess.run` is launched once with the full command, the timeout and the environment, and its outcome comes from the oracle's script. |
| Client.Subprocess.Spawn | src/shimmer/_client.py:595-607 | `subprocess.Popen` is launched once with the command, its stream wiring and the environment. A process handle exists iff the binary was found, and only streams wired to a pipe can be read back. |
| Client.PebbleCliClient.constructor | src/shimmer/_client.py:61-73 | The client keeps its timeout, the binary, and the host facts. Its environment is `Client.ClientEnv` of the inherited environment and the socket path. |
| Client.ClientEnv | src/shimmer/_client.py:71-73 | The environment is a copy of the inherited one. With a socket path, `PEBBLE` is added or replaced by the socket's parent directory, and every other variable is kept. Without one, it is the inherited environment unchanged. |
| Client.ParentOfChild | src/shimmer/_client.py:73 | The parent of `dir/name` is `dir`, for a name without "/". |
| Client.ParentOfName | src/shimmer/_client.py:73 | The parent of a bare name is ".", and that of `/name` is "/". |
| Client.SocketDirExample | tests/unit/test_client.py:44-50 | The socket path `/tmp/test/.pebble.socket` gives `PEBBLE` the value `/tmp/test`. |
| Client.PebbleCliClient.RunCommand | src/shimmer/_client.py:75-108 | There is exactly one launch, `[binary] + cmd` with the client's timeout and environment, and the result is `Runner.RunCommand` of the outcome. |
| Client.PebbleCliClient.GetSystemInfo | src/shimmer/_client.py:110-114 | It runs `version --client`. A run error propagates, and otherwise the version is `Replies.SystemVersionOf` of the output. |
| Client.PebbleCliClient.GetServices | src/shimmer/_client.py:165-187 | It runs `services --abs-time`. A run error propagates, and otherwise the result is `Services.ServicesOf` of the output and the names. |
| Client.PebbleCliClient.ChangeServices | src/shimmer/_client.py:189-212 | An empty list is a `ValueError` and nothing is launched. Otherwise it launches the verb, the names and `--no-wait` when the timeout is 0. The change ID is the stripped output with `--no-wait` and "?" otherwise. |
| Client.PebbleCliClient.StartServices | src/shimmer/_client.py:189-212 | As `ChangeServices`, with the verb `start`. |
| Client.PebbleCliClient.StopServices | src/shimmer/_client.py:214-237 | As `ChangeServices`, with the verb `stop`. |
| Client.PebbleCliClient.RestartServices | src/shimmer/_client.py:239-262 | As `ChangeServices`, with the verb `restart`. |
| Client.PebbleCliClient.SendSignal | src/shimmer/_client.py:274-291 | An empty list is refused first, then an unknown signal. Neither launches anything. Otherwise it runs `signal NAME[3:] services...`, and a run error propagates. |
| Client.SignalNameOf | src/shimmer/_client.py:284-289 | A number resolves to its signal name iff the `signal` module knows it. A name is kept iff the module has that attribute. Every failure is a `ValueError`. |
| Client.PebbleCliClient.GetChecks | src/shimmer/_client.py:293-316 | It runs `checks`, with `--level L` iff a level is given, and the result is `Checks.ChecksOf` of the output. |
| Client.PebbleCliClient.ChangeChecks | src/shimmer/_client.py:318-340 | An empty list is a `ValueError` and nothing is launched. Otherwise it runs the verb and the names, and returns the names as given once the run succeeds. |
| Client.PebbleCliClient.StartChecks | src/shimmer/_client.py:318-328 | As `ChangeChecks`, with `start-checks`. |
| Client.PebbleCliClient.StopChecks | src/shimmer/_client.py:330-340 | As `ChangeChecks`, with `stop-checks`. |
| Client.PebbleCliClient.ListFiles | src/shimmer/_client.py:343-388 | It runs `ls --abs-time -l PATH`, adding `-d` when the path itself is listed. The listing is decoded by `Files.FilesOf` with the source's split limit, `split(None, 6)`, so a name holding a blank loses its first word (see Findings). |
| Client.PebbleCliClient.MakeDir | src/shimmer/_client.py:425-451 | It launches `Commands.MakeDirArgs` exactly, and a run error propagates. |
| Client.PebbleCliClient.Push | src/shimmer/_client.py:478-517 | It launches `push TEMP PATH` plus the file flags. The temporary file's name is inserted right after the verb. |
| Client.PebbleCliClient.Exec | src/shimmer/_client.py:520-616 | It starts `[binary] + Commands.ExecArgs`. Standard input is always a pipe. A caller's stream is used as is. With `combine_stderr`, standard error goes into standard output. A missing binary is a `ConnectionError`. Otherwise the fresh, unfinished handle wraps the new process with the given options, and it keeps the timeout as given, zero included. The handle exposes the process's standard input and standard output, and its standard error only when not combining. |
| Client.ExecCommand | src/shimmer/_client.py:540-563 | The vector grown option by option in a loop equals `Commands.ExecArgs`. |
| Client.AppendOwner | src/shimmer/_client.py:442-449 | The owner options appended to a vector equal `Commands.OwnerArgs`: a non-empty name wins over an id. |
| Client.AppendFileFlags | src/shimmer/_client.py:437-449 | The `-p`, `-m` and owner options appended for `mkdir` and `push` equal `Commands.FileFlags`. |
| Client.PebbleCliClient.GetChanges | src/shimmer/_client.py:619-676 | It runs `changes --abs-time`, with `--select S` iff a state is given, and the result is `Changes.ChangesOf` of the output. |
| Client.PebbleCliClient.GetNotices | src/shimmer/_client.py:688-754 | It launches `Commands.NoticesArgs`, and the result is `Notices.NoticesOf` of the output. |
| Client.NoticesCommand | src/shimmer/_client.py:697-708 | The vector built by the loops over types and keys equals `Commands.NoticesArgs`. |
| Client.PebbleCliClient.Notify | src/shimmer/_client.py:764-783 | A type other than "custom" fails the assertion and nothing is launched. Otherwise it launches `Commands.NotifyArgs`, and the notice ID is `Replies.NoticeIdOf` of the output. |
| Client.NotifyCommand | src/shimmer/_client.py:774-779 | The vector built by the loop over data entries equals `Commands.NotifyArgs`. |
| Client.PebbleCliClient.GetIdentities | src/shimmer/_client.py:805-828 | It runs `identities`, and the result is `Identities.IdentitiesOf` of the output. |
| Client.EnvArgsSnoc | src/shimmer/_client.py:557-559 | Growing the environment options by one variable appends exactly `--env NAME=VALUE`. |
| Client.AssignmentsSnoc | src/shimmer/_client.py:778-779 | Growing the notify vector by one data entry appends exactly `NAME=VALUE`. |
| Client.KeyArgsSnoc | src/shimmer/_client.py:707-708 | Growing the notices vector by one key appends exactly `--key KEY`. |
| Commands.IfGiven | src/shimmer/_client.py:543-546 | An optional string is kept iff it is present and non-empty, matching Python truthiness. |
| Commands.ServiceArgsRead | src/shimmer/_client.py:204-206 | The generic option reader reads `start a b [--no-wait]` back as exactly the service operands and the switch iff it was asked for. |
| Commands.SignalArgsName | src/shimmer/_client.py:290 | The signal operand is the name without its "SIG" prefix, followed by the services. |
| Commands.ReadOwner | src/shimmer/_client.py:442-449 | The owner options read back in order as `--user`/`--uid`, then `--group`/`--gid`. |
| Commands.FileFlagsParse | src/shimmer/_client.py:437-449 | The shared `mkdir`/`push` options read back as: `-p` iff requested; the mode as octal digits iff given, and those digits read as base 8 give the mode back; and the owner by precedence. |
| Commands.MakeDirArgsRead | src/shimmer/_client.py:437-449 | `mkdir PATH flags` reads back with the path as the only operand and the flags as requested. |
| Commands.PushArgsRead | src/shimmer/_client.py:499-516 | `push TEMP PATH flags` reads back with operands exactly [TEMP, PATH] and the flags as requested. |
| Commands.ExecArgsShape | src/shimmer/_client.py:540-563 | The parser sees no switches, the option list in order, and everything after `--` as the command. |
| Commands.ExecArgsRead | src/shimmer/_client.py:540-563 | An `exec` vector reads back as: the context and working directory iff non-empty; the timeout with its "s" unit iff it is non-zero; the owner by precedence; one `--env NAME=VALUE` per variable, in order; and the command unchanged as the operands. |
| Commands.ExecOptionsRead | src/shimmer/_client.py:543-559 | The option list of an `exec` vector carries each requested option value and nothing else. |
| Commands.NotifyArgsRead | src/shimmer/_client.py:774-779 | `notify [--repeat-after D] KEY NAME=VALUE...` reads back with the key then the data entries as operands, and the interval iff given. |
| Commands.NoticesArgsRead | src/shimmer/_client.py:697-708 | A `notices` vector reads back as: the `--abs-time` switch; the user filter and uid iff given; the types as operands; every key as its own `--key`. |
| Commands.EnvArgsRepeat | src/shimmer/_client.py:557-559 | The environment options are `--env` repeated before each `NAME=VALUE`, in order. |
| Commands.KeyArgsRepeat | src/shimmer/_client.py:707-708 | The key options are `--key` repeated before each key, in order. |
| Decoders.PermissionsToInt | src/shimmer/_client.py:407-423 | A string whose length is not 9 is a `ValueError`. Otherwise the loop's result is the octal number of the three r/w/x triples. |
| Decoders.PermissionsDigits | src/shimmer/_client.py:413-423 | The mode is 64 g0 + 8 g1 + g2 with each triple's digit below 8, so the mode is below 0o1000. |
| Decoders.PermissionsExample | tests/unit/test_client.py:309-330 | "rwxr-xr-x" decodes to 0o755 and "rw-------" to 0o600. |
| Decoders.PermissionsOfModeString | src/shimmer/_client.py:407-423 | Decoding the `ls -l` rendering of any mode below 0o1000 gives that mode back. |
| Decoders.ModeStringOfPermissions | src/shimmer/_client.py:407-423 | Any standard rwx permission string is the rendering of its decoded mode (the inverse round trip). |
| Decoders.HumanSizeToInt | src/shimmer/_client.py:390-405 | "-" and only "-" gives no size. Text that does not end in B after strip/upper is a `ValueError`. |
| Decoders.SizeOfUpperSuffix | src/shimmer/_client.py:396-403 | A number followed by KB, MB, GB or B is that number times 1024, 1024², 1024³ or 1. |
| Decoders.HumanSizeOfText | src/shimmer/_client.py:390-405 | Any integer followed by a unit suffix in any letter case decodes to the integer times the unit's factor. |
| Decoders.SizeExample | tests/unit/test_client.py:309-330 | "811kB" is 811 × 1024 bytes, and "-" is no size. |
| Services.ParseServices | src/shimmer/_client.py:165-187 | The method's loop computes exactly `ServicesOf`: nothing for the sentinel, otherwise the rows after the header. |
| Services.ServiceRowsFail | src/shimmer/_client.py:180-183 | The parse fails iff some row has more than four words (the tuple unpacking), and then with `ValueError`. |
| Services.Named | src/shimmer/_client.py:184-185 | Every kept service is one of the parsed services, and its name is selected. |
| Services.ServiceRowsNamed | src/shimmer/_client.py:184-185 | Parsing with a name filter equals parsing everything and then filtering. |
| Services.ServicesOfOneLine | src/shimmer/_client.py:170-175 | An output that is one line once stripped (the header alone, or the "Plan has no services." sentinel, with or without a final newline) gives no services. |
| Services.ServiceRowsOfLines | src/shimmer/_client.py:175-186 | Rendering printable services as rows and parsing the rows gives the same services. |
| Services.ServicesOfTable | src/shimmer/_client.py:165-187 | Parsing a rendered `services` table (header and rows) gives back exactly the services rendered. |
| Checks.ParseChecks | src/shimmer/_client.py:293-316 | The method's loop computes exactly `ChecksOf`. |
| Checks.NamedChecks | src/shimmer/_client.py:312-313 | Every kept check is one of the parsed checks, and its name is selected. |
| Checks.CheckRowsNamed | src/shimmer/_client.py:312-313 | Parsing with a name filter equals parsing everything and then filtering. |
| Checks.ChecksOfOneLine | src/shimmer/_client.py:306-307 | Output that has no newline once stripped (a header only, with or without a final newline) gives no checks. |
| Checks.CheckRowsOfLines | src/shimmer/_client.py:306-315 | Rendered check rows, with any extra trailing words, parse back to the same checks. |
| Checks.ChecksOfTable | src/shimmer/_client.py:293-316 | Parsing a rendered `checks` table gives back exactly the checks rendered. |
| Files.FileOfParts | src/shimmer/_client.py:368-386 | A decoded file has: the last part as its name; directory type iff the mode starts with "d"; uid/gid 0 for "root" and the host's ids otherwise; a mode below 0o1000. |
| Files.DecodeFile | src/shimmer/_client.py:368-386 | The method's decode of one row equals `FileOfParts`. |
| Files.ParseRow | src/shimmer/_client.py:361-387 | One loop step either propagates the row's error, skips the row, or prepends its file to the parse of the rest. |
| Files.ParseFiles | src/shimmer/_client.py:343-388 | The method's loop computes exactly `FilesOf`. |
| Files.Matching | src/shimmer/_client.py:368-369 | Every kept file is a parsed file whose name matches the pattern. |
| Files.FileRowsMatching | src/shimmer/_client.py:368-369 | When the unfiltered listing decodes, listing with a pattern equals listing everything and then keeping the files whose names `fnmatch` accepts. |
| Files.KeptRows | src/shimmer/_client.py:361-369 | Every line left for decoding is a line of the listing that the pattern does not reject. |
| Files.FileRowsKept | src/shimmer/_client.py:361-370 | Listing with a pattern equals listing, without a pattern, only the lines the pattern keeps: the name is matched before anything is decoded, so a rejected line never fails the listing. |
| Files.SizeTextDecodes | src/shimmer/_client.py:384 | Every size rendered by `ls` ("-" or digits followed by "B") is one word and decodes back to the size. |
| Files.FileOfColumns | src/shimmer/_client.py:368-386 | A listable file's columns are single words, and decoding them with a name gives the file with that name. |
| Files.FileRowOfListingLine | src/shimmer/_client.py:364-386 | For a readable file, the split of its listing line gives the columns and the whole name, and decoding those gives the file back. Readable means any name with `split(None, 5)`, and a name without blanks with the source's `split(None, 6)`. |
| Files.FileRowsOfLines | src/shimmer/_client.py:360-387 | Parsing the rows of any readable files gives the same files, in order. |
| Files.FilesOfListing | src/shimmer/_client.py:343-388 | Parsing a rendered listing gives back exactly its files, in order. This holds for names with blanks under `split(None, 5)`, and for blank-free names under the source's `split(None, 6)`. An empty listing gives no files. |
| Files.FilesOfLine | src/shimmer/_client.py:360-387 | A single-line output with enough columns decodes to that one file, or fails with its error. |
| Files.WrittenSplitDropsNameWords | src/shimmer/_client.py:364-367 | With `split(None, 6)` as written, a file called "head rest" comes back named "rest": the name loses its first word ("a b c" becomes "b c"). With the limit 5 it comes back unchanged. |
| Columns.ColumnStarts | src/shimmer/_client.py:640-650 | A successful lookup gives one start per column. |
| Columns.ColumnStartsMeaning | src/shimmer/_client.py:640-650 | The lookup succeeds iff every column name occurs in the header, and then each start is that name's first position. Otherwise the error names the first column missing. |
| Columns.FindColumns | src/shimmer/_client.py:640-650 | The method's loop computes exactly `ColumnStarts`. |
| Columns.RowFields | src/shimmer/_client.py:654-662 | There is one field per column, each the stripped slice from its start to the next start (or to the end of the line). |
| Columns.SliceField | src/shimmer/_client.py:656-660 | The method's slice for column i is that column's field. |
| Columns.SliceFields | src/shimmer/_client.py:654-662 | The method's loop over the columns computes exactly `RowFields`. |
| Columns.DecodeRowsMeaning | src/shimmer/_client.py:652-675 | Decoding the table's rows succeeds iff every non-blank row decodes, and then gives one record per non-blank row, in order. Otherwise it fails with the error of the first row that does not decode. |
| Columns.DecodeTableRows | src/shimmer/_client.py:652-675 | The method's loop computes exactly `DecodeRows`. |
| Columns.RowFieldsOfAlignedRow | src/shimmer/_client.py:654-662 | Slicing a row laid out at fixed column widths gives back exactly its cells. |
| Columns.AlignedRowField | src/shimmer/_client.py:656-660 | Column i of a fixed-width row is exactly cell i. |
| Changes.ChangeOfFields | src/shimmer/_client.py:663-674 | A record fails iff the spawn time is not ISO. Otherwise it has the ID, status and summary fields, and it is ready iff the ID field is "Done" or "Error". |
| Changes.ParseChanges | src/shimmer/_client.py:619-676 | The method computes exactly `ChangesOf`. |
| Changes.ChangesOfOneLine | src/shimmer/_client.py:636-638 | Output that is at most one line once stripped (empty, header only, or "No changes.", with or without a final newline) gives no changes. |
| Changes.NoChangesSentinel | src/shimmer/_client.py:636-638 | A first line reading "No changes." (after leading whitespace) gives no changes, whatever lines follow. |
| Changes.ChangeOfAlignedRow | src/shimmer/_client.py:652-674 | A change rendered as a fixed-width row decodes back to the same change. |
| Changes.NumericIdNeverReady | src/shimmer/_client.py:668 | A change whose ID is numeric is never ready, because readiness is tested on the ID column. |
| Changes.DoneChangeNotReady | src/shimmer/_client.py:668 | A change with ID "1" and status "Done" decodes as not ready. |
| Changes.ChangeOfFieldsByStatus | src/shimmer/_client.py:663-674 | The corrected decoding fails iff the spawn time is not ISO, and a change is ready iff its status is "Done" or "Error". |
| Changes.ByStatusDiffersOnlyInReady | src/shimmer/_client.py:663-674 | The source's decoding and the corrected one fail alike and differ at most in the ready flag. They agree whenever the ID and the status agree on readiness. |
| Changes.DoneChangeReadyByStatus | src/shimmer/_client.py:668 | With the corrected decoding, a change with ID "1" and status "Done" is ready. |
| Notices.NoticeOfFields | src/shimmer/_client.py:742-752 | The user id is absent iff the field is "public" and is otherwise its `int()`. Occurrences is `int()` of its field. The record fails iff one of those conversions fails. |
| Notices.ParseNotices | src/shimmer/_client.py:688-754 | The method computes exactly `NoticesOf`. |
| Notices.NoticesOfOneLine | src/shimmer/_client.py:715-717 | Output that is at most one line once stripped (a header alone, with or without a final newline) gives no notices. |
| Notices.NoticeOfNoticeFields | src/shimmer/_client.py:742-752 | Any notice's fields decode back to the same notice. |
| Notices.NoticeOfAlignedRow | src/shimmer/_client.py:731-752 | A notice rendered as a fixed-width row decodes back to the same notice. |
| Identities.IdentityOfParts | src/shimmer/_client.py:819-825 | The access level is the second word. A basic identity (masked password) is present iff "basic" is among the comma-separated types, and a local identity (uid -1) iff "local" is. |
| Identities.ParseIdentities | src/shimmer/_client.py:805-828 | The method's loop computes exactly `IdentitiesOf`. |
| Identities.LastBinding | src/shimmer/_client.py:815-826 | The row that binds a name has at least three words, the first of which is the name. |
| Identities.IdentityRowsFail | src/shimmer/_client.py:819-823 | The parse fails iff some row has exactly two words, and then with `IndexError`. |
| Identities.IdentityRowsMeaning | src/shimmer/_client.py:815-826 | A name is in the result iff some row binds it. It maps to the identity of its last such row. |
| Identities.NoIdentitiesEmpty | src/shimmer/_client.py:811-813 | The "No identities." sentinel, with any trailing blanks, gives an empty dictionary. |
| Replies.NoticeIdOf | src/shimmer/_client.py:783 | The notice ID is a word of the stripped output. A blank output is an `IndexError`. |
| Replies.NoticeIdOfBlank | src/shimmer/_client.py:783 | The reply fails iff the output is all whitespace. |
| Replies.NoticeIdOfLastWord | src/shimmer/_client.py:783 | Whatever precedes it, the word after the last blank (trailing whitespace aside) is the notice ID. |
| Replies.NoticeIdOfRecorded | src/shimmer/_client.py:783 | "Recorded notice N" gives the ID N. |
| Replies.SystemVersionOf | src/shimmer/_client.py:110-114 | The version is stripped and holds no line break. |
| Replies.SystemVersionOfFirstLine | src/shimmer/_client.py:110-114 | The version is exactly the first line of the output. |
| Process.Popen.Wait | src/shimmer/_process.py:41-80 | The oracle's `wait` records the call and reports whether it timed out. |
| Process.Popen.Communicate | src/shimmer/_process.py:82-121 | The oracle's `communicate` records the call and yields the pipes' contents, or reports a timeout. |
| Process.ExecProcess.constructor | src/shimmer/_process.py:17-39 | A new handle is unfinished with nothing stored. It exposes standard input and output as wired, and standard error unless it is combined into standard output. |
| Process.ExecProcess.Wait | src/shimmer/_process.py:41-80 | If already finished, it does nothing. On a timeout it terminates, waits again, kills if that times out too, and fails with a timeout while still unfinished. Otherwise the handle finishes, and a non-zero exit is an `ExecError` carrying the remaining pipe output. |
| Process.ExecProcess.WaitOutput | src/shimmer/_process.py:82-121 | Stored output is returned without asking the process again. On a timeout it kills, waits without limit, fails, and stores nothing. Otherwise it combines, stores the output and finishes, and a non-zero exit is an `ExecError` carrying the combined output. |
| Process.Combine | src/shimmer/_process.py:106-108 | Standard error is merged iff combining and it is non-empty. Merging into an absent output is a `TypeError`. |
| Process.CombineKeepsText | src/shimmer/_process.py:106-111 | Combining loses no text, keeps its order, and leaves no non-empty standard error behind. |
| Process.ExecProcess.SendSignal | src/shimmer/_process.py:123-130 | A name is upper-cased and looked up (missing: `AttributeError`; not a number: `AssertionError`). The signal reaches the process only while it is unfinished. |
| Process.ResolveSignal | src/shimmer/_process.py:125-129 | A number resolves to itself. A name resolves iff the `signal` module has an integer under its upper-cased form. |
| PyStr.Strip | src/shimmer/_client.py:113 | `strip()` leaves no leading or trailing whitespace and never lengthens. |
| PyStr.StripEmpty | src/shimmer/_client.py:178 | A stripped line is empty iff the line is all whitespace. |
| PyStr.StripIdempotent | src/shimmer/_client.py:175 | Stripping twice is stripping once. |
| PyStr.StripPadded | src/shimmer/_client.py:660 | Stripping a trimmed cell padded with blanks gives the cell. |
| PyStr.Words | src/shimmer/_client.py:180 | `split()` yields only non-empty, whitespace-free words. |
| PyStr.WordsOfJoin | src/shimmer/_client.py:180 | `split()` of words joined by blanks gives the words back. |
| PyStr.SplitMax | src/shimmer/_client.py:364 | `split(None, n)` gives at most n + 1 parts. All but the last are words, and none starts with whitespace. |
| PyStr.SplitMaxOfJoin | src/shimmer/_client.py:364 | `split(None, n)` of n words and a rest joined by blanks gives the words and the rest unchanged. |
| PyStr.SplitMaxOfWords | src/shimmer/_client.py:364 | `split(None, n)` of words joined by blanks gives the words back when n is at least the number of blanks. |
| PyStr.WordsSnoc | src/shimmer/_client.py:783 | Appending a blank and a word to a text adds exactly that word at the end of `split()`. |
| PyStr.StripEndsAt | src/shimmer/_client.py:783 | When only whitespace follows a position, `strip()` ends the text there. |
| PyStr.SplitOn | src/shimmer/_client.py:306 | `split(sep)` gives at least one part, and no part contains the separator. |
| PyStr.JoinOfSplitOn | src/shimmer/_client.py:306 | Rejoining the parts of `split(sep)` gives the text back. |
| PyStr.SplitOnOfJoin | src/shimmer/_client.py:306 | `split(sep)` of separator-free parts joined by the separator gives the parts back. |
| PyStr.SplitLines | src/shimmer/_client.py:175 | `splitlines()` gives lines without line breaks, and nothing exactly for the empty text. |
| PyStr.SplitLinesOfJoin | src/shimmer/_client.py:636 | `splitlines()` of non-empty lines joined by "\n" gives the lines back. |
| PyStr.SplitLinesOfLine | src/shimmer/_client.py:715 | A text without line breaks is one line, or none when empty. |
| PyStr.Find | src/shimmer/_client.py:645 | `find` gives the first position where the substring occurs, or -1 when there is none. |
| PyStr.Slice | src/shimmer/_client.py:660 | `s[a:b]` clamps to the text, and its characters are those of the text from a. |
| PyStr.Upper | src/shimmer/_client.py:395 | `upper()` keeps the length and upper-cases each character. |
| PyStr.ParseIntOfIntToString | src/shimmer/_client.py:751 | `int(str(n))` is n for every integer. |
| PyStr.IntTextShape | src/shimmer/_client.py:445 | `str(n)` is a non-empty word: digits, with a leading minus sign for negative n. |
| PyStr.DigitsRoundTrip | src/shimmer/_client.py:441 | Reading back the digits of n in any base from 2 to 10 gives n. |
| PyStr.ParseOctOfOct | src/shimmer/_client.py:441 | `int(oct(n), 8)` is n for every integer. |

## Left out

- Process I/O. `subprocess.run` and `subprocess.Popen` are oracles
  (`Client.Subprocess`, `Process.Popen`) that answer from a script.
  Interleaving a merged standard error with standard output is part of that
  script.
- Time and sleeping. `datetime.now`, `time.sleep` and the `delay` parameters
  are not modelled.
- Timeouts. These are Python floats, carried as their decimal text. A timeout
  of 0 in the service operations is the flag `noWait`. The `exec` timeout
  is kept as given: `Commands.TimeoutSet` treats the texts `0`, `0.0` and
  `-0.0` as falsy, so no `--timeout` option is added for them, yet the
  handle still receives the zero. A zero `repeat_after` is falsy in the
  source and is passed here as absent, since it only affects the vector.
- pebble's own command-line parser is not modelled. The vectors are read
  back by a generic option reader, `Commands.ReadArgs`.
- `datetime.fromisoformat`, `fnmatch`, `os.getuid` and `os.getgid` are
  parameters of `Files.Host`.
- `signal.Signals(n).name` and `getattr(signal, name)` are the
  `Types.SignalModule` parameter.
- Encodings. The output is text; byte streams and encodings are not
  modelled.
- Python `int()` is modelled for ASCII digits with an optional sign around
  blanks. Underscores and non-ASCII digits are not modelled.
- `str.upper()` is modelled for ASCII letters only.
- The inherited environment is a constructor parameter standing for
  `os.environ`. `opener` and `base_url` are not modelled; the source
  accepts them and ignores them.
- Client.Parent: models `pathlib.Path(p).parent` only for paths without
  repeated or trailing separators and without `.` components. pathlib's
  normalisation of those is not modelled.
- Operations outside this core are not modelled: add_layer, get_plan, pull,
  replan, autostart, remove_path, get_notice, replace_identities, and the
  stubs wait_change, ack_warnings and get_warnings. They build YAML or temp
  files, or only raise.
- Client.PebbleCliClient.Push: models the temporary file by its name only.
  Writing the content to it is file I/O.
- Client.PebbleCliClient.GetChecks, Client.PebbleCliClient.GetChanges,
  Client.PebbleCliClient.GetNotices, Client.PebbleCliClient.Notify: the
  level, the selected state, the users, the notice types and the notice
  type are taken as the text the source puts on the command line or
  compares. The enums `CheckLevel`, `ChangeState`, `NoticesUsers` and
  `NoticeType` are not modelled, nor is what their `.value` or `str()`
  gives. A given enum member counts as present.
- Client.PebbleCliClient.GetChanges: drops the `service` argument, which the
  source accepts but never uses.
- Runner.RunCommand: keeps `check` as a parameter, but every caller passes
  `True`.
- Runner.FailureMessage: the status and body fields of `APIError` are
  constants and are not modelled.
- Notices.NoticeOfFields: `last_occurred` is the time of parsing, which is a
  clock read and is not modelled.

## Findings

| source | as written | input that shows it | evidently intended | confidence | as-written member | corrected member |
|---|---|---|---|---|---|---|
| src/shimmer/_client.py:364-367 | `line.split(None, 6)` splits an `ls -l` row into up to seven parts. The name is taken as `parts[-1]`. A file name containing a blank therefore loses its first word. | A listing row `-rw-r--r-- root root 10B 2024-02-26T12:58:31Z my notes.txt` gives a file named `notes.txt`. | `split(None, 5)`: five splits separate the five columns and keep the whole name as the sixth part. | not executed | Files.WrittenSplitDropsNameWords | Files.FilesOfListing |
| src/shimmer/_client.py:668 | `ready=fields[0] in ("Done", "Error")` tests the ID column, while the status is `fields[1]`. | A row `1  Done  2024-01-01T00:00:00Z  ...` decodes to a change with status "Done" that is not ready. | `ready` follows the status, `fields[1]`. | not executed | Changes.DoneChangeNotReady | Changes.ChangeOfFieldsByStatus |
