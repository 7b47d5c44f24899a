/** Values shared by the whole model: the optional and result wrappers, the
    error taxonomy of the client, and the records decoded from the `pebble`
    command's text output. */
module Types {

  datatype Option<T> = None | Some(value: T)

  /** What a Python call either returns or raises. */
  datatype Result<T> = Ok(value: T) | Err(error: Error)

  /** Why a `ValueError` was raised. */
  datatype Reason =
    | EmptyList(what: string)                    // "services list cannot be empty"
    | InvalidSignalName(name: string)            // "Invalid signal name: ..."
    | InvalidSignalNumber(number: int)           // signal.Signals(n) rejects n
    | BadPermissionLength                        // "Permission string must be exactly 9 characters"
    | InvalidSize(size: string)                  // "Invalid size format: ..."
    | NotAnInteger(text: string)                 // int(text) failed
    | BadTimestamp(text: string)                 // datetime.fromisoformat(text) failed
    | ColumnNotFound(column: string, header: string)
    | TooManyValues                              // tuple unpacking of a row with too many tokens

  /** The message of an `APIError`: the captured standard error, or, when that
      is empty, the description of the failed command (`str(CalledProcessError)`). */
  datatype Message = Text(text: string) | ExitStatus(command: seq<string>, returncode: int)

  datatype Error =
    | ValueError(reason: Reason)
    | IndexError                                 // list index out of range
    | TypeError                                  // None + str
    | AssertionError
    | AttributeError(name: string)               // getattr(signal, name) failed
    | APIError(code: int, message: Message)
    | TimeoutError(command: seq<string>)         // "Command [...] timed out"
    | ExecTimeoutError(command: seq<string>, timeout: Option<string>)
                                                 // the same exception type, "... timed out after {timeout}s"
    | ConnectionError(binary: string)
    | ExecError(command: seq<string>, exitCode: int, stdout: Option<string>, stderr: Option<string>)

  /** What the `signal` module has under a name. */
  datatype Attribute = Missing | IntAttribute(number: int) | OtherAttribute

  /** The `signal` module, which the model does not contain: its attributes
      by name, and `signal.Signals(n).name` (absent for an unknown number). */
  datatype SignalModule = SignalModule(attribute: string -> Attribute, nameOf: int -> Option<string>)

  /** A signal given by number or by name. */
  datatype Signal = SignalNumber(number: int) | SignalName(name: string)

  /** `Ok(xs + ys)` when the rest succeeded with `ys`, the rest's error otherwise. */
  function Prepend<T>(xs: seq<T>, rest: Result<seq<T>>): Result<seq<T>>
  {
    match rest
    case Ok(ys) => Ok(xs + ys)
    case Err(e) => Err(e)
  }

  lemma PrependNil<T>(rest: Result<seq<T>>)
    ensures Prepend([], rest) == rest
  {
    if rest.Ok? {
      assert [] + rest.value == rest.value;
    }
  }

  lemma PrependPrepend<T>(xs: seq<T>, ys: seq<T>, rest: Result<seq<T>>)
    ensures Prepend(xs, Prepend(ys, rest)) == Prepend(xs + ys, rest)
  {
    if rest.Ok? {
      assert xs + (ys + rest.value) == (xs + ys) + rest.value;
    }
  }

  /** Python truthiness of an optional string: present and not empty. */
  predicate Given(s: Option<string>) { s.Some? && s.value != [] }

  function OptionSeq<T>(o: Option<T>): seq<T>
  {
    match o
    case None => []
    case Some(x) => [x]
  }

  /** The name filter of the listings: an empty list of names keeps everything. */
  predicate Selected(name: string, names: seq<string>)
  {
    names == [] || name in names
  }

  // Records decoded from the command's output (the `ops.pebble` types).

  datatype ServiceInfo = ServiceInfo(name: string, startup: string, current: string)

  datatype CheckInfo = CheckInfo(name: string, level: string, status: string)

  datatype FileType = File | Directory

  /** `lastModified` is the listing's timestamp text, kept once it has been
      accepted as an ISO-8601 timestamp. */
  datatype FileInfo = FileInfo(
    path: string, name: string, fileType: FileType, permissions: int,
    user: string, userId: int, group: string, groupId: int,
    size: Option<int>, lastModified: string)

  /** A change as the listing reports it: `kind` is always "unknown", and the
      tasks, error and ready time are not available (empty / absent). */
  datatype Change = Change(
    id: string, kind: string, ready: bool, status: string,
    spawnTime: string, summary: string)

  /** `lastOccurred` is the reading of the local clock and is not modelled. */
  datatype Notice = Notice(
    id: string, userId: Option<int>, noticeType: string, key: string,
    firstOccurred: string, lastRepeated: string, occurrences: int)

  datatype BasicIdentity = BasicIdentity(password: string)

  datatype LocalIdentity = LocalIdentity(userId: int)

  datatype Identity = Identity(access: string, basic: Option<BasicIdentity>, local: Option<LocalIdentity>)
}
