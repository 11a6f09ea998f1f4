/**
 The attestation log as a state machine over its persistent state: the durable rows, in append
 order, and the local NDJSON file. Each operation can be cut short at each of its writes.
 */
module LogMachine {
  import opened Wrappers
  import opened Envelopes
  import opened Verification

  // ---- State ----

  /** A line of the local file: a whole envelope, or text that does not parse. */
  datatype Line = Row(env: Envelope) | Garbage

  /** `terminated` is false when the file ends without a newline after an interrupted write. */
  datatype LocalFile = LocalFile(lines: seq<Line>, terminated: bool)

  datatype LogState = LogState(durable: seq<Envelope>, local: Option<LocalFile>)

  const EMPTY := LogState([], None)

  // ---- Faults ----

  /** How much of one line reached the file before the write broke off. */
  datatype Torn = NothingWritten | PartOfLine | AllButNewline

  /** Where an append breaks off, by error or by crash. */
  datatype Fault =
    | NoFault
    | HydrateReadFails
    | HydrateWriteFails(kept: nat, torn: Torn)
    | TipReadFails
    | PutLost
    | PutUnacknowledged
    | TipPutFails
    | LocalOpenFails
    | LocalWriteFails(torn: Torn)
    | LocalSyncFails

  datatype Failure = HydrateFailure | TipFailure | PutFailure | LocalFailure | CorruptLocalFile

  // ---- The local file ----

  function Rows(lines: seq<Line>): seq<Envelope>
  {
    if lines == [] then []
    else
      var n := |lines| - 1;
      Rows(lines[..n]) + if lines[n].Row? then [lines[n].env] else []
  }

  function AsLines(envs: seq<Envelope>): seq<Line>
  {
    seq(|envs|, i requires 0 <= i < |envs| => Row(envs[i]))
  }

  function FileOf(envs: seq<Envelope>): LocalFile
  {
    LocalFile(AsLines(envs), true)
  }

  function Opened(local: Option<LocalFile>): LocalFile
  {
    if local.Some? then local.value else LocalFile([], true)
  }

  /** Text written after an unterminated line runs into it, and the joined line does not parse. */
  function WriteText(f: LocalFile, line: Line, terminated: bool): LocalFile
  {
    if f.terminated || f.lines == [] then LocalFile(f.lines + [line], terminated)
    else LocalFile(f.lines[..|f.lines| - 1] + [Garbage], terminated)
  }

  function AppendLine(f: LocalFile, e: Envelope): LocalFile
  {
    WriteText(f, Row(e), true)
  }

  function AppendTorn(f: LocalFile, e: Envelope, torn: Torn): LocalFile
  {
    match torn
    case NothingWritten => f
    case PartOfLine => WriteText(f, Garbage, false)
    case AllButNewline => WriteText(f, Row(e), false)
  }

  // ---- Operations ----

  /** `read_ndjson`, or nothing when there is no file. */
  function ReadLocal(local: Option<LocalFile>): Result<seq<Envelope>, Failure>
  {
    if local.None? then Ok([])
    else if exists i | 0 <= i < |local.value.lines| :: local.value.lines[i].Garbage? then Err(CorruptLocalFile)
    else Ok(Rows(local.value.lines))
  }

  /** The object store is the source of truth unless it is absent or empty. */
  function ReadAll(hasStore: bool, s: LogState): Result<seq<Envelope>, Failure>
  {
    if hasStore && s.durable != [] then Ok(s.durable) else ReadLocal(s.local)
  }

  datatype Stage = Stage(state: LogState, done: Option<Failure>)

  /** Rebuild a missing local file from the durable rows. */
  function Hydrate(hasStore: bool, s: LogState, fault: Fault): Stage
  {
    if !hasStore || s.local.Some? then Stage(s, None)
    else if fault.HydrateReadFails? then Stage(s, Some(HydrateFailure))
    else if s.durable == [] then Stage(s, None)
    else if fault.HydrateWriteFails? then
      Stage(s.(local := Some(PartialRebuild(s.durable, fault.kept, fault.torn))), Some(HydrateFailure))
    else Stage(s.(local := Some(FileOf(s.durable))), None)
  }

  function PartialRebuild(envs: seq<Envelope>, kept: nat, torn: Torn): LocalFile
  {
    if kept < |envs| then AppendTorn(FileOf(envs[..kept]), envs[kept], torn) else FileOf(envs)
  }

  datatype Appended = Appended(state: LogState, result: Result<Envelope, Failure>)

  /** `write_line`: the durable object first, then one line of the local file. */
  function WriteLine(hasStore: bool, s: LogState, e: Envelope, fault: Fault): Appended
  {
    if hasStore && fault.PutLost? then Appended(s, Err(PutFailure))
    else
      var stored := if hasStore then s.(durable := s.durable + [e]) else s;
      if hasStore && (fault.PutUnacknowledged? || fault.TipPutFails?) then Appended(stored, Err(PutFailure))
      else WriteLocal(stored, e, fault)
  }

  function WriteLocal(s: LogState, e: Envelope, fault: Fault): Appended
  {
    var f := Opened(s.local);
    match fault
    case LocalOpenFails => Appended(s, Err(LocalFailure))
    case LocalWriteFails(torn) => Appended(s.(local := Some(AppendTorn(f, e, torn))), Err(LocalFailure))
    case LocalSyncFails => Appended(s.(local := Some(AppendLine(f, e))), Err(LocalFailure))
    case _ => Appended(s.(local := Some(AppendLine(f, e))), Ok(e))
  }

  /** The envelope that is signed when `envs` is the log so far. */
  function Linking(c: Crypto, envs: seq<Envelope>, body: Body): Envelope
  {
    Sign(c, body.(prevHash := TipHash(c, envs)))
  }

  /** `sign_and_append`. */
  function SignAndAppend(c: Crypto, hasStore: bool, s: LogState, body: Body, fault: Fault): Appended
  {
    var h := Hydrate(hasStore, s, fault);
    if h.done.Some? then Appended(h.state, Err(h.done.value))
    else if fault.TipReadFails? then Appended(h.state, Err(TipFailure))
    else match ReadAll(hasStore, h.state)
      case Err(failure) => Appended(h.state, Err(failure))
      case Ok(envs) => WriteLine(hasStore, h.state, Linking(c, envs, body), fault)
  }

  /** `append`: a row that the caller has linked and signed. */
  function Append(hasStore: bool, s: LogState, e: Envelope, fault: Fault): Appended
  {
    var h := Hydrate(hasStore, s, fault);
    if h.done.Some? then Appended(h.state, Err(h.done.value))
    else if fault.TipReadFails? then Appended(h.state, Err(TipFailure))
    else match ReadAll(hasStore, h.state)
      case Err(failure) => Appended(h.state, Err(failure))
      case Ok(_) => WriteLine(hasStore, h.state, e, fault)
  }

  // ---- Runs ----

  /** A restart keeps the persistent state and nothing else, so it is no event of its own. */
  datatype Event = AppendRow(body: Body, fault: Fault) | LocalFileLost

  /** The state after a run, and the rows whose append was acknowledged, in order. */
  datatype RunState = RunState(state: LogState, acked: seq<Envelope>, clean: bool)

  function Step(c: Crypto, hasStore: bool, o: RunState, ev: Event): RunState
  {
    match ev
    case LocalFileLost => o.(state := o.state.(local := None))
    case AppendRow(body, fault) =>
      var a := SignAndAppend(c, hasStore, o.state, body, fault);
      if a.result.Ok? then RunState(a.state, o.acked + [a.result.value], o.clean)
      else RunState(a.state, o.acked, false)
  }

  function Run(c: Crypto, hasStore: bool, from: LogState, events: seq<Event>): RunState
  {
    if events == [] then RunState(from, [], true)
    else Step(c, hasStore, Run(c, hasStore, from, events[..|events| - 1]), events[|events| - 1])
  }
}
