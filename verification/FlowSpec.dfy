/**
 The query and retry protocol on values. A device is an arbitrary function of everything that
 happened so far; a run of the protocol extends a log of control transfers.
 */
module FlowSpec {
  import opened Bytes
  import opened Checksum

  type Frame = f: seq<byte> | |f| == 64 witness Zeros(64)

  datatype TransportError =
    | Usb(message: string)
    | Timeout(cmd: byte)
    | EchoMismatch(expected: byte, actual: byte, attempts: nat)

  datatype Result<+T> = Ok(value: T) | Err(error: TransportError)

  datatype Answer = Data(frame: Frame) | Failure(message: string)

  /** What a transfer is for. Forward and Direct writes carry the caller's own frame. */
  datatype Role = Prepare | Forward | Status | Flush | Direct | Followup | Plain

  datatype Transfer =
    | SetReport(role: Role, frame: Frame, failure: Option<string>, start: nat, end: nat)
    | GetReport(role: Role, answer: Answer, start: nat, end: nat)

  /** The transfers so far and the clock, in nanoseconds. */
  datatype World = World(log: seq<Transfer>, now: nat)

  /** An arbitrary device: how it reacts to writes and reads and how long everything takes. */
  datatype Device = Device(
    onWrite: (World, Frame) -> Option<string>, onRead: World -> Answer, lag: World -> nat)

  const GET_DONGLE_INFO: byte := 0xF0
  const SET_CTRL_BYTE: byte := 0xF6
  const GET_DONGLE_STATUS: byte := 0xF7
  const ENTER_PAIRING: byte := 0xF8
  const PAIRING_CMD: byte := 0x7A
  const GET_RF_INFO: byte := 0xFB
  const GET_CACHED_RESPONSE: byte := 0xFC
  const GET_DONGLE_ID: byte := 0xFD
  const SET_RESPONSE_SIZE: byte := 0xFE

  const QUERY_RETRIES := 5
  const SEND_RETRIES := 3
  const DEFAULT_DELAY_MS := 100
  const NANOS_PER_MS := 1_000_000

  datatype Options = Options(
    retries: nat, allowForwarding: bool, allowFollowups: bool, forwardSends: nat, forwardPolls: nat,
    statusPolls: nat, budget: Option<nat>, fallback: bool)

  function Regular(): Options {
    Options(QUERY_RETRIES, true, true, QUERY_RETRIES, 15, 5, None, true)
  }

  function Discovery(configuredRetries: nat): Options {
    Options(Max(configuredRetries, 1), false, false, 0, 0, 0, None, false)
  }

  function Max(a: nat, b: nat): nat {
    if a < b then b else a
  }

  // ---- Transfers and time ----

  function Sleep(dev: Device, w: World, ms: nat): World {
    w.(now := w.now + ms * NANOS_PER_MS + dev.lag(w))
  }

  function ReadClock(dev: Device, w: World): World {
    w.(now := w.now + dev.lag(w))
  }

  function Write(dev: Device, w: World, role: Role, frame: Frame): (World, Option<string>) {
    var failure, end := dev.onWrite(w, frame), w.now + dev.lag(w);
    (World(w.log + [SetReport(role, frame, failure, w.now, end)], end), failure)
  }

  function Read(dev: Device, w: World, role: Role): (World, Answer) {
    var answer, end := dev.onRead(w), w.now + dev.lag(w);
    (World(w.log + [GetReport(role, answer, w.now, end)], end), answer)
  }

  // ---- Recognising answers ----

  predicate AllZero(s: seq<byte>) {
    forall i :: 0 <= i < |s| ==> s[i] == 0
  }

  /** The least offset from `k` to 8 at which the command byte follows nothing but zeros. */
  function ShiftFrom(cmd: byte, response: Frame, k: nat): (shift: Option<nat>)
    ensures shift.Some? ==> k <= shift.value <= 8
    decreases 9 - k
  {
    if k > 8 then None
    else if response[k] == cmd && AllZero(response[..k]) then Some(k)
    else ShiftFrom(cmd, response, k + 1)
  }

  function Strip(response: Frame, k: nat): Frame
    requires k <= 64
  {
    response[k..] + Zeros(k)
  }

  function Normalize(cmd: byte, response: Frame): Option<Frame> {
    match ShiftFrom(cmd, response, 0)
    case None => None
    case Some(k) => Some(Strip(response, k))
  }

  predicate IsPlaceholder(response: Frame) {
    AllZero(response[..8])
  }

  predicate HasResponse(status: Frame) {
    if status[0] == 0 && status[1] <= 1 then status[1] != 0 else status[0] != 0
  }

  predicate IsDongleLocal(cmd: byte) {
    cmd in {GET_DONGLE_INFO, SET_CTRL_BYTE, GET_DONGLE_STATUS, ENTER_PAIRING, PAIRING_CMD, GET_RF_INFO,
            GET_CACHED_RESPONSE, GET_DONGLE_ID, SET_RESPONSE_SIZE}
  }

  function StatusFrame(): Frame {
    Payload(GET_DONGLE_STATUS, [], Bit7)
  }

  function FlushFrame(): Frame {
    Payload(GET_CACHED_RESPONSE, [], Bit7)
  }

  function PrepareFrame(): Frame {
    Payload(SET_RESPONSE_SIZE, [64], Bit7)
  }

  // ---- Polling ----

  /** Asks the dongle for its cached response once. */
  function ReadCached(dev: Device, w: World, cmd: byte): (World, Option<Frame>) {
    var (w1, failure) := Write(dev, w, Flush, FlushFrame());
    if failure.Some? then (w1, None)
    else
      var (w2, answer) := Read(dev, Sleep(dev, w1, 8), Flush);
      (w2, if answer.Data? then Normalize(cmd, answer.frame) else None)
  }

  /** What one round of a retry loop comes to. */
  datatype Round<+T> = Done(value: T) | GiveUp | Again

  /** One status poll; the cache is read when a response is announced. */
  function PollOnce(dev: Device, w: World, cmd: byte): (World, Round<Frame>) {
    var (w1, failure) := Write(dev, w, Status, StatusFrame());
    if failure.Some? then (w1, GiveUp)
    else
      var (w2, status) := Read(dev, Sleep(dev, w1, 20), Status);
      if status.Failure? then (w2, GiveUp)
      else if !HasResponse(status.frame) then (Sleep(dev, w2, 20), Again)
      else
        var (w3, found) := ReadCached(dev, w2, cmd);
        (w3, if found.Some? then Done(found.value) else Again)
  }

  /** Polls up to `n` times. */
  function PollCycle(dev: Device, w: World, cmd: byte, n: nat): (World, Option<Frame>)
    decreases n
  {
    if n == 0 then (w, None)
    else
      var (w1, round) := PollOnce(dev, w, cmd);
      match round
      case Done(frame) => (w1, Some(frame))
      case GiveUp => (w1, None)
      case Again => PollCycle(dev, w1, cmd, n - 1)
  }

  function Expired(dev: Device, w: World, budget: Option<nat>, started: nat): (World, bool) {
    match budget
    case None => (w, false)
    case Some(limit) =>
      var w' := ReadClock(dev, w);
      (w', w'.now - started >= limit)
  }

  function PollRound(dev: Device, w: World, cmd: byte, opts: Options, started: nat): (World, Round<Frame>) {
    var (w1, found) := PollCycle(dev, w, cmd, opts.statusPolls);
    if found.Some? then (w1, Done(found.value))
    else
      var (w2, expired) := Expired(dev, Sleep(dev, w1, 20), opts.budget, started);
      (w2, if expired then GiveUp else Again)
  }

  function PollRounds(dev: Device, w: World, cmd: byte, opts: Options, rounds: nat, started: nat):
      (World, Option<Frame>)
    decreases rounds
  {
    if rounds == 0 then (w, None)
    else
      var (w1, round) := PollRound(dev, w, cmd, opts, started);
      match round
      case Done(frame) => (w1, Some(frame))
      case GiveUp => (w1, None)
      case Again => PollRounds(dev, w1, cmd, opts, rounds - 1, started)
  }

  // ---- Forwarding through the dongle ----

  /** One forwarding send with its polls; a failing send ends the whole query. */
  function ForwardOnce(dev: Device, w: World, cmd: byte, own: Frame, opts: Options, started: nat):
      (World, Round<Result<Frame>>) {
    var (w1, expired) := Expired(dev, w, opts.budget, started);
    if expired then (w1, GiveUp)
    else
      var (w2, failure) := Write(dev, w1, Forward, own);
      if failure.Some? then (w2, Done(Err(Usb(failure.value))))
      else
        var (w3, found) := PollRounds(dev, Sleep(dev, w2, 30), cmd, opts, Max(opts.forwardPolls, 1), started);
        (w3, if found.Some? then Done(Ok(found.value)) else Again)
  }

  function ForwardSends(dev: Device, w: World, cmd: byte, own: Frame, opts: Options, sends: nat, started: nat):
      (World, Option<Result<Frame>>)
    decreases sends
  {
    if sends == 0 then (w, None)
    else
      var (w1, round) := ForwardOnce(dev, w, cmd, own, opts, started);
      match round
      case Done(result) => (w1, Some(result))
      case GiveUp => (w1, None)
      case Again => ForwardSends(dev, w1, cmd, own, opts, sends - 1, started)
  }

  function PrepareForwarding(dev: Device, w: World): World {
    var (w1, failure) := Write(dev, w, Prepare, PrepareFrame());
    if failure.Some? then w1 else Read(dev, Sleep(dev, w1, 2), Prepare).0
  }

  function ForwardPath(dev: Device, w: World, cmd: byte, own: Frame, opts: Options): (World, Option<Result<Frame>>) {
    if opts.forwardSends == 0 && opts.budget.None? then (w, None)
    else
      var w1 := ReadClock(dev, PrepareForwarding(dev, w));
      ForwardSends(dev, w1, cmd, own, opts, Max(opts.forwardSends, 1), w1.now)
  }

  // ---- The direct loop ----

  /** The loop's verdict once all attempts are used up. */
  function Exhausted(cmd: byte, opts: Options, lastFailure: Option<string>, lastActual: byte): Result<Frame> {
    Err(if lastFailure.Some? then Usb(lastFailure.value) else EchoMismatch(cmd, lastActual, opts.retries))
  }

  function Pause(dev: Device, w: World, opts: Options, attempt: nat): World {
    if attempt + 1 < opts.retries then Sleep(dev, w, DEFAULT_DELAY_MS) else w
  }

  datatype Attempt = Answered(frame: Frame) | Failed(message: string) | Unrecognised(actual: byte)

  /** After an unrecognised primary response: cache, status polls and one more read, if it was a placeholder. */
  function FollowUp(dev: Device, w: World, cmd: byte, response: Frame, opts: Options): (World, Attempt) {
    if !(opts.allowFollowups && IsPlaceholder(response)) then (w, Unrecognised(response[0]))
    else
      var (w1, cached) := ReadCached(dev, w, cmd);
      if cached.Some? then (w1, Answered(cached.value))
      else
        var (w2, polled) := PollCycle(dev, w1, cmd, 5);
        if polled.Some? then (w2, Answered(polled.value))
        else
          var (w3, answer) := Read(dev, w2, Followup);
          (w3,
           if answer.Failure? then Unrecognised(response[0])
           else if Normalize(cmd, answer.frame).Some? then Answered(Normalize(cmd, answer.frame).value)
           else Unrecognised(answer.frame[0]))
  }

  function DirectAttempt(dev: Device, w: World, cmd: byte, own: Frame, opts: Options, attempt: nat): (World, Attempt) {
    var (w1, failure) := Write(dev, w, Direct, own);
    if failure.Some? then (Pause(dev, w1, opts, attempt), Failed(failure.value))
    else
      var (w2, answer) := Read(dev, Sleep(dev, w1, DEFAULT_DELAY_MS), Direct);
      match answer
      case Failure(message) => (Pause(dev, w2, opts, attempt), Failed(message))
      case Data(response) =>
        if Normalize(cmd, response).Some? then (w2, Answered(Normalize(cmd, response).value))
        else FollowUp(dev, w2, cmd, response, opts)
  }

  function DirectLoop(dev: Device, w: World, cmd: byte, own: Frame, opts: Options, attempt: nat,
                      lastFailure: Option<string>, lastActual: byte): (World, Result<Frame>)
    requires attempt <= opts.retries
    decreases opts.retries - attempt
  {
    if attempt == opts.retries then (w, Exhausted(cmd, opts, lastFailure, lastActual))
    else
      var (w1, outcome) := DirectAttempt(dev, w, cmd, own, opts, attempt);
      match outcome
      case Answered(frame) => (w1, Ok(frame))
      case Failed(message) => DirectLoop(dev, w1, cmd, own, opts, attempt + 1, Some(message), lastActual)
      case Unrecognised(actual) => DirectLoop(dev, w1, cmd, own, opts, attempt + 1, lastFailure, actual)
  }

  // ---- Whole operations ----

  predicate Forwards(dongle: bool, cmd: byte, opts: Options) {
    opts.allowForwarding && dongle && !IsDongleLocal(cmd)
  }

  function Query(dev: Device, w: World, dongle: bool, cmd: byte, own: Frame, opts: Options): (World, Result<Frame>) {
    if !Forwards(dongle, cmd, opts) then DirectLoop(dev, w, cmd, own, opts, 0, None, 0)
    else
      var (w1, forwarded) := ForwardPath(dev, w, cmd, own, opts);
      match forwarded
      case Some(result) => (w1, result)
      case None =>
        if opts.fallback then DirectLoop(dev, w1, cmd, own, opts, 0, None, 0)
        else (w1, Err(EchoMismatch(cmd, 0, opts.forwardSends)))
  }

  /** The first successful read after a successful write, in at most QUERY_RETRIES rounds. */
  function RawLoop(dev: Device, w: World, cmd: byte, own: Frame, attempt: nat, lastFailure: Option<string>):
      (World, Result<Frame>)
    requires attempt <= QUERY_RETRIES
    decreases QUERY_RETRIES - attempt
  {
    if attempt == QUERY_RETRIES then (w, Err(if lastFailure.Some? then Usb(lastFailure.value) else Timeout(cmd)))
    else
      var (w1, failure) := Write(dev, w, Direct, own);
      if failure.Some? then RawLoop(dev, Pause(dev, w1, Regular(), attempt), cmd, own, attempt + 1, failure)
      else
        var (w2, answer) := Read(dev, Sleep(dev, w1, DEFAULT_DELAY_MS), Direct);
        match answer
        case Data(frame) => (w2, Ok(frame))
        case Failure(message) => RawLoop(dev, Pause(dev, w2, Regular(), attempt), cmd, own, attempt + 1, Some(message))
  }

  /** Writes until one write succeeds, at most SEND_RETRIES times; the failure of the last write otherwise. */
  function SendLoop(dev: Device, w: World, own: Frame, attempt: nat): (World, Result<()>)
    requires attempt < SEND_RETRIES
    decreases SEND_RETRIES - attempt
  {
    var (w1, failure) := Write(dev, w, Direct, own);
    if failure.None? then (w1, Ok(()))
    else if attempt + 1 < SEND_RETRIES then SendLoop(dev, Sleep(dev, w1, DEFAULT_DELAY_MS), own, attempt + 1)
    else (w1, Err(Usb(failure.value)))
  }
}
