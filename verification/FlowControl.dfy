/** The retry loops of the flow-control layer, on a session whose world they change. */
module FlowControl {
  import opened Bytes
  import opened Checksum
  import opened FlowSpec

  class UsbSession {
    const dev: Device
    var world: World

    constructor (dev: Device, world: World)
      ensures this.dev == dev && this.world == world
    {
      this.dev, this.world := dev, world;
    }

    method SleepMs(ms: nat)
      modifies this
      ensures world == Sleep(dev, old(world), ms)
    {
      world := Sleep(dev, world, ms);
    }

    method VendorSetReport(role: Role, frame: Frame) returns (failure: Option<string>)
      modifies this
      ensures (world, failure) == Write(dev, old(world), role, frame)
    {
      var (w, f) := Write(dev, world, role, frame);
      world, failure := w, f;
    }

    method VendorGetReport(role: Role) returns (answer: Answer)
      modifies this
      ensures (world, answer) == Read(dev, old(world), role)
    {
      var (w, a) := Read(dev, world, role);
      world, answer := w, a;
    }

    method BudgetSpent(budget: Option<nat>, started: nat) returns (expired: bool)
      modifies this
      ensures (world, expired) == Expired(dev, old(world), budget, started)
    {
      if budget.None? {
        return false;
      }
      world := ReadClock(dev, world);
      expired := world.now - started >= budget.value;
    }
  }

  method NormalizeQueryResponse(cmd: byte, response: Frame) returns (normalized: Option<Frame>)
    ensures normalized == Normalize(cmd, response)
  {
    if response[0] == cmd {
      assert AllZero(response[..0]) && Strip(response, 0) == response;
      return Some(response);
    }
    for offset := 1 to 9
      invariant ShiftFrom(cmd, response, 0) == ShiftFrom(cmd, response, offset)
    {
      if response[offset] == cmd && AllZero(response[..offset]) {
        return Some(Strip(response, offset));
      }
    }
    normalized := None;
  }

  method TryReadCachedResponseAfterFlush(s: UsbSession, cmd: byte) returns (found: Option<Frame>)
    modifies s
    ensures (s.world, found) == ReadCached(s.dev, old(s.world), cmd)
  {
    var failure := s.VendorSetReport(Flush, FlushFrame());
    if failure.Some? {
      return None;
    }
    s.SleepMs(8);
    var answer := s.VendorGetReport(Flush);
    if answer.Failure? {
      return None;
    }
    found := NormalizeQueryResponse(cmd, answer.frame);
  }

  method TryReadViaDonglePollCycle(s: UsbSession, cmd: byte, retries: nat) returns (found: Option<Frame>)
    modifies s
    ensures (s.world, found) == PollCycle(s.dev, old(s.world), cmd, retries)
  {
    var left: nat := retries;
    while left > 0
      invariant left <= retries
      invariant PollCycle(s.dev, s.world, cmd, left) == PollCycle(s.dev, old(s.world), cmd, retries)
    {
      left := left - 1;
      var failure := s.VendorSetReport(Status, StatusFrame());
      if failure.Some? {
        return None;
      }
      s.SleepMs(20);
      var status := s.VendorGetReport(Status);
      if status.Failure? {
        return None;
      }
      if !HasResponse(status.frame) {
        s.SleepMs(20);
        continue;
      }
      found := TryReadCachedResponseAfterFlush(s, cmd);
      if found.Some? {
        return;
      }
    }
    found := None;
  }

  method PrepareDongleForwarding(s: UsbSession)
    modifies s
    ensures s.world == PrepareForwarding(s.dev, old(s.world))
  {
    var failure := s.VendorSetReport(Prepare, PrepareFrame());
    if failure.None? {
      s.SleepMs(2);
      var _ := s.VendorGetReport(Prepare);
    }
  }

  method PollAfterSend(s: UsbSession, cmd: byte, opts: Options, started: nat) returns (found: Option<Frame>)
    modifies s
    ensures (s.world, found) == PollRounds(s.dev, old(s.world), cmd, opts, Max(opts.forwardPolls, 1), started)
  {
    var left := Max(opts.forwardPolls, 1);
    while left > 0
      invariant PollRounds(s.dev, s.world, cmd, opts, left, started)
             == PollRounds(s.dev, old(s.world), cmd, opts, Max(opts.forwardPolls, 1), started)
    {
      left := left - 1;
      found := TryReadViaDonglePollCycle(s, cmd, opts.statusPolls);
      if found.Some? {
        return;
      }
      s.SleepMs(20);
      var expired := s.BudgetSpent(opts.budget, started);
      if expired {
        return None;
      }
    }
    found := None;
  }

  method QueryViaDongleForwardPath(s: UsbSession, cmd: byte, own: Frame, opts: Options)
      returns (result: Option<Result<Frame>>)
    modifies s
    ensures (s.world, result) == ForwardPath(s.dev, old(s.world), cmd, own, opts)
  {
    hide PollRounds, PrepareForwarding, Write, Sleep, ReadClock, Expired, Max;
    if opts.forwardSends == 0 && opts.budget.None? {
      return None;
    }
    PrepareDongleForwarding(s);
    s.world := ReadClock(s.dev, s.world);
    var started, left := s.world.now, Max(opts.forwardSends, 1);
    while left > 0
      invariant ForwardSends(s.dev, s.world, cmd, own, opts, left, started)
             == ForwardPath(s.dev, old(s.world), cmd, own, opts)
    {
      left := left - 1;
      var expired := s.BudgetSpent(opts.budget, started);
      if expired {
        break;
      }
      var failure := s.VendorSetReport(Forward, own);
      if failure.Some? {
        return Some(Err(Usb(failure.value)));
      }
      s.SleepMs(30);
      var found := PollAfterSend(s, cmd, opts, started);
      if found.Some? {
        return Some(Ok(found.value));
      }
    }
    result := None;
  }

  method PlaceholderFollowUp(s: UsbSession, cmd: byte, response: Frame, opts: Options)
      returns (outcome: Attempt)
    modifies s
    ensures (s.world, outcome) == FollowUp(s.dev, old(s.world), cmd, response, opts)
  {
    if !(opts.allowFollowups && IsPlaceholder(response)) {
      return Unrecognised(response[0]);
    }
    var found := TryReadCachedResponseAfterFlush(s, cmd);
    if found.Some? {
      return Answered(found.value);
    }
    found := TryReadViaDonglePollCycle(s, cmd, 5);
    if found.Some? {
      return Answered(found.value);
    }
    var answer := s.VendorGetReport(Followup);
    if answer.Failure? {
      return Unrecognised(response[0]);
    }
    found := NormalizeQueryResponse(cmd, answer.frame);
    outcome := if found.Some? then Answered(found.value) else Unrecognised(answer.frame[0]);
  }

  method AttemptDirectly(s: UsbSession, cmd: byte, own: Frame, opts: Options, attempt: nat) returns (outcome: Attempt)
    modifies s
    ensures (s.world, outcome) == DirectAttempt(s.dev, old(s.world), cmd, own, opts, attempt)
  {
    var failure := s.VendorSetReport(Direct, own);
    if failure.None? {
      s.SleepMs(DEFAULT_DELAY_MS);
      var answer := s.VendorGetReport(Direct);
      if answer.Data? {
        var normalized := NormalizeQueryResponse(cmd, answer.frame);
        if normalized.Some? {
          return Answered(normalized.value);
        }
        outcome := PlaceholderFollowUp(s, cmd, answer.frame, opts);
        return;
      }
      failure := Some(answer.message);
    }
    if attempt + 1 < opts.retries {
      s.SleepMs(DEFAULT_DELAY_MS);
    }
    outcome := Failed(failure.value);
  }

  /** The echo-matched query: forwarding first where it applies, then the direct attempts. */
  method QueryCommandWithOptions(s: UsbSession, dongle: bool, cmd: byte, data: seq<byte>, checksum: ChecksumType,
                                 opts: Options)
      returns (result: Result<Frame>)
    modifies s
    ensures (s.world, result) == Query(s.dev, old(s.world), dongle, cmd, Payload(cmd, data, checksum), opts)
  {
    hide Payload, DirectAttempt, ForwardPath;
    var buffer := BuildCommand(cmd, data, checksum);
    var own: Frame := buffer[1..];
    assert own == Payload(cmd, data, checksum);
    if Forwards(dongle, cmd, opts) {
      var forwarded := QueryViaDongleForwardPath(s, cmd, own, opts);
      if forwarded.Some? {
        return forwarded.value;
      }
      if !opts.fallback {
        return Err(EchoMismatch(cmd, 0, opts.forwardSends));
      }
    }
    var attempt, lastFailure, lastActual: byte := 0, None, 0;
    while attempt < opts.retries
      invariant attempt <= opts.retries
      invariant DirectLoop(s.dev, s.world, cmd, own, opts, attempt, lastFailure, lastActual)
             == Query(s.dev, old(s.world), dongle, cmd, own, opts)
    {
      var outcome := AttemptDirectly(s, cmd, own, opts, attempt);
      attempt := attempt + 1;
      match outcome {
        case Answered(frame) => return Ok(frame);
        case Failed(message) => lastFailure := Some(message);
        case Unrecognised(actual) => lastActual := actual;
      }
    }
    result := Exhausted(cmd, opts, lastFailure, lastActual);
  }

  /** The raw query: any first response counts. */
  method QueryRaw(s: UsbSession, cmd: byte, data: seq<byte>, checksum: ChecksumType) returns (result: Result<Frame>)
    modifies s
    ensures (s.world, result) == RawLoop(s.dev, old(s.world), cmd, Payload(cmd, data, checksum), 0, None)
  {
    var buffer := BuildCommand(cmd, data, checksum);
    var own: Frame := buffer[1..];
    assert own == Payload(cmd, data, checksum);
    var attempt, lastFailure := 0, None;
    while attempt < QUERY_RETRIES
      invariant attempt <= QUERY_RETRIES
      invariant RawLoop(s.dev, s.world, cmd, own, attempt, lastFailure)
                == RawLoop(s.dev, old(s.world), cmd, own, 0, None)
    {
      attempt := attempt + 1;
      var failure := s.VendorSetReport(Direct, own);
      if failure.None? {
        s.SleepMs(DEFAULT_DELAY_MS);
        var answer := s.VendorGetReport(Direct);
        if answer.Data? {
          return Ok(answer.frame);
        }
        failure := Some(answer.message);
      }
      lastFailure := failure;
      if attempt < QUERY_RETRIES {
        s.SleepMs(DEFAULT_DELAY_MS);
      }
    }
    result := Err(if lastFailure.Some? then Usb(lastFailure.value) else Timeout(cmd));
  }

  /** Fire and forget: the first write that succeeds ends it. */
  method SendCommand(s: UsbSession, cmd: byte, data: seq<byte>, checksum: ChecksumType) returns (result: Result<()>)
    modifies s
    ensures (s.world, result) == SendLoop(s.dev, old(s.world), Payload(cmd, data, checksum), 0)
  {
    var buffer := BuildCommand(cmd, data, checksum);
    var own: Frame := buffer[1..];
    assert own == Payload(cmd, data, checksum);
    var attempt := 0;
    result := Ok(());
    while attempt < SEND_RETRIES
      invariant attempt < SEND_RETRIES ==>
                SendLoop(s.dev, s.world, own, attempt) == SendLoop(s.dev, old(s.world), own, 0)
      invariant attempt >= SEND_RETRIES ==> (s.world, result) == SendLoop(s.dev, old(s.world), own, 0)
    {
      var failure := s.VendorSetReport(Direct, own);
      if failure.None? {
        return Ok(());
      }
      result := Err(Usb(failure.value));
      attempt := attempt + 1;
      if attempt < SEND_RETRIES {
        s.SleepMs(DEFAULT_DELAY_MS);
      }
    }
  }
}
