/** The command controller's spacing rule and the transport thread that serves requests in turn. */
module Transport {
  import opened Bytes
  import opened Checksum
  import opened FlowSpec
  import opened FlowProofs
  import opened FlowControl

  datatype Mode = QueryMode | QueryRawMode | SendMode | ReadMode

  datatype Request = Request(cmd: byte, data: seq<byte>, checksum: ChecksumType, mode: Mode)

  /** A payload is present exactly in the replies that carry one. */
  type Reply = Result<Option<Frame>>

  const SPACING := DEFAULT_DELAY_MS * NANOS_PER_MS

  /** The world and the moment the latest command ended. */
  datatype Line = Line(world: World, lastCommandAt: int)

  /** Waits until the required time since the latest command has passed. */
  function Enforce(dev: Device, line: Line): (w: World)
    ensures w.log == line.world.log && w.now >= line.world.now
    ensures line.lastCommandAt <= line.world.now ==> w.now >= line.lastCommandAt + SPACING
  {
    var w := ReadClock(dev, line.world);
    var elapsed := if w.now < line.lastCommandAt then 0 else w.now - line.lastCommandAt;
    if elapsed >= SPACING then w else SleepUntilAtLeast(dev, w, line.lastCommandAt, elapsed)
  }

  /** A sleep of the missing time; the system clock may run on for longer, never for less. */
  function SleepUntilAtLeast(dev: Device, w: World, last: int, elapsed: nat): (w': World)
    requires elapsed < SPACING && (w.now >= last ==> elapsed == w.now - last)
    ensures w'.log == w.log && w'.now >= w.now && (w.now >= last ==> w'.now >= last + SPACING)
  {
    w.(now := w.now + (SPACING - elapsed) + dev.lag(w))
  }

  /** How a controller starts: its latest command counts as long past. */
  function StartLine(w: World): Line {
    Line(w, w.now - 2 * SPACING)
  }

  function Perform(dev: Device, w: World, dongle: bool, req: Request): (World, Reply) {
    var own := Payload(req.cmd, req.data, req.checksum);
    match req.mode
    case QueryMode => var (w', r) := Query(dev, w, dongle, req.cmd, own, Regular()); (w', Present(r))
    case QueryRawMode => var (w', r) := RawLoop(dev, w, req.cmd, own, 0, None); (w', Present(r))
    case SendMode => var (w', r) := SendLoop(dev, w, own, 0); (w', if r.Ok? then Ok(None) else Err(r.error))
    case ReadMode => var (w', answer) := Read(dev, w, Plain);
      (w', if answer.Data? then Ok(Some(answer.frame)) else Err(Usb(answer.message)))
  }

  function Present(r: Result<Frame>): Reply {
    if r.Ok? then Ok(Some(r.value)) else Err(r.error)
  }

  function Execute(dev: Device, line: Line, dongle: bool, req: Request): (Line, Reply) {
    var (w, reply) := Perform(dev, Enforce(dev, line), dongle, req);
    var w' := ReadClock(dev, w);
    (Line(w', w'.now), reply)
  }

  function Serve(dev: Device, line: Line, dongle: bool, reqs: seq<Request>): (out: (Line, seq<Reply>))
    ensures |out.1| == |reqs|
  {
    if reqs == [] then (line, [])
    else
      var (before, replies) := Serve(dev, line, dongle, reqs[..|reqs| - 1]);
      var (after, reply) := Execute(dev, before, dongle, reqs[|reqs| - 1]);
      (after, replies + [reply])
  }

  // ---- The controller and the thread ----

  class CommandController {
    const session: UsbSession
    const dongle: bool
    var lastCommandAt: int

    constructor (session: UsbSession, dongle: bool)
      ensures this.session == session && this.dongle == dongle
      ensures Line(session.world, lastCommandAt) == StartLine(session.world)
    {
      this.session, this.dongle := session, dongle;
      lastCommandAt := session.world.now - 2 * SPACING;
    }

    ghost function State(): Line
      reads this, session
    {
      Line(session.world, lastCommandAt)
    }

    method EnforceInterCommandDelay()
      modifies session
      ensures session.world == Enforce(session.dev, old(State()))
    {
      session.world := ReadClock(session.dev, session.world);
      var w := session.world;
      var elapsed := if w.now < lastCommandAt then 0 else w.now - lastCommandAt;
      if elapsed < SPACING {
        session.world := w.(now := w.now + (SPACING - elapsed) + session.dev.lag(w));
      }
    }

    /** Serves one request: space, perform, stamp the end. */
    method HandleCommand(req: Request) returns (reply: Reply)
      modifies this, session
      ensures (State(), reply) == Execute(session.dev, old(State()), dongle, req)
    {
      EnforceInterCommandDelay();
      match req.mode {
        case QueryMode =>
          var r := QueryCommandWithOptions(session, dongle, req.cmd, req.data, req.checksum, Regular());
          reply := Present(r);
        case QueryRawMode =>
          var r := QueryRaw(session, req.cmd, req.data, req.checksum);
          reply := Present(r);
        case SendMode =>
          var r := SendCommand(session, req.cmd, req.data, req.checksum);
          reply := if r.Ok? then Ok(None) else Err(r.error);
        case ReadMode =>
          var answer := session.VendorGetReport(Plain);
          reply := if answer.Data? then Ok(Some(answer.frame)) else Err(Usb(answer.message));
      }
      session.world := ReadClock(session.dev, session.world);
      lastCommandAt := session.world.now;
    }
  }

  /** Serves the queued requests one by one, each with exactly one reply, in queue order. */
  method TransportLoop(session: UsbSession, dongle: bool, queue: seq<Request>) returns (replies: seq<Reply>)
    modifies session
    ensures var (line, all) := Serve(session.dev, StartLine(old(session.world)), dongle, queue);
            session.world == line.world && replies == all
  {
    hide Execute, Serve;
    var controller := new CommandController(session, dongle);
    ServeNone(session.dev, controller.State(), dongle);
    ghost var start := controller.State();
    replies := [];
    for i := 0 to |queue|
      invariant fresh(controller) && controller.session == session && controller.dongle == dongle
      invariant (controller.State(), replies) == Serve(session.dev, start, dongle, queue[..i])
    {
      ServeOneMore(session.dev, start, dongle, queue, i);
      var reply := controller.HandleCommand(queue[i]);
      replies := replies + [reply];
    }
    assert queue[..|queue|] == queue;
  }

  lemma ServeNone(dev: Device, line: Line, dongle: bool)
    ensures Serve(dev, line, dongle, []) == (line, [])
  {
  }

  lemma ServeOneMore(dev: Device, line: Line, dongle: bool, reqs: seq<Request>, i: nat)
    requires i < |reqs|
    ensures var (before, replies) := Serve(dev, line, dongle, reqs[..i]);
            var (after, reply) := Execute(dev, before, dongle, reqs[i]);
            Serve(dev, line, dongle, reqs[..i + 1]) == (after, replies + [reply])
  {
    hide Execute;
    assert reqs[..i + 1][..i] == reqs[..i];
  }

  // ---- Properties ----

  /** A request performed in time: new transfers lie between its start and its end and do not overlap. */
  ghost predicate Performed(w: World, w': World) {
    && |w.log| <= |w'.log| && w'.log[..|w.log|] == w.log && w.now <= w'.now
    && forall i :: |w.log| <= i < |w'.log| ==> w.now <= w'.log[i].start && w'.log[i].end <= w'.now
  }

  /** The frame is the last thing the device said. */
  ghost predicate LastFrame(w: World, frame: Frame) {
    w.log != [] && w.log[|w.log| - 1].GetReport? && w.log[|w.log| - 1].answer == Data(frame)
  }

  /**
   What the reply to a request says about the transfers between `w` and `w'`: the answer is the one
   that was read, and the error is the failure that was logged.
   */
  ghost predicate ReplyFits(w: World, w': World, dongle: bool, req: Request, reply: Reply) {
    && |w.log| <= |w'.log|
    && var n, failure := |w'.log|, LastPrimaryFailure(w'.log, |w.log|);
       match req.mode
       case QueryMode =>
         if reply.Ok? then
           && reply.value.Some? && LastRead(w', req.cmd, reply.value.value)
           && OwnWritten(w, w', Payload(req.cmd, req.data, req.checksum))
         else if failure.Some? then reply.error == Usb(failure.value)
         else Mismatched(req.cmd, reply.error, 5) || (dongle && ForwardFailed(w', reply.error))
       case QueryRawMode =>
         if reply.Ok? then
           && reply.value.Some? && |w.log| < n && LastFrame(w', reply.value.value)
           && NoFrameRead(w'.log, |w.log|, n - 1) && OwnWritten(w, w', Payload(req.cmd, req.data, req.checksum))
         else failure.Some? && reply.error == Usb(failure.value)
       case SendMode =>
         && |w.log| < n && w'.log[n - 1].SetReport? && w'.log[n - 1].frame == Payload(req.cmd, req.data, req.checksum)
         && reply == (match w'.log[n - 1].failure case None => Ok(None) case Some(message) => Err(Usb(message)))
       case ReadMode =>
         && n == |w.log| + 1 && w'.log[n - 1].GetReport?
         && reply == match w'.log[n - 1].answer
                     case Data(frame) => Ok(Some(frame))
                     case Failure(message) => Err(Usb(message))
  }

  lemma QueryReply(dev: Device, w: World, dongle: bool, req: Request)
    requires req.mode == QueryMode
    ensures var (w', reply) := Perform(dev, w, dongle, req);
            && Performed(w, w') && ReplyFits(w, w', dongle, req, reply)
            && (reply.Ok? ==> reply.value.value[0] == req.cmd)
  {
    hide Query, Payload, Stretch, Performed, LastPrimaryFailure, LastRead, OwnWritten, ForwardFailed;
    hide QueryRoles, QueryCost, IsDongleLocal;
    var own, forwarded := Payload(req.cmd, req.data, req.checksum), Forwards(dongle, req.cmd, Regular());
    var w' := Query(dev, w, dongle, req.cmd, own, Regular()).0;
    QueryGuarantee(dev, w, dongle, req.cmd, own, Regular());
    StretchInTime(w, w', own, QueryRoles(Regular(), forwarded), QueryCost(Regular(), req.cmd, forwarded));
    assert |w.log| <= |w'.log| by { InTimeGrows(w, w'); }
  }

  lemma RawReply(dev: Device, w: World, dongle: bool, req: Request)
    requires req.mode == QueryRawMode
    ensures var (w', reply) := Perform(dev, w, dongle, req);
            Performed(w, w') && ReplyFits(w, w', dongle, req, reply)
  {
    hide RawLoop, Payload, Stretch, Performed, LastPrimaryFailure, NoFrameRead, Times;
    var own := Payload(req.cmd, req.data, req.checksum);
    RawQueryGuarantee(dev, w, req.cmd, own, 0, None);
    StretchInTime(w, RawLoop(dev, w, req.cmd, own, 0, None).0, own, {Direct}, Times(QUERY_RETRIES, Cost(1, 1, 1)));
  }

  lemma SendReply(dev: Device, w: World, dongle: bool, req: Request)
    requires req.mode == SendMode
    ensures var (w', reply) := Perform(dev, w, dongle, req);
            Performed(w, w') && ReplyFits(w, w', dongle, req, reply)
  {
    hide SendLoop, Payload, Stretch, Performed, LastPrimaryFailure;
    var own := Payload(req.cmd, req.data, req.checksum);
    SendGuarantee(dev, w, own, 0);
    StretchInTime(w, SendLoop(dev, w, own, 0).0, own, {Direct}, Cost(SEND_RETRIES, 0, SEND_RETRIES));
    LastWriteIsOwn(w, SendLoop(dev, w, own, 0).0, own, Cost(SEND_RETRIES, 0, SEND_RETRIES));
  }

  lemma LastWriteIsOwn(w: World, w': World, own: Frame, cost: Cost)
    requires Stretch(w, w', own, {Direct}, cost) && |w.log| < |w'.log| && w'.log[|w'.log| - 1].SetReport?
    ensures w'.log[|w'.log| - 1].frame == own
  {
    hide Spends;
    assert RightTransfer(w'.log, |w'.log| - 1, own);
  }

  lemma PerformInTime(dev: Device, w: World, dongle: bool, req: Request)
    ensures var (w', reply) := Perform(dev, w, dongle, req);
            && Performed(w, w') && ReplyFits(w, w', dongle, req, reply)
            && (reply.Ok? ==> (reply.value.Some? <==> req.mode != SendMode))
            && (reply.Ok? && req.mode == QueryMode ==> reply.value.value[0] == req.cmd)
  {
    hide Query, RawLoop, SendLoop, Payload, LastPrimaryFailure, LastRead, OwnWritten, NoFrameRead, ForwardFailed;
    match req.mode
    case QueryMode => QueryReply(dev, w, dongle, req);
    case QueryRawMode => RawReply(dev, w, dongle, req);
    case SendMode => SendReply(dev, w, dongle, req);
    case ReadMode =>
  }

  lemma InTimeGrows(w: World, w': World)
    requires Performed(w, w')
    ensures |w.log| <= |w'.log|
  {
  }

  lemma StretchInTime(w: World, w': World, own: Frame, roles: set<Role>, cost: Cost)
    requires Stretch(w, w', own, roles, cost)
    ensures Performed(w, w')
  {
  }

  /** Everything logged since index `from` ended by the stamp of the latest command. */
  ghost predicate Settled(line: Line, from: nat) {
    && line.lastCommandAt <= line.world.now
    && forall i :: from <= i < |line.world.log| ==> line.world.log[i].end <= line.lastCommandAt
  }

  lemma ExecuteSpaced(dev: Device, line: Line, dongle: bool, req: Request, from: nat)
    requires Settled(line, from) && from <= |line.world.log|
    ensures var line' := Execute(dev, line, dongle, req).0;
            && Settled(line', from) && line.lastCommandAt + SPACING <= line'.lastCommandAt
            && |line.world.log| <= |line'.world.log| && line'.world.log[..|line.world.log|] == line.world.log
            && forall q :: |line.world.log| <= q < |line'.world.log| ==>
              line'.world.log[q].start >= line.lastCommandAt + SPACING
  {
    hide Perform;
    var w, line' := Enforce(dev, line), Execute(dev, line, dongle, req).0;
    PerformInTime(dev, w, dongle, req);
    forall i | from <= i < |line.world.log| ensures line'.world.log[i].end <= line.lastCommandAt {
      assert line'.world.log[..|line.world.log|][i] == line.world.log[i];
    }
  }

  lemma {:induction false} ServeSettled(dev: Device, line: Line, dongle: bool, reqs: seq<Request>)
    requires line.lastCommandAt <= line.world.now
    ensures var line' := Serve(dev, line, dongle, reqs).0;
            && |line.world.log| <= |line'.world.log| && line'.world.log[..|line.world.log|] == line.world.log
            && Settled(line', |line.world.log|)
  {
    hide Execute;
    if reqs != [] {
      var init := reqs[..|reqs| - 1];
      ServeSettled(dev, line, dongle, init);
      var before := Serve(dev, line, dongle, init).0;
      ExecuteSpaced(dev, before, dongle, reqs[|reqs| - 1], |line.world.log|);
      var after := Execute(dev, before, dongle, reqs[|reqs| - 1]).0;
      assert after.world.log[..|line.world.log|] == after.world.log[..|before.world.log|][..|line.world.log|];
    }
  }

  /**
   Spacing over whole runs: whatever earlier requests did and however they ended, every transfer of
   the next request starts at least 100 ms after every transfer of the earlier ones.
   */
  lemma CommandsSpaced(dev: Device, line: Line, dongle: bool, reqs: seq<Request>, next: Request, p: nat, q: nat)
    requires line.lastCommandAt <= line.world.now
    requires var before, after := Serve(dev, line, dongle, reqs).0, Serve(dev, line, dongle, reqs + [next]).0;
             |line.world.log| <= p < |before.world.log| <= q < |after.world.log|
    ensures var log := Serve(dev, line, dongle, reqs + [next]).0.world.log;
            log[q].start >= log[p].end + 100_000_000
  {
    hide Execute;
    assert (reqs + [next])[..|reqs|] == reqs;
    var before := Serve(dev, line, dongle, reqs).0;
    ServeSettled(dev, line, dongle, reqs);
    ExecuteSpaced(dev, before, dongle, next, |line.world.log|);
    var log := Execute(dev, before, dongle, next).0.world.log;
    assert log[p] == log[..|before.world.log|][p];
  }

  /** The wait before a command is what is missing of the spacing and no more; the first command waits for nothing. */
  lemma DelayExact(dev: Device, line: Line)
    requires line.lastCommandAt <= line.world.now
    ensures var asked, w := line.world.now + dev.lag(line.world), Enforce(dev, line);
            var due := line.lastCommandAt + 100_000_000;
            && (due <= asked ==> w == line.world.(now := asked))
            && (due > asked ==> w.now == due + dev.lag(line.world.(now := asked)))
    ensures line == StartLine(line.world) ==> Enforce(dev, line).now == line.world.now + dev.lag(line.world)
  {
  }

  /** Each request gets its own reply, in order; a successful one holds a payload iff its mode reads one. */
  lemma {:induction false} RepliesMatchRequests(dev: Device, line: Line, dongle: bool, reqs: seq<Request>, i: nat)
    requires i < |reqs|
    ensures var reply := Serve(dev, line, dongle, reqs).1[i];
            && reply == Execute(dev, Serve(dev, line, dongle, reqs[..i]).0, dongle, reqs[i]).1
            && ReplyFits(Serve(dev, line, dongle, reqs[..i]).0.world, Serve(dev, line, dongle, reqs[..i + 1]).0.world,
                         dongle, reqs[i], reply)
            && (reply.Ok? ==> (reply.value.Some? <==> reqs[i].mode != SendMode))
            && (reply.Ok? && reqs[i].mode == QueryMode ==> reply.value.value[0] == reqs[i].cmd)
  {
    hide Perform, Enforce, ReplyFits;
    var init := reqs[..|reqs| - 1];
    if i < |init| {
      RepliesMatchRequests(dev, line, dongle, init, i);
      assert init[..i] == reqs[..i] && init[..i + 1] == reqs[..i + 1];
    } else {
      var before := Serve(dev, line, dongle, init).0;
      var w := Enforce(dev, before);
      PerformInTime(dev, w, dongle, reqs[i]);
      assert reqs[..i + 1] == reqs;
      FitsLogs(w, Perform(dev, w, dongle, reqs[i]).0, before.world, Serve(dev, line, dongle, reqs).0.world, dongle,
               reqs[i], Perform(dev, w, dongle, reqs[i]).1);
    }
  }

  /** Only the logs matter. */
  lemma FitsLogs(w: World, w': World, v: World, v': World, dongle: bool, req: Request, reply: Reply)
    requires ReplyFits(w, w', dongle, req, reply) && v.log == w.log && v'.log == w'.log
    ensures ReplyFits(v, v', dongle, req, reply)
  {
    hide Payload, LastPrimaryFailure, OwnWriteAt, Normalize;
  }
}
