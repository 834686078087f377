/** What a client is answered: every outcome of an open, a send and a read, in terms of the state and the device. */
module BridgeReplies {
  import opened Bytes
  import opened Checksum
  import opened CommandPolicy
  import opened DeviceRegistry
  import opened BridgeSpec
  import opened BridgeProofs
  import opened BridgeHistory
  import Transport

  /** The path is connected, or it can be: registered, online, of a known id, and the device attaches. */
  ghost predicate Reaches(s: State, library: Library, p: string, o: Outside) {
    p in s.devices || (
      && p in s.registry.byPath && s.registry.byPath[p].online && s.registry.byPath[p].deviceId in library
      && o.attaches)
  }

  /** The connection an open finds or makes. */
  ghost function ConnectionTo(s: State, library: Library, p: string, o: Outside): Connected
    requires Reaches(s, library, p, o)
  {
    if p in s.devices then s.devices[p] else Connected(s.registry.byPath[p], library[s.registry.byPath[p].deviceId])
  }

  /** The state in which the path is connected and nothing else has changed. */
  ghost function Joined(s: State, library: Library, p: string, o: Outside): State
    requires Reaches(s, library, p, o)
  {
    s.(devices := s.devices[p := ConnectionTo(s, library, p, o)])
  }

  /** An open succeeds iff the path can be reached; otherwise it changes nothing and finds nothing. */
  lemma OpenOutcome(library: Library, s: State, p: string, o: Outside)
    requires Agreement(s)
    ensures Open(s, library, p, o) ==
              if Reaches(s, library, p, o)
              then (Joined(s, library, p, o), Fine(ConnectionTo(s, library, p, o)))
              else (s, Fail(NotFound))
  {
    hide LocationsArePaths, LocationFound, EntrySound, Backed;
    if p in s.devices {
      assert s.devices[p := s.devices[p]] == s.devices;
    }
  }

  /** An ASCII path is blank iff it holds nothing but spaces, tabs and line or page breaks. */
  lemma BlankAscii(path: string)
    requires forall i :: 0 <= i < |path| ==> path[i] < '\U{0080}'
    ensures Blank(path) <==> forall i :: 0 <= i < |path| ==> path[i] == ' ' || '\t' <= path[i] <= '\r'
  {
  }

  /** A path can be reached iff it is connected, or it was scanned by the latest refresh and can be attached. */
  lemma ReachesIff(library: Library, steps: seq<Step>, p: string, o: Outside)
    requires Run(library, INITIAL, steps)
    ensures var s, info := After(library, INITIAL, steps), LastScanned(steps, p);
            Reaches(s, library, p, o) <==>
              p in s.devices || (Present(steps, p) && info.Some? && info.value.deviceId in library && o.attaches)
  {
    hide After, Run;
    RegistryRemembers(library, steps, p);
  }

  /**
   Every outcome of a read after any run: an owed empty answer comes first and costs no transfer; else the
   device is asked, its response is the answer, and its silence is an internal error.
   */
  lemma ReadOutcome(library: Library, steps: seq<Step>, p: string, o: Outside)
    requires Run(library, INITIAL, steps)
    ensures var s := After(library, INITIAL, steps);
            var (s', result) := Receive(s, library, p, o);
            if Blank(p) then s' == s && result == Fail(Rejected(InvalidArgument))
            else if Queued(s, p) != [] then
              s' == s.(queues := s'.queues) && Queued(s', p) == Queued(s, p)[1..] && result == Fine([])
            else if !Reaches(s, library, p, o) then s' == s && result == Fail(NotFound)
            else
              && result == (match o.response case Some(bytes) => Fine(bytes) case None => Fail(Internal))
              && s' == Joined(s, library, p, o).(traffic := s'.traffic)
              && (exists r: Transport.Request ::
                    && s'.traffic == s.traffic + [Handed(ConnectionTo(s, library, p, o), r)]
                    && r.mode == Transport.ReadMode)
  {
    hide After, Run, Agreement, Open, Receive, Blank, Reaches, Queued, Pop;
    var s := After(library, INITIAL, steps);
    AgreementHolds(library, steps);
    TokensCounted(library, steps, p);
    ReceiveIs(library, s, p, o);
    OpenOutcome(library, s, p, o);
    PoppedQueues(s, p, p);
    OnlyQueuesPopped(s, p);
    if Reaches(s, library, p, o) {
      DeviceRead(Joined(s, library, p, o), ConnectionTo(s, library, p, o), o.response);
    }
  }

  lemma OnlyQueuesPopped(s: State, p: string)
    ensures Pop(s, p).0 == s.(queues := Pop(s, p).0.queues)
  {
  }

  lemma DeviceRead(s: State, c: Connected, response: Option<seq<byte>>)
    ensures var (s', result) := ReadDevice(s, c, response);
            && result == (match response case Some(bytes) => Fine(bytes) case None => Fail(Internal))
            && s' == s.(traffic := s'.traffic)
            && (exists r: Transport.Request ::
                  s'.traffic == s.traffic + [Handed(c, r)] && r.mode == Transport.ReadMode)
  {
  }

  /** The same for the read of a client that alternates, after a query or a failed open. */
  lemma QueryIsAnswered(library: Library, first: seq<Step>, send: Step, between: seq<Step>, p: string, o: Outside)
    requires send.SendTo? && send.path == p && !Blank(p)
    requires forall i :: 0 <= i < |between| ==> !Own(between[i], p) && !between[i].Shutdown?
    requires Run(library, INITIAL, first + [send] + between) && Alternating(first + [send] + between, p)
    requires !Granted(library, After(library, INITIAL, first), send, p)
    ensures var s := After(library, INITIAL, first + [send] + between);
            Receive(s, library, p, o).1 ==
              if !Reaches(s, library, p, o) then Fail(NotFound)
              else match o.response case Some(bytes) => Fine(bytes) case None => Fail(Internal)
  {
    hide Agreement, Granted, Blank, Run, Alternating, Owed, After, Open, Receive, Reaches, Queued;
    var steps := first + [send] + between;
    AlternatingQueue(library, steps, p);
    OwedAfterSend(library, first, send, between, p);
    ReadOutcome(library, steps, p, o);
  }

  /** Whether the state has one more empty answer queued at `p`, and is otherwise `s` with other traffic. */
  ghost predicate Grants(s: State, s': State, p: string, granted: bool) {
    && s' == s.(queues := s'.queues, traffic := s'.traffic)
    && Queued(s', p) == Queued(s, p) + (if granted then [[]] else [])
    && forall q :: q != p ==> Queued(s', q) == Queued(s, q)
  }

  /** The request is the normalised message, to be written with the caller's checksum. */
  ghost predicate Carries(r: Transport.Request, def: Definition, msg: seq<byte>, kind: ChecksumType) {
    [r.cmd] + r.data == Normalized(def, msg) && r.checksum == kind && r.mode == Transport.SendMode
  }

  /**
   Every outcome of a send: writes are owed an empty answer whatever becomes of them; a message within bounds
   is handed over once and succeeds iff the device takes it; one out of bounds is handed to nobody, and is an
   error with the code of the policy, or a silent success on a keyboard without magnetic switches.
   */
  lemma SendOutcome(library: Library, s: State, p: string, msg: seq<byte>, kind: ChecksumType, o: Outside)
    requires Agreement(s)
    ensures var (s', result) := Send(s, library, p, msg, kind, o);
            if Blank(p) then s' == s && result == Fail(Rejected(InvalidArgument))
            else if !Reaches(s, library, p, o) then s' == s && result == Fail(NotFound)
            else
              var c, joined := ConnectionTo(s, library, p, o), Joined(s, library, p, o);
              && Grants(joined, s', p, msg != [] && msg[0] in WriteBytes(Commands(c.definition)))
              && if msg == [] then s'.traffic == s.traffic && result == Fail(Internal)
                 else if Obeys(c.definition, msg) then
                   && result == (if o.delivers then Fine(()) else Fail(Internal))
                   && (exists r: Transport.Request ::
                         s'.traffic == s.traffic + [Handed(c, r)] && Carries(r, c.definition, msg, kind))
                 else
                   && s'.traffic == s.traffic
                   && result == match Evaluate(c.definition, msg).error
                                case Some(code) => Fail(Rejected(code))
                                case None => Fine(())
  {
    hide Agreement, Open, Blank, Reaches, Evaluate, Normalized, Obeys, Queued, WriteBytes, Commands;
    OpenOutcome(library, s, p, o);
    if Reaches(s, library, p, o) {
      SendOpenedOutcome(Joined(s, library, p, o), p, ConnectionTo(s, library, p, o), msg, kind, o.delivers);
    }
  }

  lemma SendOpenedOutcome(s: State, p: string, c: Connected, msg: seq<byte>, kind: ChecksumType, delivers: bool)
    ensures var (s', result) := SendOpened(s, p, c, msg, kind, delivers);
            && Grants(s, s', p, msg != [] && msg[0] in WriteBytes(Commands(c.definition)))
            && if msg == [] then s'.traffic == s.traffic && result == Fail(Internal)
               else if Obeys(c.definition, msg) then
                 && result == (if delivers then Fine(()) else Fail(Internal))
                 && (exists r: Transport.Request ::
                       s'.traffic == s.traffic + [Handed(c, r)] && Carries(r, c.definition, msg, kind))
               else
                 && s'.traffic == s.traffic
                 && result == match Evaluate(c.definition, msg).error
                              case Some(code) => Fail(Rejected(code))
                              case None => Fine(())
  {
    GrantsWrites(s, p, c.definition, msg);
    var s' := SendOpened(s, p, c, msg, kind, delivers).0;
    SameQueues(s, s');
    SameQueues(Enqueued(s, p), s');
    hide Evaluate, Normalized, Obeys, WriteBytes, Commands, Queued, Classify;
    if msg != [] {
      ForwardedIffObeys(c.definition, msg);
      var n := Normalized(c.definition, msg);
      assert [n[0]] + n[1..] == n;
    }
  }

  lemma GrantsWrites(s: State, p: string, def: Definition, msg: seq<byte>)
    ensures Evaluate(def, msg).read.SyntheticEmptyRead? <==> msg != [] && msg[0] in WriteBytes(Commands(def))
    ensures Grants(s, Enqueued(s, p), p, true) && Grants(s, s, p, false)
    ensures msg == [] ==> Evaluate(def, msg).error.None? && Evaluate(def, msg).dispatch.Forward?
  {
    hide Commands, WriteBytes, Violation, HasMagnetism;
    SkippedAreWrites(def, msg);
    if msg != [] {
      ClassifyIsMembership(def, msg[0]);
    }
  }
}
