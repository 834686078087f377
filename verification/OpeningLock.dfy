/** Any number of concurrent device opens, interleaved at every lock they take. */
module OpeningLock {

  /** Where an open is: looking for a connection, polling for its turn, holding the path, or through. */
  datatype Place = Start | Looked | Looping | Claiming | Inside | Leaving | Last | Done

  datatype Task = Task(path: string, at: Place)

  /** `known` are the registered online paths, `devices` the connected ones. */
  datatype State = State(tasks: map<nat, Task>, opening: set<string>, devices: set<string>, known: set<string>)

  datatype Step =
    | Call(id: nat, path: string)
    | FirstLook(id: nat)
    | Resolve(id: nat)
    | Look(id: nat)
    | Claim(id: nat)
    | Connect(id: nat, attaches: bool)
    | Release(id: nat)
    | LastLook(id: nat)
    | Refresh(seen: set<string>, dropped: set<string>)
    | Shutdown

  predicate At(s: State, id: nat, place: Place) {
    id in s.tasks && s.tasks[id].at == place
  }

  predicate Enabled(s: State, step: Step) {
    match step
    case Call(id, _) => id !in s.tasks
    case FirstLook(id) => At(s, id, Start)
    case Resolve(id) => At(s, id, Looked)
    case Look(id) => At(s, id, Looping)
    case Claim(id) => At(s, id, Claiming)
    case Connect(id, _) => At(s, id, Inside)
    case Release(id) => At(s, id, Leaving)
    case LastLook(id) => At(s, id, Last)
    case Refresh(_, _) => true
    case Shutdown => true
  }

  function Move(s: State, id: nat, to: Place): State
    requires id in s.tasks
  {
    s.(tasks := s.tasks[id := s.tasks[id].(at := to)])
  }

  function Next(s: State, step: Step): State
    requires Enabled(s, step)
  {
    match step
    case Call(id, path) => s.(tasks := s.tasks[id := Task(path, Start)])
    case FirstLook(id) => Move(s, id, if s.tasks[id].path in s.devices then Done else Looked)
    case Resolve(id) => Move(s, id, if s.tasks[id].path in s.known then Looping else Done)
    case Look(id) => Move(s, id, if s.tasks[id].path in s.devices then Done else Claiming)
    case Claim(id) =>
      var p := s.tasks[id].path;
      if p in s.opening then Move(s, id, Looping) else Move(s, id, Inside).(opening := s.opening + {p})
    case Connect(id, attaches) =>
      Move(s, id, Leaving).(devices := if attaches then s.devices + {s.tasks[id].path} else s.devices)
    case Release(id) => Move(s, id, Last).(opening := s.opening - {s.tasks[id].path})
    case LastLook(id) => Move(s, id, Done)
    case Refresh(seen, dropped) => s.(known := seen, devices := s.devices - dropped)
    case Shutdown => s.(opening := {}, devices := {}, known := {})
  }

  /** The task has claimed its path and not given it back: it is in or around `connect_registration`. */
  predicate Holds(s: State, id: nat) {
    id in s.tasks && s.tasks[id].at in {Inside, Leaving}
  }

  ghost predicate Exclusive(s: State) {
    forall i, j :: Holds(s, i) && Holds(s, j) && s.tasks[i].path == s.tasks[j].path ==> i == j
  }

  ghost predicate HeldBy(s: State, p: string) {
    exists id :: Holds(s, id) && s.tasks[id].path == p
  }

  /** The opening set is exactly the set of held paths, each held by one task. */
  ghost predicate Exact(s: State) {
    && Exclusive(s)
    && (forall id :: Holds(s, id) ==> s.tasks[id].path in s.opening)
    && (forall p :: p in s.opening ==> HeldBy(s, p))
  }

  ghost predicate Runs(s: State, steps: seq<Step>)
    decreases |steps|
  {
    steps == [] || (Enabled(s, steps[0]) && !steps[0].Shutdown? && Runs(Next(s, steps[0]), steps[1..]))
  }

  ghost function After(s: State, steps: seq<Step>): State
    requires Runs(s, steps)
    decreases |steps|
  {
    if steps == [] then s else After(Next(s, steps[0]), steps[1..])
  }

  lemma SameHolders(s: State, s': State)
    requires Exact(s) && s'.opening == s.opening
    requires forall id :: Holds(s', id) <==> Holds(s, id)
    requires forall id :: Holds(s, id) ==> id in s'.tasks && s'.tasks[id].path == s.tasks[id].path
    ensures Exact(s')
  {
  }

  lemma ClaimKeepsExact(s: State, id: nat)
    requires Exact(s) && At(s, id, Claiming) && s.tasks[id].path !in s.opening
    ensures Exact(Next(s, Claim(id)))
  {
    var s' := Next(s, Claim(id));
    assert forall i :: i != id ==> (Holds(s', i) <==> Holds(s, i));
    forall p | p in s'.opening ensures HeldBy(s', p) {
      if p in s.opening {
        var i :| Holds(s, i) && s.tasks[i].path == p;
        assert Holds(s', i);
      } else {
        assert Holds(s', id);
      }
    }
  }

  lemma ReleaseKeepsExact(s: State, id: nat)
    requires Exact(s) && At(s, id, Leaving)
    ensures Exact(Next(s, Release(id)))
  {
    var s' := Next(s, Release(id));
    assert forall i :: i != id ==> (Holds(s', i) <==> Holds(s, i));
    assert Holds(s, id);
    forall p | p in s'.opening ensures HeldBy(s', p) {
      var i :| Holds(s, i) && s.tasks[i].path == p;
      assert Holds(s', i);
    }
  }

  lemma StepKeepsExact(s: State, step: Step)
    requires Exact(s) && Enabled(s, step) && !step.Shutdown?
    ensures Exact(Next(s, step))
  {
    hide Exact;
    if step.Claim? && s.tasks[step.id].path !in s.opening {
      ClaimKeepsExact(s, step.id);
    } else if step.Release? {
      ReleaseKeepsExact(s, step.id);
    } else {
      SameHolders(s, Next(s, step));
    }
  }

  /** Under every interleaving without a shutdown, no two tasks are ever inside for the same path. */
  lemma {:induction false} RunKeepsExact(s: State, steps: seq<Step>)
    requires Exact(s) && Runs(s, steps)
    ensures Exact(After(s, steps))
    decreases |steps|
  {
    hide Exact, Next;
    if steps != [] {
      StepKeepsExact(s, steps[0]);
      RunKeepsExact(Next(s, steps[0]), steps[1..]);
    }
  }

  /** A path becomes connected exactly inside: by the one task that holds it, when its device attaches. */
  lemma ConnectsInside(s: State, step: Step, p: string)
    requires Exact(s) && Enabled(s, step) && p !in s.devices
    ensures p in Next(s, step).devices <==> step.Connect? && step.attaches && s.tasks[step.id].path == p
    ensures p in Next(s, step).devices ==>
              && p in s.opening && Holds(s, step.id)
              && forall id :: Holds(s, id) && s.tasks[id].path == p ==> id == step.id
  {
  }

  ghost predicate AlwaysExclusive(s: State) {
    forall steps :: Runs(s, steps) ==> Exclusive(After(s, steps))
  }

  /** After a shutdown exclusion is guaranteed iff nobody held a path when it came. */
  lemma ShutdownSafeIff(s: State, other: nat)
    requires Exact(s) && other !in s.tasks
    ensures AlwaysExclusive(Next(s, Shutdown)) <==> forall id :: !Holds(s, id)
  {
    var s' := Next(s, Shutdown);
    if id :| Holds(s, id) {
      SecondHolder(s', other, id);
    } else {
      assert Exact(s');
      forall steps | Runs(s', steps) ensures Exclusive(After(s', steps)) {
        RunKeepsExact(s', steps);
      }
    }
  }

  /** With a held path missing from the opening set, a new task can get in beside the holder. */
  lemma SecondHolder(s: State, other: nat, id: nat)
    requires other !in s.tasks && Holds(s, id) && s.tasks[id].path !in s.opening + s.devices
    ensures !AlwaysExclusive(s)
  {
    var p := s.tasks[id].path;
    var steps := [Refresh({p}, {}), Call(other, p), FirstLook(other), Resolve(other), Look(other), Claim(other)];
    var s1 := Next(s, steps[0]);
    var s2 := Next(s1, steps[1]);
    var s3 := Next(s2, steps[2]);
    var s4 := Next(s3, steps[3]);
    var s5 := Next(s4, steps[4]);
    var s6 := Next(s5, steps[5]);
    assert Holds(s6, id) && Holds(s6, other) && s6.tasks[id].path == s6.tasks[other].path;
    OneStep(s5, steps[5..], s6);
    OneStep(s4, steps[4..], s6);
    OneStep(s3, steps[3..], s6);
    OneStep(s2, steps[2..], s6);
    OneStep(s1, steps[1..], s6);
    OneStep(s, steps, s6);
  }

  lemma OneStep(s: State, steps: seq<Step>, end: State)
    requires steps != [] && Enabled(s, steps[0]) && !steps[0].Shutdown?
    requires var s' := Next(s, steps[0]); Runs(s', steps[1..]) && After(s', steps[1..]) == end
    ensures Runs(s, steps) && After(s, steps) == end
  {
  }
}
