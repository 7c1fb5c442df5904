/** The keep-awake manager and its registry of owners (server/api/keepawake.go).  Every critical section is one
    step; a watcher decides and acts in two.  Times are seconds, channels and goroutines are numbered. */
module KeepAwake {
  import opened DriveTypes

  const WEBUI := "webui"
  const AUTO_TIMEOUT := 600

  // ----- the registry -------------------------------------------------------

  /** Who wants keep-awake, and whether the flag file exists. */
  datatype Wants = Wants(owners: set<string>, flag: bool)

  function Wanting(w: Wants, owner: string): Wants {
    if owner in w.owners then w
    else Wants(w.owners + {owner}, if |w.owners + {owner}| == 1 then true else w.flag)
  }

  function Released(w: Wants, owner: string): Wants {
    if owner !in w.owners then w
    else Wants(w.owners - {owner}, if |w.owners - {owner}| == 0 then false else w.flag)
  }

  ghost predicate FlagTells(w: Wants) { w.flag <==> w.owners != {} }

  lemma RegistryKeepsFlag(w: Wants, owner: string)
    requires FlagTells(w)
    ensures FlagTells(Wanting(w, owner)) && FlagTells(Released(w, owner))
    ensures owner in Wanting(w, owner).owners && owner !in Released(w, owner).owners
    ensures forall o :: o != owner ==> (o in Wanting(w, owner).owners <==> o in w.owners)
    ensures forall o :: o != owner ==> (o in Released(w, owner).owners <==> o in w.owners)
  {
  }

  class Registry {
    var owners: set<string>
    var flag: bool

    function View(): Wants
      reads this
    {
      Wants(owners, flag)
    }

    constructor ()
      ensures View() == Wants({}, false)
    {
      owners, flag := {}, false;
    }

    method Register(owner: string)
      modifies this
      ensures View() == Wanting(old(View()), owner)
    {
      if owner !in owners {
        owners := owners + {owner};
        if |owners| == 1 {
          flag := true;
        }
      }
    }

    /** Tells whether nobody is left. */
    method Release(owner: string) returns (wasLast: bool)
      modifies this
      ensures View() == Released(old(View()), owner) && wasLast == (owners == {})
    {
      if owner !in owners {
        return |owners| == 0;
      }
      owners := owners - {owner};
      if |owners| == 0 {
        flag := false;
        return true;
      }
      return false;
    }
  }

  // ----- the manager as a state machine -------------------------------------

  datatype Phase = Idle | Pending | Active

  /** A queued request's poller, before and after it saw the system idle, and the expiry watcher, before
      and after it saw the deadline pass.  `channel` is the stop channel its select is blocked on. */
  datatype Task = Waiting | Ready | Watching | Expired
  datatype Thread = Thread(task: Task, channel: Option<nat>)

  /** `closed` lists the channels closed so far; `stops` the busy checks behind every awake_stop launched. */
  datatype State = State(
    phase: Phase, mode: string, expiresAt: int, startedAt: int, pendingFor: int,
    stopCh: Option<nat>, channels: nat, closed: seq<nat>,
    threads: map<nat, Thread>, spawned: nat, wants: Wants, stops: seq<bool>)

  const INITIAL := State(Idle, "", 0, 0, 0, None, 0, [], map[], 0, Wants({}, false), [])

  datatype Step =
    | Start(mode: string, duration: int, now: int, busy: bool)
    | Heartbeat(now: int)
    | Stop(busy: bool)
    | Listen(id: nat)
    | Quit(id: nat)
    | SeesIdle(id: nat)
    | Resumes(id: nat, now: int)
    | SeesExpiry(id: nat, now: int)
    | Expires(id: nat, busy: bool)
    | OtherWants(owner: string)
    | OtherReleases(owner: string)

  predicate Does(s: State, id: nat, task: Task) {
    id in s.threads && s.threads[id].task == task
  }

  predicate Enabled(s: State, step: Step) {
    match step
    case Listen(id) => Does(s, id, Waiting) || Does(s, id, Watching)
    case Quit(id) =>
      && (Does(s, id, Waiting) || Does(s, id, Watching))
      && s.threads[id].channel.Some? && s.threads[id].channel.value in s.closed
    case SeesIdle(id) => Does(s, id, Waiting)
    case Resumes(id, _) => Does(s, id, Ready)
    case SeesExpiry(id, now) => Does(s, id, Watching) && s.phase == Active && now > s.expiresAt
    case Expires(id, _) => Does(s, id, Expired)
    case OtherWants(owner) => owner != WEBUI
    case OtherReleases(owner) => owner != WEBUI
    case _ => true
  }

  function SetPhase(s: State, p: Phase): State {
    s.(phase := p, wants := if p == Idle then Released(s.wants, WEBUI) else Wanting(s.wants, WEBUI))
  }

  function CloseStop(s: State): State {
    if s.stopCh.Some? then s.(closed := s.closed + [s.stopCh.value], stopCh := None) else s
  }

  function Cleared(s: State): State { s.(expiresAt := 0, startedAt := 0) }

  function StopInternal(s: State): State { Cleared(SetPhase(CloseStop(s), Idle)) }

  function Spawn(s: State, task: Task): State {
    s.(threads := s.threads[s.spawned := Thread(task, None)], spawned := s.spawned + 1)
  }

  function Finish(s: State, id: nat): State { s.(threads := s.threads - {id}) }

  function Turn(s: State, id: nat, task: Task): State
    requires id in s.threads
  {
    s.(threads := s.threads[id := s.threads[id].(task := task)])
  }

  /** A new session's fields and its stop channel. */
  function Prepared(s: State, mode: string, duration: int): State {
    StopInternal(s).(mode := mode, pendingFor := duration, stopCh := Some(s.channels), channels := s.channels + 1)
  }

  function Started(s: State, mode: string, duration: int, now: int, busy: bool): State {
    match s.phase
    case Active => s.(expiresAt := now + duration, mode := mode)
    case Pending => s.(pendingFor := duration, mode := mode)
    case Idle =>
      var c := Prepared(s, mode, duration);
      if busy then Spawn(SetPhase(c, Pending), Waiting)
      else Spawn(SetPhase(c, Active).(startedAt := now, expiresAt := now + duration), Watching)
  }

  function Next(s: State, step: Step): State
    requires Enabled(s, step)
  {
    match step
    case Start(mode, duration, now, busy) => Started(s, mode, duration, now, busy)
    case Heartbeat(now) =>
      if s.phase == Active then s.(expiresAt := now + AUTO_TIMEOUT)
      else if s.phase == Pending then s.(pendingFor := AUTO_TIMEOUT)
      else s
    case Stop(busy) =>
      StopInternal(s).(stops := if s.phase == Active && !busy then s.stops + [busy] else s.stops)
    case Listen(id) => s.(threads := s.threads[id := s.threads[id].(channel := s.stopCh)])
    case Quit(id) => Finish(s, id)
    case SeesIdle(id) => Turn(s, id, Ready)
    case Resumes(id, now) =>
      if s.phase != Pending then Finish(s, id)
      else Spawn(SetPhase(Finish(s, id), Active).(startedAt := now, expiresAt := now + s.pendingFor), Watching)
    case SeesExpiry(id, _) => Turn(s, id, Expired)
    case Expires(id, busy) =>
      var e := if s.phase == Active
               then Cleared(SetPhase(s, Idle)).(stops := if busy then s.stops else s.stops + [busy])
               else s;
      Finish(CloseStop(e), id)
    case OtherWants(owner) => s.(wants := Wanting(s.wants, owner))
    case OtherReleases(owner) => s.(wants := Released(s.wants, owner))
  }

  lemma StopInternalKeeps(s: State)
    ensures StopInternal(s).channels == s.channels
  {
  }

  // ----- the manager --------------------------------------------------------

  class Manager {
    const registry: Registry
    var phase: Phase
    var mode: string
    var expiresAt: int
    var startedAt: int
    var pendingFor: int
    var stopCh: Option<nat>
    var channels: nat
    ghost var closed: seq<nat>
    ghost var threads: map<nat, Thread>
    ghost var spawned: nat
    ghost var stops: seq<bool>

    ghost function View(): State
      reads this, registry
    {
      State(phase, mode, expiresAt, startedAt, pendingFor, stopCh, channels, closed, threads, spawned,
            registry.View(), stops)
    }

    constructor ()
      ensures View() == INITIAL && fresh(registry)
    {
      registry := new Registry();
      phase, mode, expiresAt, startedAt, pendingFor, stopCh := Idle, "", 0, 0, 0, None;
      channels, closed, threads, spawned, stops := 0, [], map[], 0, [];
    }

    method SetState(p: Phase)
      modifies this, registry
      ensures View() == SetPhase(old(View()), p)
    {
      phase := p;
      if p == Active || p == Pending {
        registry.Register(WEBUI);
      } else {
        var _ := registry.Release(WEBUI);
      }
    }

    /** close(stopCh) and forgetting it. */
    method CloseStopCh()
      modifies this
      ensures View() == CloseStop(old(View()))
    {
      if stopCh.Some? {
        closed := closed + [stopCh.value];
        stopCh := None;
      }
    }

    method StopInternally()
      modifies this, registry
      ensures View() == StopInternal(old(View()))
    {
      CloseStopCh();
      SetState(Idle);
      expiresAt, startedAt := 0, 0;
    }

    method Launch(task: Task)
      modifies this
      ensures View() == Spawn(old(View()), task)
    {
      threads, spawned := threads[spawned := Thread(task, None)], spawned + 1;
    }

    method Prepare(newMode: string, duration: int)
      modifies this, registry
      ensures View() == Prepared(old(View()), newMode, duration)
    {
      hide StopInternal;
      StopInternalKeeps(View());
      StopInternally();
      mode, pendingFor := newMode, duration;
      stopCh, channels := Some(channels), channels + 1;
    }

    method Start(newMode: string, duration: int, now: int, busy: bool)
      modifies this, registry
      ensures View() == Next(old(View()), Step.Start(newMode, duration, now, busy))
    {
      hide Wanting, Released, Prepared, Spawn;
      if phase == Active {
        expiresAt, mode := now + duration, newMode;
        return;
      }
      if phase == Pending {
        pendingFor, mode := duration, newMode;
        return;
      }
      Prepare(newMode, duration);
      if busy {
        SetState(Pending);
        Launch(Waiting);
      } else {
        SetState(Active);
        startedAt, expiresAt := now, now + duration;
        Launch(Watching);
      }
    }

    /** The part under the lock; when idle the caller goes on with Start("auto"). */
    method Heartbeat(now: int) returns (p: Phase)
      modifies this
      ensures View() == Next(old(View()), Step.Heartbeat(now)) && p == phase
    {
      if phase == Active {
        expiresAt := now + AUTO_TIMEOUT;
      } else if phase == Pending {
        pendingFor := AUTO_TIMEOUT;
      }
      p := phase;
    }

    /** Tells whether awake_stop is launched. */
    method Stop(busy: bool) returns (launches: bool)
      modifies this, registry
      ensures View() == Next(old(View()), Step.Stop(busy)) && launches == (|stops| > |old(stops)|)
    {
      var wasActive := phase == Active;
      StopInternally();
      launches := wasActive && !busy;
      if launches {
        stops := stops + [busy];
      }
    }

    /** The poller under the lock, after a busy check that was false. */
    method Resume(ghost id: nat, now: int)
      requires Enabled(View(), Resumes(id, now))
      modifies this, registry
      ensures View() == Next(old(View()), Resumes(id, now))
    {
      hide Wanting, Released, Spawn;
      threads := threads - {id};
      if phase != Pending {
        return;
      }
      SetState(Active);
      startedAt, expiresAt := now, now + pendingFor;
      Launch(Watching);
    }

    /** The expiry watcher under the write lock, after it saw the deadline pass under the read lock. */
    method Expire(ghost id: nat, busy: bool) returns (launches: bool)
      requires Enabled(View(), Expires(id, busy))
      modifies this, registry
      ensures View() == Next(old(View()), Expires(id, busy)) && launches == (|stops| > |old(stops)|)
    {
      hide Wanting, Released;
      launches := false;
      if phase == Active {
        SetState(Idle);
        expiresAt, startedAt := 0, 0;
        if !busy {
          launches := true;
          stops := stops + [busy];
        }
      }
      CloseStopCh();
      threads := threads - {id};
    }
  }

  // ----- invariants ---------------------------------------------------------

  ghost predicate NoRepeats(s: seq<nat>) {
    forall i, j :: 0 <= i < j < |s| ==> s[i] != s[j]
  }

  /** "webui" is registered exactly while a request is pending or active; the flag file tells whether anyone is;
      no channel is closed twice; every awake_stop was launched on a busy check that was false. */
  ghost predicate Inv(s: State) {
    && (WEBUI in s.wants.owners <==> s.phase != Idle)
    && FlagTells(s.wants)
    && NoRepeats(s.closed) && (forall c :: c in s.closed ==> c < s.channels)
    && (s.stopCh.Some? ==> s.stopCh.value < s.channels && s.stopCh.value !in s.closed)
    && (s.phase == Idle ==> s.stopCh.None?)
    && (forall i :: 0 <= i < |s.stops| ==> !s.stops[i])
    && (forall id :: id in s.threads ==> id < s.spawned)
    && (forall id :: id in s.threads && s.threads[id].channel.Some? ==> s.threads[id].channel.value < s.channels)
  }

  lemma SetPhaseWants(s: State, p: Phase)
    requires FlagTells(s.wants)
    ensures FlagTells(SetPhase(s, p).wants) && (WEBUI in SetPhase(s, p).wants.owners <==> p != Idle)
  {
    RegistryKeepsFlag(s.wants, WEBUI);
    hide Wanting, Released;
  }

  lemma CloseKeeps(s: State)
    requires Inv(s)
    ensures NoRepeats(CloseStop(s).closed) && (forall c :: c in CloseStop(s).closed ==> c < s.channels)
    ensures s.stopCh.Some? ==> forall c :: c in CloseStop(s).closed <==> c in s.closed || c == s.stopCh.value
  {
  }

  lemma StartKeeps(s: State, step: Step)
    requires Inv(s) && step.Start?
    ensures Inv(Next(s, step))
  {
    if s.phase == Idle {
      var c := Prepared(s, step.mode, step.duration);
      assert c.closed == s.closed;
      SetPhaseWants(CloseStop(s), Idle);
      SetPhaseWants(c, Pending);
      SetPhaseWants(c, Active);
      hide Wanting, Released, FlagTells;
    }
  }

  lemma StopKeeps(s: State, step: Step)
    requires Inv(s) && step.Stop?
    ensures Inv(Next(s, step))
  {
    CloseKeeps(s);
    SetPhaseWants(CloseStop(s), Idle);
    hide Wanting, Released, FlagTells, NoRepeats;
  }

  lemma ResumeKeeps(s: State, step: Step)
    requires Inv(s) && step.Resumes? && Enabled(s, step)
    ensures Inv(Next(s, step))
  {
    SetPhaseWants(Finish(s, step.id), Active);
    hide Wanting, Released, FlagTells, NoRepeats;
  }

  lemma ExpireKeeps(s: State, step: Step)
    requires Inv(s) && step.Expires? && Enabled(s, step)
    ensures Inv(Next(s, step))
  {
    CloseKeeps(s);
    SetPhaseWants(s, Idle);
    hide Wanting, Released, FlagTells, NoRepeats;
  }

  /** Every step keeps the invariants. */
  lemma StepKeeps(s: State, step: Step)
    requires Inv(s) && Enabled(s, step)
    ensures Inv(Next(s, step))
  {
    match step
    case Start(_, _, _, _) => StartKeeps(s, step);
    case Stop(_) => StopKeeps(s, step);
    case Resumes(_, _) => ResumeKeeps(s, step);
    case Expires(_, _) => ExpireKeeps(s, step);
    case OtherWants(owner) => RegistryKeepsFlag(s.wants, owner);
    case OtherReleases(owner) => RegistryKeepsFlag(s.wants, owner);
    case _ =>
  }

  ghost predicate CanRun(s: State, steps: seq<Step>)
    decreases |steps|
  {
    steps == [] || (Enabled(s, steps[0]) && CanRun(Next(s, steps[0]), steps[1..]))
  }

  ghost function Final(s: State, steps: seq<Step>): State
    requires CanRun(s, steps)
    decreases |steps|
  {
    if steps == [] then s else Final(Next(s, steps[0]), steps[1..])
  }

  /** Over every interleaving. */
  lemma {:induction false} RunKeeps(s: State, steps: seq<Step>)
    requires Inv(s) && CanRun(s, steps)
    ensures Inv(Final(s, steps))
    decreases |steps|
  {
    if steps != [] {
      hide Inv, Next, Enabled;
      StepKeeps(s, steps[0]);
      RunKeeps(Next(s, steps[0]), steps[1..]);
    }
  }

  lemma ReachableIsSound(steps: seq<Step>)
    requires CanRun(INITIAL, steps)
    ensures Inv(Final(INITIAL, steps))
  {
    hide Next, Enabled;
    RunKeeps(INITIAL, steps);
  }

  /** awake_stop is launched only when a session that was active ends, by Stop or by expiry, while not busy. */
  lemma StopsOnlyWhenIdle(s: State, step: Step)
    requires Enabled(s, step)
    ensures Next(s, step).stops != s.stops ==>
              s.phase == Active && Next(s, step).phase == Idle && (step.Stop? || step.Expires?) && !step.busy
  {
    hide Wanting, Released;
  }

  // ----- sessions left alone ------------------------------------------------

  /** A goroutine that still looks after the session: its select is not on a channel of an earlier one. */
  ghost predicate Attends(s: State, id: nat, one: Task, other: Task) {
    && id in s.threads && (s.threads[id].task == one || s.threads[id].task == other)
    && (s.threads[id].channel.None? || s.threads[id].channel == s.stopCh)
  }

  /** Every session can be stopped and has a goroutine that will start it or end it. */
  ghost predicate Attended(s: State) {
    && (s.phase != Idle ==> s.stopCh.Some?)
    && (s.phase == Pending ==> exists id :: Attends(s, id, Waiting, Ready))
    && (s.phase == Active ==> exists id :: Attends(s, id, Watching, Expired))
  }

  /** An expiry decided for a session that is gone, acting on a request queued since. */
  predicate StaleExpiry(s: State, step: Step) {
    step.Expires? && s.phase == Pending
  }

  lemma StillAttends(s: State, t: State, id: nat, one: Task, other: Task)
    requires Attends(s, id, one, other) && t.stopCh == s.stopCh && id in t.threads
    requires || t.threads[id] == s.threads[id]
             || (t.threads[id].task == other && t.threads[id].channel == s.threads[id].channel)
             || t.threads[id] == s.threads[id].(channel := s.stopCh)
    ensures Attends(t, id, one, other)
  {
  }

  lemma ThreadStepAttended(s: State, step: Step)
    requires Inv(s) && Attended(s) && Enabled(s, step)
    requires step.Listen? || step.Quit? || step.SeesIdle? || step.SeesExpiry?
    ensures Attended(Next(s, step))
  {
    var t := Next(s, step);
    if s.phase == Pending {
      var id :| Attends(s, id, Waiting, Ready);
      StillAttends(s, t, id, Waiting, Ready);
    } else if s.phase == Active {
      var id :| Attends(s, id, Watching, Expired);
      StillAttends(s, t, id, Watching, Expired);
    }
  }

  lemma StartAttended(s: State, step: Step)
    requires Inv(s) && Attended(s) && step.Start?
    ensures Attended(Next(s, step))
  {
    var t := Next(s, step);
    if s.phase == Pending {
      var id :| Attends(s, id, Waiting, Ready);
      assert Attends(t, id, Waiting, Ready);
    } else if s.phase == Active {
      var id :| Attends(s, id, Watching, Expired);
      assert Attends(t, id, Watching, Expired);
    } else {
      hide Wanting, Released;
      PreparedKeeps(s, step.mode, step.duration);
      hide Prepared;
      assert t.phase == Pending ==> Attends(t, s.spawned, Waiting, Ready);
      assert t.phase == Active ==> Attends(t, s.spawned, Watching, Expired);
    }
  }

  lemma PreparedKeeps(s: State, mode: string, duration: int)
    ensures var c := Prepared(s, mode, duration); c.stopCh.Some? && c.spawned == s.spawned
  {
  }

  lemma ResumeAttended(s: State, step: Step)
    requires Inv(s) && Attended(s) && step.Resumes? && Enabled(s, step)
    ensures Attended(Next(s, step))
  {
    hide Wanting, Released;
    var t := Next(s, step);
    if s.phase == Pending {
      assert Attends(t, s.spawned, Watching, Expired);
    } else if s.phase == Active {
      var id :| Attends(s, id, Watching, Expired);
      StillAttends(s, t, id, Watching, Expired);
    }
  }

  lemma OtherAttended(s: State, step: Step)
    requires Attended(s) && Enabled(s, step) && (step.Heartbeat? || step.OtherWants? || step.OtherReleases?)
    ensures Attended(Next(s, step))
  {
    hide Wanting, Released;
    var t := Next(s, step);
    assert forall id, one, other :: Attends(t, id, one, other) == Attends(s, id, one, other);
  }

  /** Sessions stay attended under every step but one: an expiry that was decided for an earlier session and
      reaches a queued request closes that request's channel. */
  lemma AttendedUnlessStale(s: State, step: Step)
    requires Inv(s) && Attended(s) && Enabled(s, step)
    ensures Attended(Next(s, step)) <==> !StaleExpiry(s, step)
  {
    match step
    case Start(_, _, _, _) => StartAttended(s, step);
    case Stop(_) => hide Wanting, Released;
    case Resumes(_, _) => ResumeAttended(s, step);
    case Expires(_, _) => hide Wanting, Released;
    case Heartbeat(_) => OtherAttended(s, step);
    case OtherWants(_) => OtherAttended(s, step);
    case OtherReleases(_) => OtherAttended(s, step);
    case _ => ThreadStepAttended(s, step);
  }

  lemma Before(s: State, steps: seq<Step>, rest: seq<Step>)
    requires steps != [] && steps[1..] == rest && Enabled(s, steps[0]) && CanRun(Next(s, steps[0]), rest)
    ensures CanRun(s, steps) && Final(s, steps) == Final(Next(s, steps[0]), rest)
  {
    hide Enabled, Next;
  }

  const AFTER_STOP :=
    State(Idle, "manual", 0, 0, 60, None, 1, [0], map[0 := Thread(Expired, None)], 1, Wants({}, false), [false])

  /** A session that was started, whose watcher saw the deadline pass, and that the user then stopped. */
  lemma StoppedTooLate()
    ensures var steps := [Step.Start("manual", 60, 0, false), SeesExpiry(0, 61), Step.Stop(false)];
            CanRun(INITIAL, steps) && Final(INITIAL, steps) == AFTER_STOP
  {
    var wants := Wants({WEBUI}, true);
    assert Wanting(Wants({}, false), WEBUI) == wants by { assert {} + {WEBUI} == {WEBUI}; }
    assert Released(wants, WEBUI) == Wants({}, false) by { assert {WEBUI} - {WEBUI} == {}; }
    hide Wanting, Released, CanRun, Final;
    assert Released(Wants({}, false), WEBUI) == Wants({}, false) by { NobodyToRelease(); }
    var s1 := Next(INITIAL, Step.Start("manual", 60, 0, false));
    assert s1 == State(Active, "manual", 60, 0, 60, Some(0), 1, [], map[0 := Thread(Watching, None)], 1, wants, []);
    var s2 := Next(s1, SeesExpiry(0, 61));
    assert s2 == s1.(threads := map[0 := Thread(Expired, None)]);
    var s3 := Next(s2, Step.Stop(false));
    NoMore(s3);
    hide Next;
    Before(s2, [Step.Stop(false)], []);
    Before(s1, [SeesExpiry(0, 61), Step.Stop(false)], [Step.Stop(false)]);
    var steps := [Step.Start("manual", 60, 0, false), SeesExpiry(0, 61), Step.Stop(false)];
    Before(INITIAL, steps, [SeesExpiry(0, 61), Step.Stop(false)]);
  }

  lemma NobodyToRelease()
    ensures Released(Wants({}, false), WEBUI) == Wants({}, false)
  {
  }

  lemma NoMore(s: State)
    ensures CanRun(s, []) && Final(s, []) == s
  {
  }

  /** From there: a new request is queued, the late expiry closes its channel, and its poller leaves. */
  lemma QueuedAndStranded(s: State)
    requires s == AFTER_STOP
    ensures var steps := [Step.Start("manual", 60, 62, true), Listen(1), Expires(0, true), Quit(1)];
            CanRun(s, steps) &&
            var t := Final(s, steps); t.phase == Pending && t.stopCh.None? && t.threads == map[]
  {
    hide Wanting, CanRun, Final;
    NobodyToRelease();
    hide Released;
    var a, b, c, d := Step.Start("manual", 60, 62, true), Listen(1), Expires(0, true), Quit(1);
    var wants := Wanting(Wants({}, false), WEBUI);
    var s1 := Next(s, a);
    var threads := map[0 := Thread(Expired, None), 1 := Thread(Waiting, None)];
    assert s1 == State(Pending, "manual", 0, 0, 60, Some(1), 2, [0], threads, 2, wants, [false]);
    var s2 := Next(s1, b);
    assert s2 == s1.(threads := map[0 := Thread(Expired, None), 1 := Thread(Waiting, Some(1))]);
    var s3 := Next(s2, c);
    assert s3 == s2.(threads := map[1 := Thread(Waiting, Some(1))], stopCh := None, closed := [0, 1]);
    var s4 := Next(s3, d);
    assert s4 == s3.(threads := map[]);
    NoMore(s4);
    hide Next;
    Before(s3, [d], []);
    Before(s2, [c, d], [d]);
    Before(s1, [b, c, d], [c, d]);
    Before(s, [a, b, c, d], [b, c, d]);
  }

  /** Such a run exists: pending, with nobody left to start the session. */
  lemma StrandedRequest()
    ensures exists steps :: CanRun(INITIAL, steps) && Final(INITIAL, steps).phase == Pending &&
              Final(INITIAL, steps).stopCh.None? && Final(INITIAL, steps).threads == map[]
  {
    hide CanRun, Final;
    StoppedTooLate();
    var one := [Step.Start("manual", 60, 0, false), SeesExpiry(0, 61), Step.Stop(false)];
    QueuedAndStranded(Final(INITIAL, one));
    RunsConcat(INITIAL, one, [Step.Start("manual", 60, 62, true), Listen(1), Expires(0, true), Quit(1)]);
  }

  lemma {:induction false} RunsConcat(s: State, a: seq<Step>, b: seq<Step>)
    requires CanRun(s, a) && CanRun(Final(s, a), b)
    ensures CanRun(s, a + b) && Final(s, a + b) == Final(Final(s, a), b)
    decreases |a|
  {
    hide Enabled, Next;
    if a == [] {
      assert a + b == b;
    } else {
      RunsConcat(Next(s, a[0]), a[1..], b);
      assert (a + b)[0] == a[0] && (a + b)[1..] == a[1..] + b;
    }
  }

  // ----- how long a session lasts -------------------------------------------

  /** What a step grants: a request sets the end of an active session, the length of a queued one, or begins one that
      is queued when busy; a heartbeat grants ten minutes; a queued session begins when it is resumed. */
  ghost predicate Granted(s: State, step: Step, t: State) {
    match step
    case Start(mode, duration, now, busy) =>
      && t.mode == mode
      && (s.phase == Active ==> t.phase == Active && t.expiresAt == now + duration && t.startedAt == s.startedAt)
      && (s.phase == Pending ==> t.phase == Pending && t.pendingFor == duration)
      && (s.phase == Idle && busy ==> t.phase == Pending && t.pendingFor == duration && Begun(s, t, Waiting))
      && (s.phase == Idle && !busy ==>
            t.phase == Active && t.startedAt == now && t.expiresAt == now + duration && Begun(s, t, Watching))
    case Heartbeat(now) =>
      && t.phase == s.phase && (s.phase == Active ==> t.expiresAt == now + 600)
      && (s.phase == Pending ==> t.pendingFor == 600) && (s.phase == Idle ==> t == s)
    case Resumes(_, now) =>
      && (s.phase == Pending ==>
            t.phase == Active && t.startedAt == now && t.expiresAt == now + s.pendingFor && Begun(s, t, Watching))
      && (s.phase != Pending ==> t.phase == s.phase && t.expiresAt == s.expiresAt)
    case Stop(busy) => Over(s, t) && t.stops == s.stops + if s.phase == Active && !busy then [false] else []
    case Expires(_, busy) =>
      && (s.phase == Active ==> Over(s, t) && t.stops == s.stops + if busy then [] else [false])
      && (s.phase != Active ==> t.phase == s.phase && t.expiresAt == s.expiresAt && t.pendingFor == s.pendingFor)
      && (s.phase != Active ==> t.startedAt == s.startedAt && t.mode == s.mode && t.stops == s.stops)
    case _ => t.phase == s.phase && t.expiresAt == s.expiresAt && t.pendingFor == s.pendingFor && t.mode == s.mode
  }

  /** Nothing is left of the session: no times, no stop channel; the one it had is closed. */
  ghost predicate Over(s: State, t: State) {
    && t.phase == Idle && t.expiresAt == 0 && t.startedAt == 0 && t.stopCh.None?
    && t.closed == s.closed + if s.stopCh.Some? then [s.stopCh.value] else []
  }

  /** A new goroutine that has not taken its stop channel yet. */
  ghost predicate Begun(s: State, t: State, task: Task) {
    t.spawned == s.spawned + 1 && s.spawned in t.threads && t.threads[s.spawned] == Thread(task, None)
  }

  /** Every step grants that and nothing else; a watcher finds a session over only after its end. */
  lemma StepGrants(s: State, step: Step)
    requires Enabled(s, step)
    ensures Granted(s, step, Next(s, step))
    ensures step.SeesExpiry? ==> s.phase == Active && step.now > s.expiresAt
  {
    hide Released, Wanting;
  }
}
