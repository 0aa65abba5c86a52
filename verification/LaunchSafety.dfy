/**
  What every step of the sidecar protocol keeps, over all interleavings and crashes, and what
  follows for every run.
  */
module LaunchSafety {
  import opened KeyApproval
  import opened LaunchProtocol

  predicate HoldsLock(p: Stage) {
    p.Ensuring? || p.Starting? || p.Polling? || p.Registering? || p.LowHeld? || Backwards(p)
  }

  predicate InRange(l: Launcher) {
    && l.at <= |l.sidecars|
    && (l.stage.Starting? || l.stage.Polling? || l.stage.Unapproving? || l.stage.Halting? ==> AtSidecar(l))
  }

  /** How many sidecars are ensured by a launcher that still holds the lock it ensured them under. */
  function EnsuredCount(l: Launcher): nat {
    if l.stage.Ensuring? || l.stage.Starting? || l.stage.Polling? then l.at
    else if l.stage.Registering? then |l.sidecars|
    else 0
  }

  /** Whether a launcher in this position may still hold its registration on its j-th sidecar. */
  predicate MayHold(l: Launcher, j: nat) {
    match l.stage
    case Registering => j < l.at
    case Running => true
    case Clearing => l.at <= j
    case _ => false
  }

  /** `id` was handed exactly the instance that is running under `c` now. */
  predicate Connected(s: State, id: LauncherId, c: Container)
    requires id in s.launchers
  {
    var handed := s.launchers[id].handed;
    c in s.up && c in handed && handed[c] == s.up[c]
  }

  /** Or another launcher took it for stopped since, and removed it. */
  predicate CutOff(s: State, id: LauncherId, c: Container)
    requires id in s.launchers
  {
    var handed := s.launchers[id].handed;
    c in handed && handed[c].key in s.lost
  }

  predicate Served(s: State, id: LauncherId, c: Container)
    requires id in s.launchers
  {
    Connected(s, id, c) || CutOff(s, id, c)
  }

  ghost predicate Declares(sidecars: seq<Sidecar>, c: Container) {
    exists j :: 0 <= j < |sidecars| && sidecars[j].container == c
  }

  ghost predicate RegOk(s: State, r: Registration) {
    r.owner in s.launchers &&
    var l := s.launchers[r.owner];
    && Declares(l.sidecars, r.container)
    && forall j :: 0 <= j < |l.sidecars| && l.sidecars[j].container == r.container ==>
         MayHold(l, j) && (l.sidecars[j].headless || Served(s, r.owner, r.container))
  }

  ghost predicate LauncherOk(s: State, id: LauncherId)
    requires id in s.launchers
  {
    var l := s.launchers[id];
    && InRange(l)
    && DistinctContainers(l.sidecars)
    && (HoldsLock(l.stage) <==> id in s.lock)
    && (id in s.tickets ==> l.stage.Waiting?)
    && (forall j :: 0 <= j < EnsuredCount(l) && j < |l.sidecars| ==>
          l.sidecars[j].headless || Served(s, id, l.sidecars[j].container))
    && (l.stage.Starting? || l.stage.Polling? ==>
          !Current(l).headless && Current(l).container in s.up
          && forall r :: r in s.regs && r.container == Current(l).container ==> Unaffected(s, r))
    && (l.stage.Unapproving? || l.stage.Halting? ==>
          Current(l).container in s.up && !HasLiveRunners(s, Current(l).container, id))
    && (l.stage.Unapproving? ==> Approves(s, Current(l).container))
  }

  /** A registration that the container going away again does not change: headless, or cut off already. */
  ghost predicate Unaffected(s: State, r: Registration) {
    r.owner in s.launchers &&
    var l := s.launchers[r.owner];
    forall j :: 0 <= j < |l.sidecars| && l.sidecars[j].container == r.container ==>
      l.sidecars[j].headless || CutOff(s, r.owner, r.container)
  }

  /** Locking, registrations and connections. */
  ghost predicate Inv(s: State) {
    && (forall id :: id in s.lock ==> id in s.launchers)
    && (forall a, b :: a in s.lock && b in s.lock ==> a == b)
    && (forall id :: id in s.tickets ==> id in s.launchers)
    && (forall id :: id in s.launchers ==> LauncherOk(s, id))
    && (forall r :: r in s.regs ==> RegOk(s, r))
  }

  lemma InitInv(s: State)
    requires Init(s)
    ensures Inv(s)
  {
  }

  /** Only `me` moved: everyone else has the phase, lock and ticket it had. */
  ghost predicate OnlyMoves(s: State, s': State, me: LauncherId) {
    && me in s.launchers && s'.launchers.Keys == s.launchers.Keys
    && s'.launchers[me].sidecars == s.launchers[me].sidecars && s'.approving == s.approving
    && (forall id :: id in s.launchers && id != me ==>
          s'.launchers[id] == s.launchers[id]
          && (id in s'.lock <==> id in s.lock) && (id in s'.tickets <==> id in s.tickets))
    && (s'.lock <= s.lock || (s.lock == {} && s'.lock == {me}))
    && s'.tickets <= s.tickets + {me} && s.lost <= s'.lost
  }

  lemma OthersOk(s: State, s': State, me: LauncherId)
    requires Inv(s) && OnlyMoves(s, s', me)
    requires (s'.up == s.up && s'.regs <= s.regs && s'.launchers[me].handed == s.launchers[me].handed)
             || s.lock <= {me}
    ensures forall id :: id in s'.launchers && id != me ==> LauncherOk(s', id)
  {
    forall id | id in s'.launchers && id != me
      ensures LauncherOk(s', id)
    {
      assert LauncherOk(s, id);
    }
  }

  /** A move that leaves containers alone, adds no registration and keeps what it was handed. */
  lemma QuietMove(s: State, s': State, me: LauncherId)
    requires Inv(s) && OnlyMoves(s, s', me) && s'.up == s.up && s'.regs <= s.regs
    requires s'.launchers[me].handed == s.launchers[me].handed
    requires LauncherOk(s', me)
    requires forall r, j :: r in s'.regs && r.owner == me && 0 <= j < |s.launchers[me].sidecars|
               && s.launchers[me].sidecars[j].container == r.container
               && MayHold(s.launchers[me], j)
               ==> MayHold(s'.launchers[me], j)
    ensures Inv(s')
  {
    OthersOk(s, s', me);
    forall r | r in s'.regs
      ensures RegOk(s', r)
    {
      assert RegOk(s, r);
    }
  }

  /** Likewise where it holds no registration anyway. */
  lemma UnregisteredMove(s: State, s': State, me: LauncherId)
    requires Inv(s) && OnlyMoves(s, s', me) && s'.up == s.up && s'.regs <= s.regs
    requires s'.launchers[me].handed == s.launchers[me].handed && LauncherOk(s', me)
    requires var p := s.launchers[me].stage; !p.Registering? && !p.Running? && !p.Clearing?
    ensures Inv(s')
  {
    QuietMove(s, s', me);
  }

  lemma FailKeeps(s: State, torn: set<ApprovalId>, id: LauncherId)
    requires Inv(s) && id in s.launchers && (s.launchers[id].stage.Waiting? || id in s.lock)
    requires !MayHold(s.launchers[id], 0)
    ensures Inv(Fail(s.(torn := torn), id))
  {
    assert LauncherOk(s, id);
    QuietMove(s, Fail(s.(torn := torn), id), id);
  }

  lemma EnsuredKeeps(s: State, id: LauncherId, c: Container)
    requires Inv(s) && id in s.launchers && c in s.up
    requires var l := s.launchers[id];
             (l.stage.Ensuring? || l.stage.Polling?) && AtSidecar(l) && Current(l).container == c
    ensures Inv(Ensured(s, id, c))
  {
    assert LauncherOk(s, id);
    OthersOk(s, Ensured(s, id, c), id);
    EnsuredKeepsRegs(s, id, c);
  }

  lemma EnsuredKeepsRegs(s: State, id: LauncherId, c: Container)
    requires Inv(s) && id in s.launchers && c in s.up
    requires s.launchers[id].stage.Ensuring? || s.launchers[id].stage.Polling?
    ensures forall r :: r in s.regs ==> RegOk(Ensured(s, id, c), r)
  {
    forall r | r in s.regs
      ensures RegOk(Ensured(s, id, c), r)
    {
      assert RegOk(s, r);
    }
  }

  /** A container only this launcher has seen since starting it may go away again. */
  lemma WithdrawKeeps(s: State, id: LauncherId, c: Container)
    requires Inv(s) && id in s.launchers
    requires var l := s.launchers[id]; l.stage.Polling? && AtSidecar(l) && Current(l).container == c && c in s.up
    ensures Inv(Fail(Removed(s, c), id))
  {
    var s' := Fail(Removed(s, c), id);
    assert LauncherOk(s, id);
    OthersOk(s, s', id);
    forall r | r in s'.regs
      ensures RegOk(s', r)
    {
      assert RegOk(s, r);
    }
  }

  lemma KeepQueueing(s: State, a: Action)
    requires Inv(s) && Enabled(s, a)
    requires a.TakeTicket? || a.AcquireHigh?
    ensures Inv(Apply(s, a))
  {
    assert LauncherOk(s, a.id);
    UnregisteredMove(s, Apply(s, a), a.id);
  }

  lemma KeepSkipHeadless(s: State, a: Action)
    requires Inv(s) && Enabled(s, a)
    requires a.SkipHeadless?
    ensures Inv(Apply(s, a))
  {
    assert LauncherOk(s, a.id);
    UnregisteredMove(s, Apply(s, a), a.id);
  }

  lemma KeepReleaseHigh(s: State, a: Action)
    requires Inv(s) && Enabled(s, a)
    requires a.ReleaseHigh? || a.AgentExits?
    ensures Inv(Apply(s, a))
  {
    assert LauncherOk(s, a.id);
    QuietMove(s, Apply(s, a), a.id);
  }

  lemma KeepClearing(s: State, a: Action)
    requires Inv(s) && Enabled(s, a)
    requires a.ClearRegistration? || a.LeaveClearing?
    ensures Inv(Apply(s, a))
  {
    assert LauncherOk(s, a.id);
    QuietMove(s, Apply(s, a), a.id);
  }

  lemma KeepLowLock(s: State, a: Action)
    requires Inv(s) && Enabled(s, a)
    requires a.AcquireLow? || a.ReleaseLow?
    ensures Inv(Apply(s, a))
  {
    assert LauncherOk(s, a.id);
    UnregisteredMove(s, Apply(s, a), a.id);
  }

  lemma KeepYieldOrEnter(s: State, a: Action)
    requires Inv(s) && Enabled(s, a)
    requires a.YieldOrEnter?
    ensures Inv(Apply(s, a))
  {
    assert LauncherOk(s, a.id);
    UnregisteredMove(s, Apply(s, a), a.id);
  }

  lemma KeepProbeRunners(s: State, a: Action)
    requires Inv(s) && Enabled(s, a)
    requires a.ProbeRunners?
    ensures Inv(Apply(s, a))
  {
    ProberOk(s, a);
    UnregisteredMove(s, Apply(s, a), a.id);
  }

  lemma ProberOk(s: State, a: Action)
    requires Inv(s) && Enabled(s, a) && a.ProbeRunners?
    ensures LauncherOk(Apply(s, a), a.id)
  {
    assert LauncherOk(s, a.id);
  }

  lemma KeepUnapprove(s: State, a: Action)
    requires Inv(s) && Enabled(s, a)
    requires a.Unapprove?
    ensures Inv(Apply(s, a))
  {
    assert LauncherOk(s, a.id);
    UnregisteredMove(s, Apply(s, a), a.id);
  }

  lemma KeepCrash(s: State, a: Action)
    requires Inv(s) && Enabled(s, a)
    requires a.Crash?
    ensures Inv(Apply(s, a))
  {
    assert LauncherOk(s, a.id);
    QuietMove(s, Apply(s, a), a.id);
  }

  lemma KeepAdopt(s: State, a: Action)
    requires Inv(s) && Enabled(s, a)
    requires a.Adopt?
    ensures Inv(Apply(s, a))
  {
    assert LauncherOk(s, a.id);
    EnsuredKeeps(s, a.id, Current(Me(s, a)).container);
  }

  lemma KeepStartContainer(s: State, a: Action)
    requires Inv(s) && Enabled(s, a)
    requires a.StartContainer?
    ensures Inv(Apply(s, a))
  {
    assert LauncherOk(s, a.id);
    OthersOk(s, Apply(s, a), a.id);
    StartContainerKeepsRegs(s, a);
    StarterOk(s, a);
  }

  lemma StarterOk(s: State, a: Action)
    requires Inv(s) && Enabled(s, a)
    requires a.StartContainer?
    ensures LauncherOk(Apply(s, a), a.id)
  {
    var s' := Apply(s, a);
    assert LauncherOk(s, a.id);
    forall r | r in s'.regs && r.container == Current(Me(s, a)).container
      ensures Unaffected(s', r)
    {
      assert RegOk(s, r);
    }
  }

  lemma StartContainerKeepsRegs(s: State, a: Action)
    requires Inv(s) && Enabled(s, a)
    requires a.StartContainer?
    ensures forall r :: r in Apply(s, a).regs ==> RegOk(Apply(s, a), r)
  {
    var s' := Apply(s, a);
    assert LauncherOk(s, a.id);
    forall r | r in s'.regs
      ensures RegOk(s', r)
    {
      assert r in s.regs ==> RegOk(s, r);
    }
  }

  lemma KeepReap(s: State, a: Action)
    requires Inv(s) && Enabled(s, a)
    requires a.Reap?
    ensures Inv(Apply(s, a))
  {
    assert LauncherOk(s, a.id);
    OthersOk(s, Apply(s, a), a.id);
    ReapKeepsRegs(s, a);
  }

  lemma ReapKeepsRegs(s: State, a: Action)
    requires Inv(s) && Enabled(s, a)
    requires a.Reap?
    ensures forall r :: r in Apply(s, a).regs ==> RegOk(Apply(s, a), r)
  {
    var s' := Apply(s, a);
    forall r | r in s'.regs
      ensures RegOk(s', r)
    {
      assert RegOk(s, r);
    }
  }

  lemma KeepRegister(s: State, a: Action)
    requires Inv(s) && Enabled(s, a)
    requires a.Register?
    ensures Inv(Apply(s, a))
  {
    assert LauncherOk(s, a.id);
    OthersOk(s, Apply(s, a), a.id);
    RegisterKeepsRegs(s, a);
  }

  lemma RegisterKeepsRegs(s: State, a: Action)
    requires Inv(s) && Enabled(s, a)
    requires a.Register?
    ensures forall r :: r in Apply(s, a).regs ==> RegOk(Apply(s, a), r)
  {
    var s' := Apply(s, a);
    assert LauncherOk(s, a.id);
    forall r | r in s'.regs
      ensures RegOk(s', r)
    {
      assert r in s.regs ==> RegOk(s, r);
    }
  }

  lemma KeepStop(s: State, a: Action)
    requires Inv(s) && Enabled(s, a)
    requires a.Stop?
    ensures Inv(Apply(s, a))
  {
    assert LauncherOk(s, a.id);
    OthersOk(s, Apply(s, a), a.id);
    StopKeepsRegs(s, a);
  }

  lemma StopKeepsRegs(s: State, a: Action)
    requires Inv(s) && Enabled(s, a)
    requires a.Stop?
    ensures forall r :: r in Apply(s, a).regs ==> RegOk(Apply(s, a), r)
  {
    var s' := Apply(s, a);
    assert LauncherOk(s, a.id);
    forall r | r in s'.regs
      ensures RegOk(s', r)
    {
      assert r in s.regs ==> RegOk(s, r);
    }
  }

  lemma KeepFailing(s: State, a: Action)
    requires Inv(s) && Enabled(s, a)
    requires a.LockTimeout? || a.EnsureFails?
    ensures Inv(Apply(s, a))
  {
    assert LauncherOk(s, a.id);
    FailKeeps(s, s.torn, a.id);
  }

  lemma KeepStartupScript(s: State, a: Action)
    requires Inv(s) && Enabled(s, a)
    requires a.StartupScript?
    ensures Inv(Apply(s, a))
  {
    assert LauncherOk(s, a.id);
    if a.ok {
      QuietMove(s, Apply(s, a), a.id);
    } else {
      FailKeeps(s, s.torn, a.id);
    }
  }

  lemma KeepApprove(s: State, a: Action)
    requires Inv(s) && Enabled(s, a)
    requires a.Approve?
    ensures Inv(Apply(s, a))
  {
    assert LauncherOk(s, a.id);
    var c := Current(Me(s, a)).container;
    if Approves(s, c) && !a.ok {
      FailKeeps(s, s.torn + {s.up[c].key}, a.id);
    } else {
      ApproverOk(s, a);
      UnregisteredMove(s, Apply(s, a), a.id);
    }
  }

  lemma ApproverOk(s: State, a: Action)
    requires Inv(s) && Enabled(s, a) && a.Approve?
    requires !Approves(s, Current(Me(s, a)).container) || a.ok
    ensures LauncherOk(Apply(s, a), a.id)
  {
    assert LauncherOk(s, a.id);
  }

  lemma KeepHealthPoll(s: State, a: Action)
    requires Inv(s) && Enabled(s, a)
    requires a.HealthPoll?
    ensures Inv(Apply(s, a))
  {
    assert LauncherOk(s, a.id);
    var c := Current(Me(s, a)).container;
    if a.ok {
      EnsuredKeeps(s, a.id, c);
    } else if c == TELEGRAM && a.removed {
      WithdrawKeeps(s, a.id, c);
    } else {
      FailKeeps(s, s.torn, a.id);
    }
  }

  lemma StepKeepsInv(s: State, a: Action)
    requires Inv(s) && Enabled(s, a)
    ensures Inv(Apply(s, a))
  {
    match a
    case TakeTicket(_, _) => KeepQueueing(s, a);
    case AcquireHigh(_) => KeepQueueing(s, a);
    case SkipHeadless(_) => KeepSkipHeadless(s, a);
    case ReleaseHigh(_) => KeepReleaseHigh(s, a);
    case AgentExits(_) => KeepReleaseHigh(s, a);
    case ClearRegistration(_) => KeepClearing(s, a);
    case LeaveClearing(_) => KeepClearing(s, a);
    case AcquireLow(_) => KeepLowLock(s, a);
    case ReleaseLow(_) => KeepLowLock(s, a);
    case YieldOrEnter(_) => KeepYieldOrEnter(s, a);
    case ProbeRunners(_, _) => KeepProbeRunners(s, a);
    case Unapprove(_, _) => KeepUnapprove(s, a);
    case Crash(_) => KeepCrash(s, a);
    case Adopt(_) => KeepAdopt(s, a);
    case StartContainer(_, _) => KeepStartContainer(s, a);
    case Reap(_) => KeepReap(s, a);
    case Register(_, _) => KeepRegister(s, a);
    case Stop(_, _) => KeepStop(s, a);
    case LockTimeout(_) => KeepFailing(s, a);
    case EnsureFails(_) => KeepFailing(s, a);
    case StartupScript(_, _) => KeepStartupScript(s, a);
    case Approve(_, _, _) => KeepApprove(s, a);
    case HealthPoll(_, _, _) => KeepHealthPoll(s, a);
  }
}
