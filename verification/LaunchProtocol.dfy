/**
  The sidecar lifecycle as a transition system: any number of launchers over one shared lock,
  a directory of start tickets, per-container registrations and the containers themselves
  (agent_wrap/domain/launch/service.py, lib/priority_lock.py, domain/sidecars/).
  One action is one effect another process can observe; any launcher may die at any point.
  */
module LaunchProtocol {
  import opened KeyApproval

  type LauncherId = nat

  /** Docker names identify containers; every provider's sidecar has its own, Telegram has one for all. */
  type Container = string

  const TELEGRAM: Container := "agent-wrap-telegram"

  /** A running container's identity: the key minted for it and the port it was told to bind. */
  datatype Instance = Instance(key: ApprovalId, port: nat)

  datatype Sidecar = Sidecar(container: Container, headless: bool)

  datatype Stage =
    | Fresh         // declared its sidecars, has touched nothing shared
    | Waiting       // start ticket taken (or refused), queued for the lock
    | Ensuring      // under the lock; sidecars[..at] are ensured
    | Starting      // sidecars[at] launched here, its key not yet approved
    | Polling       // health of sidecars[at] pending
    | Registering   // startup script done; sidecars[..at] registered
    | Running       // lock released, the agent is up
    | Clearing      // the `finally`: sidecars[..at] deregistered, no lock
    | Stopping      // wants the lock at low priority
    | LowHeld       // has the lock, has not looked for waiting starters yet
    | Probing       // under the lock; sidecars[at..] are dealt with, sidecars[at - 1] is next
    | Unapproving   // last one out on sidecars[at - 1]: un-approve, then stop
    | Halting
    | Done
    | Dead

  /** `handed` is what `ensure` gave this launcher for each container it will connect to. */
  datatype Launcher = Launcher(sidecars: seq<Sidecar>, stage: Stage, at: nat, handed: map<Container, Instance>)

  datatype Registration = Registration(container: Container, owner: LauncherId)

  datatype State = State(
    approving: set<Container>,          // containers whose provider approves its master key
    foreign: nat,                       // approval ids below this one are the user's own
    launchers: map<LauncherId, Launcher>,
    lock: set<LauncherId>,              // holders; that there is never more than one is proved
    tickets: set<LauncherId>,
    regs: set<Registration>,
    up: map<Container, Instance>,
    approved: seq<ApprovalId>,
    minted: nat,                        // keys from this one on are unused
    torn: set<ApprovalId>,              // history: keys left running without their approval, see TearsApproval
    leaked: set<ApprovalId>,            // history: keys still approved when their container went
    lost: set<ApprovalId>,              // history: keys whose container was taken for stopped and removed
    abandoned: set<Container>)          // history: released by their last launcher, and still up

  datatype Action =
    | TakeTicket(id: LauncherId, ok: bool)
    | LockTimeout(id: LauncherId)
    | AcquireHigh(id: LauncherId)
    | EnsureFails(id: LauncherId)
    | Adopt(id: LauncherId)
    | SkipHeadless(id: LauncherId)
    | StartContainer(id: LauncherId, port: nat)
    | Reap(id: LauncherId)                                      // a running container taken for stopped is removed
    | Approve(id: LauncherId, ok: bool, written: bool)          // not written: the list's document cannot be read
    | HealthPoll(id: LauncherId, ok: bool, removed: bool)
    | StartupScript(id: LauncherId, ok: bool)
    | Register(id: LauncherId, ok: bool)
    | ReleaseHigh(id: LauncherId)
    | AgentExits(id: LauncherId)
    | ClearRegistration(id: LauncherId)
    | LeaveClearing(id: LauncherId)
    | AcquireLow(id: LauncherId)
    | YieldOrEnter(id: LauncherId)
    | ProbeRunners(id: LauncherId, seen: bool)                  // not seen: inspected as not running
    | Unapprove(id: LauncherId, recovered: bool)                // not recovered: no key, or no list, to un-approve
    | Stop(id: LauncherId, ok: bool)                            // not ok: `docker stop` failed, which nobody checks
    | ReleaseLow(id: LauncherId)
    | Crash(id: LauncherId)

  predicate Approves(s: State, c: Container) {
    c in s.approving && c != TELEGRAM
  }

  /** The teardown predicate of SidecarTracker.has_live_runners. */
  predicate HasLiveRunners(s: State, c: Container, self: LauncherId) {
    exists r :: r in s.regs && r.container == c && r.owner != self
  }

  function Me(s: State, a: Action): Launcher
    requires a.id in s.launchers
  {
    s.launchers[a.id]
  }

  /** The releasing half walks the sidecars backwards. */
  predicate Backwards(stage: Stage) {
    stage.Probing? || stage.Unapproving? || stage.Halting?
  }

  predicate AtSidecar(l: Launcher) {
    if Backwards(l.stage) then 0 < l.at <= |l.sidecars| else l.at < |l.sidecars|
  }

  function Current(l: Launcher): Sidecar
    requires AtSidecar(l)
  {
    if Backwards(l.stage) then l.sidecars[l.at - 1] else l.sidecars[l.at]
  }

  predicate Enabled(s: State, a: Action) {
    a.id in s.launchers &&
    var l := Me(s, a);
    match a
    case TakeTicket(_, _) => l.stage.Fresh?
    case LockTimeout(_) => l.stage.Waiting?
    case AcquireHigh(_) => l.stage.Waiting? && s.lock == {}
    case EnsureFails(_) => l.stage.Ensuring?
    case Adopt(_) =>
      l.stage.Ensuring? && AtSidecar(l) && !Current(l).headless && Current(l).container in s.up
    case SkipHeadless(_) => l.stage.Ensuring? && AtSidecar(l) && Current(l).headless
    case StartContainer(_, _) =>
      l.stage.Ensuring? && AtSidecar(l) && !Current(l).headless && Current(l).container !in s.up
    case Reap(_) =>
      l.stage.Ensuring? && AtSidecar(l) && !Current(l).headless && Current(l).container in s.up
    case Approve(_, _, _) => l.stage.Starting? && AtSidecar(l)
    case HealthPoll(_, _, _) => l.stage.Polling? && AtSidecar(l)
    case StartupScript(_, _) => l.stage.Ensuring? && l.at == |l.sidecars|
    case Register(_, _) => l.stage.Registering? && AtSidecar(l)
    case ReleaseHigh(_) => l.stage.Registering? && l.at == |l.sidecars|
    case AgentExits(_) => l.stage.Running?
    case ClearRegistration(_) => l.stage.Clearing? && AtSidecar(l)
    case LeaveClearing(_) => l.stage.Clearing? && l.at == |l.sidecars|
    case AcquireLow(_) => l.stage.Stopping? && s.lock == {}
    case YieldOrEnter(_) => l.stage.LowHeld?
    case ProbeRunners(_, _) => l.stage.Probing? && AtSidecar(l)
    case Unapprove(_, _) => l.stage.Unapproving? && AtSidecar(l) && Current(l).container in s.up
    case Stop(_, _) => l.stage.Halting? && AtSidecar(l) && Current(l).container in s.up
    case ReleaseLow(_) => l.stage.Probing? && l.at == 0
    case Crash(_) => !l.stage.Done? && !l.stage.Dead?
  }

  function Goto(s: State, id: LauncherId, stage: Stage, at: nat): State
    requires id in s.launchers
  {
    s.(launchers := s.launchers[id := s.launchers[id].(stage := stage, at := at)])
  }

  /** An exception under the high-priority lock: the lock goes, the `finally` begins, nothing is registered. */
  function Fail(s: State, id: LauncherId): State
    requires id in s.launchers
  {
    Goto(s.(lock := s.lock - {id}, tickets := s.tickets - {id}), id, Clearing, 0)
  }

  /** `ensure` returned: remember what it handed out and move on to the next sidecar. */
  function Ensured(s: State, id: LauncherId, c: Container): State
    requires id in s.launchers && c in s.up
  {
    var l := s.launchers[id];
    s.(launchers := s.launchers[id :=
         l.(stage := Ensuring, at := l.at + 1, handed := l.handed[c := s.up[c]])])
  }

  /** Left here, the container is up but its key is not in the list: not yet, or not any more. */
  predicate TearsApproval(s: State, l: Launcher) {
    (l.stage.Starting? || l.stage.Halting?) && AtSidecar(l)
    && Current(l).container in s.up && Approves(s, Current(l).container)
    && s.up[Current(l).container].key !in s.approved
  }

  function Torn(s: State, l: Launcher): set<ApprovalId> {
    if TearsApproval(s, l) then {s.up[Current(l).container].key} else {}
  }

  /** The container is gone; whatever approval its key still had stays behind. */
  function Removed(s: State, c: Container): State
    requires c in s.up
  {
    s.(up := s.up - {c}, abandoned := s.abandoned - {c},
       leaked := s.leaked + if Approves(s, c) && s.up[c].key in s.approved then {s.up[c].key} else {})
  }

  /** `docker run`: a new container under a new key. */
  function Started(s: State, c: Container, port: nat): State {
    s.(up := s.up[c := Instance(s.minted, port)], minted := s.minted + 1)
  }

  function Apply(s: State, a: Action): State
    requires Enabled(s, a)
  {
    var l := Me(s, a);
    match a
    case TakeTicket(id, ok) => Goto(if ok then s.(tickets := s.tickets + {id}) else s, id, Waiting, 0)
    case LockTimeout(id) => Fail(s, id)
    case AcquireHigh(id) => Goto(s.(lock := s.lock + {id}, tickets := s.tickets - {id}), id, Ensuring, 0)
    case EnsureFails(id) => Fail(s, id)
    case Adopt(id) => Ensured(s, id, Current(l).container)
    case SkipHeadless(id) => Goto(s, id, Ensuring, l.at + 1)
    case StartContainer(id, port) => Goto(Started(s, Current(l).container, port), id, Starting, l.at)
    case Reap(id) =>
      var c := Current(l).container;
      Goto(Removed(s, c).(lost := s.lost + {s.up[c].key}), id, Ensuring, l.at)
    case Approve(id, ok, written) =>
      var c := Current(l).container;
      if !Approves(s, c) || c !in s.up then Goto(s, id, Polling, l.at)
      else if ok && written then Goto(s.(approved := Approved(s.approved, s.up[c].key)), id, Polling, l.at)
      else if ok then Goto(s.(torn := s.torn + {s.up[c].key}), id, Polling, l.at)
      else Fail(s.(torn := s.torn + {s.up[c].key}), id)
    case HealthPoll(id, ok, removed) =>
      var c := Current(l).container;
      if ok && c in s.up then Ensured(s, id, c)
      else if c == TELEGRAM && removed && c in s.up then Fail(Removed(s, c), id)
      else Fail(s, id)
    case StartupScript(id, ok) => if ok then Goto(s, id, Registering, 0) else Fail(s, id)
    case Register(id, ok) =>
      Goto(if ok then s.(regs := s.regs + {Registration(Current(l).container, id)}) else s,
           id, Registering, l.at + 1)
    case ReleaseHigh(id) => Goto(s.(lock := s.lock - {id}), id, Running, 0)
    case AgentExits(id) => Goto(s, id, Clearing, 0)
    case ClearRegistration(id) =>
      Goto(s.(regs := s.regs - {Registration(Current(l).container, id)}), id, Clearing, l.at + 1)
    case LeaveClearing(id) => Goto(s, id, Stopping, 0)
    case AcquireLow(id) => Goto(s.(lock := s.lock + {id}), id, LowHeld, 0)
    case YieldOrEnter(id) =>
      if s.tickets == {} then Goto(s, id, Probing, |l.sidecars|)
      else Goto(s.(lock := s.lock - {id}), id, Stopping, 0)
    case ProbeRunners(id, seen) =>
      var c := Current(l).container;
      if HasLiveRunners(s, c, id) || c !in s.up then Goto(s, id, Probing, l.at - 1)
      else if !seen then Goto(s.(abandoned := s.abandoned + {c}), id, Probing, l.at - 1)
      else Goto(s, id, if Approves(s, c) then Unapproving else Halting, l.at)
    case Unapprove(id, recovered) =>
      var key := s.up[Current(l).container].key;
      Goto(if recovered then s.(approved := Unapproved(s.approved, key)) else s, id, Halting, l.at)
    case Stop(id, ok) =>
      var c := Current(l).container;
      Goto(if ok then Removed(s, c) else s.(abandoned := s.abandoned + {c}, torn := s.torn + Torn(s, l)),
           id, Probing, l.at - 1)
    case ReleaseLow(id) => Goto(s.(lock := s.lock - {id}), id, Done, 0)
    case Crash(id) =>
      Goto(s.(lock := s.lock - {id}, tickets := s.tickets - {id},
              regs := (set r | r in s.regs && r.owner != id),
              torn := s.torn + Torn(s, l)), id, Dead, 0)
  }

  ghost predicate DistinctContainers(sidecars: seq<Sidecar>) {
    forall i, j :: 0 <= i < j < |sidecars| ==> sidecars[i].container != sidecars[j].container
  }

  ghost predicate Init(s: State) {
    && (forall id :: id in s.launchers ==>
          s.launchers[id].stage == Fresh && s.launchers[id].at == 0 && DistinctContainers(s.launchers[id].sidecars))
    && s.lock == {} && s.tickets == {} && s.regs == {} && s.up == map[] && s.torn == {}
    && s.leaked == {} && s.lost == {} && s.abandoned == {}
    && s.minted == s.foreign
    && (forall k :: k in s.approved ==> k < s.foreign)
  }

  ghost predicate ValidRun(s: State, run: seq<Action>)
    decreases run
  {
    run == [] || (Enabled(s, run[0]) && ValidRun(Apply(s, run[0]), run[1..]))
  }

  ghost function After(s: State, run: seq<Action>): State
    requires ValidRun(s, run)
    decreases run
  {
    if run == [] then s else After(Apply(s, run[0]), run[1..])
  }

  ghost predicate CrashFree(run: seq<Action>) {
    forall a :: a in run ==> !a.Crash?
  }
}
