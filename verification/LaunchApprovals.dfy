/**
  The approval list against the running containers, in every run: which keys are in it, exactly
  when the two disagree, and that the user's own entries are never touched.
  */
module LaunchApprovals {
  import opened KeyApproval
  import opened LaunchProtocol
  import opened LaunchSafety

  /**
    What matters about keys: the running containers whose provider approves its key, and which of
    them are between `docker run` and on_started, or between a successful on_stopping and `docker stop`.
    */
  datatype Keys = Keys(
    foreign: nat, minted: nat, up: map<Container, ApprovalId>, approved: seq<ApprovalId>,
    torn: set<ApprovalId>, leaked: set<ApprovalId>, starting: set<Container>, halting: set<Container>)

  /** Listed means leaked, or running, past its start, not yet un-approved, and never torn. */
  ghost predicate Listed(v: Keys, k: ApprovalId) {
    k in v.leaked || exists c :: c in v.up && ListedAs(v, c, k)
  }

  predicate ListedAs(v: Keys, c: Container, k: ApprovalId)
    requires c in v.up
  {
    v.up[c] == k && c !in v.starting && c !in v.halting && k !in v.torn
  }

  ghost predicate KeyInv(v: Keys) {
    && v.foreign <= v.minted
    && (forall c :: c in v.up ==> v.foreign <= v.up[c] < v.minted)
    && (forall c, d :: c in v.up && d in v.up && v.up[c] == v.up[d] ==> c == d)
    && (forall k :: k in v.torn ==> v.foreign <= k < v.minted)
    && (forall k :: k in v.leaked ==> v.foreign <= k < v.minted)
    && (forall c :: c in v.up ==> v.up[c] !in v.leaked)
    && (forall c :: c in v.starting ==> c in v.up && v.up[c] !in v.torn)
    && (forall c :: c in v.halting ==> c in v.up)
    && (forall k :: v.foreign <= k ==> multiset(v.approved)[k] == if Listed(v, k) then 1 else 0)
  }

  function Mint(v: Keys): Keys {
    v.(minted := v.minted + 1)
  }

  function Begin(v: Keys, c: Container): Keys {
    v.(up := v.up[c := v.minted], minted := v.minted + 1, starting := v.starting + {c})
  }

  function ApproveKey(v: Keys, c: Container): Keys
    requires c in v.up
  {
    v.(approved := Approved(v.approved, v.up[c]), starting := v.starting - {c})
  }

  function Tear(v: Keys, c: Container): Keys
    requires c in v.up
  {
    v.(torn := v.torn + {v.up[c]}, starting := v.starting - {c}, halting := v.halting - {c})
  }

  function UnapproveKey(v: Keys, c: Container): Keys
    requires c in v.up
  {
    v.(approved := Unapproved(v.approved, v.up[c]), halting := v.halting + {c})
  }

  /** The stage before `docker stop`, reached with the key un-approved already or never approved. */
  function Demote(v: Keys, c: Container): Keys {
    v.(halting := v.halting + {c})
  }

  function End(v: Keys, c: Container): Keys
    requires c in v.up
  {
    v.(up := v.up - {c}, halting := v.halting - {c},
       leaked := v.leaked + if v.up[c] in v.approved then {v.up[c]} else {})
  }

  lemma MintKeeps(v: Keys)
    requires KeyInv(v)
    ensures KeyInv(Mint(v))
  {
    assert forall k :: Listed(Mint(v), k) <==> Listed(v, k);
  }

  lemma BeginKeeps(v: Keys, c: Container)
    requires KeyInv(v) && c !in v.up
    ensures KeyInv(Begin(v, c))
  {
    var v' := Begin(v, c);
    forall k
      ensures Listed(v', k) <==> Listed(v, k)
    {
      if d :| d in v.up && ListedAs(v, d, k) { assert ListedAs(v', d, k); }
      if d :| d in v'.up && ListedAs(v', d, k) { assert ListedAs(v, d, k); }
    }
  }

  lemma ApproveKeeps(v: Keys, c: Container)
    requires KeyInv(v) && c in v.starting && c !in v.halting
    ensures KeyInv(ApproveKey(v, c))
  {
    var v' := ApproveKey(v, c);
    var key := v.up[c];
    assert !Listed(v, key);
    assert ListedAs(v', c, key);
    forall k | k != key
      ensures Listed(v', k) <==> Listed(v, k)
    {
      if d :| d in v.up && ListedAs(v, d, k) { assert ListedAs(v', d, k); }
      if d :| d in v'.up && ListedAs(v', d, k) { assert ListedAs(v, d, k); }
    }
  }

  lemma TearKeeps(v: Keys, c: Container)
    requires KeyInv(v) && c in v.up && (c in v.starting || c in v.halting)
    ensures KeyInv(Tear(v, c))
  {
    var v' := Tear(v, c);
    forall k
      ensures Listed(v', k) <==> Listed(v, k)
    {
      if d :| d in v.up && ListedAs(v, d, k) { assert ListedAs(v', d, k); }
      if d :| d in v'.up && ListedAs(v', d, k) { assert ListedAs(v, d, k); }
    }
  }

  lemma UnapproveKeeps(v: Keys, c: Container)
    requires KeyInv(v) && c in v.up
    ensures KeyInv(UnapproveKey(v, c))
  {
    var v' := UnapproveKey(v, c);
    var key := v.up[c];
    assert !Listed(v', key);
    forall k | k != key
      ensures Listed(v', k) <==> Listed(v, k)
    {
      if d :| d in v.up && ListedAs(v, d, k) { assert ListedAs(v', d, k); }
      if d :| d in v'.up && ListedAs(v', d, k) { assert ListedAs(v, d, k); }
    }
  }

  lemma DemoteKeeps(v: Keys, c: Container)
    requires KeyInv(v) && c in v.up && v.up[c] !in v.approved
    ensures KeyInv(Demote(v, c))
  {
    var v' := Demote(v, c);
    forall k | v.foreign <= k
      ensures Listed(v', k) <==> Listed(v, k)
    {
      if d :| d in v.up && ListedAs(v, d, k) {
        assert Listed(v, k) && d != c;
        assert ListedAs(v', d, k);
      }
      if d :| d in v'.up && ListedAs(v', d, k) { assert ListedAs(v, d, k); }
    }
  }

  lemma EndKeeps(v: Keys, c: Container)
    requires KeyInv(v) && c in v.up && c !in v.starting
    ensures KeyInv(End(v, c))
  {
    var v' := End(v, c);
    assert multiset(v.approved)[v.up[c]] > 0 <==> v.up[c] in v.approved;
    forall k | v.foreign <= k
      ensures Listed(v', k) <==> Listed(v, k)
    {
      if d :| d in v.up && ListedAs(v, d, k) {
        assert Listed(v, k);
        if d != c { assert ListedAs(v', d, k); }
      }
      if d :| d in v'.up && ListedAs(v', d, k) { assert ListedAs(v, d, k); }
    }
  }

  predicate Sits(s: State, l: Launcher, stage: Stage) {
    l.stage == stage && AtSidecar(l) && Approves(s, Current(l).container)
    && (stage.Halting? ==> Current(l).container in s.up && s.up[Current(l).container].key !in s.approved)
  }

  ghost function SittingAt(s: State, stage: Stage): set<Container> {
    set id | id in s.launchers && Sits(s, s.launchers[id], stage) :: Current(s.launchers[id]).container
  }

  ghost function KeysOf(s: State): Keys {
    Keys(s.foreign, s.minted, map c | c in s.up && Approves(s, c) :: s.up[c].key,
         s.approved, s.torn, s.leaked, SittingAt(s, Starting), SittingAt(s, Halting))
  }

  /** While `me` holds the lock, only `me` can be starting or stopping anything. */
  lemma SoleSitter(s: State, s': State, me: LauncherId, stage: Stage)
    requires Inv(s) && me in s.lock && OnlyMoves(s, s', me)
    requires stage.Starting? || stage.Halting?
    ensures SittingAt(s', stage)
            == if Sits(s', s'.launchers[me], stage) then {Current(s'.launchers[me]).container} else {}
  {
    forall id | id in s'.launchers && id != me
      ensures !Sits(s', s'.launchers[id], stage)
    {
      assert LauncherOk(s, id);
    }
  }

  lemma SittersUnchanged(s: State, s': State, me: LauncherId, stage: Stage)
    requires OnlyMoves(s, s', me) && s'.up == s.up && s'.approved == s.approved
    requires !Sits(s, s.launchers[me], stage) && !Sits(s', s'.launchers[me], stage)
    ensures SittingAt(s', stage) == SittingAt(s, stage)
  {
    forall c | c in SittingAt(s, stage)
      ensures c in SittingAt(s', stage)
    {
      var id :| id in s.launchers && Sits(s, s.launchers[id], stage) && Current(s.launchers[id]).container == c;
      assert Sits(s', s'.launchers[id], stage);
    }
    forall c | c in SittingAt(s', stage)
      ensures c in SittingAt(s, stage)
    {
      var id :| id in s'.launchers && Sits(s', s'.launchers[id], stage) && Current(s'.launchers[id]).container == c;
      assert Sits(s, s.launchers[id], stage);
    }
  }

  lemma QuietKeys(s: State, s': State, me: LauncherId)
    requires OnlyMoves(s, s', me) && s'.foreign == s.foreign
    requires s'.up == s.up && s'.minted == s.minted && s'.approved == s.approved && s'.torn == s.torn
    requires s'.leaked == s.leaked
    requires !Sits(s, s.launchers[me], Starting) && !Sits(s', s'.launchers[me], Starting)
    requires !Sits(s, s.launchers[me], Halting) && !Sits(s', s'.launchers[me], Halting)
    ensures KeysOf(s') == KeysOf(s)
  {
    SittersUnchanged(s, s', me, Starting);
    SittersUnchanged(s, s', me, Halting);
  }

  function Seat(s: State, l: Launcher, stage: Stage): set<Container> {
    if Sits(s, l, stage) then {Current(l).container} else {}
  }

  ghost predicate Seated(s: State, l: Launcher) {
    SittingAt(s, Starting) == Seat(s, l, Starting) && SittingAt(s, Halting) == Seat(s, l, Halting)
  }

  /** Under the lock, the windows before and after a step are those of the launcher that takes it. */
  lemma HolderSeated(s: State, s': State, me: LauncherId)
    requires Inv(s) && me in s.lock && OnlyMoves(s, s', me)
    ensures Seated(s, s.launchers[me]) && Seated(s', s'.launchers[me])
  {
    SoleSitter(s, s, me, Starting);
    SoleSitter(s, s, me, Halting);
    SoleSitter(s, s', me, Starting);
    SoleSitter(s, s', me, Halting);
  }

  lemma StartKeys(s: State, a: Action)
    requires KeyInv(KeysOf(s)) && Enabled(s, a) && a.StartContainer?
    requires Seated(s, Me(s, a)) && Seated(Apply(s, a), Apply(s, a).launchers[a.id])
    ensures KeyInv(KeysOf(Apply(s, a)))
  {
    var c := Current(Me(s, a)).container;
    var v, v' := KeysOf(s), KeysOf(Apply(s, a));
    StartedKeys(s, a);
    if Approves(s, c) { BeginKeeps(v, c); } else { MintKeeps(v); }
  }

  lemma StartedKeys(s: State, a: Action)
    requires Enabled(s, a) && a.StartContainer?
    requires Seated(s, Me(s, a)) && Seated(Apply(s, a), Apply(s, a).launchers[a.id])
    ensures var c := Current(Me(s, a)).container;
            KeysOf(Apply(s, a)) == if Approves(s, c) then Begin(KeysOf(s), c) else Mint(KeysOf(s))
  {
    var c := Current(Me(s, a)).container;
    var v, v' := KeysOf(s), KeysOf(Apply(s, a));
    if Approves(s, c) {
      assert v'.up == Begin(v, c).up;
    } else {
      assert v'.up == v.up;
    }
  }

  lemma ReapKeys(s: State, a: Action)
    requires Inv(s) && KeyInv(KeysOf(s)) && Enabled(s, a) && a.Reap?
    requires Seated(s, Me(s, a)) && Seated(Apply(s, a), Apply(s, a).launchers[a.id])
    ensures KeyInv(KeysOf(Apply(s, a)))
  {
    var c := Current(Me(s, a)).container;
    ReapedKeys(s, a);
    if Approves(s, c) { EndKeeps(KeysOf(s), c); }
  }

  lemma ReapedKeys(s: State, a: Action)
    requires Enabled(s, a) && a.Reap?
    requires Seated(s, Me(s, a)) && Seated(Apply(s, a), Apply(s, a).launchers[a.id])
    ensures var c := Current(Me(s, a)).container;
            if Approves(s, c) then
              c in KeysOf(s).up && c !in KeysOf(s).starting && KeysOf(Apply(s, a)) == End(KeysOf(s), c)
            else KeysOf(Apply(s, a)) == KeysOf(s)
  {
    var c := Current(Me(s, a)).container;
    var v, v' := KeysOf(s), KeysOf(Apply(s, a));
    if Approves(s, c) {
      assert v'.up == End(v, c).up;
    } else {
      assert v'.up == v.up;
    }
  }

  lemma ApproveKeys(s: State, a: Action)
    requires KeyInv(KeysOf(s)) && Enabled(s, a) && a.Approve?
    requires Seated(s, Me(s, a)) && Seated(Apply(s, a), Apply(s, a).launchers[a.id])
    ensures KeyInv(KeysOf(Apply(s, a)))
  {
    var c := Current(Me(s, a)).container;
    var v, v' := KeysOf(s), KeysOf(Apply(s, a));
    assert v'.up == v.up;
    if !Approves(s, c) {
      assert v' == v;
    } else if a.ok && a.written {
      ApproveKeeps(v, c);
      assert v' == ApproveKey(v, c);
    } else {
      TearKeeps(v, c);
      assert v' == Tear(v, c);
    }
  }

  lemma UnapproveKeys(s: State, a: Action)
    requires KeyInv(KeysOf(s)) && Enabled(s, a) && a.Unapprove? && Approves(s, Current(Me(s, a)).container)
    requires Seated(s, Me(s, a)) && Seated(Apply(s, a), Apply(s, a).launchers[a.id])
    ensures KeyInv(KeysOf(Apply(s, a)))
  {
    var c := Current(Me(s, a)).container;
    var v := KeysOf(s);
    if a.recovered {
      UnapprovedKeys(s, a);
      UnapproveKeeps(v, c);
    } else {
      KeptKeys(s, a);
      if v.up[c] !in v.approved { DemoteKeeps(v, c); }
    }
  }

  lemma UnapprovedKeys(s: State, a: Action)
    requires KeyInv(KeysOf(s)) && Enabled(s, a) && a.Unapprove? && Approves(s, Current(Me(s, a)).container)
    requires Seated(s, Me(s, a)) && Seated(Apply(s, a), Apply(s, a).launchers[a.id]) && a.recovered
    ensures var c := Current(Me(s, a)).container;
            c in KeysOf(s).up && KeysOf(Apply(s, a)) == UnapproveKey(KeysOf(s), c)
  {
    GoneOnceUnapproved(KeysOf(s), Current(Me(s, a)).container);
    TakesHaltingSeat(s, a);
  }

  lemma TakesHaltingSeat(s: State, a: Action)
    requires Enabled(s, a) && a.Unapprove? && Approves(s, Current(Me(s, a)).container) && a.recovered
    requires Seated(s, Me(s, a)) && Seated(Apply(s, a), Apply(s, a).launchers[a.id])
    requires var key := s.up[Current(Me(s, a)).container].key; key !in Unapproved(s.approved, key)
    ensures var c := Current(Me(s, a)).container;
            c in KeysOf(s).up && KeysOf(Apply(s, a)) == UnapproveKey(KeysOf(s), c)
  {
    assert KeysOf(Apply(s, a)).up == KeysOf(s).up;
  }

  lemma GoneOnceUnapproved(v: Keys, c: Container)
    requires KeyInv(v) && c in v.up
    ensures v.up[c] !in Unapproved(v.approved, v.up[c])
  {
    assert multiset(Unapproved(v.approved, v.up[c]))[v.up[c]] == 0;
  }

  /** The key could not be recovered: un-approving is skipped, stopping is not. */
  lemma KeptKeys(s: State, a: Action)
    requires Enabled(s, a) && a.Unapprove? && Approves(s, Current(Me(s, a)).container)
    requires Seated(s, Me(s, a)) && Seated(Apply(s, a), Apply(s, a).launchers[a.id]) && !a.recovered
    ensures var c := Current(Me(s, a)).container; var v := KeysOf(s);
            c in v.up && KeysOf(Apply(s, a)) == if v.up[c] in v.approved then v else Demote(v, c)
  {
    assert KeysOf(Apply(s, a)).up == KeysOf(s).up;
  }

  lemma StopKeys(s: State, a: Action)
    requires KeyInv(KeysOf(s)) && Enabled(s, a) && a.Stop?
    requires Seated(s, Me(s, a)) && Seated(Apply(s, a), Apply(s, a).launchers[a.id])
    ensures KeyInv(KeysOf(Apply(s, a)))
  {
    if a.ok { StoppedKeys(s, a); } else { StopFailedKeys(s, a); }
    var c := Current(Me(s, a)).container;
    if Approves(s, c) && a.ok {
      EndKeeps(KeysOf(s), c);
    } else if TearsApproval(s, Me(s, a)) && !a.ok {
      TearKeeps(KeysOf(s), c);
    }
  }

  lemma StoppedKeys(s: State, a: Action)
    requires Enabled(s, a) && a.Stop? && a.ok
    requires Seated(s, Me(s, a)) && Seated(Apply(s, a), Apply(s, a).launchers[a.id])
    ensures var c := Current(Me(s, a)).container;
            if Approves(s, c) then
              c in KeysOf(s).up && c !in KeysOf(s).starting && KeysOf(Apply(s, a)) == End(KeysOf(s), c)
            else KeysOf(Apply(s, a)) == KeysOf(s)
  {
    var c := Current(Me(s, a)).container;
    var v, v' := KeysOf(s), KeysOf(Apply(s, a));
    if Approves(s, c) {
      assert v'.up == End(v, c).up;
    } else {
      assert v'.up == v.up;
    }
  }

  lemma StopFailedKeys(s: State, a: Action)
    requires Enabled(s, a) && a.Stop? && !a.ok
    requires Seated(s, Me(s, a)) && Seated(Apply(s, a), Apply(s, a).launchers[a.id])
    ensures var c := Current(Me(s, a)).container;
            if TearsApproval(s, Me(s, a)) then
              c in KeysOf(s).up && c in KeysOf(s).halting && KeysOf(Apply(s, a)) == Tear(KeysOf(s), c)
            else KeysOf(Apply(s, a)) == KeysOf(s)
  {
    var v, v' := KeysOf(s), KeysOf(Apply(s, a));
    assert v'.up == v.up;
  }

  lemma HealthPollKeys(s: State, a: Action)
    requires KeyInv(KeysOf(s)) && Enabled(s, a) && a.HealthPoll?
    requires Seated(s, Me(s, a)) && Seated(Apply(s, a), Apply(s, a).launchers[a.id])
    ensures KeyInv(KeysOf(Apply(s, a)))
  {
    var v, v' := KeysOf(s), KeysOf(Apply(s, a));
    assert v'.up == v.up;
    assert v' == v;
  }

  /** A container between start and approval is not on the list yet. */
  lemma StartingUnlisted(v: Keys)
    requires KeyInv(v)
    ensures forall c :: c in v.starting ==> v.up[c] !in v.approved
  {
    forall c | c in v.starting
      ensures v.up[c] !in v.approved
    {
      assert !Listed(v, v.up[c]);
      assert multiset(v.approved)[v.up[c]] == 0;
    }
  }

  lemma CrashKeys(s: State, a: Action)
    requires KeyInv(KeysOf(s)) && Enabled(s, a) && a.Crash?
    requires Seated(s, Me(s, a)) && Seated(Apply(s, a), Apply(s, a).launchers[a.id])
    ensures KeyInv(KeysOf(Apply(s, a)))
  {
    var v, v' := KeysOf(s), KeysOf(Apply(s, a));
    assert v'.up == v.up;
    StartingUnlisted(v);
    if TearsApproval(s, Me(s, a)) {
      var c := Current(Me(s, a)).container;
      TearKeeps(v, c);
      assert v' == Tear(v, c);
    } else {
      assert !Sits(s, Me(s, a), Starting) && !Sits(s, Me(s, a), Halting);
      assert v' == v;
    }
  }

  lemma QuietHighKeys(s: State, a: Action)
    requires Enabled(s, a) && OnlyMoves(s, Apply(s, a), a.id)
    requires a.TakeTicket? || a.LockTimeout? || a.AcquireHigh? || a.EnsureFails? || a.Adopt?
             || a.SkipHeadless? || a.StartupScript? || a.Register? || a.ReleaseHigh?
    ensures KeysOf(Apply(s, a)) == KeysOf(s)
  {
    QuietKeys(s, Apply(s, a), a.id);
  }

  lemma QuietLowKeys(s: State, a: Action)
    requires Enabled(s, a) && OnlyMoves(s, Apply(s, a), a.id)
    requires a.AgentExits? || a.ClearRegistration? || a.LeaveClearing? || a.AcquireLow?
             || a.YieldOrEnter? || a.ReleaseLow? || a.ProbeRunners?
    ensures KeysOf(Apply(s, a)) == KeysOf(s)
  {
    QuietKeys(s, Apply(s, a), a.id);
  }

  predicate Loud(a: Action) {
    a.StartContainer? || a.Reap? || a.Approve? || a.HealthPoll? || a.Unapprove? || a.Stop? || a.Crash?
  }

  lemma LoudKeys(s: State, a: Action)
    requires Inv(s) && KeyInv(KeysOf(s)) && Enabled(s, a) && OnlyMoves(s, Apply(s, a), a.id)
    requires Loud(a) && a.id in s.lock
    ensures KeyInv(KeysOf(Apply(s, a)))
  {
    HolderSeated(s, Apply(s, a), a.id);
    assert LauncherOk(s, a.id);
    match a
    case StartContainer(_, _) => StartKeys(s, a);
    case Reap(_) => ReapKeys(s, a);
    case Approve(_, _, _) => ApproveKeys(s, a);
    case HealthPoll(_, _, _) => HealthPollKeys(s, a);
    case Unapprove(_, _) => UnapproveKeys(s, a);
    case Stop(_, _) => StopKeys(s, a);
    case Crash(_) => CrashKeys(s, a);
  }

  lemma QuietStepKeys(s: State, a: Action)
    requires KeyInv(KeysOf(s)) && Enabled(s, a) && OnlyMoves(s, Apply(s, a), a.id)
    requires !Loud(a)
    ensures KeyInv(KeysOf(Apply(s, a)))
  {
    if a.AgentExits? || a.ClearRegistration? || a.LeaveClearing? || a.AcquireLow?
       || a.YieldOrEnter? || a.ReleaseLow? || a.ProbeRunners? {
      QuietLowKeys(s, a);
    } else {
      QuietHighKeys(s, a);
    }
  }

  lemma LoudHoldsLock(s: State, a: Action)
    requires Inv(s) && Enabled(s, a) && Loud(a) && !a.Crash?
    ensures a.id in s.lock
  {
    assert LauncherOk(s, a.id);
  }

  lemma IdleCrashKeys(s: State, a: Action)
    requires Inv(s) && KeyInv(KeysOf(s)) && Enabled(s, a) && OnlyMoves(s, Apply(s, a), a.id)
    requires a.Crash? && a.id !in s.lock
    ensures KeyInv(KeysOf(Apply(s, a)))
  {
    assert LauncherOk(s, a.id);
    QuietKeys(s, Apply(s, a), a.id);
  }

  lemma StepMovesOnlyItsLauncher(s: State, a: Action)
    requires Enabled(s, a)
    ensures OnlyMoves(s, Apply(s, a), a.id)
  {
    if Loud(a) { LoudMovesOnlyItsLauncher(s, a); } else { QuietMovesOnlyItsLauncher(s, a); }
  }

  lemma LoudMovesOnlyItsLauncher(s: State, a: Action)
    requires Enabled(s, a) && Loud(a)
    ensures OnlyMoves(s, Apply(s, a), a.id)
  {
  }

  lemma QuietMovesOnlyItsLauncher(s: State, a: Action)
    requires Enabled(s, a) && !Loud(a)
    ensures OnlyMoves(s, Apply(s, a), a.id)
  {
  }

  lemma StepKeepsKeys(s: State, a: Action)
    requires Inv(s) && KeyInv(KeysOf(s)) && Enabled(s, a)
    ensures KeyInv(KeysOf(Apply(s, a)))
  {
    StepMovesOnlyItsLauncher(s, a);
    if !Loud(a) {
      QuietStepKeys(s, a);
    } else if a.Crash? && a.id !in s.lock {
      IdleCrashKeys(s, a);
    } else {
      if !a.Crash? { LoudHoldsLock(s, a); }
      LoudKeys(s, a);
    }
  }
}
