/**
  The sidecar protocol's guarantees over whole runs: every interleaving, every failure, every crash.
  */
module LaunchRuns {
  import opened KeyApproval
  import opened LaunchProtocol
  import opened LaunchSafety
  import opened LaunchApprovals

  // ---- reachability -------------------------------------------------------------------------------

  /** Keys are minted once: nothing running carries a key whose container was reaped. */
  ghost predicate FreshKeys(s: State) {
    && (forall c :: c in s.up ==> s.up[c].key < s.minted && s.up[c].key !in s.lost)
    && (forall k :: k in s.lost ==> k < s.minted)
    && (forall c, d :: c in s.up && d in s.up && s.up[c].key == s.up[d].key ==> c == d)
    && forall c :: c in s.abandoned ==> c in s.up
  }

  lemma StepKeepsFresh(s: State, a: Action)
    requires FreshKeys(s) && Enabled(s, a)
    ensures FreshKeys(Apply(s, a))
  {
    if Loud(a) && !a.HealthPoll? && !a.Reap? {
      LoudKeepsFresh(s, a);
    } else if a.Reap? {
      ReapKeepsFresh(s, a);
    } else if a.HealthPoll? || a.ProbeRunners? {
      PollingKeepsFresh(s, a);
    } else {
      QuietKeepsFresh(s, a);
    }
  }

  lemma LoudKeepsFresh(s: State, a: Action)
    requires FreshKeys(s) && Enabled(s, a) && Loud(a) && !a.HealthPoll? && !a.Reap?
    ensures FreshKeys(Apply(s, a))
  {
    if a.StartContainer? {
      StartKeepsFresh(s, a);
    } else if a.Stop? {
      StopKeepsFresh(s, a);
    } else {
      assert Apply(s, a).up == s.up && Apply(s, a).minted == s.minted;
    }
  }

  lemma StartKeepsFresh(s: State, a: Action)
    requires FreshKeys(s) && Enabled(s, a) && a.StartContainer?
    ensures FreshKeys(Apply(s, a))
  {
  }

  lemma StopKeepsFresh(s: State, a: Action)
    requires FreshKeys(s) && Enabled(s, a) && a.Stop?
    ensures FreshKeys(Apply(s, a))
  {
  }

  lemma ReapKeepsFresh(s: State, a: Action)
    requires FreshKeys(s) && Enabled(s, a) && a.Reap?
    ensures FreshKeys(Apply(s, a))
  {
  }

  lemma PollingKeepsFresh(s: State, a: Action)
    requires FreshKeys(s) && Enabled(s, a) && (a.HealthPoll? || a.ProbeRunners?)
    ensures FreshKeys(Apply(s, a))
  {
  }

  lemma QuietKeepsFresh(s: State, a: Action)
    requires FreshKeys(s) && Enabled(s, a) && !Loud(a) && !a.ProbeRunners?
    ensures FreshKeys(Apply(s, a))
  {
  }

  lemma {:induction false} InvAfter(s: State, run: seq<Action>)
    requires Inv(s) && KeyInv(KeysOf(s)) && FreshKeys(s) && ValidRun(s, run)
    ensures Inv(After(s, run)) && KeyInv(KeysOf(After(s, run))) && FreshKeys(After(s, run))
    decreases run
  {
    if run != [] {
      StepKeepsInv(s, run[0]);
      StepKeepsKeys(s, run[0]);
      StepKeepsFresh(s, run[0]);
      InvAfter(Apply(s, run[0]), run[1..]);
    }
  }

  lemma InitKeys(s: State)
    requires Init(s)
    ensures KeyInv(KeysOf(s))
  {
    assert KeysOf(s).up == map[];
    forall k | s.foreign <= k
      ensures multiset(s.approved)[k] == 0
    {
      assert k !in s.approved;
    }
  }

  lemma Reachable(s: State, run: seq<Action>)
    requires Init(s) && ValidRun(s, run)
    ensures Inv(After(s, run)) && KeyInv(KeysOf(After(s, run))) && FreshKeys(After(s, run))
  {
    InitInv(s);
    InitKeys(s);
    InvAfter(s, run);
  }

  // ---- a registered agent keeps its sidecar -------------------------------------------------------

  /** The declared sidecar a registration is for. */
  ghost predicate IsFor(s: State, r: Registration, sc: Sidecar) {
    r.owner in s.launchers && sc in s.launchers[r.owner].sidecars && sc.container == r.container
  }

  /**
    Whatever ran in between, a live registration's container is up with the very key and port its owner was
    handed, unless a later launcher's inspection took it for stopped and removed it, and then it is not; and
    nobody is in a position to stop it.
    */
  lemma RegisteredStaysConnected(s: State, run: seq<Action>, r: Registration, sc: Sidecar)
    requires Init(s) && ValidRun(s, run)
    requires r in After(s, run).regs && IsFor(After(s, run), r, sc) && !sc.headless
    ensures var t := After(s, run);
            && r.container in t.launchers[r.owner].handed
            && var handed := t.launchers[r.owner].handed[r.container];
            && (r.container in t.up && t.up[r.container] == handed <==> handed.key !in t.lost)
            && forall id, ok :: Enabled(t, Stop(id, ok)) ==> Current(t.launchers[id]).container != r.container
  {
    Reachable(s, run);
    RegisteredIsServed(After(s, run), r, sc);
  }

  lemma RegisteredIsServed(t: State, r: Registration, sc: Sidecar)
    requires Inv(t) && FreshKeys(t) && r in t.regs && IsFor(t, r, sc) && !sc.headless
    ensures r.container in t.launchers[r.owner].handed
    ensures var handed := t.launchers[r.owner].handed[r.container];
            r.container in t.up && t.up[r.container] == handed <==> handed.key !in t.lost
    ensures forall id, ok :: Enabled(t, Stop(id, ok)) ==> Current(t.launchers[id]).container != r.container
  {
    assert RegOk(t, r);
    var j :| 0 <= j < |t.launchers[r.owner].sidecars| && t.launchers[r.owner].sidecars[j] == sc;
    forall id, ok | Enabled(t, Stop(id, ok))
      ensures Current(t.launchers[id]).container != r.container
    {
      assert LauncherOk(t, id);
    }
  }

  /** No running container is ever inspected as stopped. */
  ghost predicate NothingReaped(run: seq<Action>) {
    forall a :: a in run ==> !a.Reap?
  }

  lemma {:induction false} LostUnchanged(s: State, run: seq<Action>)
    requires ValidRun(s, run) && NothingReaped(run)
    ensures After(s, run).lost == s.lost
    decreases run
  {
    if run != [] {
      assert run[0] in run && forall a :: a in run[1..] ==> a in run;
      LostUnchanged(Apply(s, run[0]), run[1..]);
    }
  }

  /** So in such runs, crashes and every other failure included, a registered launcher is never cut off. */
  lemma NeverCutOff(s: State, run: seq<Action>, r: Registration, sc: Sidecar)
    requires Init(s) && ValidRun(s, run) && NothingReaped(run)
    requires r in After(s, run).regs && IsFor(After(s, run), r, sc) && !sc.headless
    ensures var t := After(s, run);
            && r.container in t.up && r.container in t.launchers[r.owner].handed
            && t.up[r.container] == t.launchers[r.owner].handed[r.container]
  {
    LostUnchanged(s, run);
    RegisteredStaysConnected(s, run, r, sc);
  }

  lemma LockIsExclusive(s: State, run: seq<Action>)
    requires Init(s) && ValidRun(s, run)
    ensures var t := After(s, run);
            && |t.lock| <= 1
            && (forall id :: id in t.launchers && HoldsLock(t.launchers[id].stage) ==> t.lock == {id})
  {
    Reachable(s, run);
    var t := After(s, run);
    if id :| id in t.lock {
      assert t.lock == {id};
    }
    forall id | id in t.launchers && HoldsLock(t.launchers[id].stage)
      ensures t.lock == {id}
    {
      assert LauncherOk(t, id);
    }
  }

  // ---- the approval list --------------------------------------------------------------------------

  /** With the lock free, a minted key is approved iff it runs and was never torn, or was leaked. */
  lemma ApprovedIffRunning(s: State, run: seq<Action>, k: ApprovalId)
    requires Init(s) && ValidRun(s, run)
    requires After(s, run).lock == {} && s.foreign <= k
    ensures var t := After(s, run);
            && (k in t.approved <==>
                  k in t.leaked || (k !in t.torn && exists c :: c in t.up && HasListedKey(t, c, k)))
            && (k in t.leaked ==> forall c :: c in t.up ==> !HasListedKey(t, c, k))
            && multiset(t.approved)[k] <= 1
  {
    Reachable(s, run);
    ForeignUnchanged(s, run);
    ApprovedNow(After(s, run), k);
  }

  /** Its provider approves its key, which is `k`; Telegram's container has none to approve. */
  predicate HasListedKey(t: State, c: Container, k: ApprovalId)
    requires c in t.up
  {
    c in t.approving && c != "agent-wrap-telegram" && t.up[c].key == k
  }

  lemma ApprovedNow(t: State, k: ApprovalId)
    requires Inv(t) && KeyInv(KeysOf(t)) && t.lock == {} && t.foreign <= k
    ensures k in t.approved <==>
              k in t.leaked || (k !in t.torn && exists c :: c in t.up && Approves(t, c) && t.up[c].key == k)
    ensures k in t.leaked ==> forall c :: c in t.up && Approves(t, c) ==> t.up[c].key != k
    ensures multiset(t.approved)[k] <= 1
  {
    forall id | id in t.launchers
      ensures !t.launchers[id].stage.Starting? && !t.launchers[id].stage.Halting?
    {
      assert LauncherOk(t, id);
    }
    var v := KeysOf(t);
    assert v.starting == {} && v.halting == {};
    if c :| c in t.up && Approves(t, c) && t.up[c].key == k {
      assert v.up[c] == k;
      if k !in t.torn { assert ListedAs(v, c, k); }
    }
    assert k in t.approved <==> multiset(v.approved)[k] > 0;
    if c :| c in v.up && ListedAs(v, c, k) {
      assert c in t.up && Approves(t, c) && t.up[c].key == k;
    }
  }

  lemma {:induction false} ForeignUnchanged(s: State, run: seq<Action>)
    requires ValidRun(s, run)
    ensures After(s, run).foreign == s.foreign && After(s, run).approving == s.approving
    decreases run
  {
    if run != [] {
      ForeignUnchanged(Apply(s, run[0]), run[1..]);
    }
  }

  /** Nothing comes between a container's change of state and the list's: no death, failed step or wrong inspection. */
  ghost predicate Smooth(run: seq<Action>) {
    forall a :: a in run ==> SmoothStep(a)
  }

  predicate SmoothStep(a: Action) {
    match a
    case Crash(_) => false
    case Reap(_) => false
    case Approve(_, ok, written) => ok && written
    case Unapprove(_, recovered) => recovered
    case Stop(_, ok) => ok
    case _ => true
  }

  /** Whoever is about to stop a container has un-approved its key, and nothing was torn or leaked so far. */
  ghost predicate InStep(s: State) {
    s.torn == {} && s.leaked == {}
    && forall id :: id in s.launchers ==> HaltsUnlisted(s, s.launchers[id])
  }

  predicate HaltsUnlisted(s: State, l: Launcher) {
    l.stage.Halting? && AtSidecar(l) && Approves(s, Current(l).container) ==>
      Current(l).container in s.up && s.up[Current(l).container].key !in s.approved
  }

  lemma SmoothStepStaysInStep(s: State, a: Action)
    requires Inv(s) && KeyInv(KeysOf(s)) && InStep(s) && Enabled(s, a) && SmoothStep(a)
    ensures InStep(Apply(s, a))
  {
    var s' := Apply(s, a);
    SmoothTears(s, a);
    forall id | id in s'.launchers
      ensures HaltsUnlisted(s', s'.launchers[id])
    {
      if id == a.id {
        MoverHaltsUnlisted(s, a);
      } else {
        OthersHaltUnlisted(s, a, id);
      }
    }
  }

  lemma MoverHaltsUnlisted(s: State, a: Action)
    requires Inv(s) && KeyInv(KeysOf(s)) && Enabled(s, a) && SmoothStep(a)
    ensures HaltsUnlisted(Apply(s, a), Apply(s, a).launchers[a.id])
  {
    if a.Unapprove? { UnapprovedIsGone(s, a); }
  }

  lemma OthersHaltUnlisted(s: State, a: Action, id: LauncherId)
    requires Inv(s) && Enabled(s, a) && id in s.launchers && id != a.id
    requires HaltsUnlisted(s, s.launchers[id])
    ensures id in Apply(s, a).launchers && HaltsUnlisted(Apply(s, a), Apply(s, a).launchers[id])
  {
    StepMovesOnlyItsLauncher(s, a);
    if s.launchers[id].stage.Halting? {
      assert LauncherOk(s, id);
      OthersKeepLists(s, a);
    }
  }

  lemma SmoothTears(s: State, a: Action)
    requires Inv(s) && InStep(s) && Enabled(s, a) && SmoothStep(a)
    ensures Apply(s, a).torn == {} && Apply(s, a).leaked == {}
  {
    assert HaltsUnlisted(s, Me(s, a));
  }

  lemma UnapprovedIsGone(s: State, a: Action)
    requires Inv(s) && KeyInv(KeysOf(s)) && Enabled(s, a) && a.Unapprove? && a.recovered
    ensures var c := Current(Me(s, a)).container;
            Approves(s, c) ==> s.up[c].key !in Apply(s, a).approved && c in Apply(s, a).up
                               && Apply(s, a).up[c] == s.up[c]
  {
    var c := Current(Me(s, a)).container;
    if Approves(s, c) {
      var k := s.up[c].key;
      assert KeysOf(s).up[c] == k && multiset(s.approved)[k] <= 1;
      assert multiset(Apply(s, a).approved)[k] == 0;
    }
  }

  /** Without the lock nothing is started, stopped, approved or un-approved. */
  lemma OthersKeepLists(s: State, a: Action)
    requires Inv(s) && Enabled(s, a) && a.id !in s.lock
    ensures Apply(s, a).up == s.up && Apply(s, a).approved == s.approved && Apply(s, a).approving == s.approving
  {
    assert LauncherOk(s, a.id);
  }

  lemma {:induction false} SmoothRunStaysInStep(s: State, run: seq<Action>)
    requires Inv(s) && KeyInv(KeysOf(s)) && InStep(s) && ValidRun(s, run) && Smooth(run)
    ensures InStep(After(s, run))
    decreases run
  {
    if run != [] {
      assert run[0] in run && forall a :: a in run[1..] ==> a in run;
      StepKeepsInv(s, run[0]);
      StepKeepsKeys(s, run[0]);
      SmoothStepStaysInStep(s, run[0]);
      SmoothRunStaysInStep(Apply(s, run[0]), run[1..]);
    }
  }

  /** The approved ids the program minted are exactly those of the running containers. */
  ghost predicate ListMatches(t: State) {
    forall k :: t.foreign <= k ==> (k in t.approved <==> exists c :: c in t.up && Approves(t, c) && t.up[c].key == k)
  }

  /** The documented promise: in smooth runs the list matches whenever the lock is free. */
  lemma ApprovalsMatchRunning(s: State, run: seq<Action>)
    requires Init(s) && ValidRun(s, run) && Smooth(run) && After(s, run).lock == {}
    ensures ListMatches(After(s, run))
  {
    InitInv(s);
    InitKeys(s);
    SmoothRunStaysInStep(s, run);
    ApprovalsMatchIff(s, run);
  }

  /** Exactly when the promise holds, in any run: no running container's key was torn, and none was leaked. */
  lemma ApprovalsMatchIff(s: State, run: seq<Action>)
    requires Init(s) && ValidRun(s, run) && After(s, run).lock == {}
    ensures var t := After(s, run);
            ListMatches(t) <==> t.leaked == {} && forall c :: c in t.up && Approves(t, c) ==> t.up[c].key !in t.torn
  {
    Reachable(s, run);
    var t := After(s, run);
    assert forall c :: c in t.up && Approves(t, c) ==> c in KeysOf(t).up && t.foreign <= KeysOf(t).up[c];
    forall k | t.foreign <= k
      ensures k in t.approved <==>
                k in t.leaked || (k !in t.torn && exists c :: c in t.up && Approves(t, c) && t.up[c].key == k)
      ensures k in t.leaked ==> forall c :: c in t.up && Approves(t, c) ==> t.up[c].key != k
    {
      ApprovedNow(t, k);
    }
    assert forall k :: k in t.leaked ==> t.foreign <= k;
  }

  /** The ids the user approved by hand, in the order they stand in the list. */
  function UserIds(list: seq<ApprovalId>, foreign: nat): seq<ApprovalId> {
    if list == [] then []
    else (if list[0] < foreign then [list[0]] else []) + UserIds(list[1..], foreign)
  }

  lemma {:induction false} UserIdsAppend(list: seq<ApprovalId>, foreign: nat, k: ApprovalId)
    requires foreign <= k
    ensures UserIds(list + [k], foreign) == UserIds(list, foreign)
  {
    if list == [] {
      assert list + [k] == [k] && [k][1..] == [];
    } else {
      assert (list + [k])[1..] == list[1..] + [k];
      UserIdsAppend(list[1..], foreign, k);
    }
  }

  lemma {:induction false} UserIdsRemove(list: seq<ApprovalId>, foreign: nat, k: ApprovalId)
    requires foreign <= k
    ensures UserIds(Unapproved(list, k), foreign) == UserIds(list, foreign)
  {
    if list != [] && list[0] == k {
      assert UserIds(list, foreign) == [] + UserIds(list[1..], foreign);
    } else if list != [] {
      var rest := Unapproved(list[1..], k);
      UserIdsRemove(list[1..], foreign, k);
      assert ([list[0]] + rest)[1..] == rest;
    }
  }

  lemma StepKeepsUserIds(s: State, a: Action)
    requires Inv(s) && KeyInv(KeysOf(s)) && Enabled(s, a)
    ensures UserIds(Apply(s, a).approved, s.foreign) == UserIds(s.approved, s.foreign)
  {
    if a.Approve? || a.Unapprove? {
      assert LauncherOk(s, a.id);
      var c := Current(Me(s, a)).container;
      if Approves(s, c) {
        assert c in KeysOf(s).up && s.foreign <= s.up[c].key;
        UserIdsAppend(s.approved, s.foreign, s.up[c].key);
        UserIdsRemove(s.approved, s.foreign, s.up[c].key);
      }
    }
  }

  lemma StepKeepsAll(s: State, a: Action)
    requires Inv(s) && KeyInv(KeysOf(s)) && Enabled(s, a)
    ensures Inv(Apply(s, a)) && KeyInv(KeysOf(Apply(s, a)))
    ensures UserIds(Apply(s, a).approved, s.foreign) == UserIds(s.approved, s.foreign)
    ensures Apply(s, a).foreign == s.foreign
  {
    StepKeepsUserIds(s, a);
    StepKeepsInv(s, a);
    StepKeepsKeys(s, a);
    ForeignUnchanged(s, [a]);
  }

  lemma {:induction false} UserIdsAfter(s: State, run: seq<Action>)
    requires Inv(s) && KeyInv(KeysOf(s)) && ValidRun(s, run)
    ensures UserIds(After(s, run).approved, s.foreign) == UserIds(s.approved, s.foreign)
    decreases run
  {
    if run != [] {
      StepKeepsAll(s, run[0]);
      UserIdsAfter(Apply(s, run[0]), run[1..]);
    }
  }

  lemma UserApprovalsSurvive(s: State, run: seq<Action>)
    requires Init(s) && ValidRun(s, run)
    ensures UserIds(After(s, run).approved, s.foreign) == UserIds(s.approved, s.foreign)
  {
    InitInv(s);
    InitKeys(s);
    UserIdsAfter(s, run);
  }

  // ---- nothing is left behind ---------------------------------------------------------------------

  /** The launcher has yet to deal with its j-th sidecar in its low-priority section. */
  predicate Owes(l: Launcher, j: nat) {
    match l.stage
    case Fresh => false
    case Probing => j < l.at
    case Unapproving => j < l.at
    case Halting => j < l.at
    case Done => false
    case Dead => false
    case _ => true
  }

  /** It has yet to deal with it, or died before it could. */
  predicate Owing(l: Launcher, j: nat) {
    Owes(l, j) || l.stage.Dead?
  }

  ghost predicate Answers(l: Launcher, c: Container) {
    exists j :: 0 <= j < |l.sidecars| && l.sidecars[j].container == c && Owing(l, j)
  }

  ghost predicate Answered(s: State, c: Container) {
    exists id :: id in s.launchers && Answers(s.launchers[id], c)
  }

  ghost predicate NoOrphans(s: State) {
    forall c :: c in s.up ==> Answered(s, c) || c in s.abandoned
  }

  /** Enough for `c` to stay answered for: `me` drops no sidecar that is `c`. */
  lemma AnswerPersists(s: State, s': State, me: LauncherId, c: Container)
    requires OnlyMoves(s, s', me) && Answered(s, c)
    requires forall j: nat | j < |s.launchers[me].sidecars| && s.launchers[me].sidecars[j].container == c ::
               Owing(s.launchers[me], j) ==> Owing(s'.launchers[me], j)
    ensures Answered(s', c)
  {
    var id :| id in s.launchers && Answers(s.launchers[id], c);
    var j :| 0 <= j < |s.launchers[id].sidecars| && s.launchers[id].sidecars[j].container == c
             && Owing(s.launchers[id], j);
    assert Owing(s'.launchers[id], j);
    assert Answers(s'.launchers[id], c);
  }

  /** Only probing past a sidecar or stopping it settles what is owed. */
  lemma OwingPersists(s: State, a: Action, j: nat)
    requires Enabled(s, a) && Owing(Me(s, a), j) && j < |Me(s, a).sidecars|
    requires a.ProbeRunners? || a.Stop? ==> Me(s, a).sidecars[j].container != Current(Me(s, a)).container
    ensures Owing(Apply(s, a).launchers[a.id], j)
  {
  }

  lemma MoveKeepsAnswer(s: State, a: Action, c: Container)
    requires Enabled(s, a) && Answered(s, c) && OnlyMoves(s, Apply(s, a), a.id)
    requires a.ProbeRunners? || a.Stop? ==> c != Current(Me(s, a)).container
    ensures Answered(Apply(s, a), c)
  {
    var s' := Apply(s, a);
    forall j: nat | j < |Me(s, a).sidecars| && Me(s, a).sidecars[j].container == c && Owing(Me(s, a), j)
      ensures Owing(s'.launchers[a.id], j)
    {
      OwingPersists(s, a, j);
    }
    AnswerPersists(s, s', a.id, c);
  }

  /** Passing a container by is safe: whoever is registered on it still owes it. */
  lemma RegisteredAnswers(s: State, s': State, me: LauncherId, c: Container)
    requires Inv(s) && OnlyMoves(s, s', me) && HasLiveRunners(s, c, me)
    ensures Answered(s', c)
  {
    var r :| r in s.regs && r.container == c && r.owner != me;
    assert RegOk(s, r);
    var l := s'.launchers[r.owner];
    var j :| 0 <= j < |l.sidecars| && l.sidecars[j].container == c;
    assert MayHold(s.launchers[r.owner], j);
    assert Owing(l, j);
    assert Answers(l, c);
  }

  lemma ProbeKeepsAnswer(s: State, a: Action, c: Container)
    requires Inv(s) && Enabled(s, a) && OnlyMoves(s, Apply(s, a), a.id) && a.ProbeRunners?
    requires c in s.up && Answered(s, c) && c == Current(Me(s, a)).container
    ensures Answered(Apply(s, a), c) || c in Apply(s, a).abandoned
  {
    if HasLiveRunners(s, c, a.id) {
      RegisteredAnswers(s, Apply(s, a), a.id, c);
    } else if a.seen {
      AnswerPersists(s, Apply(s, a), a.id, c);
    }
  }

  /** Whoever starts a container owes it from then on. */
  lemma StarterAnswers(s: State, a: Action, c: Container)
    requires Enabled(s, a) && c in Apply(s, a).up && c !in s.up
    ensures Answered(Apply(s, a), c)
  {
    var l' := Apply(s, a).launchers[a.id];
    assert l'.sidecars[l'.at].container == c && Owing(l', l'.at);
    assert Answers(l', c);
  }

  lemma StopRemovesOrAbandons(s: State, a: Action)
    requires Enabled(s, a) && a.Stop?
    ensures var c := Current(Me(s, a)).container; c in Apply(s, a).up ==> c in Apply(s, a).abandoned
  {
  }

  /** Only removing a container takes it off the abandoned ones. */
  lemma AbandonedStays(s: State, a: Action, c: Container)
    requires Enabled(s, a) && c in s.abandoned && c in Apply(s, a).up
    ensures c in Apply(s, a).abandoned
  {
  }

  lemma StepKeepsOrphanFree(s: State, a: Action)
    requires Inv(s) && NoOrphans(s) && Enabled(s, a)
    ensures NoOrphans(Apply(s, a))
  {
    StepMovesOnlyItsLauncher(s, a);
    forall c | c in Apply(s, a).up
      ensures Answered(Apply(s, a), c) || c in Apply(s, a).abandoned
    {
      if c !in s.up {
        StarterAnswers(s, a, c);
      } else if c in s.abandoned {
        AbandonedStays(s, a, c);
      } else if a.ProbeRunners? && c == Current(Me(s, a)).container {
        ProbeKeepsAnswer(s, a, c);
      } else if a.Stop? && c == Current(Me(s, a)).container {
        StopRemovesOrAbandons(s, a);
      } else {
        MoveKeepsAnswer(s, a, c);
      }
    }
  }

  lemma {:induction false} NoOrphansAfter(s: State, run: seq<Action>)
    requires Inv(s) && NoOrphans(s) && ValidRun(s, run)
    ensures NoOrphans(After(s, run))
    decreases run
  {
    if run != [] {
      StepKeepsInv(s, run[0]);
      StepKeepsOrphanFree(s, run[0]);
      NoOrphansAfter(Apply(s, run[0]), run[1..]);
    }
  }

  predicate Ended(l: Launcher) {
    l.stage.Fresh? || l.stage.Done? || l.stage.Dead?
  }

  /**
    Once everyone has ended, a container still up was declared by a process that was killed, or its last
    launcher's `docker stop` failed or was never tried because the container was inspected as stopped.
    */
  lemma LeftoversBelongToTheDead(s: State, run: seq<Action>, c: Container)
    requires Init(s) && ValidRun(s, run)
    requires var t := After(s, run);
             c in t.up && forall id :: id in t.launchers ==> Ended(t.launchers[id])
    ensures var t := After(s, run);
            c in t.abandoned
            || exists id :: id in t.launchers && t.launchers[id].stage.Dead? && Declares(t.launchers[id].sidecars, c)
  {
    InitInv(s);
    NoOrphansAfter(s, run);
    var t := After(s, run);
    if Answered(t, c) {
      var id :| id in t.launchers && Answers(t.launchers[id], c);
    }
  }

  lemma {:induction false} NobodyDies(s: State, run: seq<Action>)
    requires ValidRun(s, run) && CrashFree(run)
    requires forall id :: id in s.launchers ==> !s.launchers[id].stage.Dead?
    ensures forall id :: id in After(s, run).launchers ==> !After(s, run).launchers[id].stage.Dead?
    decreases run
  {
    if run != [] {
      assert run[0] in run && forall a :: a in run[1..] ==> a in run;
      NobodyDiesNow(s, run[0]);
      NobodyDies(Apply(s, run[0]), run[1..]);
    }
  }

  lemma NobodyDiesNow(s: State, a: Action)
    requires Enabled(s, a) && !a.Crash?
    requires forall id :: id in s.launchers ==> !s.launchers[id].stage.Dead?
    ensures forall id :: id in Apply(s, a).launchers ==> !Apply(s, a).launchers[id].stage.Dead?
  {
  }

  /**
    Failed ensures, failed scripts, timeouts and refused locks included: without a crash, what is left running
    is exactly what was abandoned.
    */
  lemma LeftRunningIsAbandoned(s: State, run: seq<Action>)
    requires Init(s) && ValidRun(s, run) && CrashFree(run)
    requires forall id :: id in After(s, run).launchers ==> Ended(After(s, run).launchers[id])
    ensures After(s, run).up.Keys == After(s, run).abandoned
  {
    NobodyDies(s, run);
    Reachable(s, run);
    var t := After(s, run);
    forall c | c in t.up
      ensures c in t.abandoned
    {
      LeftoversBelongToTheDead(s, run, c);
    }
  }

  /** No launcher is killed, and whoever releases a running container sees it and stops it. */
  ghost predicate ReleasesWork(run: seq<Action>) {
    forall a :: a in run ==> !a.Crash? && (a.Stop? ==> a.ok) && (a.ProbeRunners? ==> a.seen)
  }

  lemma {:induction false} NothingAbandoned(s: State, run: seq<Action>)
    requires ValidRun(s, run) && ReleasesWork(run) && s.abandoned == {}
    ensures After(s, run).abandoned == {}
    decreases run
  {
    if run != [] {
      assert run[0] in run && forall a :: a in run[1..] ==> a in run;
      NothingAbandoned(Apply(s, run[0]), run[1..]);
    }
  }

  lemma NothingLeftRunning(s: State, run: seq<Action>)
    requires Init(s) && ValidRun(s, run) && ReleasesWork(run)
    requires forall id :: id in After(s, run).launchers ==> Ended(After(s, run).launchers[id])
    ensures After(s, run).up == map[]
  {
    NothingAbandoned(s, run);
    LeftRunningIsAbandoned(s, run);
  }

  // ---- no deadlock --------------------------------------------------------------------------------

  function NextAction(s: State, id: LauncherId): Action
    requires id in s.launchers
  {
    var l := s.launchers[id];
    match l.stage
    case Fresh => TakeTicket(id, true)
    case Waiting => if s.lock == {} then AcquireHigh(id) else LockTimeout(id)
    case Ensuring =>
      if !AtSidecar(l) then StartupScript(id, true)
      else if Current(l).headless then SkipHeadless(id)
      else if Current(l).container in s.up then Adopt(id)
      else StartContainer(id, 0)
    case Starting => Approve(id, true, true)
    case Polling => HealthPoll(id, true, true)
    case Registering => if AtSidecar(l) then Register(id, true) else ReleaseHigh(id)
    case Running => AgentExits(id)
    case Clearing => if AtSidecar(l) then ClearRegistration(id) else LeaveClearing(id)
    case Stopping => AcquireLow(id)
    case LowHeld => YieldOrEnter(id)
    case Probing => if l.at == 0 then ReleaseLow(id) else ProbeRunners(id, true)
    case Unapproving => Unapprove(id, true)
    case Halting => Stop(id, true)
    case Done => Crash(id)
    case Dead => Crash(id)
  }

  /** A step on which something went wrong: a refusal, a timeout, a failure, a wrong inspection or a death. */
  predicate Failing(a: Action) {
    match a
    case TakeTicket(_, ok) => !ok
    case LockTimeout(_) => true
    case EnsureFails(_) => true
    case Reap(_) => true
    case Approve(_, ok, written) => !ok || !written
    case HealthPoll(_, ok, _) => !ok
    case StartupScript(_, ok) => !ok
    case Register(_, ok) => !ok
    case ProbeRunners(_, seen) => !seen
    case Unapprove(_, recovered) => !recovered
    case Stop(_, ok) => !ok
    case Crash(_) => true
    case _ => false
  }

  /** While any launcher is in flight somebody can move with nothing going wrong: the lock's holder always can. */
  lemma NoDeadlock(s: State, run: seq<Action>, id: LauncherId)
    requires Init(s) && ValidRun(s, run)
    requires id in After(s, run).launchers && !Ended(After(s, run).launchers[id])
    ensures exists a :: Enabled(After(s, run), a) && !Failing(a)
  {
    Reachable(s, run);
    var t := After(s, run);
    if h :| h in t.lock {
      HolderMoves(t, h);
    } else {
      assert LauncherOk(t, id);
      assert Enabled(t, NextAction(t, id));
    }
  }

  lemma HolderMoves(t: State, h: LauncherId)
    requires Inv(t) && h in t.lock
    ensures Enabled(t, NextAction(t, h)) && !Failing(NextAction(t, h))
  {
    assert LauncherOk(t, h);
  }

  // ---- what a crash can do ------------------------------------------------------------------------

  lemma RunCons(s: State, a: Action, rest: seq<Action>)
    requires Enabled(s, a) && ValidRun(Apply(s, a), rest)
    ensures ValidRun(s, [a] + rest) && After(s, [a] + rest) == After(Apply(s, a), rest)
  {
    assert ([a] + rest)[1..] == rest;
  }

  lemma Reassociate(first: seq<Action>, second: seq<Action>)
    requires first != []
    ensures first + second == [first[0]] + (first[1..] + second)
  {
  }

  lemma Before(s: State, a: Action, rest: seq<Action>) returns (run: seq<Action>)
    requires Enabled(s, a) && ValidRun(Apply(s, a), rest)
    ensures ValidRun(s, run) && After(s, run) == After(Apply(s, a), rest)
  {
    RunCons(s, a, rest);
    run := [a] + rest;
  }

  lemma {:induction false} RunAppend(s: State, first: seq<Action>, second: seq<Action>)
    requires ValidRun(s, first) && ValidRun(After(s, first), second)
    ensures ValidRun(s, first + second) && After(s, first + second) == After(After(s, first), second)
    decreases first
  {
    if first == [] {
      assert first + second == second;
    } else {
      var rest := first[1..];
      RunAppend(Apply(s, first[0]), rest, second);
      RunCons(s, first[0], rest + second);
      Reassociate(first, second);
    }
  }

  const PROXY: Container := "proxy"

  function Declaring(): Launcher {
    Launcher([Sidecar(PROXY, false)], Fresh, 0, map[])
  }

  function TwoLaunchers(): State {
    State({PROXY}, 0, map[1 := Declaring(), 2 := Declaring()], {}, {}, {}, map[], [], 0, {}, {}, {}, {})
  }

  /** Launcher 1 killed between starting the container and approving its key. */
  function OneKilled(): State {
    TwoLaunchers().(launchers := map[1 := Declaring().(stage := Dead), 2 := Declaring()],
                    up := map[PROXY := Instance(0, 4000)], minted := 1, torn := {0})
  }

  lemma KillBeforeApproval() returns (run: seq<Action>)
    ensures ValidRun(TwoLaunchers(), run) && After(TwoLaunchers(), run) == OneKilled()
  {
    var first := Starts();
    assert Apply(OneStarted(), Crash(1)) == OneKilled();
    var second: seq<Action> := Before(OneStarted(), Crash(1), []);
    RunAppend(TwoLaunchers(), first, second);
    run := first + second;
  }

  /** Launcher 1 has just started the container. */
  function OneStarted(): State {
    TwoLaunchers().(launchers := map[1 := Declaring().(stage := Starting), 2 := Declaring()], lock := {1},
                    up := map[PROXY := Instance(0, 4000)], minted := 1)
  }

  lemma Starts() returns (run: seq<Action>)
    ensures ValidRun(TwoLaunchers(), run) && After(TwoLaunchers(), run) == OneStarted()
  {
    var s := TwoLaunchers();
    var s1 := Apply(s, TakeTicket(1, true));
    var s2 := Apply(s1, AcquireHigh(1));
    assert Apply(s2, StartContainer(1, 4000)) == OneStarted();
    run := [];
    run := Before(s2, StartContainer(1, 4000), run);
    run := Before(s1, AcquireHigh(1), run);
    run := Before(s, TakeTicket(1, true), run);
  }

  /** Launcher 2 holds the lock and has adopted what launcher 1 left. */
  function Adopted(): State {
    OneKilled().(launchers := OneKilled().launchers[2 :=
                   Declaring().(stage := Ensuring, at := 1, handed := map[PROXY := Instance(0, 4000)])],
                 lock := {2})
  }

  lemma Adopts() returns (run: seq<Action>)
    ensures ValidRun(OneKilled(), run) && After(OneKilled(), run) == Adopted()
  {
    var s := OneKilled();
    var s1 := Apply(s, TakeTicket(2, true));
    var s2 := Apply(s1, AcquireHigh(2));
    assert Apply(s2, Adopt(2)) == Adopted();
    run := [];
    run := Before(s2, Adopt(2), run);
    run := Before(s1, AcquireHigh(2), run);
    run := Before(s, TakeTicket(2, true), run);
  }

  lemma RunsUnapproved() returns (run: seq<Action>)
    ensures ValidRun(Adopted(), run)
    ensures var t := After(Adopted(), run);
            && t.lock == {} && t.approved == [] && t.up == OneKilled().up && t.approving == {PROXY}
            && Registration(PROXY, 2) in t.regs && 2 in t.launchers && t.launchers[2].stage.Running?
  {
    var s3 := Adopted();
    var s4 := Apply(s3, StartupScript(2, true));
    var s5 := Apply(s4, Register(2, true));
    run := [];
    run := Before(s5, ReleaseHigh(2), run);
    run := Before(s4, Register(2, true), run);
    run := Before(s3, StartupScript(2, true), run);
  }

  /**
    So the promise needs nobody killed: after a kill between start and approval the next launcher adopts
    the container, never approves, and runs registered on a key nobody approved, the lock free.
    */
  lemma ApprovalLostByKill() returns (s: State, run: seq<Action>)
    ensures Init(s) && ValidRun(s, run) && After(s, run).lock == {}
    ensures var t := After(s, run);
            && Registration(PROXY, 2) in t.regs && 2 in t.launchers && t.launchers[2].stage.Running?
            && PROXY in t.up && Approves(t, PROXY) && t.up[PROXY].key !in t.approved
  {
    s := TwoLaunchers();
    var first := KillBeforeApproval();
    var second := Adopts();
    var third := RunsUnapproved();
    RunAppend(s, first, second);
    RunAppend(s, first + second, third);
    run := first + second + third;
  }

  // ---- what a failed release or a wrong inspection can do -----------------------------------------

  /** Launcher 1 past its start, in the given stage; launcher 2 has not begun. */
  function OneServed(stage: Stage, at: nat): State {
    TwoLaunchers().(launchers := map[1 := Launcher([Sidecar(PROXY, false)], stage, at, map[PROXY := Instance(0, 4000)]),
                                     2 := Declaring()],
                    up := map[PROXY := Instance(0, 4000)], minted := 1, approved := [0])
  }

  /** Launcher 1 registered on the sidecar it started, the lock free. */
  function OneRunning(): State {
    OneServed(Running, 0).(regs := {Registration(PROXY, 1)})
  }

  lemma ApprovesAndPolls() returns (run: seq<Action>)
    ensures ValidRun(OneStarted(), run) && After(OneStarted(), run) == OneServed(Ensuring, 1).(lock := {1})
  {
    var s := OneStarted();
    var s1 := Apply(s, Approve(1, true, true));
    assert Apply(s1, HealthPoll(1, true, false)) == OneServed(Ensuring, 1).(lock := {1});
    run := [];
    run := Before(s1, HealthPoll(1, true, false), run);
    run := Before(s, Approve(1, true, true), run);
  }

  lemma Registers() returns (run: seq<Action>)
    ensures ValidRun(OneServed(Ensuring, 1).(lock := {1}), run)
    ensures After(OneServed(Ensuring, 1).(lock := {1}), run) == OneRunning()
  {
    var s, s1 := OneServed(Ensuring, 1).(lock := {1}), OneServed(Registering, 0).(lock := {1});
    assert Apply(s, StartupScript(1, true)) == s1;
    run := RegistersAndReleases();
    run := Before(s, StartupScript(1, true), run);
  }

  lemma RegistersAndReleases() returns (run: seq<Action>)
    ensures ValidRun(OneServed(Registering, 0).(lock := {1}), run)
    ensures After(OneServed(Registering, 0).(lock := {1}), run) == OneRunning()
  {
    var s1 := OneServed(Registering, 1).(lock := {1}, regs := {Registration(PROXY, 1)});
    assert Apply(OneServed(Registering, 0).(lock := {1}), Register(1, true)) == s1;
    run := ReleasesLock(s1);
    run := Before(OneServed(Registering, 0).(lock := {1}), Register(1, true), run);
  }

  lemma ReleasesLock(s: State) returns (run: seq<Action>)
    requires s == OneServed(Registering, 1).(lock := {1}, regs := {Registration(PROXY, 1)})
    ensures ValidRun(s, run) && After(s, run) == OneRunning()
  {
    assert Apply(s, ReleaseHigh(1)) == OneRunning();
    run := Before(s, ReleaseHigh(1), []);
  }

  lemma ReachesRunning() returns (run: seq<Action>)
    ensures ValidRun(TwoLaunchers(), run) && After(TwoLaunchers(), run) == OneRunning()
  {
    var first := Starts();
    var second := ApprovesAndPolls();
    var third := Registers();
    RunAppend(OneStarted(), second, third);
    RunAppend(TwoLaunchers(), first, second + third);
    run := first + (second + third);
  }

  /** Its agent has exited. */
  lemma Leaves() returns (run: seq<Action>)
    ensures ValidRun(OneRunning(), run) && After(OneRunning(), run) == OneServed(Clearing, 1)
  {
    var s := OneRunning();
    var s1 := Apply(s, AgentExits(1));
    assert Apply(s1, ClearRegistration(1)) == OneServed(Clearing, 1);
    run := [];
    run := Before(s1, ClearRegistration(1), run);
    run := Before(s, AgentExits(1), run);
  }

  /** Nobody else wants the lock, nobody else is registered. */
  lemma Enters() returns (run: seq<Action>)
    ensures ValidRun(OneServed(Clearing, 1), run)
    ensures After(OneServed(Clearing, 1), run) == OneServed(Probing, 1).(lock := {1})
  {
    assert Apply(OneServed(Clearing, 1), LeaveClearing(1)) == OneServed(Stopping, 0);
    run := LocksAndLooks();
    run := Before(OneServed(Clearing, 1), LeaveClearing(1), run);
  }

  lemma LocksAndLooks() returns (run: seq<Action>)
    ensures ValidRun(OneServed(Stopping, 0), run)
    ensures After(OneServed(Stopping, 0), run) == OneServed(Probing, 1).(lock := {1})
  {
    assert Apply(OneServed(Stopping, 0), AcquireLow(1)) == OneServed(LowHeld, 0).(lock := {1});
    run := LooksAround();
    run := Before(OneServed(Stopping, 0), AcquireLow(1), run);
  }

  lemma LooksAround() returns (run: seq<Action>)
    ensures ValidRun(OneServed(LowHeld, 0).(lock := {1}), run)
    ensures After(OneServed(LowHeld, 0).(lock := {1}), run) == OneServed(Probing, 1).(lock := {1})
  {
    var s := OneServed(LowHeld, 0).(lock := {1});
    assert Apply(s, YieldOrEnter(1)) == OneServed(Probing, 1).(lock := {1});
    run := Before(s, YieldOrEnter(1), []);
  }

  /** Launcher 1 has ended with the lock free; its id is approved or not, its container up or not. */
  predicate LeftWith(t: State, approved: bool, up: bool) {
    && t.launchers == OneServed(Done, 0).launchers && t.lock == {}
    && t.approved == (if approved then [0] else [])
    && t.up == if up then map[PROXY := Instance(0, 4000)] else map[]
  }

  function AboutToStop(approved: bool): State {
    OneServed(Halting, 1).(lock := {1}, approved := if approved then [0] else [])
  }

  lemma Releases(recovered: bool, stopped: bool) returns (run: seq<Action>)
    ensures ValidRun(OneServed(Probing, 1).(lock := {1}), run)
    ensures LeftWith(After(OneServed(Probing, 1).(lock := {1}), run), !recovered, !stopped)
  {
    var s := OneServed(Probing, 1).(lock := {1});
    assert Apply(s, ProbeRunners(1, true)) == OneServed(Unapproving, 1).(lock := {1});
    run := UnapprovesAndHalts(recovered, stopped);
    run := Before(s, ProbeRunners(1, true), run);
  }

  lemma UnapprovesAndHalts(recovered: bool, stopped: bool) returns (run: seq<Action>)
    ensures ValidRun(OneServed(Unapproving, 1).(lock := {1}), run)
    ensures LeftWith(After(OneServed(Unapproving, 1).(lock := {1}), run), !recovered, !stopped)
  {
    var s := OneServed(Unapproving, 1).(lock := {1});
    assert Apply(s, Unapprove(1, recovered)) == AboutToStop(!recovered);
    run := Halts(!recovered, stopped);
    run := Before(s, Unapprove(1, recovered), run);
  }

  lemma Halts(approved: bool, stopped: bool) returns (run: seq<Action>)
    ensures ValidRun(AboutToStop(approved), run)
    ensures LeftWith(After(AboutToStop(approved), run), approved, !stopped)
  {
    var s := AboutToStop(approved);
    run := LastStep(Apply(s, Stop(1, stopped)), approved, !stopped);
    run := Before(s, Stop(1, stopped), run);
  }

  lemma LastStep(s: State, approved: bool, up: bool) returns (run: seq<Action>)
    requires s.launchers == OneServed(Probing, 0).launchers && s.lock == {1}
    requires s.approved == if approved then [0] else []
    requires s.up == if up then map[PROXY := Instance(0, 4000)] else map[]
    ensures ValidRun(s, run) && LeftWith(After(s, run), approved, up)
  {
    run := [];
    run := Before(s, ReleaseLow(1), run);
  }

  /** Launcher 1 from start to end, its key recovered at the end or not, `docker stop` working or not. */
  lemma ReleasedRun(recovered: bool, stopped: bool) returns (run: seq<Action>)
    ensures ValidRun(TwoLaunchers(), run) && LeftWith(After(TwoLaunchers(), run), !recovered, !stopped)
  {
    var first := ReachesRunning();
    var second := Leaves();
    var third := Enters();
    var fourth := Releases(recovered, stopped);
    RunAppend(OneServed(Clearing, 1), third, fourth);
    RunAppend(OneRunning(), second, third + fourth);
    RunAppend(TwoLaunchers(), first, second + (third + fourth));
    run := first + (second + (third + fourth));
  }

  /** The key could not be recovered: the container stops, and its id stays approved with nothing running. */
  lemma ApprovalLeftByRelease() returns (s: State, run: seq<Action>)
    ensures Init(s) && ValidRun(s, run)
    ensures var t := After(s, run);
            t.lock == {} && t.up == map[] && s.approved == [] && t.approved == [0] && !ListMatches(t)
    ensures forall id :: id in After(s, run).launchers ==> Ended(After(s, run).launchers[id])
  {
    s := TwoLaunchers();
    run := ReleasedRun(false, true);
    var t := After(s, run);
    ForeignUnchanged(s, run);
    assert t.foreign <= 0 && 0 in t.approved;
  }

  /** `docker stop` failed after the key was un-approved: the container stays up, and nobody is left to stop it. */
  lemma ContainerLeftByFailedStop() returns (s: State, run: seq<Action>)
    ensures Init(s) && ValidRun(s, run)
    ensures var t := After(s, run);
            && (forall id :: id in t.launchers ==> Ended(t.launchers[id]) && !t.launchers[id].stage.Dead?)
            && PROXY in t.up && Approves(t, PROXY) && t.up[PROXY].key !in t.approved && t.lock == {}
  {
    s := TwoLaunchers();
    run := ReleasedRun(true, false);
    ForeignUnchanged(s, run);
  }

  /** Launcher 2 under the lock, having taken launcher 1's sidecar for stopped and removed it. */
  function Reaped(): State {
    OneRunning().(launchers := OneRunning().launchers[2 := Declaring().(stage := Ensuring)], lock := {2},
                  up := map[], lost := {0}, leaked := {0})
  }

  lemma Reaps() returns (run: seq<Action>)
    ensures ValidRun(OneRunning(), run) && After(OneRunning(), run) == Reaped()
  {
    var s := OneRunning();
    var s1 := Apply(s, TakeTicket(2, true));
    var s2 := Apply(s1, AcquireHigh(2));
    assert Apply(s2, Reap(2)) == Reaped();
    run := Before(s2, Reap(2), []);
    run := Before(s1, AcquireHigh(2), run);
    run := Before(s, TakeTicket(2, true), run);
  }

  /** Launcher 1 is registered, its agent runs, and it was handed the instance below. */
  predicate StillRunning(t: State) {
    && Registration(PROXY, 1) in t.regs && 1 in t.launchers && t.launchers[1].stage.Running?
    && PROXY in t.launchers[1].handed && t.launchers[1].handed[PROXY] == Instance(0, 4000)
  }

  lemma ReachesReaped() returns (run: seq<Action>)
    ensures ValidRun(TwoLaunchers(), run) && After(TwoLaunchers(), run) == Reaped()
  {
    var first := ReachesRunning();
    var second := Reaps();
    RunAppend(TwoLaunchers(), first, second);
    run := first + second;
  }

  /** Inspected as stopped, the sidecar of a running agent is replaced: its registered owner is cut off. */
  lemma CutOffByInspection() returns (s: State, run: seq<Action>)
    ensures Init(s) && ValidRun(s, run) && StillRunning(After(s, run))
    ensures var t := After(s, run); PROXY in t.up && t.up[PROXY] != t.launchers[1].handed[PROXY]
  {
    s := TwoLaunchers();
    var first := ReachesReaped();
    var second := Before(Reaped(), StartContainer(2, 4001), []);
    RunAppend(s, first, second);
    run := first + second;
  }

  /** Or the start fails, and nothing runs in its place: it is cut off for good, the lock free again. */
  lemma CutOffWithoutSuccessor() returns (s: State, run: seq<Action>)
    ensures Init(s) && ValidRun(s, run) && StillRunning(After(s, run))
    ensures PROXY !in After(s, run).up && After(s, run).lock == {}
  {
    s := TwoLaunchers();
    var first := ReachesReaped();
    var second := Before(Reaped(), EnsureFails(2), []);
    RunAppend(s, first, second);
    run := first + second;
  }

  /** And NothingLeftRunning needs nobody killed: killed with its container up and nobody after it. */
  lemma ContainerLeftByKill() returns (s: State, run: seq<Action>)
    ensures Init(s) && ValidRun(s, run)
    ensures (forall id :: id in After(s, run).launchers ==> Ended(After(s, run).launchers[id]))
    ensures After(s, run).up != map[]
  {
    s := TwoLaunchers();
    run := KillBeforeApproval();
    assert PROXY in After(s, run).up;
  }
}
