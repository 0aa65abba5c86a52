/** How containers come and go, and how launchers end, whatever runs. */
module LaunchLife {
  import opened LaunchProtocol
  import opened LaunchSafety
  import opened LaunchApprovals
  import opened LaunchRuns

  // ---- containers ---------------------------------------------------------------------------------

  /** The container a launcher is at with this step. */
  predicate IsAt(s: State, a: Action, c: Container) {
    a.id in s.launchers && AtSidecar(Me(s, a)) && Current(Me(s, a)).container == c
  }

  /** The only ways a container goes: a stop that works, a wrong inspection, or Telegram's failing its health check. */
  predicate Removes(s: State, a: Action, c: Container) {
    IsAt(s, a, c)
    && ((a.Stop? && a.ok) || a.Reap? || (a.HealthPoll? && !a.ok && a.removed && c == "agent-wrap-telegram"))
  }

  /** One step starts a container iff its launcher does, removes it iff it is one of these, and exchanges none. */
  lemma ContainersComeAndGo(s: State, a: Action, c: Container)
    requires Enabled(s, a)
    ensures var s' := Apply(s, a);
            if c in s.up then
              (c in s'.up <==> !Removes(s, a, c)) && (c in s'.up ==> s'.up[c] == s.up[c])
            else
              (c in s'.up <==> a.StartContainer? && IsAt(s, a, c))
              && (c in s'.up ==> s'.up[c] == Instance(s.minted, a.port))
  {
    if Loud(a) { LoudComeAndGo(s, a, c); } else { QuietComeAndGo(s, a, c); }
  }

  lemma LoudComeAndGo(s: State, a: Action, c: Container)
    requires Enabled(s, a) && Loud(a)
    ensures var s' := Apply(s, a);
            if c in s.up then
              (c in s'.up <==> !Removes(s, a, c)) && (c in s'.up ==> s'.up[c] == s.up[c])
            else
              (c in s'.up <==> a.StartContainer? && IsAt(s, a, c))
              && (c in s'.up ==> s'.up[c] == Instance(s.minted, a.port))
  {
  }

  lemma QuietComeAndGo(s: State, a: Action, c: Container)
    requires Enabled(s, a) && !Loud(a)
    ensures Apply(s, a).up == s.up && !Removes(s, a, c) && !a.StartContainer?
  {
  }

  /** A container that is up listens where the launcher that started it told it to. */
  lemma {:induction false} UpWasStarted(s: State, run: seq<Action>, c: Container)
    requires ValidRun(s, run) && c in After(s, run).up
    ensures var up := After(s, run).up;
            (c in s.up && up[c] == s.up[c]) || exists id :: StartContainer(id, up[c].port) in run
    decreases run
  {
    if run != [] {
      assert run == [run[0]] + run[1..];
      ContainersComeAndGo(s, run[0], c);
      UpWasStarted(Apply(s, run[0]), run[1..], c);
    }
  }

  // ---- how a launcher ends ------------------------------------------------------------------------

  lemma EndStep(s: State, a: Action, id: LauncherId)
    requires Enabled(s, a) && id in s.launchers
    ensures id in Apply(s, a).launchers
    ensures var before, after := s.launchers[id].stage, Apply(s, a).launchers[id].stage;
            && (after.Done? <==> before.Done? || a == ReleaseLow(id))
            && (after.Dead? <==> before.Dead? || a == Crash(id))
  {
    StepMovesOnlyItsLauncher(s, a);
    if a.id == id {
      if Loud(a) { LoudEnd(s, a); } else { QuietEnd(s, a); }
    }
  }

  lemma LoudEnd(s: State, a: Action)
    requires Enabled(s, a) && Loud(a)
    ensures !Me(s, a).stage.Done? && !Me(s, a).stage.Dead?
    ensures Apply(s, a).launchers[a.id].stage.Done? <==> a.ReleaseLow?
    ensures Apply(s, a).launchers[a.id].stage.Dead? <==> a.Crash?
  {
  }

  lemma QuietEnd(s: State, a: Action)
    requires Enabled(s, a) && !Loud(a)
    ensures !Me(s, a).stage.Done? && !Me(s, a).stage.Dead?
    ensures Apply(s, a).launchers[a.id].stage.Done? <==> a.ReleaseLow?
    ensures Apply(s, a).launchers[a.id].stage.Dead? <==> a.Crash?
  {
  }

  lemma {:induction false} EndsFrom(s: State, run: seq<Action>, id: LauncherId)
    requires ValidRun(s, run) && id in s.launchers
    ensures id in After(s, run).launchers
    ensures var before, after := s.launchers[id].stage, After(s, run).launchers[id].stage;
            && (after.Done? <==> before.Done? || ReleaseLow(id) in run)
            && (after.Dead? <==> before.Dead? || Crash(id) in run)
    decreases run
  {
    if run != [] {
      assert run == [run[0]] + run[1..];
      EndStep(s, run[0], id);
      EndsFrom(Apply(s, run[0]), run[1..], id);
    }
  }

  /**
    Refused, timed out, failed on the way up or finished: a launcher is done exactly when it has gone through its
    release, unless it is killed.
    */
  lemma EndsByReleasing(s: State, run: seq<Action>, id: LauncherId)
    requires Init(s) && ValidRun(s, run) && id in s.launchers
    ensures id in After(s, run).launchers
    ensures var stage := After(s, run).launchers[id].stage;
            (stage.Done? <==> ReleaseLow(id) in run) && (stage.Dead? <==> Crash(id) in run)
  {
    EndsFrom(s, run, id);
  }

  // ---- a start that fails -------------------------------------------------------------------------

  /** The steps that end a start: a timeout, a failure, or a key that could not be approved. */
  predicate Aborts(s: State, a: Action) {
    || a.LockTimeout? || a.EnsureFails? || (a.HealthPoll? && !a.ok) || (a.StartupScript? && !a.ok)
    || (a.Approve? && !a.ok && exists c :: IsAt(s, a, c) && Approves(s, c) && c in s.up)
  }

  /** On the way out, or gone. */
  predicate Leaving(stage: Stage) {
    stage.Clearing? || stage.Stopping? || stage.LowHeld? || Backwards(stage) || stage.Done? || stage.Dead?
  }

  lemma AbortingLeaves(s: State, a: Action)
    requires Enabled(s, a) && Aborts(s, a)
    ensures a.id in Apply(s, a).launchers && Leaving(Apply(s, a).launchers[a.id].stage)
  {
  }

  lemma LeavingStep(s: State, a: Action, id: LauncherId)
    requires Enabled(s, a) && id in s.launchers && Leaving(s.launchers[id].stage)
    ensures id in Apply(s, a).launchers && Leaving(Apply(s, a).launchers[id].stage)
  {
    StepMovesOnlyItsLauncher(s, a);
    if a.id == id {
      if Loud(a) { LoudLeaving(s, a); } else { QuietLeaving(s, a); }
    }
  }

  lemma LoudLeaving(s: State, a: Action)
    requires Enabled(s, a) && Loud(a) && Leaving(Me(s, a).stage)
    ensures Leaving(Apply(s, a).launchers[a.id].stage)
  {
  }

  lemma QuietLeaving(s: State, a: Action)
    requires Enabled(s, a) && !Loud(a) && Leaving(Me(s, a).stage)
    ensures Leaving(Apply(s, a).launchers[a.id].stage)
  {
  }

  lemma {:induction false} LeavingForGood(s: State, run: seq<Action>, id: LauncherId)
    requires ValidRun(s, run) && id in s.launchers && Leaving(s.launchers[id].stage)
    ensures id in After(s, run).launchers && Leaving(After(s, run).launchers[id].stage)
    decreases run
  {
    if run != [] {
      LeavingStep(s, run[0], id);
      LeavingForGood(Apply(s, run[0]), run[1..], id);
    }
  }

  /** A start that fails anywhere never comes to run its agent, whatever happens later. */
  lemma FailureIsFinal(s: State, run: seq<Action>, a: Action, more: seq<Action>)
    requires Init(s) && ValidRun(s, run) && Enabled(After(s, run), a) && Aborts(After(s, run), a)
    requires ValidRun(Apply(After(s, run), a), more)
    ensures var t := After(Apply(After(s, run), a), more);
            a.id in t.launchers && Leaving(t.launchers[a.id].stage)
  {
    AbortingLeaves(After(s, run), a);
    LeavingForGood(Apply(After(s, run), a), more, a.id);
  }
}
