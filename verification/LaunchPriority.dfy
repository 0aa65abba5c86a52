/**
  What the shared lock's two priorities promise over whole runs: a launcher that releases its sidecars
  gives way to every launcher queued to start.
  */
module LaunchPriority {
  import opened LaunchProtocol
  import opened LaunchSafety
  import opened LaunchApprovals
  import opened LaunchRuns

  /** What a launcher does to sidecars on its way out. */
  predicate Releasing(a: Action) {
    a.ProbeRunners? || a.Unapprove? || a.Stop?
  }

  /** The three ways a queued launcher's wait ends. */
  predicate EndsWait(a: Action, w: LauncherId) {
    a == AcquireHigh(w) || a == LockTimeout(w) || a == Crash(w)
  }

  ghost predicate KeepsWaiting(run: seq<Action>, w: LauncherId) {
    forall a :: a in run ==> !EndsWait(a, w)
  }

  // ---- who is queued ------------------------------------------------------------------------------

  ghost predicate Begun(s: State, w: LauncherId) {
    w in s.launchers && !s.launchers[w].stage.Fresh?
  }

  lemma BegunForGood(s: State, a: Action, w: LauncherId)
    requires Enabled(s, a) && (Begun(s, w) || a.id == w)
    ensures Begun(Apply(s, a), w)
  {
    StepMovesOnlyItsLauncher(s, a);
    if a.id == w {
      if Loud(a) { LoudBegins(s, a); } else { QuietBegins(s, a); }
    }
  }

  lemma LoudBegins(s: State, a: Action)
    requires Enabled(s, a) && Loud(a)
    ensures Begun(Apply(s, a), a.id)
  {
  }

  lemma QuietBegins(s: State, a: Action)
    requires Enabled(s, a) && !Loud(a)
    ensures Begun(Apply(s, a), a.id)
  {
  }

  lemma TicketStep(s: State, a: Action, w: LauncherId)
    requires Inv(s) && Enabled(s, a)
    ensures w in Apply(s, a).tickets <==> (w in s.tickets || a == TakeTicket(w, true)) && !EndsWait(a, w)
  {
    if a.id == w {
      assert LauncherOk(s, w);
      OwnTicketStep(s, a);
    } else {
      OthersKeepTicket(s, a, w);
    }
  }

  lemma OthersKeepTicket(s: State, a: Action, w: LauncherId)
    requires Enabled(s, a) && a.id != w
    ensures w in Apply(s, a).tickets <==> w in s.tickets
    ensures !EndsWait(a, w) && a != TakeTicket(w, true)
  {
    StepMovesOnlyItsLauncher(s, a);
  }

  lemma OwnTicketStep(s: State, a: Action)
    requires Enabled(s, a) && (a.id in s.tickets ==> Me(s, a).stage.Waiting?)
    ensures a.id in Apply(s, a).tickets <==> (a.id in s.tickets || a == TakeTicket(a.id, true)) && !EndsWait(a, a.id)
  {
  }

  lemma {:induction false} TicketsFrom(s: State, run: seq<Action>, w: LauncherId)
    requires Inv(s) && ValidRun(s, run) && Begun(s, w)
    ensures w in After(s, run).tickets <==> w in s.tickets && KeepsWaiting(run, w)
    ensures TakeTicket(w, true) !in run
    decreases run
  {
    if run != [] {
      var a := run[0];
      assert run == [a] + run[1..];
      StepKeepsInv(s, a);
      TicketStep(s, a, w);
      BegunForGood(s, a, w);
      TicketsFrom(Apply(s, a), run[1..], w);
    }
  }

  lemma StillToBegin(s: State, a: Action, w: LauncherId)
    requires Enabled(s, a) && !Begun(s, w) && a.id != w
    ensures !Begun(Apply(s, a), w)
  {
    StepMovesOnlyItsLauncher(s, a);
  }

  lemma {:induction false} TicketsBeforehand(s: State, run: seq<Action>, w: LauncherId)
    requires Inv(s) && ValidRun(s, run) && !Begun(s, w) && w !in s.tickets
    ensures w in After(s, run).tickets <==> TakeTicket(w, true) in run && KeepsWaiting(run, w)
    decreases run
  {
    if run != [] {
      var a, rest := run[0], run[1..];
      assert run == [a] + rest;
      StepKeepsInv(s, a);
      if a.id == w {
        TicketStep(s, a, w);
        BegunForGood(s, a, w);
        TicketsFrom(Apply(s, a), rest, w);
      } else {
        StillToBegin(s, a, w);
        OthersKeepTicket(s, a, w);
        TicketsBeforehand(Apply(s, a), rest, w);
      }
    }
  }

  /**
    The start tickets in sight are those of exactly the launchers that took one and are still waiting: neither
    given the lock, nor timed out, nor killed.
    */
  lemma TicketsAreTheQueue(s: State, run: seq<Action>, w: LauncherId)
    requires Init(s) && ValidRun(s, run)
    ensures w in After(s, run).tickets <==> TakeTicket(w, true) in run && KeepsWaiting(run, w)
  {
    InitInv(s);
    TicketsBeforehand(s, run, w);
  }

  // ---- giving way ---------------------------------------------------------------------------------

  /** Nobody under the lock is releasing; in particular when the lock is free. */
  ghost predicate NobodyReleases(s: State) {
    forall id :: id in s.launchers ==> !Backwards(s.launchers[id].stage)
  }

  lemma QueueHoldsBack(s: State, a: Action)
    requires Enabled(s, a) && s.tickets != {} && NobodyReleases(s)
    ensures !Releasing(a) && NobodyReleases(Apply(s, a))
  {
    assert !Backwards(Me(s, a).stage);
    StepMovesOnlyItsLauncher(s, a);
    if Loud(a) { LoudNotBackwards(s, a); } else { QuietNotBackwards(s, a); }
  }

  lemma LoudNotBackwards(s: State, a: Action)
    requires Enabled(s, a) && Loud(a) && !Backwards(Me(s, a).stage)
    ensures !Releasing(a) && !Backwards(Apply(s, a).launchers[a.id].stage)
  {
  }

  lemma QuietNotBackwards(s: State, a: Action)
    requires Enabled(s, a) && !Loud(a) && s.tickets != {} && !Backwards(Me(s, a).stage)
    ensures !Releasing(a) && !Backwards(Apply(s, a).launchers[a.id].stage)
  {
  }

  lemma {:induction false} HeldBack(s: State, run: seq<Action>, w: LauncherId)
    requires Inv(s) && ValidRun(s, run) && w in s.tickets && NobodyReleases(s) && KeepsWaiting(run, w)
    ensures forall a :: a in run ==> !Releasing(a)
    decreases run
  {
    if run != [] {
      var a := run[0];
      assert run == [a] + run[1..];
      StepKeepsInv(s, a);
      TicketStep(s, a, w);
      QueueHoldsBack(s, a);
      HeldBack(Apply(s, a), run[1..], w);
    }
  }

  lemma FreeLockNobodyReleases(s: State)
    requires Inv(s) && s.lock == {}
    ensures NobodyReleases(s)
  {
    forall id | id in s.launchers
      ensures !Backwards(s.launchers[id].stage)
    {
      assert LauncherOk(s, id);
    }
  }

  /**
    Starts have priority: unless somebody is in the middle of a release already, no sidecar is probed,
    un-approved or stopped while `w` is queued, whoever takes the lock in between and however often.
    */
  lemma StartersGoFirst(s: State, run: seq<Action>, more: seq<Action>, w: LauncherId)
    requires Init(s) && ValidRun(s, run) && ValidRun(After(s, run), more)
    requires TakeTicket(w, true) in run && KeepsWaiting(run + more, w)
    requires After(s, run).lock == {} || NobodyReleases(After(s, run))
    ensures forall a :: a in more ==> !Releasing(a)
  {
    Reachable(s, run);
    assert forall a :: a in run || a in more ==> a in run + more;
    TicketsAreTheQueue(s, run, w);
    if After(s, run).lock == {} {
      FreeLockNobodyReleases(After(s, run));
    }
    HeldBack(After(s, run), more, w);
  }

  lemma YieldsOrEnters(s: State, id: LauncherId)
    requires Inv(s) && Enabled(s, YieldOrEnter(id))
    ensures var t := Apply(s, YieldOrEnter(id));
            if s.tickets == {} then t.lock == {id} && MayRelease(t, id) else t.lock == {} && Enabled(t, AcquireLow(id))
  {
    assert LauncherOk(s, id);
    assert s.lock == {id};
  }

  /** Free to deal with its last sidecar, or done if it has none. */
  predicate MayRelease(s: State, id: LauncherId) {
    id in s.launchers
    && Enabled(s, if s.launchers[id].sidecars == [] then ReleaseLow(id) else ProbeRunners(id, true))
  }

  /**
    A releasing launcher that has the lock and looks for starters keeps it iff nobody is queued; otherwise
    the lock is free again and it goes back to wanting it.
    */
  lemma EntersIffNobodyWaits(s: State, run: seq<Action>, id: LauncherId)
    requires Init(s) && ValidRun(s, run) && Enabled(After(s, run), YieldOrEnter(id))
    ensures ValidRun(s, run + [YieldOrEnter(id)])
    ensures var t := After(s, run + [YieldOrEnter(id)]);
            if exists w :: TakeTicket(w, true) in run && KeepsWaiting(run, w)
            then t.lock == {} && Enabled(t, AcquireLow(id))
            else t.lock == {id} && MayRelease(t, id)
  {
    Reachable(s, run);
    var t := After(s, run);
    OneMore(s, run, YieldOrEnter(id));
    YieldsOrEnters(t, id);
    forall w
      ensures w in t.tickets <==> TakeTicket(w, true) in run && KeepsWaiting(run, w)
    {
      TicketsAreTheQueue(s, run, w);
    }
  }

  lemma OneMore(s: State, run: seq<Action>, a: Action)
    requires ValidRun(s, run) && Enabled(After(s, run), a)
    ensures ValidRun(s, run + [a]) && After(s, run + [a]) == Apply(After(s, run), a)
  {
    RunCons(After(s, run), a, []);
    RunAppend(s, run, [a] + []);
    assert [a] + [] == [a];
  }

  // ---- a running agent is registered --------------------------------------------------------------

  /** Registered on every sidecar it has come past while registering, and on all of them while running. */
  ghost predicate RegisteredSoFar(s: State, id: LauncherId) {
    id in s.launchers ==>
      var l := s.launchers[id];
      forall j :: 0 <= j < |l.sidecars| && (l.stage.Running? || (l.stage.Registering? && j < l.at)) ==>
        Registration(l.sidecars[j].container, id) in s.regs
  }

  lemma StepKeepsRegistered(s: State, a: Action, id: LauncherId)
    requires Inv(s) && Enabled(s, a) && RegisteredSoFar(s, id) && a != Register(id, false)
    ensures RegisteredSoFar(Apply(s, a), id)
  {
    StepMovesOnlyItsLauncher(s, a);
    if a.id == id {
      OwnStepRegisters(s, a);
    } else {
      OthersKeepRegistration(s, a);
    }
  }

  lemma OthersKeepRegistration(s: State, a: Action)
    requires Enabled(s, a)
    ensures forall r :: r in s.regs && r.owner != a.id ==> r in Apply(s, a).regs
  {
  }

  lemma OwnStepRegisters(s: State, a: Action)
    requires Enabled(s, a) && RegisteredSoFar(s, a.id) && a != Register(a.id, false)
    ensures RegisteredSoFar(Apply(s, a), a.id)
  {
  }

  lemma {:induction false} RegisteredFrom(s: State, run: seq<Action>, id: LauncherId)
    requires Inv(s) && ValidRun(s, run) && RegisteredSoFar(s, id) && Register(id, false) !in run
    ensures RegisteredSoFar(After(s, run), id)
    decreases run
  {
    if run != [] {
      assert run == [run[0]] + run[1..];
      StepKeepsInv(s, run[0]);
      StepKeepsRegistered(s, run[0], id);
      RegisteredFrom(Apply(s, run[0]), run[1..], id);
    }
  }

  /** An agent none of whose registrations was refused is, while it runs, registered on exactly what it declared. */
  lemma RunningIsRegistered(s: State, run: seq<Action>, id: LauncherId, c: Container)
    requires Init(s) && ValidRun(s, run) && Register(id, false) !in run
    requires id in After(s, run).launchers && After(s, run).launchers[id].stage.Running?
    ensures Registration(c, id) in After(s, run).regs <==> Declares(After(s, run).launchers[id].sidecars, c)
  {
    InitInv(s);
    RegisteredFrom(s, run, id);
    Reachable(s, run);
    if Registration(c, id) in After(s, run).regs {
      assert RegOk(After(s, run), Registration(c, id));
    }
  }
}
