/** Progress of the provider system: no deadlock, no endless run. */
module ProviderProgress {
  import opened Results
  import opened MetricInfo
  import opened RwLock
  import opened ProviderProgram
  import opened ProviderSystem
  import opened ProviderRuns
  import opened ProviderTheorems

  /** Nothing left to do. */
  predicate Done(th: Thread) {
    th.pc.Finished? || (th.pc.Fetching? && th.pc.rounds == 0)
  }

  // ----- no deadlock -----

  lemma MuMoves(s: State, t: Tid) returns (u: Tid)
    requires LocksAgree(s) && t < |s.threads| && MuRole(s.threads[t]) != Out
    ensures Enabled(s, u)
  {
    u := SomebodyMoves(s.mu, MuRoles(s.threads), t);
  }

  lemma ValuesLockMoves(s: State, t: Tid) returns (u: Tid)
    requires LocksAgree(s) && t < |s.threads| && ValuesRole(s.threads[t]) != Out
    requires forall v: Tid :: v < |s.threads| ==> MuRole(s.threads[v]) == Out
    ensures Enabled(s, u)
  {
    u := SomebodyMoves(s.valuesLock, ValuesRoles(s.threads), t);
    assert RightPc(s.threads[u]);
    assert MuRole(s.threads[u]) == Out;
  }

  lemma NobodyAtLock(lock: Lock, roles: seq<Role>)
    requires Agrees(lock, roles) && forall t: Tid :: t < |roles| ==> roles[t] == Out
    ensures lock.CanAnnounce()
  {
  }

  /** While anything is unfinished, something can move: whoever uses mu never waits for valuesLock. */
  lemma SomethingMoves(s: State, t: Tid) returns (u: Tid)
    requires LocksAgree(s) && t < |s.threads| && !Done(s.threads[t])
    ensures Enabled(s, u)
  {
    assert RightPc(s.threads[t]);
    if v: Tid :| v < |s.threads| && MuRole(s.threads[v]) != Out {
      u := MuMoves(s, v);
    } else {
      NobodyAtLock(s.mu, MuRoles(s.threads));
      if v: Tid :| v < |s.threads| && ValuesRole(s.threads[v]) != Out {
        u := ValuesLockMoves(s, v);
      } else {
        NobodyAtLock(s.valuesLock, ValuesRoles(s.threads));
        assert MuRole(s.threads[t]) == Out && ValuesRole(s.threads[t]) == Out;
        u := t;
      }
    }
  }

  /** No reachable state of any number of operations and refreshers is a deadlock. */
  lemma DeadlockFree(s0: State, run: seq<Choice>)
    requires Initial(s0) && IsRun(s0, run)
    ensures (exists th <- After(s0, run).threads :: !Done(th)) ==> exists u :: Enabled(After(s0, run), u)
  {
    Reached(s0, run);
    var s := After(s0, run);
    if th :| th in s.threads && !Done(th) {
      var t :| 0 <= t < |s.threads| && s.threads[t] == th;
      var u := SomethingMoves(s, t);
    }
  }

  // ----- no endless run -----

  function PcUnlisted(th: Thread): nat {
    match th.pc
    case Idle => if th.job.Serve? then Unlisted(Start(th.job.op)) else 0
    case Entering => if th.job.Serve? then Unlisted(Start(th.job.op)) else 0
    case Inside(l) => Unlisted(l)
    case Asking(l) => Unlisted(l)
    case Answered(l) => Unlisted(l)
    case _ => 0
  }

  function PcWork(th: Thread): nat {
    match th.pc
    case Idle => if th.job.Serve? then Work(Start(th.job.op)) + 3 else 0
    case Entering => if th.job.Serve? then Work(Start(th.job.op)) + 2 else 0
    case Inside(l) => Work(l) + 1
    case Asking(l) => Work(l)
    case Answered(l) => Work(l) + 2
    case Finished(_) => 0
    case Fetching(rounds) => 5 * rounds
    case Fetched(_, rounds) => 5 * rounds + 4
    case Announcing(_, rounds) => 5 * rounds + 3
    case Installing(_, rounds) => 5 * rounds + 2
    case Installed(rounds) => 5 * rounds + 1
  }

  function TotalUnlisted(threads: seq<Thread>): nat {
    if threads == [] then 0 else PcUnlisted(threads[0]) + TotalUnlisted(threads[1..])
  }

  function TotalWork(threads: seq<Thread>): nat {
    if threads == [] then 0 else PcWork(threads[0]) + TotalWork(threads[1..])
  }

  lemma {:induction false} TotalsOfUpdate(threads: seq<Thread>, t: Tid, th: Thread)
    requires t < |threads|
    ensures TotalUnlisted(threads[t := th]) + PcUnlisted(threads[t]) == TotalUnlisted(threads) + PcUnlisted(th)
    ensures TotalWork(threads[t := th]) + PcWork(threads[t]) == TotalWork(threads) + PcWork(th)
  {
    if t == 0 {
      assert threads[t := th][1..] == threads[1..];
    } else {
      assert threads[t := th][1..] == threads[1..][t - 1 := th];
      TotalsOfUpdate(threads[1..], t - 1, th);
    }
  }

  /** A thread's step: nothing left to look up in a lock twice, and fewer actions to come. */
  lemma ThreadProgresses(s: State, t: Tid, fetched: Option<RESTMapper>)
    requires Enabled(s, t) && LocksAgree(s) && (s.threads[t].pc.Asking? ==> s.threads[t].pc.l.AsksMapper())
    ensures var th, th' := s.threads[t], Step(s, t, fetched).threads[t];
            PcUnlisted(th') < PcUnlisted(th) || (PcUnlisted(th') == PcUnlisted(th) && PcWork(th') < PcWork(th))
  {
    hide Start, Work, Unlisted;
    var th := s.threads[t];
    assert RightPc(th);
    if th.pc.Inside? || th.pc.Asking? {
      ActionProgresses(s, t, fetched);
    }
  }

  lemma ActionProgresses(s: State, t: Tid, fetched: Option<RESTMapper>)
    requires Enabled(s, t) && (s.threads[t].pc.Inside? || s.threads[t].pc.Asking?)
    requires s.threads[t].pc.Asking? ==> s.threads[t].pc.l.AsksMapper()
    ensures var th, th' := s.threads[t], Step(s, t, fetched).threads[t];
            PcUnlisted(th') < PcUnlisted(th) || (PcUnlisted(th') == PcUnlisted(th) && PcWork(th') < PcWork(th))
  {
    hide Start, Work, Unlisted;
    var l := s.threads[t].pc.l;
    if !l.Replied? {
      DoProgresses(l, s.delegate, s.values);
    }
  }

  lemma StepProgresses(s: State, t: Tid, fetched: Option<RESTMapper>)
    requires Enabled(s, t) && Invariant(s)
    ensures var before, after := s.threads, Step(s, t, fetched).threads;
            TotalUnlisted(after) < TotalUnlisted(before)
            || (TotalUnlisted(after) == TotalUnlisted(before) && TotalWork(after) < TotalWork(before))
  {
    hide TotalUnlisted, TotalWork, PcUnlisted, PcWork, Execute, Do, Start;
    assert ThreadOk(s, t);
    ThreadProgresses(s, t, fetched);
    var th' := Step(s, t, fetched).threads[t];
    assert Step(s, t, fetched).threads == s.threads[t := th'];
    TotalsOfUpdate(s.threads, t, th');
  }

  /** The k-th choice can be taken, and leads from the k-th state to the next. */
  ghost predicate StepsAt(states: nat -> State, choices: nat -> Choice, k: nat) {
    Enabled(states(k), choices(k).t) && states(k + 1) == Step(states(k), choices(k).t, choices(k).fetched)
  }

  lemma {:induction false} Exhausted(states: nat -> State, choices: nat -> Choice, i: nat)
    requires Invariant(states(i)) && forall k: nat :: i <= k ==> StepsAt(states, choices, k)
    ensures false
    decreases TotalUnlisted(states(i).threads), TotalWork(states(i).threads)
  {
    assert StepsAt(states, choices, i);
    StepProgresses(states(i), choices(i).t, choices(i).fetched);
    InvariantStep(states(i), choices(i).t, choices(i).fetched);
    Exhausted(states, choices, i + 1);
  }

  /** Every run ends: no infinite sequence of states and choices is one step after another. */
  lemma NoEndlessRun(states: nat -> State, choices: nat -> Choice)
    requires Initial(states(0))
    ensures exists k: nat :: !StepsAt(states, choices, k)
  {
    InvariantInitially(states(0));
    if forall k: nat :: StepsAt(states, choices, k) {
      Exhausted(states, choices, 0);
    }
  }

  /** From every reachable state all operations and refreshers can be brought to their end. */
  lemma {:induction false} CanFinish(s: State) returns (run: seq<Choice>)
    requires Invariant(s)
    ensures IsRun(s, run) && forall th <- After(s, run).threads :: Done(th)
    decreases TotalUnlisted(s.threads), TotalWork(s.threads)
  {
    if th :| th in s.threads && !Done(th) {
      var t :| 0 <= t < |s.threads| && s.threads[t] == th;
      var u := SomethingMoves(s, t);
      StepProgresses(s, u, None);
      InvariantStep(s, u, None);
      var rest := CanFinish(Step(s, u, None));
      run := [Choice(u, None)] + rest;
      assert run[1..] == rest;
    } else {
      run := [];
    }
  }
}
