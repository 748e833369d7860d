/** The order in which fetched mappings are installed. The fetch happens outside the mapper's lock. */
module InstallOrder {
  import opened Results
  import opened MetricInfo
  import opened RwLock
  import opened ProviderProgram
  import opened ProviderSystem

  /** Mappings are installed in the order they were fetched. */
  predicate InFetchOrder(installs: seq<Fetch>) {
    forall i, j :: 0 <= i < j < |installs| ==> installs[i].ticket < installs[j].ticket
  }

  predicate Refreshes(th: Thread) {
    th.job.Refresh? && th.job.rounds > 0
  }

  /** At most one thread refreshes. */
  predicate OneRefresher(threads: seq<Thread>) {
    forall t, u :: 0 <= t < |threads| && 0 <= u < |threads| && Refreshes(threads[t]) && Refreshes(threads[u]) ==> t == u
  }

  predicate Pending(th: Thread) {
    th.pc.Fetched? || th.pc.Announcing? || th.pc.Installing?
  }

  /** Invariant for a single refresher: what it has in hand is newer than everything installed. */
  ghost predicate Ordered(s: State) {
    && OneRefresher(s.threads) && InFetchOrder(s.installs)
    && (forall i :: 0 <= i < |s.installs| ==> s.installs[i].ticket < s.tickets)
    && forall t :: 0 <= t < |s.threads| ==> OnlyRefreshersInstall(s.threads[t]) && HoldsNewest(s, s.threads[t])
  }

  predicate OnlyRefreshersInstall(th: Thread) {
    RightPc(th) && (th.job.Refresh? && th.job.rounds == 0 ==> th.pc.Fetching? && th.pc.rounds == 0)
  }

  ghost predicate HoldsNewest(s: State, th: Thread) {
    Pending(th) ==>
      && th.pc.fetch.ticket < s.tickets
      && forall i :: 0 <= i < |s.installs| ==> s.installs[i].ticket < th.pc.fetch.ticket
  }

  /** A thread other than the one that moves has nothing in hand if the mover refreshes. */
  lemma NobodyElsePending(s: State, t: Tid, u: Tid)
    requires Ordered(s) && t < |s.threads| && u < |s.threads| && u != t && Refreshes(s.threads[t])
    ensures !Pending(s.threads[u])
  {
    assert OnlyRefreshersInstall(s.threads[u]);
  }

  /** What a step does to the order: only an installer installs, and what the mover has in hand then is newest. */
  lemma MoverOrdered(s: State, t: Tid, fetched: Option<RESTMapper>)
    requires Enabled(s, t) && Ordered(s)
    ensures var s' := Step(s, t, fetched);
            && s'.threads == s.threads[t := s'.threads[t]] && s'.threads[t].job == s.threads[t].job
            && s.tickets <= s'.tickets
            && s'.installs == (if s.threads[t].pc.Installing? then s.installs + [s.threads[t].pc.fetch] else s.installs)
            && OnlyRefreshersInstall(s'.threads[t]) && HoldsNewest(s', s'.threads[t])
  {
    hide Do, Start;
    assert OnlyRefreshersInstall(s.threads[t]) && HoldsNewest(s, s.threads[t]);
  }

  lemma OrderedStep(s: State, t: Tid, fetched: Option<RESTMapper>)
    requires Enabled(s, t) && Ordered(s)
    ensures Ordered(Step(s, t, fetched))
  {
    hide Step, RightPc;
    var s', th := Step(s, t, fetched), s.threads[t];
    MoverOrdered(s, t, fetched);
    assert OnlyRefreshersInstall(th) && HoldsNewest(s, th);
    forall u: Tid | u < |s.threads| && u != t ensures OnlyRefreshersInstall(s.threads[u]) && HoldsNewest(s', s.threads[u]) {
      assert HoldsNewest(s, s.threads[u]);
      if th.pc.Installing? {
        InstallerRefreshes(th);
        NobodyElsePending(s, t, u);
      }
    }
  }

  lemma InstallerRefreshes(th: Thread)
    requires OnlyRefreshersInstall(th) && th.pc.Installing?
    ensures Refreshes(th)
  {
  }

  lemma {:induction false} OrderedAfter(s: State, run: seq<Choice>)
    requires Ordered(s) && IsRun(s, run)
    ensures Ordered(After(s, run))
    decreases |run|
  {
    if run != [] {
      OrderedStep(s, run[0].t, run[0].fetched);
      OrderedAfter(Step(s, run[0].t, run[0].fetched), run[1..]);
    }
  }

  /** Every run installs in fetch order. */
  ghost predicate AlwaysInOrder(s: State) {
    forall run :: IsRun(s, run) ==> InFetchOrder(After(s, run).installs)
  }

  /** Installs follow fetches in every run exactly when no two threads refresh. */
  lemma InOrderExactly(s: State)
    requires Initial(s)
    ensures AlwaysInOrder(s) <==> OneRefresher(s.threads)
  {
    if OneRefresher(s.threads) {
      assert forall t :: 0 <= t < |s.threads| ==> s.threads[t] in s.threads;
      assert Ordered(s);
      forall run | IsRun(s, run) ensures InFetchOrder(After(s, run).installs) {
        OrderedAfter(s, run);
      }
    } else {
      var t, u :| 0 <= t < |s.threads| && 0 <= u < |s.threads| && Refreshes(s.threads[t]) && Refreshes(s.threads[u])
                  && t != u;
      var run := StaleRun(s, t, u);
    }
  }

  // ----- the counterexample: a slow fetch is installed last -----

  lemma RunStep(s: State, c: Choice, run: seq<Choice>)
    requires Enabled(s, c.t) && IsRun(Step(s, c.t, c.fetched), run)
    ensures IsRun(s, [c] + run)
    ensures After(s, [c] + run) == After(Step(s, c.t, c.fetched), run)
  {
    assert ([c] + run)[1..] == run;
  }

  /** A refresher that has fetched goes on alone until it has released mu. */
  lemma InstallAlone(s: State, t: Tid, tail: seq<Choice>) returns (run: seq<Choice>, s': State)
    requires t < |s.threads| && s.threads[t].pc.Fetched? && s.mu == FREE
    requires var fetch, rounds := s.threads[t].pc.fetch, s.threads[t].pc.rounds;
             IsRun(s.(threads := s.threads[t := s.threads[t].(pc := Fetching(rounds))],
                      installs := s.installs + [fetch], delegate := fetch.mapper), tail)
    ensures var fetch, rounds := s.threads[t].pc.fetch, s.threads[t].pc.rounds;
            s' == s.(threads := s.threads[t := s.threads[t].(pc := Fetching(rounds))],
                     installs := s.installs + [fetch], delegate := fetch.mapper)
    ensures IsRun(s', tail) && IsRun(s, run) && After(s, run) == After(s', tail)
  {
    var fetch, rounds := s.threads[t].pc.fetch, s.threads[t].pc.rounds;
    var c := Choice(t, None);
    var s1 := Step(s, t, None);
    var s2 := Step(s1, t, None);
    var s3 := Step(s2, t, None);
    s' := Step(s3, t, None);
    assert s1.threads == s.threads[t := s.threads[t].(pc := Announcing(fetch, rounds))];
    assert s2.threads == s.threads[t := s.threads[t].(pc := Installing(fetch, rounds))];
    assert s3.threads == s.threads[t := s.threads[t].(pc := Installed(rounds))];
    assert s'.threads == s.threads[t := s.threads[t].(pc := Fetching(rounds))];
    assert s' == s.(threads := s'.threads, installs := s.installs + [fetch], delegate := fetch.mapper) by {
      assert s'.mu == FREE;
    }
    RunStep(s3, c, tail);
    RunStep(s2, c, [c] + tail);
    RunStep(s1, c, [c] + ([c] + tail));
    run := [c] + ([c] + ([c] + ([c] + tail)));
    RunStep(s, c, [c] + ([c] + ([c] + tail)));
  }

  /** Two refreshers fetch one after the other and install the other way round. */
  lemma StaleRun(s: State, t: Tid, u: Tid) returns (run: seq<Choice>)
    requires Initial(s) && t < |s.threads| && u < |s.threads| && t != u
    requires Refreshes(s.threads[t]) && Refreshes(s.threads[u])
    ensures IsRun(s, run) && !InFetchOrder(After(s, run).installs)
  {
    assert s.threads[t] in s.threads && s.threads[u] in s.threads;
    var m := s.delegate;
    var s1 := Step(s, t, Some(m));
    var s2 := Step(s1, u, Some(m));
    var fetchT, fetchU := Fetch(m, s.tickets), Fetch(m, s.tickets + 1);
    assert s2.threads[t].pc == Fetched(fetchT, s.threads[t].job.rounds - 1);
    assert s2.threads[u].pc == Fetched(fetchU, s.threads[u].job.rounds - 1);
    var s3 := s2.(threads := s2.threads[u := s2.threads[u].(pc := Fetching(s2.threads[u].pc.rounds))],
                  installs := s2.installs + [fetchU], delegate := m);
    var last, s4 := InstallAlone(s3, t, []);
    var both, _ := InstallAlone(s2, u, last);
    RunStep(s1, Choice(u, Some(m)), both);
    run := [Choice(t, Some(m))] + ([Choice(u, Some(m))] + both);
    RunStep(s, Choice(t, Some(m)), [Choice(u, Some(m))] + both);
    assert After(s, run) == s4;
    assert s4.installs[1] == fetchU && s4.installs[2] == fetchT;
  }
}
