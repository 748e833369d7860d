/** What is installed is what was fetched: the mappings in use against the answers of discovery over a whole run. */
module FetchedMappings {
  import opened Results
  import opened MetricInfo
  import opened RwLock
  import opened ProviderProgram
  import opened ProviderSystem
  import opened ProviderRuns
  import opened ProviderTheorems
  import opened InstallOrder

  /** The mappings that a choice's fetch brings, if the choice is a successful fetch. */
  function Brought(s: State, c: Choice): seq<RESTMapper>
    requires c.t < |s.threads|
  {
    if s.threads[c.t].pc.Fetching? && c.fetched.Some? then [c.fetched.value] else []
  }

  /** The mappings fetched over a run, in the order of the fetches. */
  function FetchedOver(s: State, run: seq<Choice>): seq<RESTMapper>
    requires IsRun(s, run)
    decreases |run|
  {
    if run == [] then []
    else Brought(s, run[0]) + FetchedOver(Step(s, run[0].t, run[0].fetched), run[1..])
  }

  /** The mappings of all fetches, from the one that populated the mapper on. */
  function AllFetched(s0: State, run: seq<Choice>): seq<RESTMapper>
    requires IsRun(s0, run) && s0.installs != []
  {
    [s0.installs[0].mapper] + FetchedOver(s0, run)
  }

  /** The fetch brought what its ticket says. */
  ghost predicate HasTicket(fetched: seq<RESTMapper>, f: Fetch) {
    f.ticket < |fetched| && fetched[f.ticket] == f.mapper
  }

  /** Everything installed or about to be was fetched, and nothing else numbered. */
  ghost predicate Genuine(s: State, fetched: seq<RESTMapper>) {
    && |fetched| == s.tickets
    && (forall i :: 0 <= i < |s.installs| ==> HasTicket(fetched, s.installs[i]))
    && (forall t :: 0 <= t < |s.threads| ==> InHandGenuine(fetched, s.threads[t]))
  }

  ghost predicate InHandGenuine(fetched: seq<RESTMapper>, th: Thread) {
    Pending(th) ==> HasTicket(fetched, th.pc.fetch)
  }

  /** What a step does to fetches: one may come in hand, stay in hand, or go from hand to installed. */
  lemma MoverFetches(s: State, t: Tid, c: Option<RESTMapper>)
    requires Enabled(s, t)
    ensures var s' := Step(s, t, c);
            var th, th' := s.threads[t], s'.threads[t];
            var brought := Brought(s, Choice(t, c));
            && s'.threads == s.threads[t := th']
            && s'.tickets == s.tickets + |brought|
            && s'.installs == (if th.pc.Installing? then s.installs + [th.pc.fetch] else s.installs)
            && (brought != [] ==> Pending(th') && th'.pc.fetch == Fetch(brought[0], s.tickets))
            && (brought == [] ==> (Pending(th') <==> Pending(th) && !th.pc.Installing?)
                                  && (Pending(th') ==> th'.pc.fetch == th.pc.fetch))
  {
    hide Do, Start;
  }

  lemma GenuineStep(s: State, c: Choice, fetched: seq<RESTMapper>)
    requires Enabled(s, c.t) && Genuine(s, fetched)
    ensures Genuine(Step(s, c.t, c.fetched), fetched + Brought(s, c))
  {
    hide Step;
    var s', fetched' := Step(s, c.t, c.fetched), fetched + Brought(s, c);
    assert InHandGenuine(fetched, s.threads[c.t]);
    MoverFetches(s, c.t, c.fetched);
    assert InHandGenuine(fetched', s'.threads[c.t]);
    forall u | 0 <= u < |s.threads| && u != c.t ensures InHandGenuine(fetched', s.threads[u]) {
      assert InHandGenuine(fetched, s.threads[u]);
    }
  }

  lemma {:induction false} GenuineAfter(s: State, run: seq<Choice>, fetched: seq<RESTMapper>)
    requires IsRun(s, run) && Genuine(s, fetched)
    ensures Genuine(After(s, run), fetched + FetchedOver(s, run))
    decreases |run|
  {
    hide Genuine, Step;
    if run == [] {
      assert fetched + [] == fetched;
    } else {
      var brought := Brought(s, run[0]);
      var s' := Step(s, run[0].t, run[0].fetched);
      GenuineStep(s, run[0], fetched);
      GenuineAfter(s', run[1..], fetched + brought);
      assert fetched + (brought + FetchedOver(s', run[1..])) == fetched + brought + FetchedOver(s', run[1..]);
    }
  }

  /** In every reachable state, whatever is installed or about to be is what the fetch of its number brought, so the
      mappings in use always come from some successful fetch. */
  lemma InstalledAsFetched(s0: State, run: seq<Choice>)
    requires Initial(s0) && IsRun(s0, run)
    ensures Genuine(After(s0, run), AllFetched(s0, run))
    ensures After(s0, run).delegate in AllFetched(s0, run)
  {
    var first := [s0.installs[0].mapper];
    assert forall t :: 0 <= t < |s0.threads| ==> s0.threads[t] in s0.threads;
    assert Genuine(s0, first);
    GenuineAfter(s0, run, first);
    Reached(s0, run);
    var s := After(s0, run);
    assert HasTicket(AllFetched(s0, run), s.installs[|s.installs| - 1]);
  }

  // ----- one refresher -----

  /** The last fetch is in hand, or else installed. */
  ghost predicate UpToDate(s: State) {
    && s.installs != []
    && (forall t :: 0 <= t < |s.threads| && Pending(s.threads[t]) ==> s.threads[t].pc.fetch.ticket == s.tickets - 1)
    && ((forall t :: 0 <= t < |s.threads| ==> !Pending(s.threads[t])) ==>
          s.installs[|s.installs| - 1].ticket == s.tickets - 1)
  }

  lemma UpToDateStep(s: State, t: Tid, c: Option<RESTMapper>)
    requires Enabled(s, t) && Ordered(s) && UpToDate(s)
    ensures UpToDate(Step(s, t, c))
  {
    hide Step, RightPc, InFetchOrder, HoldsNewest;
    var s', th := Step(s, t, c), s.threads[t];
    MoverFetches(s, t, c);
    if Brought(s, Choice(t, c)) != [] {
      assert OnlyRefreshersInstall(th);
      FetcherRefreshes(s, t);
      forall u: Tid | u < |s.threads| && u != t ensures !Pending(s.threads[u]) {
        NobodyElsePending(s, t, u);
      }
      assert Pending(s'.threads[t]);
    } else if forall u :: 0 <= u < |s'.threads| ==> !Pending(s'.threads[u]) {
      forall u: Tid | u < |s.threads| && u != t ensures !Pending(s.threads[u]) {
        assert !Pending(s'.threads[u]);
      }
    }
  }

  lemma FetcherRefreshes(s: State, t: Tid)
    requires Enabled(s, t) && OnlyRefreshersInstall(s.threads[t]) && s.threads[t].pc.Fetching?
    ensures Refreshes(s.threads[t])
  {
  }

  lemma {:induction false} UpToDateAfter(s: State, run: seq<Choice>)
    requires IsRun(s, run) && Ordered(s) && UpToDate(s)
    ensures Ordered(After(s, run)) && UpToDate(After(s, run))
    decreases |run|
  {
    hide Ordered, UpToDate, Step;
    if run != [] {
      OrderedStep(s, run[0].t, run[0].fetched);
      UpToDateStep(s, run[0].t, run[0].fetched);
      UpToDateAfter(Step(s, run[0].t, run[0].fetched), run[1..]);
    }
  }

  /** With a single refresher that has nothing in hand, the mappings in use are those of the newest successful fetch. */
  lemma NewestInUse(s0: State, run: seq<Choice>, t: Tid)
    requires Initial(s0) && IsRun(s0, run) && OneRefresher(s0.threads)
    requires var s := After(s0, run); t < |s.threads| && Refreshes(s.threads[t]) && !Pending(s.threads[t])
    ensures var fetched := AllFetched(s0, run);
            After(s0, run).delegate == fetched[|fetched| - 1]
  {
    hide IsRun, After, AllFetched, Initial, InFetchOrder, RightPc, HoldsNewest, LocksAgree, AuthorsOk, ThreadOk;
    InitiallyUpToDate(s0);
    UpToDateAfter(s0, run);
    InstalledAsFetched(s0, run);
    Reached(s0, run);
    var s := After(s0, run);
    forall u: Tid | u < |s.threads| ensures !Pending(s.threads[u]) {
      if u != t {
        NobodyElsePending(s, t, u);
      }
    }
    assert HasTicket(AllFetched(s0, run), s.installs[|s.installs| - 1]);
  }

  lemma InitiallyUpToDate(s: State)
    requires Initial(s) && OneRefresher(s.threads)
    ensures Ordered(s) && UpToDate(s)
  {
    assert forall u :: 0 <= u < |s.threads| ==> s.threads[u] in s.threads;
  }
}
