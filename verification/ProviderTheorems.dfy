/** Safety of the provider system over every run of any number of threads. */
module ProviderTheorems {
  import opened Results
  import opened MetricInfo
  import opened Helpers
  import opened MetricStore
  import opened StoreHistory
  import opened RwLock
  import opened ProviderProgram
  import opened ProviderSystem
  import opened ProviderRuns

  lemma Reached(s0: State, run: seq<Choice>)
    requires Initial(s0) && IsRun(s0, run)
    ensures Invariant(After(s0, run))
  {
    InvariantInitially(s0);
    InvariantAfter(s0, run);
  }

  /** While a write is under way no other operation is; while mappings are being replaced no lookup is, nor another
      replacement. */
  lemma WritersExclude(s0: State, run: seq<Choice>, t: Tid, u: Tid)
    requires Initial(s0) && IsRun(s0, run)
    requires var s := After(s0, run); t < |s.threads| && u < |s.threads| && t != u
    ensures var threads := After(s0, run).threads;
            && (Writer(threads[t].job) && Holds(threads[t]) ==> !Holds(threads[u]))
            && (threads[t].pc.Installing? || threads[t].pc.Installed? ==>
                  !threads[u].pc.Answered? && !threads[u].pc.Installing? && !threads[u].pc.Installed?)
  {
    hide After, IsRun, ThreadOk, AuthorsOk, StoreOk;
    Reached(s0, run);
    var s := After(s0, run);
    if Writer(s.threads[t].job) && Holds(s.threads[t]) {
      NoOtherHolds(s, t, u);
    }
    if s.threads[t].pc.Installing? || s.threads[t].pc.Installed? {
      Excludes(s.mu, MuRoles(s.threads), t, u);
    }
  }

  /** A finished operation did everything over one map of values: the fold of exactly the commits made before a
      moment inside the call. Its lookups were answered by mappings current during the call, never by older ones
      after newer ones. */
  lemma FinishedAtOneMoment(s0: State, run: seq<Choice>, t: Tid)
    requires Initial(s0) && IsRun(s0, run)
    requires var s := After(s0, run); t < |s.threads| && s.threads[t].pc.Finished?
    ensures var s := After(s0, run);
            var th := s.threads[t];
            && th.job.Serve?
            && NotAfter(th.invoked, th.entered) && NotAfter(th.entered, th.left) && NotAfter(th.left, s.Now())
            && Ascends(th.seen, th.entered, th.left) && Known(s.installs, th.seen)
            && Replied(th.pc.reply)
               == Execute(th.job.op, Mappers(s.installs, th.seen), Fold(s.log[..th.entered.commits]))
  {
    Reached(s0, run);
    assert ThreadOk(After(s0, run), t);
  }

  /** If no mappings are installed during an operation, it replies what the sequential operation replies. */
  lemma FinishedIsSequential(s0: State, run: seq<Choice>, t: Tid)
    requires Initial(s0) && IsRun(s0, run)
    requires var s := After(s0, run); t < |s.threads| && s.threads[t].pc.Finished?
    requires var th := After(s0, run).threads[t]; th.entered.generation == th.left.generation
    ensures var s := After(s0, run);
            var th := s.threads[t];
            && th.job.Serve? && th.entered.generation < |s.installs| && th.entered.commits <= |s.log|
            && th.pc.reply == Sequential(th.job.op, s.installs[th.entered.generation].mapper,
                                         Fold(s.log[..th.entered.commits]))
  {
    hide Execute, Sequential, Fold, After, IsRun, ThreadOk, LocksAgree;
    FinishedAtOneMoment(s0, run, t);
    Reached(s0, run);
    var s := After(s0, run);
    var th := s.threads[t];
    var m := s.installs[th.entered.generation].mapper;
    ExecuteIsSequential(th.job.op, Mappers(s.installs, th.seen), Fold(s.log[..th.entered.commits]), m, th.pc.reply);
  }

  /** Even if mappings are installed during a read, every value it returns is one that was stored at its moment, for
      the object it is returned for, under the normal form of mappings current during the read. */
  lemma FinishedReadsStored(s0: State, run: seq<Choice>, t: Tid, items: seq<MetricValue>, i: nat)
    returns (generation: nat)
    requires Initial(s0) && IsRun(s0, run)
    requires var s := After(s0, run);
             && t < |s.threads| && s.threads[t].pc == Finished(Values(Ok(items))) && i < |items|
             && s.threads[t].job.Serve? && (s.threads[t].job.op.BySelector? || s.threads[t].job.op.ByName?)
    ensures var s := After(s0, run);
            var th := s.threads[t];
            var goal, item := GoalOf(th.job.op), items[i];
            && th.entered.generation <= generation <= th.left.generation && generation < |s.installs|
            && th.entered.commits <= |s.log|
            && item.metric == goal.info.metric && item.describedObject.namespace == goal.namespace
            && StoredUnder(s.installs[generation].mapper, goal, Fold(s.log[..th.entered.commits]),
                           item.describedObject.name, item.value)
  {
    hide After, IsRun, Execute, Fold, StoredUnder, ThreadOk, LocksAgree;
    FinishedAtOneMoment(s0, run, t);
    var s := After(s0, run);
    var th := s.threads[t];
    var answers, values := Mappers(s.installs, th.seen), Fold(s.log[..th.entered.commits]);
    ReadsReturnStored(th.job.op, answers, values, items);
    assert ItemFound(answers, GoalOf(th.job.op), values, items[i]);
    var k :| 0 <= k < |answers|
             && StoredUnder(answers[k], GoalOf(th.job.op), values, items[i].describedObject.name, items[i].value);
    generation := th.seen[k];
  }

  // ----- the log as a history of writes -----

  lemma AuthorOf(s: State, i: int)
    requires Invariant(s) && 0 <= i < |s.log|
    ensures s.authors[i] < |s.threads| && s.threads[s.authors[i]].entered.commits == i
    ensures Authored(s, s.authors[i], s.threads[s.authors[i]])
  {
    assert ThreadOk(s, s.authors[i]);
  }

  /** A commit as the write it came from, with the mappings that write's first lookup saw. */
  ghost function EventAt(s: State, i: int): (e: WriteEvent)
    requires Invariant(s) && 0 <= i < |s.log|
    ensures e.request.body == Ok(s.log[i].value) && StoredKey(e.mapper, e.request) == s.log[i].key
    ensures s.threads[s.authors[i]].job == Serve(Update(e.request))
  {
    AuthorOf(s, i);
    var th := s.threads[s.authors[i]];
    WriteEvent(s.installs[th.seen[1]].mapper, th.job.op.request)
  }

  ghost function EventsOf(s: State): (events: seq<WriteEvent>)
    requires Invariant(s)
    ensures |events| == |s.log| && forall i :: 0 <= i < |events| ==> events[i] == EventAt(s, i)
  {
    seq(|s.log|, i requires 0 <= i < |s.log| => EventAt(s, i))
  }

  lemma {:induction false} CommitsOfAccepted(events: seq<WriteEvent>, log: seq<Commit>)
    requires |events| == |log|
    requires forall i :: 0 <= i < |events| ==>
               events[i].request.body == Ok(log[i].value) && StoredKey(events[i].mapper, events[i].request) == log[i].key
    ensures Commits(events) == log
  {
    if events != [] {
      var n := |events| - 1;
      CommitsOfAccepted(events[..n], log[..n]);
      assert log == log[..n] + [log[n]];
    }
  }

  /** The map of values is always the outcome of a sequential history of the committed writes. */
  lemma ValuesAreAHistory(s0: State, run: seq<Choice>)
    requires Initial(s0) && IsRun(s0, run)
    ensures Invariant(After(s0, run))
    ensures After(s0, run).values == Replay(EventsOf(After(s0, run)))
  {
    Reached(s0, run);
    var s := After(s0, run);
    CommitsOfAccepted(EventsOf(s), s.log);
  }

  /** An accepted write is committed exactly once, at a moment inside its call; a rejected one never. */
  lemma CommittedExactlyOnce(s0: State, run: seq<Choice>, t: Tid)
    requires Initial(s0) && IsRun(s0, run)
    requires var s := After(s0, run); t < |s.threads| && s.threads[t].pc.Finished?
    ensures var s := After(s0, run);
            var th := s.threads[t];
            && |s.authors| == |s.log|
            && (th.pc.reply == Accepted ==>
                  && th.invoked.commits <= th.entered.commits < th.left.commits <= |s.log|
                  && forall i :: 0 <= i < |s.log| ==> (s.authors[i] == t <==> i == th.entered.commits))
            && (th.pc.reply != Accepted ==> t !in s.authors)
  {
    Reached(s0, run);
    var s := After(s0, run);
    assert ThreadOk(s, t);
    if t in s.authors {
      var i :| 0 <= i < |s.authors| && s.authors[i] == t;
      assert HasStored(s.threads[t]);
    }
  }

  /** A finished thread stays as it is; one that has not started is invoked, if ever, at a later moment. */
  lemma {:induction false} LaterThreads(s: State, later: seq<Choice>, t: Tid)
    requires Invariant(s) && IsRun(s, later) && t < |s.threads|
    ensures |After(s, later).threads| == |s.threads| && NotAfter(s.Now(), After(s, later).Now())
    ensures s.threads[t].pc.Finished? ==> After(s, later).threads[t] == s.threads[t]
    ensures s.threads[t].pc.Idle? ==> var th := After(s, later).threads[t];
                                      th.job == s.threads[t].job && (th.pc.Idle? || NotAfter(s.Now(), th.invoked))
    decreases |later|
  {
    hide ThreadOk, Agrees, StoreOk, AuthorsOk, Execute, Do, Start;
    if later != [] {
      var c := later[0];
      var s' := Step(s, c.t, c.fetched);
      InvariantStep(s, c.t, c.fetched);
      StepExtends(s, c.t, c.fetched);
      LaterThreads(s', later[1..], t);
      if s.threads[t].pc.Idle? && !s'.threads[t].pc.Idle? {
        InvokedStays(s', later[1..], t);
      }
    }
  }

  /** Once invoked, an operation keeps the moment of its invocation. */
  lemma {:induction false} InvokedStays(s: State, later: seq<Choice>, t: Tid)
    requires IsRun(s, later) && t < |s.threads| && s.threads[t].job.Serve? && !s.threads[t].pc.Idle?
    requires forall th <- s.threads :: RightPc(th)
    ensures |After(s, later).threads| == |s.threads|
    ensures var th := After(s, later).threads[t];
            th.invoked == s.threads[t].invoked && th.job == s.threads[t].job && !th.pc.Idle?
    decreases |later|
  {
    hide Execute, Do, Start;
    if later != [] {
      var c := later[0];
      assert RightPc(s.threads[t]);
      RightPcStep(s, c.t, c.fetched);
      StepExtends(s, c.t, c.fetched);
      InvokedStays(Step(s, c.t, c.fetched), later[1..], t);
    }
  }

  /** Moments respect real time: an operation finished before another is invoked comes first, and if it was an accepted
      write, its commit is among those the other works on, and comes before the other's own. */
  lemma RealTimeOrder(s0: State, run: seq<Choice>, later: seq<Choice>, t: Tid, u: Tid)
    requires Initial(s0) && IsRun(s0, run) && IsRun(After(s0, run), later)
    requires var s := After(s0, run);
             t < |s.threads| && u < |s.threads| && s.threads[t].pc.Finished? && s.threads[u].pc.Idle?
    ensures var s := After(s0, run);
            var s' := After(s, later);
            && |s'.threads| == |s.threads| && s'.threads[t] == s.threads[t]
            && (s'.threads[u].pc.Finished? ==>
                  && NotAfter(s'.threads[t].left, s'.threads[u].entered)
                  && (s'.threads[t].pc.reply == Accepted ==>
                        s'.threads[t].entered.commits < s'.threads[u].entered.commits))
  {
    hide After, IsRun, Execute, LocksAgree, StoreOk, AuthorsOk;
    Reached(s0, run);
    var s := After(s0, run);
    InvariantAfter(s, later);
    LaterThreads(s, later, t);
    LaterThreads(s, later, u);
    assert ThreadOk(s, t) && ThreadOk(After(s, later), u);
  }

  /** The reply to a lookup by name after a history of writes. */
  ghost predicate AnswersLatest(reply: Reply, past: seq<WriteEvent>, key: MetricKey) {
    && reply.Values?
    && (forall i :: IsLatestWrite(past, key, i) ==>
          && reply.answer.Ok? && |reply.answer.value| == 1
          && reply.answer.value[0].value == past[i].request.body.value)
    && ((forall e <- past :: !Writes(e, key)) <==>
          reply.answer == Err(MetricNotFound(key.info.groupResource, key.info.metric, key.name.name)))
  }

  lemma ByNameAnswersLatest(m: RESTMapper, past: seq<WriteEvent>, name: NamespacedName, info: CustomMetricInfo)
    requires Resolves(m, info.groupResource) && m.KindFor(info.groupResource.WithVersion("")).Ok?
    ensures AnswersLatest(Sequential(ByName(name, info), m, Replay(past)), past,
                          MetricKey(info.(groupResource := NormalForm(m, info.groupResource)), name))
  {
    NormalizedMeaning(info, m);
    LastWriteWins(m, past, info, name);
  }

  /** Last write wins under concurrency: a lookup by name during which no mappings are installed answers with the
      latest of the writes committed before its moment to the query's normal form, or that there is none. */
  lemma ConcurrentLastWriteWins(s0: State, run: seq<Choice>, t: Tid, name: NamespacedName, info: CustomMetricInfo,
                                m: RESTMapper)
    requires Initial(s0) && IsRun(s0, run)
    requires var s := After(s0, run);
             && t < |s.threads| && s.threads[t].pc.Finished? && s.threads[t].job == Serve(ByName(name, info))
    requires var s := After(s0, run);
             var th := s.threads[t];
             && th.entered.generation == th.left.generation < |s.installs|
             && m == s.installs[th.entered.generation].mapper
    requires Resolves(m, info.groupResource) && m.KindFor(info.groupResource.WithVersion("")).Ok?
    ensures Invariant(After(s0, run)) && After(s0, run).threads[t].entered.commits <= |After(s0, run).log|
    ensures var s := After(s0, run);
            AnswersLatest(s.threads[t].pc.reply, EventsOf(s)[..s.threads[t].entered.commits],
                          MetricKey(info.(groupResource := NormalForm(m, info.groupResource)), name))
  {
    hide After, IsRun, Sequential, EventAt, AnswersLatest, ThreadOk, LocksAgree;
    Reached(s0, run);
    var s := After(s0, run);
    var th := s.threads[t];
    FinishedIsSequential(s0, run, t);
    var past := EventsOf(s)[..th.entered.commits];
    CommitsOfAccepted(past, s.log[..th.entered.commits]);
    ByNameAnswersLatest(m, past, name, info);
  }
}
