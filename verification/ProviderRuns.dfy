/** What holds in every state the provider system can reach. */
module ProviderRuns {
  import opened Results
  import opened MetricInfo
  import opened MetricStore
  import opened RwLock
  import opened ProviderProgram
  import opened ProviderSystem

  predicate NotAfter(a: Moment, b: Moment) {
    a.commits <= b.commits && a.generation <= b.generation
  }

  /** Generations never go back, and all lie between two moments. */
  predicate Ascends(seen: seq<nat>, from: Moment, to: Moment) {
    && (forall i :: 0 <= i < |seen| ==> from.generation <= seen[i] <= to.generation)
    && (forall i, j :: 0 <= i < j < |seen| ==> seen[i] <= seen[j])
  }

  predicate Known(installs: seq<Fetch>, seen: seq<nat>) {
    forall i :: 0 <= i < |seen| ==> seen[i] < |installs|
  }

  function Mappers(installs: seq<Fetch>, seen: seq<nat>): (ms: seq<RESTMapper>)
    requires Known(installs, seen)
    ensures |ms| == |seen| && forall i :: 0 <= i < |ms| ==> ms[i] == installs[seen[i]].mapper
  {
    seq(|seen|, i requires 0 <= i < |seen| => installs[seen[i]].mapper)
  }

  /** The thread has entered, and its actions have led it to `l`, over the one map of values it entered with. */
  ghost predicate LedTo(s: State, th: Thread, l: Local) {
    && th.job.Serve?
    && NotAfter(th.invoked, th.entered) && NotAfter(th.entered, s.Now())
    && Known(s.installs, th.seen)
    && l == Execute(th.job.op, Mappers(s.installs, th.seen), Fold(s.log[..th.entered.commits]))
  }

  /** The commit right after the moment the thread entered is its own. */
  ghost predicate Authored(s: State, t: Tid, th: Thread) {
    && Writer(th.job) && |s.authors| == |s.log|
    && th.entered.commits < |s.log| && s.authors[th.entered.commits] == t
    && |th.seen| > 1 && th.seen[1] < |s.installs|
    && th.job.op.request.body == Ok(s.log[th.entered.commits].value)
    && s.log[th.entered.commits].key == StoredKey(s.installs[th.seen[1]].mapper, th.job.op.request)
  }

  /** A thread that holds valuesLock: nothing is committed meanwhile, but by itself. */
  ghost predicate Holding(s: State, t: Tid, th: Thread, l: Local) {
    && LedTo(s, th, l)
    && Ascends(th.seen, th.entered, s.Now())
    && (l == Replied(Accepted) ==> Authored(s, t, th) && |s.log| == th.entered.commits + 1)
    && (l != Replied(Accepted) ==> |s.log| == th.entered.commits)
  }

  ghost predicate ThreadOk(s: State, t: Tid)
    requires t < |s.threads|
  {
    var th := s.threads[t];
    match th.pc
    case Idle => th.seen == []
    case Entering => th.seen == [] && NotAfter(th.invoked, s.Now())
    case Inside(l) => Holding(s, t, th, l)
    case Asking(l) => Holding(s, t, th, l) && l.AsksMapper()
    case Answered(l) => Holding(s, t, th, l)
    case Finished(reply) =>
      && LedTo(s, th, Replied(reply))
      && NotAfter(th.entered, th.left) && NotAfter(th.left, s.Now())
      && Ascends(th.seen, th.entered, th.left)
      && (reply == Accepted ==> Authored(s, t, th) && th.left.commits == th.entered.commits + 1)
    case _ => true
  }

  predicate HasStored(th: Thread) {
    Writer(th.job) && match th.pc
                      case Inside(l) => l.Replied? && l.reply.Accepted?
                      case Finished(reply) => reply.Accepted?
                      case _ => false
  }

  /** Every commit is the one commit of an accepted write. */
  ghost predicate AuthorsOk(s: State) {
    && |s.authors| == |s.log|
    && forall i :: 0 <= i < |s.log| ==>
         && s.authors[i] < |s.threads|
         && HasStored(s.threads[s.authors[i]])
         && s.threads[s.authors[i]].entered.commits == i
  }

  ghost predicate StoreOk(s: State) {
    && s.values == Fold(s.log)
    && s.installs != [] && s.delegate == s.installs[|s.installs| - 1].mapper
  }

  ghost predicate Invariant(s: State) {
    && LocksAgree(s) && StoreOk(s) && AuthorsOk(s)
    && forall t: Tid :: t < |s.threads| ==> ThreadOk(s, t)
  }

  // ----- preservation -----

  predicate Holds(th: Thread) {
    th.pc.Inside? || th.pc.Asking? || th.pc.Answered?
  }

  ghost predicate Extends(s: State, s': State) {
    s.log <= s'.log && s.authors <= s'.authors
    && |s.installs| <= |s'.installs| && s.installs == s'.installs[..|s.installs|]
  }

  lemma LedToExtends(s: State, s': State, th: Thread, l: Local)
    requires LedTo(s, th, l) && Extends(s, s') && s.installs != []
    ensures LedTo(s', th, l)
  {
    assert s.log[..th.entered.commits] == s'.log[..th.entered.commits];
    assert Mappers(s.installs, th.seen) == Mappers(s'.installs, th.seen);
  }

  lemma OtherThreadOk(s: State, s': State, t: Tid)
    requires t < |s.threads| && t < |s'.threads| && s'.threads[t] == s.threads[t] && ThreadOk(s, t)
    requires Extends(s, s') && s.installs != [] && |s.authors| == |s.log| && |s'.authors| == |s'.log|
    requires Holds(s.threads[t]) ==> s'.log == s.log && s'.authors == s.authors
    ensures ThreadOk(s', t)
  {
    hide Execute, Fold, LedTo, StoredKey;
    var th := s.threads[t];
    match th.pc
    case Inside(l) => LedToExtends(s, s', th, l);
    case Asking(l) => LedToExtends(s, s', th, l);
    case Answered(l) => LedToExtends(s, s', th, l);
    case Finished(reply) => LedToExtends(s, s', th, Replied(reply));
    case _ =>
  }

  /** A step commits only from inside, and otherwise leaves the history alone or installs. */
  lemma StepExtends(s: State, t: Tid, fetched: Option<RESTMapper>)
    requires Enabled(s, t)
    ensures var s' := Step(s, t, fetched);
            && Extends(s, s')
            && s'.threads == s.threads[t := s'.threads[t]]
            && (s'.log != s.log || s'.authors != s.authors || s'.values != s.values ==>
                  s.threads[t].pc.Inside? && s.threads[t].pc.l.Store?)
            && (s'.installs != s.installs || s'.delegate != s.delegate ==> s.threads[t].pc.Installing?)
  {
  }

  lemma NoOtherHolds(s: State, t: Tid, u: Tid)
    requires LocksAgree(s) && t < |s.threads| && u < |s.threads| && t != u
    requires Writer(s.threads[t].job) && Holds(s.threads[t])
    ensures !Holds(s.threads[u])
  {
    Excludes(s.valuesLock, ValuesRoles(s.threads), t, u);
  }

  /** Only a write gets as far as storing. */
  lemma OnlyWritersStore(s: State, t: Tid)
    requires t < |s.threads| && ThreadOk(s, t) && s.threads[t].pc.Inside? && s.threads[t].pc.l.Store?
    ensures Writer(s.threads[t].job)
  {
    var th := s.threads[t];
    if !Writer(th.job) {
      ReadsNeverStore(th.job.op, Mappers(s.installs, th.seen), Fold(s.log[..th.entered.commits]));
    }
  }

  lemma OthersOk(s: State, t: Tid, fetched: Option<RESTMapper>, u: Tid)
    requires Enabled(s, t) && Invariant(s) && u < |s.threads| && u != t
    requires |Step(s, t, fetched).authors| == |Step(s, t, fetched).log|
    ensures ThreadOk(Step(s, t, fetched), u)
  {
    hide Execute, Fold, LedTo, ThreadOk, StoredKey;
    var s' := Step(s, t, fetched);
    StepExtends(s, t, fetched);
    if s.threads[t].pc.Inside? && s.threads[t].pc.l.Store? {
      OnlyWritersStore(s, t);
      NoOtherHolds(s, t, u);
    }
    OtherThreadOk(s, s', u);
  }

  /** One more action, taken on the current mappings and values, continues the execution. */
  lemma ActedLedTo(s: State, th: Thread, l: Local, pc: Pc)
    requires StoreOk(s) && LedTo(s, th, l) && |s.log| == th.entered.commits
    requires Ascends(th.seen, th.entered, s.Now())
    ensures LedTo(s, Acted(s, th, l, pc), Do(l, s.delegate, s.values))
    ensures Ascends(Acted(s, th, l, pc).seen, th.entered, s.Now())
  {
    var th' := Acted(s, th, l, pc);
    assert s.log[..th.entered.commits] == s.log;
    var before, after := Mappers(s.installs, th.seen), Mappers(s.installs, th'.seen);
    assert after[..|before|] == before && after[|before|] == s.delegate;
    assert after == before + [s.delegate];
  }

  /** A lookup or a local action never ends in `Accepted`; only storing does. */
  lemma OnlyStoringAccepts(l: Local, m: RESTMapper, s: MetricStore.Values)
    requires !l.Store? && l != Replied(Accepted)
    ensures Do(l, m, s) != Replied(Accepted)
  {
  }

  /** What a thread about to store will store. */
  lemma AboutToStore(s: State, t: Tid)
    requires t < |s.threads| && ThreadOk(s, t) && s.threads[t].pc.Inside? && s.threads[t].pc.l.Store?
    ensures var th := s.threads[t];
            && Writer(th.job) && Holding(s, t, th, th.pc.l)
            && |th.seen| > 1 && th.job.op.request.body == Ok(th.pc.l.value)
            && th.pc.l.key == StoredKey(s.installs[th.seen[1]].mapper, th.job.op.request)
  {
    var th := s.threads[t];
    OnlyWritersStore(s, t);
    ExecuteStores(th.job.op, Mappers(s.installs, th.seen), Fold(s.log[..th.entered.commits]));
  }

  lemma StoreStepThread(s: State, t: Tid, fetched: Option<RESTMapper>)
    requires Enabled(s, t) && StoreOk(s) && |s.authors| == |s.log| && ThreadOk(s, t)
    requires s.threads[t].pc.Inside? && s.threads[t].pc.l.Store?
    ensures ThreadOk(Step(s, t, fetched), t)
  {
    hide Execute, Fold, LedTo, StoredKey;
    var s', th := Step(s, t, fetched), s.threads[t];
    var l, th' := th.pc.l, s'.threads[t];
    AboutToStore(s, t);
    ActedLedTo(s, th, l, Inside(Replied(Accepted)));
    assert th' == Acted(s, th, l, Inside(Replied(Accepted)));
    LedToExtends(s, s', th', Replied(Accepted));
    assert th'.seen[1] == th.seen[1];
  }

  lemma StoreStepAuthors(s: State, t: Tid, fetched: Option<RESTMapper>)
    requires Enabled(s, t) && StoreOk(s) && AuthorsOk(s)
    requires s.threads[t].pc.Inside? && s.threads[t].pc.l.Store?
    requires Writer(s.threads[t].job) && s.threads[t].entered.commits == |s.log|
    ensures StoreOk(Step(s, t, fetched)) && AuthorsOk(Step(s, t, fetched))
  {
    var s' := Step(s, t, fetched);
    assert s'.log[..|s.log|] == s.log;
    forall i | 0 <= i < |s'.log|
      ensures s'.authors[i] < |s'.threads| && HasStored(s'.threads[s'.authors[i]])
              && s'.threads[s'.authors[i]].entered.commits == i
    {
      if i < |s.log| {
        assert HasStored(s.threads[s.authors[i]]);
        assert s.authors[i] != t;
      }
    }
  }

  lemma StoreStepOk(s: State, t: Tid, fetched: Option<RESTMapper>)
    requires Enabled(s, t) && Invariant(s)
    requires s.threads[t].pc.Inside? && s.threads[t].pc.l.Store?
    ensures ThreadOk(Step(s, t, fetched), t)
    ensures StoreOk(Step(s, t, fetched)) && AuthorsOk(Step(s, t, fetched))
  {
    assert ThreadOk(s, t);
    AboutToStore(s, t);
    StoreStepThread(s, t, fetched);
    StoreStepAuthors(s, t, fetched);
  }

  lemma EnteringStepOk(s: State, t: Tid, fetched: Option<RESTMapper>)
    requires Enabled(s, t) && Invariant(s) && s.threads[t].pc.Entering?
    ensures ThreadOk(Step(s, t, fetched), t)
  {
    assert ThreadOk(s, t);
    var s' := Step(s, t, fetched);
    var th' := s'.threads[t];
    assert Mappers(s'.installs, th'.seen) == [];
    assert !Start(th'.job.op).Replied?;
  }

  lemma ActionStepOk(s: State, t: Tid, fetched: Option<RESTMapper>)
    requires Enabled(s, t) && Invariant(s)
    requires var pc := s.threads[t].pc;
             pc.Asking? || (pc.Inside? && !pc.l.Replied? && !pc.l.AsksMapper() && !pc.l.Store?)
    ensures ThreadOk(Step(s, t, fetched), t)
  {
    hide Execute, Fold, Do, Start;
    assert ThreadOk(s, t);
    var s', th := Step(s, t, fetched), s.threads[t];
    var l := th.pc.l;
    ActedLedTo(s, th, l, s'.threads[t].pc);
    OnlyStoringAccepts(l, s.delegate, s.values);
  }

  /** `LedTo` is about the operation's own history, not about its program counter. */
  lemma LedToSame(s: State, s': State, th: Thread, th': Thread, l: Local)
    requires LedTo(s, th, l)
    requires s'.log == s.log && s'.installs == s.installs
    requires th'.job == th.job && th'.seen == th.seen && th'.invoked == th.invoked && th'.entered == th.entered
    ensures LedTo(s', th', l)
  {
  }

  lemma QuietStepOk(s: State, t: Tid, fetched: Option<RESTMapper>)
    requires Enabled(s, t) && Invariant(s)
    requires var pc := s.threads[t].pc;
             !pc.Entering? && !pc.Asking? && (pc.Inside? ==> pc.l.Replied? || pc.l.AsksMapper())
    ensures ThreadOk(Step(s, t, fetched), t)
  {
    hide Execute, Fold, Do, Start;
    assert ThreadOk(s, t);
    var s', th := Step(s, t, fetched), s.threads[t];
    assert RightPc(th);
    match th.pc
    case Inside(l) => LedToSame(s, s', th, s'.threads[t], l);
    case Answered(l) => LedToSame(s, s', th, s'.threads[t], l);
    case _ =>
  }

  lemma StoreOkStep(s: State, t: Tid, fetched: Option<RESTMapper>)
    requires Enabled(s, t) && Invariant(s)
    requires !(s.threads[t].pc.Inside? && s.threads[t].pc.l.Store?)
    ensures StoreOk(Step(s, t, fetched)) && AuthorsOk(Step(s, t, fetched))
  {
    hide Execute, Do, Start, ThreadOk;
    var s', th := Step(s, t, fetched), s.threads[t];
    StepExtends(s, t, fetched);
    assert HasStored(th) ==> HasStored(s'.threads[t]) && s'.threads[t].entered == th.entered;
  }

  lemma InvariantStep(s: State, t: Tid, fetched: Option<RESTMapper>)
    requires Enabled(s, t) && Invariant(s)
    ensures Invariant(Step(s, t, fetched))
  {
    var s', pc := Step(s, t, fetched), s.threads[t].pc;
    LocksAgreeStep(s, t, fetched);
    if pc.Inside? && pc.l.Store? {
      StoreStepOk(s, t, fetched);
    } else {
      StoreOkStep(s, t, fetched);
      if pc.Entering? {
        EnteringStepOk(s, t, fetched);
      } else if pc.Asking? || (pc.Inside? && !pc.l.Replied? && !pc.l.AsksMapper()) {
        ActionStepOk(s, t, fetched);
      } else {
        QuietStepOk(s, t, fetched);
      }
    }
    StepExtends(s, t, fetched);
    forall u: Tid | u < |s'.threads| ensures ThreadOk(s', u) {
      if u != t {
        OthersOk(s, t, fetched, u);
      }
    }
  }

  lemma InvariantInitially(s: State)
    requires Initial(s)
    ensures Invariant(s)
  {
    assert forall t: Tid :: t < |s.threads| ==> s.threads[t] in s.threads;
    assert forall t: Tid :: t < |s.threads| ==> ValuesRole(s.threads[t]) == Out && MuRole(s.threads[t]) == Out;
  }

  lemma {:induction false} InvariantAfter(s: State, run: seq<Choice>)
    requires Invariant(s) && IsRun(s, run)
    ensures Invariant(After(s, run))
    decreases |run|
  {
    if run != [] {
      InvariantStep(s, run[0].t, run[0].fetched);
      InvariantAfter(Step(s, run[0].t, run[0].fetched), run[1..]);
    }
  }
}
