/** Any number of provider operations and mapper refreshers running concurrently: the provider's `valuesLock`, the
    mapper's `mu`, and every interleaving of their steps. */
module ProviderSystem {
  import opened Results
  import opened MetricInfo
  import opened MetricStore
  import opened RwLock
  import opened ProviderProgram

  /** What a thread is for. A refresher runs a number of rounds of fetching and installing mappings. */
  datatype Job = Serve(op: Operation) | Refresh(rounds: nat)

  /** Mappings obtained by a successful fetch; tickets number the fetches. */
  datatype Fetch = Fetch(mapper: RESTMapper, ticket: nat)

  datatype Pc =
    // an operation
    | Idle                    // has not asked for valuesLock
    | Entering                // has asked for it
    | Inside(l: Local)        // holds it, about to take an action
    | Asking(l: Local)        // has called RLock on mu for the lookup of l
    | Answered(l: Local)      // has looked up, still holds mu
    | Finished(reply: Reply)
    // a refresher with rounds to go
    | Fetching(rounds: nat)
    | Fetched(fetch: Fetch, rounds: nat)     // not locked until ready to replace
    | Announcing(fetch: Fetch, rounds: nat)  // has called Lock on mu
    | Installing(fetch: Fetch, rounds: nat)  // holds mu
    | Installed(rounds: nat)                 // holds mu, mappings replaced

  /** A moment, measured by the writes committed and the mappings installed so far. */
  datatype Moment = Moment(commits: nat, generation: nat)

  /** `seen` are the generations of the mappings at each action taken. */
  datatype Thread = Thread(job: Job, pc: Pc, seen: seq<nat>, invoked: Moment, entered: Moment, left: Moment)

  datatype State = State(
    threads: seq<Thread>,
    valuesLock: Lock,
    mu: Lock,
    values: MetricStore.Values,
    delegate: RESTMapper,
    // what has happened: commits with their authors, installed mappings, successful fetches
    log: seq<Commit>,
    authors: seq<Tid>,
    installs: seq<Fetch>,
    tickets: nat)
  {
    function Now(): Moment {
      Moment(|log|, if installs == [] then 0 else |installs| - 1)
    }
  }

  ghost predicate Initial(s: State) {
    && (forall th <- s.threads :: th.seen == [] && th.pc == if th.job.Serve? then Idle else Fetching(th.job.rounds))
    && s.valuesLock == FREE && s.mu == FREE
    && s.values == map[] && s.log == [] && s.authors == []
    // the mapper was constructed from a first successful fetch
    && |s.installs| == 1 && s.installs[0].ticket == 0 && s.tickets == 1
    && s.delegate == s.installs[0].mapper
  }

  // ----- steps -----

  predicate Writer(job: Job) {
    job.Serve? && job.op.Update?
  }

  predicate Enabled(s: State, t: Tid) {
    && t < |s.threads|
    && var th := s.threads[t];
       match th.pc
       case Idle => th.job.Serve? && (Writer(th.job) ==> s.valuesLock.CanAnnounce())
       case Entering => th.job.Serve? && if Writer(th.job) then s.valuesLock.CanAcquire(t) else t in s.valuesLock.readers
       case Inside(_) => true
       case Asking(_) => t in s.mu.readers
       case Answered(_) => true
       case Finished(_) => false
       case Fetching(rounds) => rounds > 0
       case Fetched(_, _) => s.mu.CanAnnounce()
       case Announcing(_, _) => s.mu.CanAcquire(t)
       case Installing(_, _) => true
       case Installed(_) => true
  }

  /** The thread takes its next step; `fetched` is what its fetch brings, if that is the step (None: it fails). */
  function Step(s: State, t: Tid, fetched: Option<RESTMapper>): State
    requires Enabled(s, t)
  {
    var th := s.threads[t];
    match th.pc
    case Idle =>
      s.(threads := s.threads[t := th.(pc := Entering, invoked := s.Now())],
         valuesLock := if Writer(th.job) then s.valuesLock.Announce(t) else s.valuesLock.RLock(t))
    case Entering =>
      s.(threads := s.threads[t := th.(pc := Inside(Start(th.job.op)), entered := s.Now())],
         valuesLock := if Writer(th.job) then s.valuesLock.Acquire() else s.valuesLock)
    case Inside(l) =>
      if l.Replied? then
        s.(threads := s.threads[t := th.(pc := Finished(l.reply), left := s.Now())],
           valuesLock := if Writer(th.job) then s.valuesLock.Unlock() else s.valuesLock.RUnlock(t))
      else if l.AsksMapper() then
        s.(threads := s.threads[t := th.(pc := Asking(l))], mu := s.mu.RLock(t))
      else if l.Store? then
        s.(threads := s.threads[t := Acted(s, th, l, Inside(Replied(Accepted)))],
           values := s.values[l.key := l.value],
           log := s.log + [Commit(l.key, l.value)],
           authors := s.authors + [t])
      else
        s.(threads := s.threads[t := Acted(s, th, l, Inside(Do(l, s.delegate, s.values)))])
    case Asking(l) =>
      s.(threads := s.threads[t := Acted(s, th, l, Answered(Do(l, s.delegate, s.values)))])
    case Answered(l) =>
      s.(threads := s.threads[t := th.(pc := Inside(l))], mu := s.mu.RUnlock(t))
    case Fetching(rounds) =>
      (match fetched
       case None => s.(threads := s.threads[t := th.(pc := Fetching(rounds - 1))])
       case Some(m) =>
         s.(threads := s.threads[t := th.(pc := Fetched(Fetch(m, s.tickets), rounds - 1))], tickets := s.tickets + 1))
    case Fetched(fetch, rounds) =>
      s.(threads := s.threads[t := th.(pc := Announcing(fetch, rounds))], mu := s.mu.Announce(t))
    case Announcing(fetch, rounds) =>
      s.(threads := s.threads[t := th.(pc := Installing(fetch, rounds))], mu := s.mu.Acquire())
    case Installing(fetch, rounds) =>
      s.(threads := s.threads[t := th.(pc := Installed(rounds))],
         delegate := fetch.mapper, installs := s.installs + [fetch])
    case Installed(rounds) =>
      s.(threads := s.threads[t := th.(pc := Fetching(rounds))], mu := s.mu.Unlock())
  }

  function Acted(s: State, th: Thread, l: Local, pc: Pc): Thread {
    th.(pc := pc, seen := th.seen + [s.Now().generation])
  }

  datatype Choice = Choice(t: Tid, fetched: Option<RESTMapper>)

  /** The choices can be taken one after the other. */
  predicate IsRun(s: State, run: seq<Choice>)
    decreases |run|
  {
    run == [] || (Enabled(s, run[0].t) && IsRun(Step(s, run[0].t, run[0].fetched), run[1..]))
  }

  function After(s: State, run: seq<Choice>): State
    requires IsRun(s, run)
    decreases |run|
  {
    if run == [] then s else After(Step(s, run[0].t, run[0].fetched), run[1..])
  }

  // ----- what threads do with the locks -----

  function ValuesRole(th: Thread): Role {
    match th.pc
    case Entering => if Writer(th.job) then WriteWait else ReadWait
    case Inside(_) => if Writer(th.job) then WriteHold else ReadHold
    case Asking(_) => if Writer(th.job) then WriteHold else ReadHold
    case Answered(_) => if Writer(th.job) then WriteHold else ReadHold
    case _ => Out
  }

  function MuRole(th: Thread): Role {
    match th.pc
    case Asking(_) => ReadWait
    case Answered(_) => ReadHold
    case Announcing(_, _) => WriteWait
    case Installing(_, _) => WriteHold
    case Installed(_) => WriteHold
    case _ => Out
  }

  function ValuesRoles(threads: seq<Thread>): (roles: seq<Role>)
    ensures |roles| == |threads| && forall i :: 0 <= i < |roles| ==> roles[i] == ValuesRole(threads[i])
  {
    seq(|threads|, i requires 0 <= i < |threads| => ValuesRole(threads[i]))
  }

  function MuRoles(threads: seq<Thread>): (roles: seq<Role>)
    ensures |roles| == |threads| && forall i :: 0 <= i < |roles| ==> roles[i] == MuRole(threads[i])
  {
    seq(|threads|, i requires 0 <= i < |threads| => MuRole(threads[i]))
  }

  /** Operations and refreshers keep to their own program counters. */
  predicate RightPc(th: Thread) {
    th.job.Serve? <==> (th.pc.Idle? || th.pc.Entering? || th.pc.Inside? || th.pc.Asking? || th.pc.Answered? || th.pc.Finished?)
  }

  ghost predicate LocksAgree(s: State) {
    && (forall th <- s.threads :: RightPc(th))
    && Agrees(s.valuesLock, ValuesRoles(s.threads))
    && Agrees(s.mu, MuRoles(s.threads))
  }

  lemma RolesOfUpdate(threads: seq<Thread>, t: Tid, th: Thread)
    requires t < |threads|
    ensures ValuesRoles(threads[t := th]) == ValuesRoles(threads)[t := ValuesRole(th)]
    ensures MuRoles(threads[t := th]) == MuRoles(threads)[t := MuRole(th)]
  {
  }

  lemma RightPcStep(s: State, t: Tid, fetched: Option<RESTMapper>)
    requires Enabled(s, t) && forall th <- s.threads :: RightPc(th)
    ensures forall th <- Step(s, t, fetched).threads :: RightPc(th)
  {
    var s' := Step(s, t, fetched);
    assert RightPc(s.threads[t]);
    assert s'.threads == s.threads[t := s'.threads[t]];
    assert RightPc(s'.threads[t]);
    forall i | 0 <= i < |s'.threads| ensures RightPc(s'.threads[i]) {
      assert i != t ==> s'.threads[i] == s.threads[i];
    }
  }

  lemma ValuesLockUse(s: State, t: Tid, fetched: Option<RESTMapper>)
    requires Enabled(s, t) && forall th <- s.threads :: RightPc(th)
    ensures Uses(s.valuesLock, Step(s, t, fetched).valuesLock, t,
                 ValuesRole(s.threads[t]), ValuesRole(Step(s, t, fetched).threads[t]))
  {
    assert RightPc(s.threads[t]);
  }

  lemma MuUse(s: State, t: Tid, fetched: Option<RESTMapper>)
    requires Enabled(s, t)
    ensures Uses(s.mu, Step(s, t, fetched).mu, t, MuRole(s.threads[t]), MuRole(Step(s, t, fetched).threads[t]))
  {
  }

  lemma LocksAgreeStep(s: State, t: Tid, fetched: Option<RESTMapper>)
    requires Enabled(s, t) && LocksAgree(s)
    ensures LocksAgree(Step(s, t, fetched))
  {
    var th', values', mu' := Step(s, t, fetched).threads[t], Step(s, t, fetched).valuesLock, Step(s, t, fetched).mu;
    assert Step(s, t, fetched).threads == s.threads[t := th'];
    RightPcStep(s, t, fetched);
    RolesOfUpdate(s.threads, t, th');
    ValuesLockUse(s, t, fetched);
    AgreesUses(s.valuesLock, values', ValuesRoles(s.threads), t, ValuesRole(th'));
    MuUse(s, t, fetched);
    AgreesUses(s.mu, mu', MuRoles(s.threads), t, MuRole(th'));
  }
}
