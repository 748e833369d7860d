/** Go's sync.RWMutex. A writer first announces itself, which blocks later readers; it holds the lock once the readers
    before it have left; unlocking admits every reader blocked meanwhile before another writer can announce. */
module RwLock {
  import opened Results

  type Tid = nat

  datatype Lock = Lock(readers: set<Tid>, blocked: set<Tid>, announced: Option<Tid>, held: bool) {

    function RLock(t: Tid): Lock {
      if announced.None? then this.(readers := readers + {t}) else this.(blocked := blocked + {t})
    }

    function RUnlock(t: Tid): Lock {
      this.(readers := readers - {t})
    }

    predicate CanAnnounce() {
      announced.None?
    }

    function Announce(t: Tid): Lock {
      this.(announced := Some(t))
    }

    predicate CanAcquire(t: Tid) {
      announced == Some(t) && !held && readers == {}
    }

    function Acquire(): Lock {
      this.(held := true)
    }

    function Unlock(): Lock {
      Lock(readers + blocked, {}, None, false)
    }
  }

  const FREE := Lock({}, {}, None, false)

  /** What a thread is doing with a lock. A reader that has called RLock waits until it is among the readers. */
  datatype Role = Out | ReadWait | ReadHold | WriteWait | WriteHold

  /** The lock's own state agrees with what every thread is doing. */
  ghost predicate Agrees(lock: Lock, roles: seq<Role>) {
    && (forall t <- lock.readers :: t < |roles| && (roles[t] == ReadWait || roles[t] == ReadHold))
    && (forall t <- lock.blocked :: t < |roles| && roles[t] == ReadWait && t !in lock.readers)
    && (forall t: Tid :: t < |roles| && roles[t] == ReadHold ==> t in lock.readers)
    && (forall t: Tid :: t < |roles| && roles[t] == ReadWait ==> t in lock.readers || t in lock.blocked)
    && (forall t: Tid :: t < |roles| ==> (roles[t] == WriteWait <==> lock.announced == Some(t) && !lock.held))
    && (forall t: Tid :: t < |roles| ==> (roles[t] == WriteHold <==> lock.announced == Some(t) && lock.held))
    && (lock.announced.Some? ==> lock.announced.value < |roles|)
    && (lock.held ==> lock.announced.Some? && lock.readers == {})
    && (lock.announced.None? ==> lock.blocked == {})
  }

  /** A writer excludes readers and other writers. */
  lemma Excludes(lock: Lock, roles: seq<Role>, t: Tid, u: Tid)
    requires Agrees(lock, roles) && t < |roles| && u < |roles| && t != u
    requires roles[t] == WriteHold
    ensures roles[u] != WriteHold && roles[u] != ReadHold
  {
  }

  /** A thread's step between two roles does to the lock what the step calls for. */
  predicate Uses(lock: Lock, lock': Lock, t: Tid, before: Role, after: Role) {
    || (after == before && lock' == lock)
    || (before == Out && after == ReadWait && lock' == lock.RLock(t))
    || (before == ReadWait && after == ReadHold && lock' == lock && t in lock.readers)
    || (before == ReadHold && after == Out && lock' == lock.RUnlock(t))
    || (before == Out && after == WriteWait && lock' == lock.Announce(t) && lock.CanAnnounce())
    || (before == WriteWait && after == WriteHold && lock' == lock.Acquire() && lock.CanAcquire(t))
    || (before == WriteHold && after == Out && lock' == lock.Unlock())
  }

  /** Proper use keeps the lock in agreement with the threads. */
  lemma AgreesUses(lock: Lock, lock': Lock, roles: seq<Role>, t: Tid, after: Role)
    requires Agrees(lock, roles) && t < |roles| && Uses(lock, lock', t, roles[t], after)
    ensures Agrees(lock', roles[t := after])
  {
    if after == roles[t] {
      assert roles[t := after] == roles;
    } else if after == Out {
      AgreesReleased(lock, lock', roles, t);
    } else {
      AgreesTaken(lock, lock', roles, t, after);
    }
  }

  lemma AgreesReleased(lock: Lock, lock': Lock, roles: seq<Role>, t: Tid)
    requires Agrees(lock, roles) && t < |roles|
    requires (roles[t] == ReadHold && lock' == lock.RUnlock(t)) || (roles[t] == WriteHold && lock' == lock.Unlock())
    ensures Agrees(lock', roles[t := Out])
  {
  }

  lemma AgreesTaken(lock: Lock, lock': Lock, roles: seq<Role>, t: Tid, after: Role)
    requires Agrees(lock, roles) && t < |roles| && Uses(lock, lock', t, roles[t], after)
    requires after != Out && after != roles[t]
    ensures Agrees(lock', roles[t := after])
  {
  }

  /** A lock somebody uses always lets somebody move on: the writer who holds it, a reader who is admitted, or a
      writer whose readers have left. */
  lemma SomebodyMoves(lock: Lock, roles: seq<Role>, t: Tid) returns (u: Tid)
    requires Agrees(lock, roles) && t < |roles| && roles[t] != Out
    ensures u < |roles|
    ensures roles[u] == WriteHold || roles[u] == ReadHold || (roles[u] == ReadWait && u in lock.readers)
            || (roles[u] == WriteWait && lock.CanAcquire(u))
  {
    if lock.announced.Some? {
      if !lock.held && lock.readers != {} {
        u :| u in lock.readers;
      } else {
        u := lock.announced.value;
      }
    } else {
      u := t;
    }
  }

  /** An announced writer is not overtaken: until it has come and gone, nobody is added to the readers it waits for. */
  lemma AnnouncedIsNotOvertaken(lock: Lock, lock': Lock, roles: seq<Role>, t: Tid, after: Role)
    requires Agrees(lock, roles) && t < |roles| && Uses(lock, lock', t, roles[t], after)
    requires lock.announced.Some?
    ensures lock'.announced == lock.announced ==> lock'.readers <= lock.readers
    ensures lock'.announced != lock.announced ==>
              lock'.announced.None? && forall u: Tid :: u < |roles| && roles[u] == ReadWait ==> u in lock'.readers
  {
  }
}
