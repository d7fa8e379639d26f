/** Singleton jobs (scheduler/runner.go runOnce, scheduler/advisorylock.go): each tick tries a
    session-level PostgreSQL advisory lock on a pooled connection and skips when another session has
    it.  A run interleaves any number of job loops ("actors") of any replicas with the failures of
    statements, connections and sessions.  Advisory locks are re-entrant: a session that holds a key
    is granted it again, and has to give it back as often. */
module Scheduler {

  /** Where an actor stands in runOnce, with the connection it has checked out and the key of its job. */
  datatype Pc = Waiting(conn: nat, key: int) | Running(conn: nat, key: int) | Unlocking(conn: nat, key: int)

  datatype Lock = Lock(conn: nat, count: nat)

  /** `seen` are all sessions ever opened and `live` those the server still has; `broken` are the
      connections whose client side was closed.  `leaked` counts the grants that a failed unlock left
      behind on a connection that went back to the pool. */
  datatype World = World(seen: set<nat>, live: set<nat>, broken: set<nat>, locks: map<int, Lock>,
                         pcs: map<nat, Pc>, leaked: multiset<(nat, int)>)

  datatype UnlockResult = Done | Refused | Broke(executed: bool)

  datatype Step =
    | Open(conn: nat)
    | Acquire(actor: nat, conn: nat, key: int)
    | AcquireFails(actor: nat)
    | TryLock(actor: nat)
    | LockErrors(actor: nat, broke: bool, granted: bool)
    | Finish(actor: nat)
    | Unlock(actor: nat, result: UnlockResult)
    | Die(conn: nat)

  // ---- the lock table ----

  /** pg_try_advisory_lock succeeds. */
  predicate Free(locks: map<int, Lock>, c: nat, k: int) {
    k in locks ==> locks[k].conn == c
  }

  function Grant(locks: map<int, Lock>, c: nat, k: int): map<int, Lock> {
    if !Free(locks, c, k) then locks
    else locks[k := Lock(c, if k in locks then locks[k].count + 1 else 1)]
  }

  function Drop(locks: map<int, Lock>, c: nat, k: int): map<int, Lock> {
    if k !in locks || locks[k].conn != c then locks
    else if locks[k].count <= 1 then locks - {k}
    else locks[k := Lock(c, locks[k].count - 1)]
  }

  function DropAll(locks: map<int, Lock>, c: nat): map<int, Lock> {
    map k | k in locks && locks[k].conn != c :: locks[k]
  }

  // ---- steps and runs ----

  predicate InUse(w: World, c: nat) {
    exists a :: a in w.pcs && w.pcs[a].conn == c
  }

  predicate Legal(w: World, s: Step) {
    match s
    case Open(c) => c !in w.seen
    case Acquire(a, c, k) => a !in w.pcs && c in w.seen && c !in w.broken && !InUse(w, c)
    case AcquireFails(a) => a !in w.pcs
    case TryLock(a) => a in w.pcs && w.pcs[a].Waiting? && w.pcs[a].conn in w.live
    case LockErrors(a, broke, granted) =>
      && a in w.pcs && w.pcs[a].Waiting?
      && (!broke ==> w.pcs[a].conn in w.live && !granted)
      && (granted ==> w.pcs[a].conn in w.live && Free(w.locks, w.pcs[a].conn, w.pcs[a].key))
    case Finish(a) => a in w.pcs && w.pcs[a].Running?
    case Unlock(a, r) => a in w.pcs && w.pcs[a].Unlocking? && (r.Broke? || w.pcs[a].conn in w.live)
    case Die(c) => c in w.live
  }

  function Next(w: World, s: Step): World
    requires Legal(w, s)
  {
    match s
    case Open(c) => w.(seen := w.seen + {c}, live := w.live + {c})
    case Acquire(a, c, k) => w.(pcs := w.pcs[a := Waiting(c, k)])
    case AcquireFails(_) => w
    case TryLock(a) =>
      var c, k := w.pcs[a].conn, w.pcs[a].key;
      if Free(w.locks, c, k) then w.(locks := Grant(w.locks, c, k), pcs := w.pcs[a := Running(c, k)])
      else w.(pcs := w.pcs - {a})
    case LockErrors(a, broke, granted) =>
      var c, k := w.pcs[a].conn, w.pcs[a].key;
      w.(pcs := w.pcs - {a}, broken := if broke then w.broken + {c} else w.broken,
         locks := if granted then Grant(w.locks, c, k) else w.locks)
    case Finish(a) => w.(pcs := w.pcs[a := Unlocking(w.pcs[a].conn, w.pcs[a].key)])
    case Unlock(a, r) =>
      var c, k := w.pcs[a].conn, w.pcs[a].key;
      match r {
        case Done => w.(pcs := w.pcs - {a}, locks := Drop(w.locks, c, k))
        case Refused => w.(pcs := w.pcs - {a}, leaked := w.leaked + multiset{(c, k)})
        case Broke(executed) =>
          w.(pcs := w.pcs - {a}, broken := w.broken + {c},
             locks := if executed && c in w.live then Drop(w.locks, c, k) else w.locks)
      }
    case Die(c) => w.(live := w.live - {c}, locks := DropAll(w.locks, c))
  }

  /** The lock statement, written out: it is granted if nobody holds the key or the own session does, as often as it is
      asked for, and a refusal changes no lock.  No other key is touched. */
  lemma TryLockGrants(w: World, s: Step)
    requires Legal(w, s) && s.TryLock?
    ensures
      var c, k, w' := w.pcs[s.actor].conn, w.pcs[s.actor].key, Next(w, s);
      && (s.actor in w'.pcs <==> k !in w.locks || w.locks[k].conn == c)
      && (s.actor in w'.pcs ==> w'.pcs[s.actor] == Running(c, k))
      && (k !in w.locks ==> w'.locks == w.locks[k := Lock(c, 1)])
      && (k in w.locks && w.locks[k].conn == c ==> w'.locks == w.locks[k := Lock(c, w.locks[k].count + 1)])
      && (k in w.locks && w.locks[k].conn != c ==> w'.locks == w.locks)
  {
  }

  /** A lock statement that errors leaves its grant behind exactly when the server executed it. */
  lemma ErrorKeepsGrant(w: World, s: Step)
    requires Legal(w, s) && s.LockErrors?
    ensures
      var c, k, w' := w.pcs[s.actor].conn, w.pcs[s.actor].key, Next(w, s);
      && s.actor !in w'.pcs && (c in w'.broken <==> s.broke || c in w.broken)
      && (!s.granted ==> w'.locks == w.locks)
      && (s.granted ==> w'.locks == w.locks[k := Lock(c, if k in w.locks then w.locks[k].count + 1 else 1)])
  {
  }

  /** An executed unlock gives one grant of its own session back, and the end of a session gives back all of its own. */
  lemma GivesBack(w: World, s: Step)
    requires Legal(w, s)
    ensures s.Unlock? && s.result == Done ==>
              var c, k, locks' := w.pcs[s.actor].conn, w.pcs[s.actor].key, Next(w, s).locks;
              && (k in w.locks && w.locks[k].conn == c && w.locks[k].count > 1 ==> locks' == w.locks[k := Lock(c, w.locks[k].count - 1)])
              && (k in w.locks && w.locks[k].conn == c && w.locks[k].count <= 1 ==> locks' == w.locks - {k})
              && (k !in w.locks || w.locks[k].conn != c ==> locks' == w.locks)
    ensures s.Die? ==> forall k :: k in Next(w, s).locks <==> k in w.locks && w.locks[k].conn != s.conn
    ensures s.Die? ==> forall k :: k in Next(w, s).locks ==> Next(w, s).locks[k] == w.locks[k]
  {
  }

  const START := World({}, {}, {}, map[], map[], multiset{})

  ghost predicate IsRun(ws: seq<World>, steps: seq<Step>) {
    && |ws| == |steps| + 1 && ws[0] == START
    && forall i :: 0 <= i < |steps| ==> Legal(ws[i], steps[i]) && ws[i + 1] == Next(ws[i], steps[i])
  }

  // ---- the invariant ----

  /** A connection is checked out by at most one actor, and only while its client side is open. */
  predicate Exclusive(w: World) {
    && (forall a, b :: a in w.pcs && b in w.pcs && w.pcs[a].conn == w.pcs[b].conn ==> a == b)
    && (forall a :: a in w.pcs ==> w.pcs[a].conn !in w.broken && w.pcs[a].conn in w.seen)
  }

  predicate LocksLive(w: World) {
    forall k :: k in w.locks ==> w.locks[k].conn in w.live && w.locks[k].count >= 1
  }

  ghost predicate SessionsSeen(w: World) {
    w.live <= w.seen && forall x :: x in w.leaked ==> x.0 in w.seen
  }

  /** An actor that was granted the key on the connection and has not given it back. */
  predicate Holder(w: World, c: nat, k: int) {
    exists a :: a in w.pcs && !w.pcs[a].Waiting? && w.pcs[a].conn == c && w.pcs[a].key == k
  }

  function Count(locks: map<int, Lock>, c: nat, k: int): nat {
    if k in locks && locks[k].conn == c then locks[k].count else 0
  }

  predicate Balanced(w: World, c: nat, k: int) {
    Count(w.locks, c, k) == (if Holder(w, c, k) then 1 else 0) + w.leaked[(c, k)]
  }

  /** The ledger of every usable session: what it holds is what runs on it plus what leaked. */
  ghost predicate Ledger(w: World) {
    forall c, k :: c in w.live && c !in w.broken ==> Balanced(w, c, k)
  }

  ghost predicate Inv(w: World) {
    Exclusive(w) && LocksLive(w) && SessionsSeen(w) && Ledger(w)
  }

  lemma StepKeepsExclusive(w: World, s: Step)
    requires Legal(w, s) && Exclusive(w)
    ensures Exclusive(Next(w, s))
  {
    match s {
      case Acquire(a, c, k) =>
        assert forall b :: b in w.pcs ==> w.pcs[b].conn != c;
      case _ =>
    }
  }

  lemma StepKeepsLocksLive(w: World, s: Step)
    requires Legal(w, s) && LocksLive(w)
    ensures LocksLive(Next(w, s))
  {
    var v := Next(w, s);
    forall k | k in v.locks ensures v.locks[k].conn in v.live && v.locks[k].count >= 1 {
    }
  }

  lemma StepKeepsSeen(w: World, s: Step)
    requires Legal(w, s) && SessionsSeen(w) && Exclusive(w)
    ensures SessionsSeen(Next(w, s))
  {
  }

  /** Who holds what changes only for the acting actor. */
  lemma HolderElsewhere(w: World, v: World, a: nat, c: nat, k: int)
    requires forall b :: b != a ==> (b in v.pcs <==> b in w.pcs) && (b in w.pcs ==> v.pcs[b] == w.pcs[b])
    requires a in w.pcs && !w.pcs[a].Waiting? ==> w.pcs[a].conn != c || w.pcs[a].key != k
    requires a in v.pcs && !v.pcs[a].Waiting? ==> v.pcs[a].conn != c || v.pcs[a].key != k
    ensures Holder(v, c, k) <==> Holder(w, c, k)
  {
    if Holder(v, c, k) {
      var b :| b in v.pcs && !v.pcs[b].Waiting? && v.pcs[b].conn == c && v.pcs[b].key == k;
      assert b != a;
      assert b in w.pcs && w.pcs[b] == v.pcs[b];
    }
    if Holder(w, c, k) {
      var b :| b in w.pcs && !w.pcs[b].Waiting? && w.pcs[b].conn == c && w.pcs[b].key == k;
      assert b != a;
      assert b in v.pcs && w.pcs[b] == v.pcs[b];
    }
  }

  /** The actor of a connection is its only possible holder. */
  lemma SoleHolder(w: World, a: nat, k: int)
    requires Exclusive(w) && a in w.pcs
    ensures Holder(w, w.pcs[a].conn, k) <==> !w.pcs[a].Waiting? && w.pcs[a].key == k
  {
  }

  lemma NoHolder(w: World, c: nat, k: int)
    requires !InUse(w, c)
    ensures !Holder(w, c, k)
  {
  }

  lemma TryLockKeepsBalance(w: World, s: Step, c: nat, k: int)
    requires Legal(w, s) && s.TryLock? && Inv(w) && c in w.live && c !in w.broken
    ensures Balanced(Next(w, s), c, k)
  {
    var v, a := Next(w, s), s.actor;
    var d, l := w.pcs[a].conn, w.pcs[a].key;
    assert Balanced(w, c, k);
    StepKeepsExclusive(w, s);
    if c == d && k == l {
      SoleHolder(w, a, k);
      if Free(w.locks, c, k) {
        SoleHolder(v, a, k);
      } else {
        assert !InUse(v, c);
        NoHolder(v, c, k);
      }
    } else {
      HolderElsewhere(w, v, a, c, k);
    }
  }

  lemma UnlockKeepsBalance(w: World, s: Step, c: nat, k: int)
    requires Legal(w, s) && s.Unlock? && Inv(w) && c in w.live && c !in Next(w, s).broken
    ensures Balanced(Next(w, s), c, k)
  {
    var v, a := Next(w, s), s.actor;
    var d, l := w.pcs[a].conn, w.pcs[a].key;
    assert Balanced(w, c, k);
    if c == d && k == l {
      SoleHolder(w, a, k);
      assert !InUse(v, c);
      NoHolder(v, c, k);
    } else {
      HolderElsewhere(w, v, a, c, k);
    }
  }

  lemma OtherKeepsBalance(w: World, s: Step, c: nat, k: int)
    requires Legal(w, s) && !s.TryLock? && !s.Unlock? && Inv(w) && c in Next(w, s).live && c !in Next(w, s).broken
    ensures Balanced(Next(w, s), c, k)
  {
    var v := Next(w, s);
    match s {
      case Open(d) =>
        if c == d {
          FreshSession(w, c, k);
        } else {
          assert Balanced(w, c, k);
        }
        assert Holder(v, c, k) <==> Holder(w, c, k);
      case Acquire(a, d, l) =>
        assert Balanced(w, c, k);
        HolderElsewhere(w, v, a, c, k);
      case AcquireFails(_) =>
        assert Balanced(w, c, k);
      case LockErrors(a, broke, granted) =>
        assert Balanced(w, c, k);
        HolderElsewhere(w, v, a, c, k);
      case Finish(a) =>
        assert Balanced(w, c, k);
        StepKeepsExclusive(w, s);
        if w.pcs[a].conn == c {
          SoleHolder(w, a, k);
          SoleHolder(v, a, k);
        } else {
          HolderElsewhere(w, v, a, c, k);
        }
      case Die(d) =>
        assert Balanced(w, c, k);
        assert Holder(v, c, k) <==> Holder(w, c, k);
    }
  }

  lemma FreshSession(w: World, c: nat, k: int)
    requires Inv(w) && c !in w.seen
    ensures !Holder(w, c, k) && w.leaked[(c, k)] == 0 && Count(w.locks, c, k) == 0
  {
    assert (c, k) in w.leaked ==> (c, k).0 in w.seen;
  }

  lemma StepKeepsInv(w: World, s: Step)
    requires Legal(w, s) && Inv(w)
    ensures Inv(Next(w, s))
  {
    var v := Next(w, s);
    StepKeepsExclusive(w, s);
    StepKeepsLocksLive(w, s);
    StepKeepsSeen(w, s);
    forall c, k | c in v.live && c !in v.broken ensures Balanced(v, c, k) {
      StepKeepsBalance(w, s, c, k);
    }
  }

  lemma StepKeepsBalance(w: World, s: Step, c: nat, k: int)
    requires Legal(w, s) && Inv(w) && c in Next(w, s).live && c !in Next(w, s).broken
    ensures Balanced(Next(w, s), c, k)
  {
    if s.TryLock? {
      TryLockKeepsBalance(w, s, c, k);
    } else if s.Unlock? {
      UnlockKeepsBalance(w, s, c, k);
    } else {
      OtherKeepsBalance(w, s, c, k);
    }
  }

  lemma {:induction false} RunKeepsInv(ws: seq<World>, steps: seq<Step>, n: nat)
    requires IsRun(ws, steps) && n <= |steps|
    ensures Inv(ws[n])
  {
    if n > 0 {
      RunKeepsInv(ws, steps, n - 1);
      assert Legal(ws[n - 1], steps[n - 1]) && ws[n] == Next(ws[n - 1], steps[n - 1]);
      hide Next, Legal, Inv;
      StepKeepsInv(ws[n - 1], steps[n - 1]);
    }
  }

  // ---- what every run keeps ----

  /** Of all actors running a job of the same key on sessions that are alive there is at most one. */
  lemma MutualExclusion(ws: seq<World>, steps: seq<Step>, n: nat, a: nat, b: nat)
    requires IsRun(ws, steps) && n <= |steps|
    requires a in ws[n].pcs && ws[n].pcs[a].Running? && ws[n].pcs[a].conn in ws[n].live
    requires b in ws[n].pcs && ws[n].pcs[b].Running? && ws[n].pcs[b].conn in ws[n].live
    requires ws[n].pcs[a].key == ws[n].pcs[b].key
    ensures a == b
  {
    var w := ws[n];
    RunKeepsInv(ws, steps, n);
    assert Holder(w, w.pcs[a].conn, w.pcs[a].key) && Balanced(w, w.pcs[a].conn, w.pcs[a].key);
    assert Holder(w, w.pcs[b].conn, w.pcs[b].key) && Balanced(w, w.pcs[b].conn, w.pcs[b].key);
  }

  /** Nothing else is kept: a lock on a usable connection without a leaked grant is held once, by the job
      that runs, or just ran, on that connection. */
  lemma LockMeansRun(ws: seq<World>, steps: seq<Step>, n: nat, k: int)
    requires IsRun(ws, steps) && n <= |steps| && k in ws[n].locks
    requires ws[n].locks[k].conn !in ws[n].broken && ws[n].leaked[(ws[n].locks[k].conn, k)] == 0
    ensures ws[n].locks[k].count == 1 && Holder(ws[n], ws[n].locks[k].conn, k)
  {
    RunKeepsInv(ws, steps, n);
    assert Balanced(ws[n], ws[n].locks[k].conn, k);
  }

  /** The failed unlocks among the first n steps that left a grant of `k` on the open connection `c`. */
  ghost function Refusals(ws: seq<World>, steps: seq<Step>, c: nat, k: int, n: nat): nat
    requires |ws| == |steps| + 1 && n <= |steps|
  {
    if n == 0 then 0
    else Refusals(ws, steps, c, k, n - 1) + if Refuses(ws[n - 1], steps[n - 1], c, k) then 1 else 0
  }

  predicate Refuses(w: World, s: Step, c: nat, k: int) {
    s.Unlock? && s.result.Refused? && s.actor in w.pcs && w.pcs[s.actor].conn == c && w.pcs[s.actor].key == k
  }

  lemma {:induction false} LeakedCountsRefusals(ws: seq<World>, steps: seq<Step>, c: nat, k: int, n: nat)
    requires IsRun(ws, steps) && n <= |steps|
    ensures ws[n].leaked[(c, k)] == Refusals(ws, steps, c, k, n)
  {
    if n > 0 {
      LeakedCountsRefusals(ws, steps, c, k, n - 1);
      assert Legal(ws[n - 1], steps[n - 1]) && ws[n] == Next(ws[n - 1], steps[n - 1]);
    }
  }

  /** Exactly when a lock outlives its job: an idle session that can still be used holds the key if and only
      if an unlock of that key failed on it, and it holds it that many times. */
  lemma IdleHoldsIffRefused(ws: seq<World>, steps: seq<Step>, n: nat, c: nat, k: int)
    requires IsRun(ws, steps) && n <= |steps|
    requires c in ws[n].live && c !in ws[n].broken && !InUse(ws[n], c)
    ensures k in ws[n].locks && ws[n].locks[k].conn == c <==> Refusals(ws, steps, c, k, n) > 0
    ensures Count(ws[n].locks, c, k) == Refusals(ws, steps, c, k, n)
  {
    RunKeepsInv(ws, steps, n);
    LeakedCountsRefusals(ws, steps, c, k, n);
    NoHolder(ws[n], c, k);
    assert Balanced(ws[n], c, k);
  }

  lemma {:induction false} LeaksStay(ws: seq<World>, steps: seq<Step>, n: nat, m: nat)
    requires IsRun(ws, steps) && n <= m <= |steps|
    ensures ws[n].leaked <= ws[m].leaked
    decreases m
  {
    if n < m {
      LeaksStay(ws, steps, n, m - 1);
      assert Legal(ws[m - 1], steps[m - 1]) && ws[m] == Next(ws[m - 1], steps[m - 1]);
    }
  }

  /** A leaked grant keeps the job from every other session for as long as its own session lives. */
  lemma LeakBlocks(ws: seq<World>, steps: seq<Step>, n: nat, m: nat, c: nat, a: nat)
    requires IsRun(ws, steps) && n <= m <= |steps|
    requires c in ws[m].live && c !in ws[m].broken
    requires a in ws[m].pcs && ws[m].pcs[a].conn != c && ws[n].leaked[(c, ws[m].pcs[a].key)] > 0
    ensures !Free(ws[m].locks, ws[m].pcs[a].conn, ws[m].pcs[a].key)
  {
    LeaksStay(ws, steps, n, m);
    RunKeepsInv(ws, steps, m);
    assert Balanced(ws[m], c, ws[m].pcs[a].key);
  }

  lemma RunGrows(ws: seq<World>, steps: seq<Step>, s: Step)
    requires IsRun(ws, steps) && Legal(ws[|steps|], s)
    ensures IsRun(ws + [Next(ws[|steps|], s)], steps + [s])
  {
    hide Next, Legal;
    var ws', steps' := ws + [Next(ws[|steps|], s)], steps + [s];
    forall i | 0 <= i < |steps'| ensures Legal(ws'[i], steps'[i]) && ws'[i + 1] == Next(ws'[i], steps'[i]) {
      assert ws'[i] == ws[i];
      if i < |steps| {
        assert steps'[i] == steps[i] && ws'[i + 1] == ws[i + 1];
        assert Legal(ws[i], steps[i]);
      }
    }
  }

  lemma Extend(ws: seq<World>, steps: seq<Step>, s: Step) returns (ws': seq<World>, steps': seq<Step>)
    requires IsRun(ws, steps) && Legal(ws[|steps|], s)
    ensures IsRun(ws', steps') && ws'[|steps'|] == Next(ws[|steps|], s)
  {
    hide Next, Legal;
    RunGrows(ws, steps, s);
    ws', steps' := ws + [Next(ws[|steps|], s)], steps + [s];
  }

  /** Without the condition on the sessions exclusion fails: a job goes on after its session died. */
  lemma DeadSessionOverlap(k: int) returns (ws: seq<World>, steps: seq<Step>)
    ensures IsRun(ws, steps)
    ensures var w := ws[|steps|]; 0 in w.pcs && 1 in w.pcs && w.pcs[0] == Running(10, k) && w.pcs[1] == Running(11, k)
  {
    ws, steps := [START], [];
    assert IsRun(ws, steps);
    hide IsRun;
    ws, steps := Extend(ws, steps, Open(10));
    ws, steps := Extend(ws, steps, Open(11));
    ws, steps := Extend(ws, steps, Acquire(0, 10, k));
    ws, steps := Extend(ws, steps, TryLock(0));
    ws, steps := Extend(ws, steps, Die(10));
    ws, steps := Extend(ws, steps, Acquire(1, 11, k));
    ws, steps := Extend(ws, steps, TryLock(1));
  }

  /** Neither is every failed unlock harmless: when the statement fails on a connection that stays open,
      the lock outlives the run with nobody working. */
  lemma FailedUnlockLeaks(k: int) returns (ws: seq<World>, steps: seq<Step>)
    ensures IsRun(ws, steps)
    ensures var w := ws[|steps|]; w.pcs == map[] && w.broken == {} && k in w.locks && w.locks[k].conn in w.live
  {
    ws, steps := [START], [];
    assert IsRun(ws, steps);
    hide IsRun;
    ws, steps := Extend(ws, steps, Open(10));
    ws, steps := Extend(ws, steps, Acquire(0, 10, k));
    ws, steps := Extend(ws, steps, TryLock(0));
    ws, steps := Extend(ws, steps, Finish(0));
    ws, steps := Extend(ws, steps, Unlock(0, Refused));
  }

  // ---- the code ----

  /** The steps among the first n that actor `me` took. */
  function Mine(steps: seq<Step>, me: nat, n: nat): seq<Step>
    requires n <= |steps|
  {
    if n == 0 then [] else Mine(steps, me, n - 1) + if Acts(steps[n - 1], me) then [steps[n - 1]] else []
  }

  predicate Acts(s: Step, me: nat) {
    !s.Open? && !s.Die? && s.actor == me
  }

  lemma {:induction false} MinePrefix(steps: seq<Step>, more: seq<Step>, me: nat, n: nat)
    requires n <= |steps|
    ensures Mine(steps + more, me, n) == Mine(steps, me, n)
  {
    if n > 0 {
      MinePrefix(steps, more, me, n - 1);
      assert (steps + more)[n - 1] == steps[n - 1];
    }
  }

  datatype JobEnd = Returns | Fails | Panics

  datatype Outcome = LockError | Skipped | Ran(failed: bool)

  /** What the environment does to one runOnce: the connection the pool hands out, if any; an error of the
      lock statement; how the job ends; what becomes of the unlock statement. */
  datatype Fate = Fate(conn: int, lockFails: bool, broke: bool, granted: bool, job: JobEnd, unlock: UnlockResult)

  /** The pool can hand out this connection. */
  predicate Acquirable(w: World, conn: int) {
    conn >= 0 && conn in w.seen && conn !in w.broken && !InUse(w, conn)
  }

  /** What the lock statement is to answer on a connection that was acquired, when it meets `w`. */
  predicate StatementAnswers(r: Outcome, fate: Fate, key: int, w: World) {
    if fate.conn !in w.live || fate.lockFails then r.LockError?
    else if fate.conn >= 0 && !Free(w.locks, fate.conn, key) then r.Skipped?
    else r.Ran?
  }

  /** What tryAdvisoryLock is to answer when it starts in `w0` and its statement meets `w1`. */
  predicate Answers(r: Outcome, fate: Fate, key: int, w0: World, w1: World) {
    if !Acquirable(w0, fate.conn) then r.LockError? else StatementAnswers(r, fate, key, w1)
  }

  function Statement(me: nat, fate: Fate, key: int, w: World): Step {
    if fate.conn !in w.live || fate.lockFails then
      var broke := fate.broke || fate.conn !in w.live;
      LockErrors(me, broke, broke && fate.granted && fate.conn >= 0 && fate.conn in w.live && Free(w.locks, fate.conn, key))
    else TryLock(me)
  }

  /** The steps it takes on the way. */
  function Attempted(me: nat, fate: Fate, key: int, w0: World, w1: World): (taken: seq<Step>)
    ensures taken != []
  {
    if !Acquirable(w0, fate.conn) then [AcquireFails(me)]
    else [Acquire(me, fate.conn, key), Statement(me, fate, key, w1)]
  }

  predicate Ends(taken: seq<Step>, s: Step)
    requires taken != []
  {
    taken[|taken| - 1] == s
  }

  /** What becomes of the unlock statement: it can only fail, by breaking, on a session that is gone. */
  function Happens(live: bool, fate: UnlockResult): UnlockResult {
    if live || fate.Broke? then fate else Broke(false)
  }

  /** A usable connection after the tick: it is live and was never given up for broken. */
  predicate Usable(w: World, conn: int) {
    conn >= 0 && conn in w.live && conn !in w.broken
  }

  /** Sessions do not come back: what is live after a step was live before it or is new. */
  lemma StaysDead(w: World, s: Step, c: nat)
    requires Legal(w, s) && c in w.seen && c in Next(w, s).live
    ensures c in w.live && c in Next(w, s).seen
  {
  }

  /** Nobody else changes what is held on the connection an actor has checked out. */
  lemma OthersKeepCount(w: World, s: Step, me: nat, k: int)
    requires Legal(w, s) && Exclusive(w) && !Acts(s, me) && me in w.pcs
    requires w.pcs[me].conn in Next(w, s).live
    ensures Count(Next(w, s).locks, w.pcs[me].conn, k) == Count(w.locks, w.pcs[me].conn, k)
  {
  }

  class Replica {
    const me: nat
    var w: World
    ghost var ws: seq<World>
    ghost var steps: seq<Step>

    ghost predicate Recorded()
      reads this
    {
      IsRun(ws, steps) && |ws| == |steps| + 1 && ws[|steps|] == w
    }

    ghost function Taken(): seq<Step>
      reads this
    {
      Mine(steps, me, |steps|)
    }

    constructor (me: nat)
      ensures Recorded() && this.me == me && w == START
    {
      this.me, w, ws, steps := me, START, [START], [];
    }

    method Do(s: Step)
      requires Recorded() && Legal(w, s)
      modifies this
      ensures Recorded() && w == Next(old(w), s) && old(ws) <= ws && steps == old(steps) + [s]
      ensures Taken() == old(Taken()) + if Acts(s, me) then [s] else []
    {
      MinePrefix(steps, [s], me, |steps|);
      RunGrows(ws, steps, s);
      hide IsRun, Next, Legal;
      w := Next(w, s);
      ws, steps := ws + [w], steps + [s];
    }

    /** Everyone and everything else acting meanwhile: of `during`, whatever is possible when its turn comes.
        What this actor has checked out stays its own. */
    method Others(during: seq<Step>)
      requires Recorded() && me in w.pcs && w.pcs[me].conn in w.seen
      modifies this
      ensures Recorded() && old(ws) <= ws && old(steps) <= steps && Taken() == old(Taken())
      ensures me in w.pcs && w.pcs[me] == old(w.pcs)[me] && w.pcs[me].conn in w.seen
      ensures w.pcs[me].conn in w.live ==> w.pcs[me].conn in old(w.live)
      ensures w.pcs[me].conn in w.live ==> forall k :: Count(w.locks, w.pcs[me].conn, k) == Count(old(w.locks), w.pcs[me].conn, k)
    {
      ghost var conn := w.pcs[me].conn;
      for i := 0 to |during|
        invariant Recorded() && old(ws) <= ws && old(steps) <= steps && Taken() == old(Taken())
        invariant me in w.pcs && w.pcs[me] == old(w.pcs)[me] && conn in w.seen
        invariant conn in w.live ==> conn in old(w.live)
        invariant conn in w.live ==> forall k :: Count(w.locks, conn, k) == Count(old(w.locks), conn, k)
      {
        if Legal(w, during[i]) && !Acts(during[i], me) {
          Other(during[i]);
        }
      }
    }

    method Other(s: Step)
      requires Recorded() && me in w.pcs && w.pcs[me].conn in w.seen && Legal(w, s) && !Acts(s, me)
      modifies this
      ensures Recorded() && old(ws) <= ws && old(steps) <= steps && Taken() == old(Taken())
      ensures me in w.pcs && w.pcs[me] == old(w.pcs)[me] && w.pcs[me].conn in w.seen
      ensures w.pcs[me].conn in w.live ==> w.pcs[me].conn in old(w.live)
      ensures w.pcs[me].conn in w.live ==> forall k :: Count(w.locks, w.pcs[me].conn, k) == Count(old(w.locks), w.pcs[me].conn, k)
    {
      RunKeepsInv(ws, steps, |steps|);
      hide IsRun, Mine;
      ghost var before, conn := w, w.pcs[me].conn;
      assert Exclusive(before);
      Do(s);
      if conn in w.live {
        StaysDead(before, s, conn);
        forall k ensures Count(w.locks, conn, k) == Count(before.locks, conn, k) {
          OthersKeepCount(before, s, me, k);
        }
      }
    }

    method Checkout(conn: nat, key: int)
      requires Recorded() && me !in w.pcs && Acquirable(w, conn)
      modifies this
      ensures Recorded() && old(ws) <= ws && old(steps) <= steps && Taken() == old(Taken()) + [Acquire(me, conn, key)]
      ensures w == old(w).(pcs := old(w.pcs)[me := Waiting(conn, key)])
    {
      hide IsRun, Mine;
      Do(Acquire(me, conn, key));
    }

    /** The lock statement on the connection this actor has checked out. */
    method TryLockStatement(key: int, fate: Fate) returns (r: Outcome)
      requires Recorded() && me in w.pcs && fate.conn >= 0 && w.pcs[me] == Waiting(fate.conn, key)
      modifies this
      ensures Recorded() && old(ws) <= ws && steps == old(steps) + [Statement(me, fate, key, old(w))]
      ensures Taken() == old(Taken()) + [Statement(me, fate, key, old(w))]
      ensures StatementAnswers(r, fate, key, old(w))
      ensures w.seen == old(w.seen) && w.live == old(w.live)
      ensures if r.Ran? then me in w.pcs && w.pcs[me] == Running(fate.conn, key) else me !in w.pcs
      ensures fate.conn in w.live && (r.Ran? || fate.conn !in w.broken) ==> forall k ::
                Count(w.locks, fate.conn, k) == Count(old(w.locks), fate.conn, k) + if r.Ran? && k == key then 1 else 0
    {
      hide IsRun, Mine;
      var conn: nat := fate.conn;
      if conn !in w.live || fate.lockFails {
        var broke := fate.broke || conn !in w.live;
        var granted := broke && fate.granted && conn in w.live && Free(w.locks, conn, key);
        Do(LockErrors(me, broke, granted));
        return LockError;
      }
      Do(TryLock(me));
      return if me in w.pcs then Ran(false) else Skipped;
    }

    /** The answer is an error exactly when the pool has no connection or the statement fails, and a skip exactly
        when another session holds the key as the statement is executed (in `ws[at]`).  Only a granted lock stays,
        on the connection that stays checked out. */
    method TryAdvisoryLock(key: int, fate: Fate, during: seq<Step>) returns (r: Outcome, ghost at: nat)
      requires Recorded() && me !in w.pcs
      modifies this
      ensures Recorded() && old(ws) <= ws && old(steps) <= steps && old(|steps|) <= at < |steps|
      ensures Answers(r, fate, key, old(w), ws[at])
      ensures Taken() == old(Taken()) + Attempted(me, fate, key, old(w), ws[at]) && Ends(Attempted(me, fate, key, old(w), ws[at]), steps[at])
      ensures r.Ran? ==> me in w.pcs && w.pcs[me] == Running(fate.conn, key) && fate.conn in w.seen && fate.conn in old(w.seen)
      ensures !r.Ran? ==> me !in w.pcs
      ensures Acquirable(old(w), fate.conn) && fate.conn in w.live && (r.Ran? || fate.conn !in w.broken) ==> forall k ::
                Count(w.locks, fate.conn, k) == Count(old(w.locks), fate.conn, k) + if r.Ran? && k == key then 1 else 0
    {
      hide IsRun, Mine, Count, Statement, StatementAnswers;
      if fate.conn < 0 || fate.conn !in w.seen || fate.conn in w.broken || InUse(w, fate.conn) {
        at := |steps|;
        Do(AcquireFails(me));
        return LockError, at;
      }
      hide Next, Legal;
      Checkout(fate.conn, key);
      Others(during);
      at := |steps|;
      r := TryLockStatement(key, fate);
    }

    method FinishJob()
      requires Recorded() && me in w.pcs && w.pcs[me].Running?
      modifies this
      ensures Recorded() && old(ws) <= ws && old(steps) <= steps && Taken() == old(Taken()) + [Finish(me)]
      ensures w == old(w).(pcs := old(w).pcs[me := Unlocking(old(w.pcs)[me].conn, old(w.pcs)[me].key)])
    {
      hide IsRun, Mine;
      Do(Finish(me));
    }

    /** The unlock closure: one unlock statement, whose fate is the environment's, and the connection given back
        in any case.  On a session that lives and a connection that stays open the grant is returned, unless the
        statement is refused. */
    method ReleaseLock(fate: UnlockResult) returns (ghost at: nat)
      requires Recorded() && me in w.pcs && w.pcs[me].Unlocking?
      modifies this
      ensures Recorded() && old(ws) <= ws && old(steps) <= steps && old(|steps|) <= at < |steps| && ws[at] == old(w)
      ensures Taken() == old(Taken()) + [Unlock(me, Happens(old(w.pcs)[me].conn in old(w.live), fate))] && steps[at].Unlock?
      ensures me !in w.pcs && w.live == old(w.live)
      ensures Usable(w, old(w.pcs)[me].conn) ==> !fate.Broke? && forall k ::
                Count(w.locks, old(w.pcs)[me].conn, k) ==
                Count(old(w.locks), old(w.pcs)[me].conn, k) - if fate.Done? && k == old(w.pcs)[me].key then 1 else 0
    {
      RunKeepsInv(ws, steps, |steps|);
      hide IsRun, Mine;
      assert Balanced(w, w.pcs[me].conn, w.pcs[me].key) || w.pcs[me].conn !in w.live;
      assert Holder(w, w.pcs[me].conn, w.pcs[me].key);
      assert w.pcs[me].conn in w.live ==> Count(w.locks, w.pcs[me].conn, w.pcs[me].key) >= 1;
      at := |steps|;
      var happens := if w.pcs[me].conn in w.live || fate.Broke? then fate else Broke(false);
      Do(Unlock(me, happens));
    }

    /** One tick of a singleton job.  The outcome is that of the lock statement, executed in `ws[at]`; a granted
        lock is followed by the job, whose panic is a failure like any other, and by one unlock, executed in
        `ws[done]`.  On every path nothing stays checked out, and on a connection that is still usable exactly
        the locks are held that were held before, except for one more grant if the unlock was refused. */
    method RunOnce(name: string, lockKey: string -> int, fate: Fate, during: seq<Step>, running: seq<Step>, after: seq<Step>)
      returns (r: Outcome, ghost at: nat, ghost done: nat)
      requires Recorded() && me !in w.pcs
      modifies this
      ensures Recorded() && old(ws) <= ws && old(|steps|) <= at <= done < |steps|
      ensures me !in w.pcs
      ensures Answers(r, fate, lockKey(name), old(w), ws[at])
      ensures Ends(Attempted(me, fate, lockKey(name), old(w), ws[at]), steps[at]) && (r.Ran? ==> steps[done].Unlock?)
      ensures r.Ran? ==> (r.failed <==> !fate.job.Returns?)
      ensures Taken() == old(Taken()) + Attempted(me, fate, lockKey(name), old(w), ws[at]) +
                         if r.Ran? then [Finish(me), Unlock(me, Happens(fate.conn in ws[done].live, fate.unlock))] else []
      ensures Usable(w, fate.conn) && Acquirable(old(w), fate.conn) ==> forall k ::
                Count(w.locks, fate.conn, k) ==
                Count(old(w.locks), fate.conn, k) + if r.Ran? && fate.unlock.Refused? && k == lockKey(name) then 1 else 0
    {
      hide IsRun, Mine, Next, Legal, Count, Attempted, Happens, Inv;
      r, at := TryAdvisoryLock(lockKey(name), fate, during);
      done := at;
      if !r.Ran? {
        return;
      }
      Others(running);
      var failed := match fate.job { case Returns => false case Fails => true case Panics => true };
      FinishJob();
      Others(after);
      done := ReleaseLock(fate.unlock);
      r := Ran(failed);
    }
  }
}
