/** The single-node distributed lock (database/redis/lock.go): SET NX with a random token and an
    expiry, released by a compare-and-delete script.  A run interleaves any number of Mutex
    instances on any keys; replies get lost, leases expire and holders die at any point. */
module RedisMutex {

  import opened Options

  /** A stored lock entry; without an expiry (a zero ttl) it never lapses. */
  datatype Lease = Lease(token: nat, expiry: Option<int>)

  type Store = map<string, Lease>

  datatype Instance = Instance(key: string, ttl: nat)

  predicate Live(store: Store, key: string, now: int) {
    key in store && Unexpired(store[key].expiry, now)
  }

  predicate Unexpired(expiry: Option<int>, now: int) {
    expiry.Some? ==> now < expiry.value
  }

  function Deadline(now: int, ttl: nat): Option<int> {
    if ttl == 0 then None else Some(now + ttl)
  }

  /** SET key token NX PX ttl. */
  function SetNX(store: Store, now: int, key: string, token: nat, ttl: nat): Store {
    if Live(store, key, now) then store else store[key := Lease(token, Deadline(now, ttl))]
  }

  predicate Deletes(store: Store, now: int, key: string, token: nat) {
    Live(store, key, now) && store[key].token == token
  }

  /** The unlock script: GET, compare, DEL, as one atomic command. */
  function CompareAndDelete(store: Store, now: int, key: string, token: nat): Store {
    if Deletes(store, now, key, token) then store - {key} else store
  }

  // ---- runs ----

  /** A Lock call that returned true. */
  datatype Acquisition = Acquisition(instance: nat, key: string, token: nat, expiry: Option<int>)

  /** `held` is the token field of each instance that has one, `used` every token ever drawn,
      `released` the tokens whose entry an unlock script deleted. */
  datatype World = World(now: int, store: Store, held: map<nat, nat>, used: set<nat>,
                         released: set<nat>, acquired: seq<Acquisition>)

  /** What becomes of a command: a lost reply leaves its effect, a lost request has none. */
  datatype Fate = Answered | ReplyLost | RequestLost

  datatype Step =
    | Lock(time: int, m: nat, token: nat, fate: Fate)
    | Unlock(time: int, m: nat, fate: Fate)

  type Config = nat -> Instance

  function Initial(now: int): World {
    World(now, map[], map[], {}, {}, [])
  }

  /** Time never goes back and tokens are fresh. */
  predicate Legal(w: World, s: Step) {
    w.now <= s.time && (s.Lock? ==> s.token !in w.used)
  }

  function Next(cfg: Config, w: World, s: Step): World {
    match s
    case Lock(t, m, token, fate) =>
      var Instance(key, ttl) := cfg(m);
      var won := fate.Answered? && !Live(w.store, key, t);
      w.(now := t, store := if fate.RequestLost? then w.store else SetNX(w.store, t, key, token, ttl),
         used := w.used + {token},
         held := if won then w.held[m := token] else w.held,
         acquired := if won then w.acquired + [Acquisition(m, key, token, Deadline(t, ttl))] else w.acquired)
    case Unlock(t, m, fate) =>
      if m !in w.held || fate.RequestLost? then w.(now := t)
      else
        var key, token := cfg(m).key, w.held[m];
        w.(now := t, store := CompareAndDelete(w.store, t, key, token),
           released := if Deletes(w.store, t, key, token) then w.released + {token} else w.released,
           held := if fate.Answered? then w.held - {m} else w.held)
  }

  /** `ws` are the successive worlds of the run `steps` from an empty server. */
  ghost predicate IsRun(cfg: Config, ws: seq<World>, steps: seq<Step>) {
    && |ws| == |steps| + 1 && ws[0] == Initial(ws[0].now)
    && forall i :: 0 <= i < |steps| ==> Legal(ws[i], steps[i]) && ws[i + 1] == Next(cfg, ws[i], steps[i])
  }

  /** A successful Lock that at time `now` is neither expired nor unlocked. */
  predicate Active(w: World, a: Acquisition, now: int) {
    Unexpired(a.expiry, now) && a.token !in w.released
  }

  // ---- what every step keeps ----

  ghost predicate TokensUsed(w: World) {
    && (forall k :: k in w.store ==> w.store[k].token in w.used && w.store[k].token !in w.released)
    && (forall i :: 0 <= i < |w.acquired| ==> w.acquired[i].token in w.used)
    && w.released <= w.used
  }

  ghost predicate TokensDistinct(w: World) {
    && (forall i, j :: 0 <= i < j < |w.acquired| ==> w.acquired[i].token != w.acquired[j].token)
    && (forall k, l :: k in w.store && l in w.store && w.store[k].token == w.store[l].token ==> k == l)
  }

  /** An active acquisition is the entry on the server, and no acquisition's token is stored
      under anything but its own key and expiry. */
  ghost predicate Backed(w: World) {
    && (forall i :: 0 <= i < |w.acquired| && Active(w, w.acquired[i], w.now) ==>
          w.acquired[i].key in w.store && w.store[w.acquired[i].key] == Lease(w.acquired[i].token, w.acquired[i].expiry))
    && (forall i, k :: 0 <= i < |w.acquired| && k in w.store && w.store[k].token == w.acquired[i].token ==>
          k == w.acquired[i].key && w.store[k].expiry == w.acquired[i].expiry)
  }

  predicate Owns(cfg: Config, w: World, m: nat, i: nat)
    requires i < |w.acquired| && m in w.held
  {
    w.acquired[i].instance == m && w.acquired[i].token == w.held[m] && w.acquired[i].key == cfg(m).key
  }

  /** The token of an instance is one it acquired itself. */
  ghost predicate OwnTokens(cfg: Config, w: World) {
    forall m :: m in w.held ==> exists i :: 0 <= i < |w.acquired| && Owns(cfg, w, m, i)
  }

  ghost predicate Inv(cfg: Config, w: World) {
    TokensUsed(w) && TokensDistinct(w) && Backed(w) && OwnTokens(cfg, w)
  }

  lemma LockKeepsTokens(cfg: Config, w: World, s: Step)
    requires TokensUsed(w) && TokensDistinct(w) && Legal(w, s)
    ensures TokensUsed(Next(cfg, w, s)) && TokensDistinct(Next(cfg, w, s))
  {
  }

  lemma StepKeepsBacked(cfg: Config, w: World, s: Step)
    requires Inv(cfg, w) && Legal(w, s)
    ensures Backed(Next(cfg, w, s))
  {
    var w' := Next(cfg, w, s);
    hide OwnTokens;
    forall i | 0 <= i < |w'.acquired| && Active(w', w'.acquired[i], w'.now)
      ensures w'.acquired[i].key in w'.store
      ensures w'.store[w'.acquired[i].key] == Lease(w'.acquired[i].token, w'.acquired[i].expiry)
    {
      if i < |w.acquired| {
        assert w'.acquired[i] == w.acquired[i];
        assert Active(w, w.acquired[i], w.now);
      }
    }
    forall i, k | 0 <= i < |w'.acquired| && k in w'.store && w'.store[k].token == w'.acquired[i].token
      ensures k == w'.acquired[i].key && w'.store[k].expiry == w'.acquired[i].expiry
    {
      if i < |w.acquired| {
        assert w'.acquired[i] == w.acquired[i];
        assert w.acquired[i].token in w.used;
      }
    }
  }

  lemma StepKeepsOwnTokens(cfg: Config, w: World, s: Step)
    requires OwnTokens(cfg, w)
    ensures OwnTokens(cfg, Next(cfg, w, s))
  {
    var w' := Next(cfg, w, s);
    forall m | m in w'.held ensures exists i :: 0 <= i < |w'.acquired| && Owns(cfg, w', m, i) {
      if m in w.held && w'.held[m] == w.held[m] {
        var i :| 0 <= i < |w.acquired| && Owns(cfg, w, m, i);
        assert w'.acquired[i] == w.acquired[i];
        assert Owns(cfg, w', m, i);
      } else {
        assert Owns(cfg, w', m, |w.acquired|);
      }
    }
  }

  lemma StepKeepsInv(cfg: Config, w: World, s: Step)
    requires Inv(cfg, w) && Legal(w, s)
    ensures Inv(cfg, Next(cfg, w, s))
  {
    hide Next, Legal, TokensUsed, TokensDistinct, Backed, OwnTokens;
    LockKeepsTokens(cfg, w, s);
    StepKeepsBacked(cfg, w, s);
    StepKeepsOwnTokens(cfg, w, s);
  }

  lemma InitialInv(cfg: Config, t0: int)
    ensures Inv(cfg, Initial(t0))
  {
  }

  lemma {:induction false} RunKeepsInv(cfg: Config, ws: seq<World>, steps: seq<Step>, i: nat)
    requires IsRun(cfg, ws, steps) && i <= |steps|
    ensures Inv(cfg, ws[i])
  {
    hide Next, Legal, Inv;
    if i > 0 {
      RunKeepsInv(cfg, ws, steps, i - 1);
      assert Legal(ws[i - 1], steps[i - 1]) && ws[i] == Next(cfg, ws[i - 1], steps[i - 1]);
      StepKeepsInv(cfg, ws[i - 1], steps[i - 1]);
    } else {
      InitialInv(cfg, ws[0].now);
    }
  }

  // ---- the guarantees ----

  /** Mutual exclusion: at every point of every run at most one successful Lock per key is neither
      expired nor unlocked. */
  lemma MutualExclusion(cfg: Config, ws: seq<World>, steps: seq<Step>, n: nat, i: nat, j: nat)
    requires IsRun(cfg, ws, steps) && n <= |steps|
    requires
      var w := ws[n];
      && i < |w.acquired| && j < |w.acquired| && w.acquired[i].key == w.acquired[j].key
      && Active(w, w.acquired[i], w.now) && Active(w, w.acquired[j], w.now)
    ensures i == j
  {
    var w := ws[n];
    RunKeepsInv(cfg, ws, steps, n);
    assert w.acquired[i].token == w.acquired[j].token;
  }

  /** The token an instance holds is that of one of its own acquisitions, and an Unlock removes an
      entry if and only if that acquisition is still active and the request arrives; the entry is the one it wrote. */
  lemma UnlockDeletesOwnLease(cfg: Config, ws: seq<World>, steps: seq<Step>, n: nat) returns (i: nat)
    requires IsRun(cfg, ws, steps) && n < |steps|
    requires steps[n].Unlock? && steps[n].m in ws[n].held
    ensures i < |ws[n].acquired| && Owns(cfg, ws[n], steps[n].m, i)
    ensures
      var w, s := ws[n], steps[n];
      var a, key := w.acquired[i], cfg(s.m).key;
      && (key in w.store && key !in ws[n + 1].store <==> Active(w, a, s.time) && !s.fate.RequestLost?)
      && (key in w.store && key !in ws[n + 1].store ==> w.store[key] == Lease(a.token, a.expiry))
      && (forall k :: k != key && k in w.store ==> k in ws[n + 1].store && ws[n + 1].store[k] == w.store[k])
  {
    var w := ws[n];
    RunKeepsInv(cfg, ws, steps, n);
    assert Legal(w, steps[n]) && ws[n + 1] == Next(cfg, w, steps[n]);
    i :| 0 <= i < |w.acquired| && Owns(cfg, w, steps[n].m, i);
    assert Active(w, w.acquired[i], steps[n].time) ==> Active(w, w.acquired[i], w.now);
  }

  /** No step takes an active acquisition away from its instance: after any step it has expired,
      or it is still active, or the step was an Unlock by the instance that made it. */
  lemma OnlyTheHolderReleases(cfg: Config, ws: seq<World>, steps: seq<Step>, n: nat, i: nat)
    requires IsRun(cfg, ws, steps) && n < |steps|
    requires
      var w := ws[n];
      i < |w.acquired| && Active(w, w.acquired[i], w.now)
    ensures
      var w, w' := ws[n], ws[n + 1];
      var a := w.acquired[i];
      || Active(w', a, w'.now)
      || !Unexpired(a.expiry, w'.now)
      || (steps[n].Unlock? && steps[n].m == a.instance)
  {
    var w, s := ws[n], steps[n];
    RunKeepsInv(cfg, ws, steps, n);
    assert Legal(w, s) && ws[n + 1] == Next(cfg, w, s);
    if s.Unlock? && s.m in w.held && w.held[s.m] == w.acquired[i].token {
      var k :| 0 <= k < |w.acquired| && Owns(cfg, w, s.m, k);
      assert k == i;
    }
  }

  // ---- how long a lease lasts ----

  /** Step k is a Lock that returned true. */
  predicate Wins(cfg: Config, ws: seq<World>, steps: seq<Step>, k: nat)
    requires k < |steps| < |ws|
  {
    steps[k].Lock? && steps[k].fate.Answered? && !Live(ws[k].store, cfg(steps[k].m).key, steps[k].time)
  }

  /** No step number a, ..., b - 1 is on the key. */
  predicate Untouched(cfg: Config, steps: seq<Step>, key: string, a: nat, b: nat)
    requires b <= |steps|
  {
    forall k :: a <= k < b ==> cfg(steps[k].m).key != key
  }

  lemma {:induction false} EntryStays(cfg: Config, ws: seq<World>, steps: seq<Step>, key: string, a: nat, b: nat)
    requires IsRun(cfg, ws, steps) && a <= b <= |steps| && Untouched(cfg, steps, key, a, b)
    ensures key in ws[b].store <==> key in ws[a].store
    ensures key in ws[a].store ==> ws[b].store[key] == ws[a].store[key]
    decreases b
  {
    if a < b {
      EntryStays(cfg, ws, steps, key, a, b - 1);
      assert Legal(ws[b - 1], steps[b - 1]) && ws[b] == Next(cfg, ws[b - 1], steps[b - 1]);
    }
  }

  /** A lease lasts exactly its ttl: after a Lock of the key that was won at t0, and with nothing else on the key, the
      next answered Lock wins if it comes at t0 + ttl or later, and fails before that; a lease without a ttl lasts for
      ever. */
  lemma LeaseLastsItsTtl(cfg: Config, ws: seq<World>, steps: seq<Step>, a: nat, b: nat)
    requires IsRun(cfg, ws, steps) && a < b < |steps| && Wins(cfg, ws, steps, a)
    requires steps[b].Lock? && steps[b].fate.Answered? && cfg(steps[b].m).key == cfg(steps[a].m).key
    requires Untouched(cfg, steps, cfg(steps[a].m).key, a + 1, b)
    ensures
      var ttl := cfg(steps[a].m).ttl;
      Wins(cfg, ws, steps, b) <==> ttl > 0 && steps[b].time >= steps[a].time + ttl
    ensures |ws[b + 1].acquired| == |ws[b].acquired| + if Wins(cfg, ws, steps, b) then 1 else 0
  {
    assert ws[a + 1] == Next(cfg, ws[a], steps[a]) && ws[b + 1] == Next(cfg, ws[b], steps[b]);
    EntryStays(cfg, ws, steps, cfg(steps[a].m).key, a + 1, b);
  }

  /** An Unlock that removed the entry frees the key: the next answered Lock of it wins. */
  lemma UnlockFrees(cfg: Config, ws: seq<World>, steps: seq<Step>, a: nat, b: nat)
    requires IsRun(cfg, ws, steps) && a < b < |steps| && steps[a].Unlock?
    requires var key := cfg(steps[a].m).key; key in ws[a].store && key !in ws[a + 1].store
    requires steps[b].Lock? && steps[b].fate.Answered? && cfg(steps[b].m).key == cfg(steps[a].m).key
    requires Untouched(cfg, steps, cfg(steps[a].m).key, a + 1, b)
    ensures Wins(cfg, ws, steps, b)
  {
    EntryStays(cfg, ws, steps, cfg(steps[a].m).key, a + 1, b);
  }

  // ---- the code ----

  /** The server and all instances that use it; `ws` and `steps` record the run so far. */
  class Server {
    const cfg: Config
    var w: World
    ghost var ws: seq<World>
    ghost var steps: seq<Step>

    ghost predicate Recorded()
      reads this
    {
      IsRun(cfg, ws, steps) && |ws| == |steps| + 1 && ws[|steps|] == w
    }

    constructor (cfg: Config, now: int)
      ensures Recorded() && this.cfg == cfg && w == Initial(now)
    {
      this.cfg, w, ws, steps := cfg, Initial(now), [Initial(now)], [];
    }

    method Do(s: Step)
      requires Recorded() && Legal(w, s)
      modifies this
      ensures Recorded() && w == Next(cfg, old(w), s) && steps == old(steps) + [s] && old(ws) <= ws
    {
      RunGrows(cfg, ws, steps, s);
      hide IsRun, Next, Legal;
      w := Next(cfg, w, s);
      ws, steps := ws + [w], steps + [s];
    }
  }

  lemma RunGrows(cfg: Config, ws: seq<World>, steps: seq<Step>, s: Step)
    requires IsRun(cfg, ws, steps) && Legal(ws[|steps|], s)
    ensures IsRun(cfg, ws + [Next(cfg, ws[|steps|], s)], steps + [s])
  {
    hide Next, Legal;
    var ws', steps' := ws + [Next(cfg, ws[|steps|], s)], steps + [s];
    forall i | 0 <= i < |steps'| ensures Legal(ws'[i], steps'[i]) && ws'[i + 1] == Next(cfg, ws'[i], steps'[i]) {
      assert ws'[i] == ws[i];
      if i < |steps| {
        assert steps'[i] == steps[i] && ws'[i + 1] == ws[i + 1];
        assert Legal(ws[i], steps[i]);
      }
    }
  }

  datatype UnlockResult = Released | LockNotHeld | TransportError

  /** Instance number `me` of the run. */
  class Mutex {
    const server: Server
    const me: nat
    const key: string
    const ttl: nat
    var token: Option<nat>

    /** The instance is the one of the run, token field included. */
    ghost predicate Valid()
      reads this, server
    {
      && server.Recorded() && server.cfg(me) == Instance(key, ttl)
      && token == if me in server.w.held then Some(server.w.held[me]) else None
    }

    constructor (server: Server, me: nat, key: string, ttl: nat)
      requires server.Recorded() && server.cfg(me) == Instance("lock:" + key, ttl) && me !in server.w.held
      ensures Valid() && this.server == server && this.me == me
      ensures this.key == "lock:" + key && this.ttl == ttl && token == None
    {
      this.server, this.me, this.key, this.ttl, token := server, me, "lock:" + key, ttl, None;
    }

    /** True if and only if this call wrote the entry and learned of it; an error (`None`) leaves the
        token field alone even when the server took the lock. */
    method Lock(now: int, fresh': nat, fate: Fate) returns (ok: Option<bool>)
      requires Valid() && server.w.now <= now && fresh' !in server.w.used
      modifies server, this`token
      ensures Valid() && server.steps == old(server.steps) + [Step.Lock(now, me, fresh', fate)]
      ensures server.w.store ==
              if fate.RequestLost? then old(server.w.store) else SetNX(old(server.w.store), now, key, fresh', ttl)
      ensures ok == if fate.Answered? then Some(!Live(old(server.w.store), key, now)) else None
      ensures token == if ok == Some(true) then Some(fresh') else old(token)
      ensures ok == Some(true) ==> Live(server.w.store, key, now) && server.w.store[key].token == fresh'
      ensures ok == Some(true) && ttl > 0 ==> forall t :: Live(server.w.store, key, t) <==> t < now + ttl
      ensures ok == Some(true) && ttl == 0 ==> forall t :: Live(server.w.store, key, t)
      ensures ok == Some(true) ==>
                server.w.acquired == old(server.w.acquired) + [Acquisition(me, key, fresh', Deadline(now, ttl))]
    {
      hide IsRun;
      var won := !(key in server.w.store && Unexpired(server.w.store[key].expiry, now));
      server.Do(Step.Lock(now, me, fresh', fate));
      if !fate.Answered? {
        return None;
      }
      if won {
        token := Some(fresh');
      }
      return Some(won);
    }

    method Unlock(now: int, fate: Fate) returns (r: UnlockResult)
      requires Valid() && server.w.now <= now
      modifies server, this`token
      ensures Valid()
      ensures old(token).None? ==> r == LockNotHeld && server.w == old(server.w) && token == None
      ensures old(token).Some? ==>
        && server.steps == old(server.steps) + [Step.Unlock(now, me, fate)]
        && server.w.store == (if fate.RequestLost? then old(server.w.store)
                              else CompareAndDelete(old(server.w.store), now, key, old(token).value))
        && (r == TransportError <==> !fate.Answered?)
        && (fate.Answered? ==> (r == Released <==> Deletes(old(server.w.store), now, key, old(token).value)))
        && token == if fate.Answered? then None else old(token)
    {
      if token.None? {
        return LockNotHeld;
      }
      hide IsRun;
      var store := server.w.store;
      var deleted := if key in store && Unexpired(store[key].expiry, now) && store[key].token == token.value then 1 else 0;
      server.Do(Step.Unlock(now, me, fate));
      if !fate.Answered? {
        return TransportError;
      }
      token := None;
      if deleted == 0 {
        return LockNotHeld;
      }
      return Released;
    }
  }
}
