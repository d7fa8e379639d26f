/** The fixed-window rate limiter (database/redis/ratelimit.go): INCR, then EXPIRE by the caller
    that got 1.  The two commands are separate steps of a run in which any number of callers
    interleave, replies get lost and callers crash between their two commands. */
module RateLimiter {

  import opened Options

  /** The counter key on the server.  Without an expiry the key lives for ever. */
  datatype Entry = Absent | Present(count: nat, expiry: Option<int>)

  datatype Settings = Settings(limit: int, window: int)

  predicate Live(e: Entry, now: int) {
    e.Present? && (e.expiry.Some? ==> now < e.expiry.value)
  }

  /** INCR at time `now`: an expired key counts from nothing again. */
  function Bumped(e: Entry, now: int): Entry {
    if Live(e, now) then Present(e.count + 1, e.expiry) else Present(1, None)
  }

  /** EXPIRE at time `now`. */
  function Armed(e: Entry, now: int, window: int): Entry {
    if Live(e, now) then Present(e.count, Some(now + window)) else e
  }

  /** One call allowed: when, in which lifetime of the key, and with which counter value. */
  datatype Grant = Grant(time: int, life: nat, n: nat)

  /** `arming` are the callers that got 1 and have not sent EXPIRE yet, `starts` the times at
      which the lifetimes of the key began, `grants` the calls allowed so far. */
  datatype World = World(now: int, entry: Entry, arming: set<nat>, starts: seq<int>, grants: seq<Grant>)

  datatype Step =
    | Incr(time: int, caller: nat, delivered: bool)   // a lost reply is an error to the caller
    | Expire(time: int, caller: nat)
    | Crash(time: int, caller: nat)

  function Initial(now: int): World {
    World(now, Absent, {}, [], [])
  }

  /** Time never goes back, and EXPIRE is only sent by a caller that got 1. */
  predicate Legal(w: World, s: Step) {
    && w.now <= s.time
    && (s.Incr? ==> s.caller !in w.arming)
    && (s.Expire? ==> s.caller in w.arming)
  }

  function Next(cfg: Settings, w: World, s: Step): World {
    match s
    case Incr(t, c, delivered) =>
      var e := Bumped(w.entry, t);
      var starts := if Live(w.entry, t) then w.starts else w.starts + [t];
      w.(now := t, entry := e, starts := starts,
         arming := if delivered && e.count == 1 then w.arming + {c} else w.arming,
         grants := if delivered && e.count <= cfg.limit && starts != []
                   then w.grants + [Grant(t, |starts| - 1, e.count)] else w.grants)
    case Expire(t, c) => w.(now := t, entry := Armed(w.entry, t, cfg.window), arming := w.arming - {c})
    case Crash(t, c) => w.(now := t, arming := w.arming - {c})
  }

  function At(cfg: Settings, w0: World, steps: seq<Step>, i: nat): World
    requires i <= |steps|
  {
    if i == 0 then w0 else Next(cfg, At(cfg, w0, steps, i - 1), steps[i - 1])
  }

  predicate LegalRun(cfg: Settings, w0: World, steps: seq<Step>) {
    forall i :: 0 <= i < |steps| ==> Legal(At(cfg, w0, steps, i), steps[i])
  }

  // ---- counting grants ----

  /** Grants of one lifetime whose counter value is at least `from`. */
  function InLife(gs: seq<Grant>, life: nat, from: nat): nat {
    if gs == [] then 0
    else
      var g := gs[|gs| - 1];
      InLife(gs[..|gs| - 1], life, from) + if g.life == life && g.n >= from then 1 else 0
  }

  /** Grants in the half-open interval [from, to). */
  function InInterval(gs: seq<Grant>, from: int, to: int): nat {
    if gs == [] then 0
    else
      var g := gs[|gs| - 1];
      InInterval(gs[..|gs| - 1], from, to) + if from <= g.time < to then 1 else 0
  }

  function AtLeast0(n: int): nat {
    if n < 0 then 0 else n
  }

  function Min(a: int, b: int): int {
    if a < b then a else b
  }

  // ---- what every step keeps ----

  /** Lifetimes start at least a window apart, and a key that will expire does so no sooner than a
      window after its lifetime began. */
  ghost predicate Spaced(cfg: Settings, w: World) {
    && (forall i, j :: 0 <= i < j < |w.starts| ==> w.starts[i] + cfg.window <= w.starts[j])
    && (forall i :: 0 <= i < |w.starts| ==> w.starts[i] <= w.now)
    && (w.entry.Present? <==> w.starts != [])
    && (w.entry.Present? ==> 1 <= w.entry.count)
    && (w.entry.Present? && w.entry.expiry.Some? ==> w.starts[|w.starts| - 1] + cfg.window <= w.entry.expiry.value)
  }

  /** Only the first hit of a lifetime arms its expiry, and while it has not, the key has none. */
  ghost predicate OneArming(w: World) {
    && (forall c, d :: c in w.arming && d in w.arming ==> c == d)
    && (w.arming != {} ==> w.entry.Present? && w.entry.expiry.None?)
  }

  /** Each grant is dated inside its lifetime, the one with counter value 1 at its start. */
  ghost predicate Dated(w: World) {
    forall i :: 0 <= i < |w.grants| ==>
      var g := w.grants[i];
      && g.life < |w.starts| && 1 <= g.n
      && w.starts[g.life] <= g.time
      && (g.n == 1 ==> g.time == w.starts[g.life])
      && (g.life + 1 < |w.starts| ==> g.time <= w.starts[g.life + 1])
      && g.time <= w.now
  }

  /** What lifetime l can still have granted with counter values from m on. */
  function Cap(cfg: Settings, w: World, l: nat, m: nat): nat {
    if l >= |w.starts| || w.entry.Absent? then 0
    else if l == |w.starts| - 1 then AtLeast0(Min(w.entry.count, cfg.limit) - m + 1)
    else AtLeast0(cfg.limit - m + 1)
  }

  /** No counter value grants twice in a lifetime. */
  ghost predicate Capped(cfg: Settings, w: World) {
    forall l: nat, m: nat :: 1 <= m ==> InLife(w.grants, l, m) <= Cap(cfg, w, l, m)
  }

  ghost predicate Inv(cfg: Settings, w: World) {
    Spaced(cfg, w) && OneArming(w) && Dated(w) && Capped(cfg, w)
  }

  lemma InLifeSnoc(gs: seq<Grant>, g: Grant, life: nat, from: nat)
    ensures InLife(gs + [g], life, from) == InLife(gs, life, from) + if g.life == life && g.n >= from then 1 else 0
  {
    assert (gs + [g])[..|gs|] == gs;
  }

  lemma CappedStep(cfg: Settings, w: World, s: Step)
    requires Spaced(cfg, w) && Capped(cfg, w)
    ensures Capped(cfg, Next(cfg, w, s))
  {
    var w' := Next(cfg, w, s);
    forall l: nat, m: nat | 1 <= m
      ensures InLife(w'.grants, l, m) <= Cap(cfg, w', l, m)
    {
      hide InLife;
      assert InLife(w.grants, l, m) <= Cap(cfg, w, l, m);
      if s.Incr? && w'.grants != w.grants {
        InLifeSnoc(w.grants, Grant(s.time, |w'.starts| - 1, w'.entry.count), l, m);
      }
    }
  }

  lemma SpacedStep(cfg: Settings, w: World, s: Step)
    requires 0 < cfg.window && Spaced(cfg, w) && OneArming(w) && Legal(w, s)
    ensures Spaced(cfg, Next(cfg, w, s)) && OneArming(Next(cfg, w, s))
  {
    var w' := Next(cfg, w, s);
    if s.Expire? {
      assert w'.arming == {};
    } else if s.Incr? && !Live(w.entry, s.time) && w.starts != [] {
      assert w.arming == {};
      var n := |w.starts|;
      assert w.starts[n - 1] + cfg.window <= s.time;
      forall i | 0 <= i < n ensures w'.starts[i] + cfg.window <= w'.starts[n] {
        assert i < n - 1 ==> w.starts[i] + cfg.window <= w.starts[n - 1];
      }
    }
  }

  lemma DatedStep(cfg: Settings, w: World, s: Step)
    requires Spaced(cfg, w) && Dated(w) && Legal(w, s)
    ensures Dated(Next(cfg, w, s))
  {
    var w' := Next(cfg, w, s);
    forall i | 0 <= i < |w'.grants|
      ensures
        var g := w'.grants[i];
        && g.life < |w'.starts| && 1 <= g.n
        && w'.starts[g.life] <= g.time
        && (g.n == 1 ==> g.time == w'.starts[g.life])
        && (g.life + 1 < |w'.starts| ==> g.time <= w'.starts[g.life + 1])
        && g.time <= w'.now
    {
      assert i < |w.grants| ==> w'.grants[i] == w.grants[i];
    }
  }

  lemma StepKeepsInv(cfg: Settings, w: World, s: Step)
    requires 0 < cfg.window && Inv(cfg, w) && Legal(w, s)
    ensures Inv(cfg, Next(cfg, w, s))
  {
    hide Capped, Spaced, Dated, OneArming, Next, Legal;
    CappedStep(cfg, w, s);
    SpacedStep(cfg, w, s);
    DatedStep(cfg, w, s);
  }

  lemma {:induction false} RunKeepsInv(cfg: Settings, t0: int, steps: seq<Step>, i: nat)
    requires 0 < cfg.window && LegalRun(cfg, Initial(t0), steps) && i <= |steps|
    ensures Inv(cfg, At(cfg, Initial(t0), steps, i))
  {
    hide Inv, Legal, Next;
    if i > 0 {
      RunKeepsInv(cfg, t0, steps, i - 1);
      assert Legal(At(cfg, Initial(t0), steps, i - 1), steps[i - 1]);
      StepKeepsInv(cfg, At(cfg, Initial(t0), steps, i - 1), steps[i - 1]);
    } else {
      InitialInv(cfg, t0);
    }
  }

  lemma InitialInv(cfg: Settings, t0: int)
    ensures Inv(cfg, Initial(t0))
  {
  }

  // ---- the limits ----

  /** At most `limit` calls are allowed in each lifetime of the key. */
  lemma AtMostLimitPerLifetime(cfg: Settings, t0: int, steps: seq<Step>, life: nat)
    requires 0 < cfg.window && LegalRun(cfg, Initial(t0), steps)
    ensures InLife(At(cfg, Initial(t0), steps, |steps|).grants, life, 1) <= AtLeast0(cfg.limit)
  {
    RunKeepsInv(cfg, t0, steps, |steps|);
  }

  /** Within the first `n` grants, the one in the interval that has the smallest lifetime. */
  lemma {:induction false} Earliest(gs: seq<Grant>, from: int, to: int) returns (k: nat)
    requires InInterval(gs, from, to) > 0
    ensures k < |gs| && from <= gs[k].time < to
    ensures forall i :: 0 <= i < |gs| && from <= gs[i].time < to ==> gs[k].life <= gs[i].life
  {
    var last := gs[|gs| - 1];
    var init := gs[..|gs| - 1];
    if InInterval(init, from, to) == 0 {
      k := |gs| - 1;
      forall i | 0 <= i < |init| ensures !(from <= gs[i].time < to) {
        NoneInInterval(init, from, to, i);
      }
    } else {
      k := Earliest(init, from, to);
      if from <= last.time < to && last.life < gs[k].life {
        k := |gs| - 1;
      }
      forall i | 0 <= i < |gs| && from <= gs[i].time < to ensures gs[k].life <= gs[i].life {
        assert i < |init| ==> init[i] == gs[i];
      }
    }
  }

  lemma {:induction false} NoneInInterval(gs: seq<Grant>, from: int, to: int, i: nat)
    requires InInterval(gs, from, to) == 0 && i < |gs|
    ensures !(from <= gs[i].time < to)
  {
    if i < |gs| - 1 {
      NoneInInterval(gs[..|gs| - 1], from, to, i);
    }
  }

  /** A set of grants covered by two (lifetime, counter) classes is no larger than both together. */
  lemma {:induction false} TwoClasses(gs: seq<Grant>, from: int, to: int, l: nat, m: nat)
    requires forall i :: 0 <= i < |gs| && from <= gs[i].time < to ==>
               (gs[i].life == l && gs[i].n >= m) || (gs[i].life == l + 1 && gs[i].n >= 1)
    ensures InInterval(gs, from, to) <= InLife(gs, l, m) + InLife(gs, l + 1, 1)
  {
    if gs != [] {
      var init := gs[..|gs| - 1];
      assert forall i :: 0 <= i < |init| ==> init[i] == gs[i];
      TwoClasses(init, from, to, l, m);
    }
  }

  /** A set of grants covered by one lifetime. */
  lemma {:induction false} OneClass(gs: seq<Grant>, from: int, to: int, l: nat)
    requires forall i :: 0 <= i < |gs| && from <= gs[i].time < to ==> gs[i].life == l && gs[i].n >= 1
    ensures InInterval(gs, from, to) <= InLife(gs, l, 1)
  {
    if gs != [] {
      var init := gs[..|gs| - 1];
      assert forall i :: 0 <= i < |init| ==> init[i] == gs[i];
      OneClass(init, from, to, l);
    }
  }

  /** A grant in [from, from + window) whose lifetime is at least two after that of another grant
      there, or one after that of a lifetime beginning there, is impossible. */
  lemma LivesInInterval(cfg: Settings, w: World, from: int, k: nat, i: nat)
    requires 0 < cfg.window && Inv(cfg, w)
    requires k < |w.grants| && i < |w.grants|
    requires from <= w.grants[k].time < from + cfg.window && from <= w.grants[i].time < from + cfg.window
    requires w.grants[k].life < w.grants[i].life
    ensures w.grants[i].life == w.grants[k].life + 1
    ensures w.starts[w.grants[k].life] < from
  {
    var g, h := w.grants[k], w.grants[i];
    assert w.starts[g.life] + cfg.window <= w.starts[h.life] <= h.time;
  }

  /** In any half-open interval as long as the window at most 2 * limit - 1 calls are allowed (none
      when the limit is not positive): the advertised burst at a window boundary, exactly. */
  lemma BurstBound(cfg: Settings, t0: int, steps: seq<Step>, from: int)
    requires 0 < cfg.window && LegalRun(cfg, Initial(t0), steps)
    ensures InInterval(At(cfg, Initial(t0), steps, |steps|).grants, from, from + cfg.window) <= AtLeast0(2 * cfg.limit - 1)
  {
    var w := At(cfg, Initial(t0), steps, |steps|);
    RunKeepsInv(cfg, t0, steps, |steps|);
    WorldBurstBound(cfg, w, from);
  }

  lemma WorldBurstBound(cfg: Settings, w: World, from: int)
    requires 0 < cfg.window && Inv(cfg, w)
    ensures InInterval(w.grants, from, from + cfg.window) <= AtLeast0(2 * cfg.limit - 1)
  {
    var gs, to := w.grants, from + cfg.window;
    if InInterval(gs, from, to) > 0 {
      var k := Earliest(gs, from, to);
      var l := gs[k].life;
      if other :| 0 <= other < |gs| && from <= gs[other].time < to && gs[other].life != l {
        LivesInInterval(cfg, w, from, k, other);
        forall i | 0 <= i < |gs| && from <= gs[i].time < to
          ensures (gs[i].life == l && gs[i].n >= 2) || (gs[i].life == l + 1 && gs[i].n >= 1)
        {
          if gs[i].life != l { LivesInInterval(cfg, w, from, k, i); }
        }
        TwoClasses(gs, from, to, l, 2);
        assert InLife(gs, l, 2) <= AtLeast0(cfg.limit - 1);
        assert InLife(gs, l + 1, 1) <= AtLeast0(cfg.limit);
      } else {
        OneClass(gs, from, to, l);
        assert InLife(gs, l, 1) <= AtLeast0(cfg.limit);
      }
    }
  }


  // ---- the burst bound is attained ----

  lemma {:induction false} AtPrefix(cfg: Settings, w0: World, steps: seq<Step>, s: Step, i: nat)
    requires i <= |steps|
    ensures At(cfg, w0, steps + [s], i) == At(cfg, w0, steps, i)
  {
    if i > 0 {
      AtPrefix(cfg, w0, steps, s, i - 1);
      assert (steps + [s])[i - 1] == steps[i - 1];
    }
  }

  lemma RunGrows(cfg: Settings, w0: World, steps: seq<Step>, s: Step)
    requires LegalRun(cfg, w0, steps) && Legal(At(cfg, w0, steps, |steps|), s)
    ensures LegalRun(cfg, w0, steps + [s])
    ensures At(cfg, w0, steps + [s], |steps| + 1) == Next(cfg, At(cfg, w0, steps, |steps|), s)
  {
    hide Next, Legal;
    forall i | 0 <= i < |steps| + 1 ensures Legal(At(cfg, w0, steps + [s], i), (steps + [s])[i]) {
      AtPrefix(cfg, w0, steps, s, i);
      if i < |steps| {
        assert (steps + [s])[i] == steps[i] && Legal(At(cfg, w0, steps, i), steps[i]);
      }
    }
    AtPrefix(cfg, w0, steps, s, |steps|);
  }

  lemma InIntervalSnoc(gs: seq<Grant>, g: Grant, from: int, to: int)
    ensures InInterval(gs + [g], from, to) == InInterval(gs, from, to) + if from <= g.time < to then 1 else 0
  {
    assert (gs + [g])[..|gs|] == gs;
  }

  /** The key has been hit n times in its current lifetime, which ends at `expiry`, and nobody is arming. */
  predicate Counting(w: World, n: nat, expiry: int) {
    w.entry == Present(n, Some(expiry)) && w.arming == {} && w.starts != []
  }

  lemma BeginStep(cfg: Settings, w: World, t: int, from: int, to: int)
    requires cfg.limit >= 1 && cfg.window > 0 && w.now <= t && !Live(w.entry, t) && w.arming == {}
    ensures Legal(w, Incr(t, 0, true))
    ensures var w1 := Next(cfg, w, Incr(t, 0, true));
      && Legal(w1, Expire(t, 0))
      && var w2 := Next(cfg, w1, Expire(t, 0));
      && w2.now == t && Counting(w2, 1, t + cfg.window)
      && InInterval(w2.grants, from, to) == InInterval(w.grants, from, to) + if from <= t < to then 1 else 0
  {
    InIntervalSnoc(w.grants, Grant(t, |w.starts|, 1), from, to);
    hide InInterval;
    assert {} + {0} - {0} == {};
  }

  lemma HitStep(cfg: Settings, w: World, n: nat, t: int, expiry: int, from: int, to: int)
    requires 1 <= n < cfg.limit && w.now <= t < expiry && Counting(w, n, expiry)
    ensures Legal(w, Incr(t, 0, true))
    ensures var w' := Next(cfg, w, Incr(t, 0, true));
      && w'.now == t && Counting(w', n + 1, expiry)
      && InInterval(w'.grants, from, to) == InInterval(w.grants, from, to) + if from <= t < to then 1 else 0
  {
    InIntervalSnoc(w.grants, Grant(t, |w.starts| - 1, n + 1), from, to);
    hide InInterval;
  }

  /** A run that ends in `w`. */
  ghost predicate Reaches(cfg: Settings, steps: seq<Step>, w: World) {
    LegalRun(cfg, Initial(0), steps) && At(cfg, Initial(0), steps, |steps|) == w
  }

  lemma ReachesStart(cfg: Settings, from: int, to: int)
    ensures Reaches(cfg, [], Initial(0)) && InInterval(Initial(0).grants, from, to) == 0
  {
  }

  lemma ReachesNext(cfg: Settings, steps: seq<Step>, w: World, s: Step)
    requires Reaches(cfg, steps, w) && Legal(w, s)
    ensures Reaches(cfg, steps + [s], Next(cfg, w, s))
  {
    hide LegalRun, At, Legal, Next;
    RunGrows(cfg, Initial(0), steps, s);
  }

  /** A caller begins a lifetime at time t, and its call is allowed. */
  lemma BeginLifetime(cfg: Settings, steps: seq<Step>, w: World, t: int, from: int, to: int) returns (steps': seq<Step>, w': World)
    requires Reaches(cfg, steps, w) && cfg.limit >= 1 && cfg.window > 0
    requires w.now <= t && !Live(w.entry, t) && w.arming == {}
    ensures Reaches(cfg, steps', w') && w'.now == t && Counting(w', 1, t + cfg.window)
    ensures InInterval(w'.grants, from, to) == InInterval(w.grants, from, to) + if from <= t < to then 1 else 0
  {
    BeginStep(cfg, w, t, from, to);
    hide Reaches, Next, Legal, Counting, InInterval;
    ReachesNext(cfg, steps, w, Incr(t, 0, true));
    var w1 := Next(cfg, w, Incr(t, 0, true));
    ReachesNext(cfg, steps + [Incr(t, 0, true)], w1, Expire(t, 0));
    steps', w' := steps + [Incr(t, 0, true)] + [Expire(t, 0)], Next(cfg, w1, Expire(t, 0));
  }

  /** Further calls at time t in the same lifetime, all of them allowed. */
  lemma {:induction false} HitMore(cfg: Settings, steps: seq<Step>, w: World, n: nat, more: nat, t: int, expiry: int, from: int, to: int)
    returns (steps': seq<Step>, w': World)
    requires Reaches(cfg, steps, w) && 1 <= n && n + more <= cfg.limit && w.now <= t < expiry && Counting(w, n, expiry)
    ensures Reaches(cfg, steps', w') && w'.now <= t && Counting(w', n + more, expiry)
    ensures InInterval(w'.grants, from, to) == InInterval(w.grants, from, to) + if from <= t < to then more else 0
    decreases more
  {
    hide Reaches, Next, Legal, Counting, InInterval;
    steps', w' := steps, w;
    if more > 0 {
      HitStep(cfg, w, n, t, expiry, from, to);
      ReachesNext(cfg, steps, w, Incr(t, 0, true));
      steps', w' := HitMore(cfg, steps + [Incr(t, 0, true)], Next(cfg, w, Incr(t, 0, true)), n + 1, more - 1, t, expiry, from, to);
    }
  }

  /** A run with 2 * limit - 1 calls allowed in one half-open interval as long as the window. */
  ghost predicate BurstsFully(cfg: Settings, steps: seq<Step>, w: World) {
    && Reaches(cfg, steps, w)
    && InInterval(w.grants, cfg.window - 1, cfg.window - 1 + cfg.window) == 2 * cfg.limit - 1
  }

  /** The bound is attained for every positive limit and every window of at least two ticks: one call at the
      start of a lifetime, the rest of the limit in its last tick, and a whole limit in the next one. */
  lemma BurstBoundAttained(cfg: Settings)
    requires cfg.limit >= 1 && cfg.window >= 2
    ensures exists steps, w :: BurstsFully(cfg, steps, w)
  {
    hide Reaches, InInterval, At, LegalRun;
    var from, to := cfg.window - 1, cfg.window - 1 + cfg.window;
    ReachesStart(cfg, from, to);
    var steps, w := BeginLifetime(cfg, [], Initial(0), 0, from, to);
    steps, w := HitMore(cfg, steps, w, 1, cfg.limit - 1, cfg.window - 1, cfg.window, from, to);
    steps, w := BeginLifetime(cfg, steps, w, cfg.window, from, to);
    steps, w := HitMore(cfg, steps, w, 1, cfg.limit - 1, cfg.window, cfg.window + cfg.window, from, to);
    assert BurstsFully(cfg, steps, w);
  }

  /** Fails closed: from a point where the key has no expiry, and while no EXPIRE arrives (because
      the first caller crashed, or its reply was lost), the counter only rises, so at most
      limit - count more calls are ever allowed. */
  lemma {:induction false} FailsClosed(cfg: Settings, t0: int, steps: seq<Step>, i: nat, j: nat)
    requires 0 < cfg.window && LegalRun(cfg, Initial(t0), steps) && i <= j <= |steps|
    requires At(cfg, Initial(t0), steps, i).entry.Present? && At(cfg, Initial(t0), steps, i).entry.expiry.None?
    requires forall k :: i <= k < j ==> !steps[k].Expire?
    ensures
      var w, w' := At(cfg, Initial(t0), steps, i), At(cfg, Initial(t0), steps, j);
      && w'.entry.Present? && w'.entry.expiry.None? && w.entry.count <= w'.entry.count
      && w'.starts == w.starts
      && |w'.grants| - |w.grants| <= AtLeast0(Min(w'.entry.count, cfg.limit) - w.entry.count)
    decreases j - i
  {
    hide Next, LegalRun;
    if i < j {
      FailsClosed(cfg, t0, steps, i, j - 1);
      assert !steps[j - 1].Expire?;
      CountsUp(cfg, At(cfg, Initial(t0), steps, j - 1), steps[j - 1]);
    }
  }

  lemma CountsUp(cfg: Settings, w: World, s: Step)
    requires w.entry.Present? && w.entry.expiry.None? && !s.Expire?
    ensures
      var w' := Next(cfg, w, s);
      && w'.entry.Present? && w'.entry.expiry.None? && w.entry.count <= w'.entry.count
      && w'.starts == w.starts
      && |w.grants| <= |w'.grants|
      && |w'.grants| - |w.grants| <= AtLeast0(Min(w'.entry.count, cfg.limit) - w.entry.count)
  {
  }

  // ---- exactly which calls are allowed ----

  /** The INCRs among steps a, ..., b - 1, answered or not. */
  function Hits(steps: seq<Step>, a: nat, b: nat): nat
    requires a <= b <= |steps|
    decreases b
  {
    if a == b then 0 else Hits(steps, a, b - 1) + if steps[b - 1].Incr? then 1 else 0
  }

  /** A call is allowed if and only if it is answered and its number is not over the limit. */
  lemma AllowedIff(cfg: Settings, t0: int, steps: seq<Step>, j: nat)
    requires 0 < cfg.window && LegalRun(cfg, Initial(t0), steps) && j < |steps| && steps[j].Incr?
    ensures
      var w, w' := At(cfg, Initial(t0), steps, j), At(cfg, Initial(t0), steps, j + 1);
      && w'.entry.Present?
      && var allowed := steps[j].delivered && w'.entry.count <= cfg.limit;
         |w'.starts| > 0 && w'.grants ==
         w.grants + if allowed then [Grant(steps[j].time, |w'.starts| - 1, w'.entry.count)] else []
  {
    RunKeepsInv(cfg, t0, steps, j);
    var w, w' := At(cfg, Initial(t0), steps, j), At(cfg, Initial(t0), steps, j + 1);
    assert w' == Next(cfg, w, steps[j]);
    assert w.grants + [] == w.grants;
  }

  /** The first call after a point without a key gets number 1, without an expiry. */
  lemma FirstCall(cfg: Settings, t0: int, steps: seq<Step>, j: nat)
    requires j < |steps| && steps[j].Incr? && At(cfg, Initial(t0), steps, j).entry.Absent?
    ensures At(cfg, Initial(t0), steps, j + 1).entry == Present(1, None)
  {
  }

  /** From a point where the key has no expiry and a count, and while no EXPIRE arrives, the calls get the numbers
      count + 1, count + 2, ...: exactly the answered ones among the next limit - count are allowed, and then none. */
  lemma {:induction false} UnarmedCounts(cfg: Settings, t0: int, steps: seq<Step>, i: nat, j: nat)
    requires i <= j <= |steps| && forall k :: i <= k < j ==> !steps[k].Expire?
    requires At(cfg, Initial(t0), steps, i).entry.Present? && At(cfg, Initial(t0), steps, i).entry.expiry.None?
    ensures At(cfg, Initial(t0), steps, j).entry ==
            Present(At(cfg, Initial(t0), steps, i).entry.count + Hits(steps, i, j), None)
    decreases j
  {
    if i < j {
      UnarmedCounts(cfg, t0, steps, i, j - 1);
      assert !steps[j - 1].Expire?;
    }
  }

  /** After the EXPIRE of a lifetime nobody is left to send another one while calls keep hitting it. */
  lemma {:induction false} ArmedCounts(cfg: Settings, t0: int, steps: seq<Step>, e: nat, j: nat)
    requires 0 < cfg.window && LegalRun(cfg, Initial(t0), steps)
    requires e < j <= |steps| && steps[e].Expire?
    requires forall k :: e < k < j && steps[k].Incr? ==> steps[k].time < steps[e].time + cfg.window
    ensures
      var w, w' := At(cfg, Initial(t0), steps, e), At(cfg, Initial(t0), steps, j);
      && w.entry.Present? && w'.arming == {}
      && w'.entry == Present(w.entry.count + Hits(steps, e, j), Some(steps[e].time + cfg.window))
    decreases j
  {
    hide LegalRun, Next, Legal, Spaced, OneArming, Dated, Capped;
    RunKeepsInv(cfg, t0, steps, j - 1);
    LegalAt(cfg, t0, steps, j - 1);
    if j == e + 1 {
      assert Hits(steps, e, e) == 0;
      ArmStep(cfg, At(cfg, Initial(t0), steps, e), steps[e]);
    } else {
      ArmedCounts(cfg, t0, steps, e, j - 1);
      ArmedStep(cfg, At(cfg, Initial(t0), steps, j - 1), steps[j - 1]);
    }
  }

  lemma LegalAt(cfg: Settings, t0: int, steps: seq<Step>, i: nat)
    requires LegalRun(cfg, Initial(t0), steps) && i < |steps|
    ensures Legal(At(cfg, Initial(t0), steps, i), steps[i])
  {
  }

  lemma ArmStep(cfg: Settings, w: World, s: Step)
    requires OneArming(w) && Legal(w, s) && s.Expire?
    ensures w.entry.Present? && Next(cfg, w, s).entry == Present(w.entry.count, Some(s.time + cfg.window))
    ensures Next(cfg, w, s).arming == {}
  {
  }

  lemma ArmedStep(cfg: Settings, w: World, s: Step)
    requires Spaced(cfg, w) && w.arming == {} && Legal(w, s)
    requires w.entry.Present? && w.entry.expiry.Some? && (s.Incr? ==> s.time < w.entry.expiry.value)
    ensures Next(cfg, w, s).entry == Present(w.entry.count + if s.Incr? then 1 else 0, w.entry.expiry)
    ensures Next(cfg, w, s).arming == {}
  {
  }

  /** The window closes exactly `window` after the EXPIRE: a call before that gets the next number, and the first call
      from then on gets number 1 of a new lifetime, without an expiry. */
  lemma WindowReopens(cfg: Settings, t0: int, steps: seq<Step>, e: nat, j: nat)
    requires 0 < cfg.window && LegalRun(cfg, Initial(t0), steps)
    requires e < j < |steps| && steps[e].Expire? && steps[j].Incr?
    requires forall k :: e < k < j && steps[k].Incr? ==> steps[k].time < steps[e].time + cfg.window
    ensures
      var w, w' := At(cfg, Initial(t0), steps, e), At(cfg, Initial(t0), steps, j + 1);
      && w.entry.Present?
      && w'.entry ==
           if steps[j].time < steps[e].time + cfg.window
           then Present(w.entry.count + Hits(steps, e, j) + 1, Some(steps[e].time + cfg.window))
           else Present(1, None)
  {
    ArmedCounts(cfg, t0, steps, e, j);
  }

  // ---- the code ----

  /** A step that belongs to the call of `me`. */
  predicate Acts(s: Step, me: nat) {
    s.caller == me
  }

  function Later(t: int, now: int): int {
    if t < now then now else t
  }

  /** What becomes of a command: a lost reply leaves its effect, a lost request has none. */
  datatype Fate = Answered | ReplyLost | RequestLost

  /** The server and everyone who calls it; `steps` records the run so far. */
  class Limiter {
    const cfg: Settings
    var w: World
    ghost const t0: int
    ghost var steps: seq<Step>

    ghost predicate Recorded()
      reads this
    {
      && LegalRun(cfg, Initial(t0), steps) && w == At(cfg, Initial(t0), steps, |steps|)
      && (w.entry.Present? ==> w.starts != [])
    }

    constructor (cfg: Settings, t0: int)
      ensures Recorded() && this.cfg == cfg && w == Initial(t0)
    {
      this.cfg, w, this.t0, steps := cfg, Initial(t0), t0, [];
    }

    method Do(s: Step)
      requires Recorded() && Legal(w, s)
      modifies this
      ensures Recorded() && w == Next(cfg, old(w), s) && steps == old(steps) + [s]
    {
      RunGrows(cfg, Initial(t0), steps, s);
      hide LegalRun, At, Legal;
      w := Next(cfg, w, s);
      steps := steps + [s];
    }

    /** The commands of other callers: of `during`, whatever is possible when its turn comes. */
    method Others(me: nat, during: seq<Step>)
      requires Recorded()
      modifies this
      ensures Recorded() && old(steps) <= steps && old(w.now) <= w.now && (me in w.arming <==> me in old(w.arming))
      ensures old(w.grants) <= w.grants
    {
      hide LegalRun, At;
      for i := 0 to |during|
        invariant Recorded() && old(steps) <= steps && old(w.now) <= w.now && (me in w.arming <==> me in old(w.arming))
        invariant old(w.grants) <= w.grants
      {
        if Legal(w, during[i]) && !Acts(during[i], me) {
          Do(during[i]);
        }
      }
    }

    /** One call, with the commands others get in between its INCR and its EXPIRE, and with either request or
        reply possibly lost.  `None` is an error return.  The call is allowed exactly when the counter was below the
        limit and nothing was lost, and an allowed call is one of the run's grants. */
    method Allow(me: nat, incrAt: int, incr: Fate, between: seq<Step>, expireAt: int, expire: Fate) returns (r: Option<bool>)
      requires Recorded() && me !in w.arming
      modifies this
      ensures Recorded() && old(steps) <= steps && me !in w.arming
      ensures incr.RequestLost? ==> r == None && steps == old(steps)
      ensures !incr.RequestLost? ==>
        var t := Later(incrAt, old(w.now));
        var n := Bumped(old(w.entry), t).count;
        var arms := incr.Answered? && n == 1;
        && r == (if !incr.Answered? || (arms && !expire.Answered?) then None else Some(n <= cfg.limit))
        && |steps| > |old(steps)| && steps[|old(steps)|] == Incr(t, me, incr.Answered?)
        && (!arms ==> |steps| == |old(steps)| + 1)
        && (arms ==> steps[|steps| - 1].caller == me && if expire.RequestLost? then steps[|steps| - 1].Crash? else steps[|steps| - 1].Expire?)
        && (r == Some(true) ==> |w.grants| > |old(w.grants)| && w.grants[|old(w.grants)|].time == t && w.grants[|old(w.grants)|].n == n)
    {
      if incr.RequestLost? {
        return None;
      }
      hide LegalRun, At, Recorded;
      Do(Incr(Later(incrAt, w.now), me, incr.Answered?));
      if !incr.Answered? {
        return None;
      }
      var n := w.entry.count;
      if n == 1 {
        ghost var first, granted := steps, w.grants;
        Others(me, between);
        if expire.RequestLost? {
          Do(Crash(Later(expireAt, w.now), me));
        } else {
          Do(Expire(Later(expireAt, w.now), me));
        }
        assert first <= steps && granted <= w.grants;
        if !expire.Answered? {
          return None;
        }
      }
      return Some(n <= cfg.limit);
    }
  }
}
