/** The RabbitMQ consumer (messaging/rabbitmq/runner.go): dispatch of one delivery, the attempt cap
    and the bounded duplicate filter.  A run is any sequence of deliveries with any handler outcomes;
    redeliveries are simply further deliveries of the same id. */
module Consumer {

  import opened Options

  datatype Outcome = Ack | Requeue | DeadLetter

  /** Options: `maxAttempts` not positive means unlimited, `dedup` is the filter's capacity if any. */
  datatype Config = Config(maxAttempts: int, dedup: Option<nat>)

  predicate ValidConfig(cfg: Config) {
    cfg.dedup.Some? ==> cfg.dedup.value > 0
  }

  datatype Delivery = Delivery(id: string, outcome: Outcome)

  /** `order` is the filter's queue of ids, oldest first. */
  datatype State = State(order: seq<string>, attempts: map<string, nat>)

  const Fresh := State([], map[])

  // ---- one dispatch ----

  predicate Runs(cfg: Config, st: State, d: Delivery) {
    !(cfg.dedup.Some? && d.id != "" && d.id in st.order)
  }

  function AttemptsOf(st: State, id: string): nat {
    if id in st.attempts then st.attempts[id] else 0
  }

  predicate Capped(cfg: Config, id: string) {
    cfg.maxAttempts > 0 && id != ""
  }

  /** The outcome after the attempt cap has been applied. */
  function Decided(cfg: Config, st: State, d: Delivery): Outcome {
    if d.outcome == Requeue && Capped(cfg, d.id) && AttemptsOf(st, d.id) + 1 >= cfg.maxAttempts
    then DeadLetter else d.outcome
  }

  function MarkedOrder(cap: nat, order: seq<string>, id: string): seq<string> {
    if id == "" || id in order then order
    else if |order| >= cap && order != [] then order[1..] + [id]
    else order + [id]
  }

  function Next(cfg: Config, st: State, d: Delivery): State {
    if !Runs(cfg, st, d) then st
    else
      match Decided(cfg, st, d)
      case Requeue =>
        if Capped(cfg, d.id) then st.(attempts := st.attempts[d.id := AttemptsOf(st, d.id) + 1]) else st
      case Ack =>
        State(if cfg.dedup.Some? then MarkedOrder(cfg.dedup.value, st.order, d.id) else st.order, st.attempts - {d.id})
      case DeadLetter => st.(attempts := st.attempts - {d.id})
  }

  function At(cfg: Config, ds: seq<Delivery>, i: nat): State
    requires i <= |ds|
  {
    if i == 0 then Fresh else Next(cfg, At(cfg, ds, i - 1), ds[i - 1])
  }

  predicate HandlerRuns(cfg: Config, ds: seq<Delivery>, i: nat)
    requires i < |ds|
  {
    Runs(cfg, At(cfg, ds, i), ds[i])
  }

  /** Delivery i went back to the queue. */
  predicate Requeued(cfg: Config, ds: seq<Delivery>, i: nat)
    requires i < |ds|
  {
    HandlerRuns(cfg, ds, i) && Decided(cfg, At(cfg, ds, i), ds[i]) == Requeue
  }

  /** Delivery i was settled in a way that forgets the attempts of its id. */
  predicate Forgets(cfg: Config, ds: seq<Delivery>, i: nat)
    requires i < |ds|
  {
    HandlerRuns(cfg, ds, i) && Decided(cfg, At(cfg, ds, i), ds[i]) != Requeue
  }

  // ---- the attempt cap ----

  /** How often `id` was requeued by deliveries number from, ..., upto - 1. */
  function Requeues(cfg: Config, ds: seq<Delivery>, id: string, from: nat, upto: nat): nat
    requires from <= upto <= |ds|
    decreases upto
  {
    if upto == from then 0
    else Requeues(cfg, ds, id, from, upto - 1) + if ds[upto - 1].id == id && Requeued(cfg, ds, upto - 1) then 1 else 0
  }

  lemma {:induction false} CountsRequeues(cfg: Config, ds: seq<Delivery>, id: string, from: nat, upto: nat)
    requires Capped(cfg, id) && from <= upto <= |ds|
    requires forall k :: from <= k < upto && ds[k].id == id ==> !Forgets(cfg, ds, k)
    ensures AttemptsOf(At(cfg, ds, upto), id) == AttemptsOf(At(cfg, ds, from), id) + Requeues(cfg, ds, id, from, upto)
    decreases upto
  {
    if from < upto {
      CountsRequeues(cfg, ds, id, from, upto - 1);
    }
  }

  lemma {:induction false} AttemptsBelowCap(cfg: Config, ds: seq<Delivery>, id: string, i: nat)
    requires Capped(cfg, id) && i <= |ds|
    ensures AttemptsOf(At(cfg, ds, i), id) < cfg.maxAttempts
  {
    if i > 0 {
      AttemptsBelowCap(cfg, ds, id, i - 1);
    }
  }

  /** With a positive cap M, a non-empty id is requeued at most M - 1 times between two settlements
      that forget it. */
  lemma AtMostCapRequeues(cfg: Config, ds: seq<Delivery>, id: string, from: nat, upto: nat)
    requires Capped(cfg, id) && from <= upto <= |ds|
    requires forall k :: from <= k < upto && ds[k].id == id ==> !Forgets(cfg, ds, k)
    ensures Requeues(cfg, ds, id, from, upto) <= cfg.maxAttempts - 1
  {
    CountsRequeues(cfg, ds, id, from, upto);
    AttemptsBelowCap(cfg, ds, id, upto);
  }

  /** A handler that asks for a requeue is overruled exactly when the id has been requeued M - 1 times
      since its attempts were last forgotten; without a cap or an id it never is. */
  lemma OverruledIff(cfg: Config, ds: seq<Delivery>, from: nat, i: nat)
    requires from <= i < |ds| && ds[i].outcome == Requeue && HandlerRuns(cfg, ds, i)
    requires AttemptsOf(At(cfg, ds, from), ds[i].id) == 0
    requires forall k :: from <= k < i && ds[k].id == ds[i].id ==> !Forgets(cfg, ds, k)
    ensures !Requeued(cfg, ds, i) <==> Capped(cfg, ds[i].id) && Requeues(cfg, ds, ds[i].id, from, i) == cfg.maxAttempts - 1
  {
    if Capped(cfg, ds[i].id) {
      CountsRequeues(cfg, ds, ds[i].id, from, i);
      AttemptsBelowCap(cfg, ds, ds[i].id, i);
    }
  }

  /** An ack, a dead-letter and an overruled requeue all forget the attempts of their id; no delivery touches the
      attempts of another id, and neither does a duplicate touch any. */
  lemma SettlementForgets(cfg: Config, ds: seq<Delivery>, i: nat)
    requires i < |ds|
    ensures HandlerRuns(cfg, ds, i) && ds[i].outcome != Requeue ==> Forgets(cfg, ds, i)
    ensures HandlerRuns(cfg, ds, i) && ds[i].outcome == Requeue ==> (Forgets(cfg, ds, i) <==> !Requeued(cfg, ds, i))
    ensures Forgets(cfg, ds, i) ==> AttemptsOf(At(cfg, ds, i + 1), ds[i].id) == 0
    ensures forall id :: id != ds[i].id ==> AttemptsOf(At(cfg, ds, i + 1), id) == AttemptsOf(At(cfg, ds, i), id)
    ensures !HandlerRuns(cfg, ds, i) ==> At(cfg, ds, i + 1) == At(cfg, ds, i)
  {
  }

  /** The attempts of an id are its requeues since the run began or since it was last settled otherwise. */
  lemma AttemptsSinceSettled(cfg: Config, ds: seq<Delivery>, id: string, from: nat, i: nat)
    requires Capped(cfg, id) && from <= i <= |ds|
    requires from == 0 || (ds[from - 1].id == id && Forgets(cfg, ds, from - 1))
    requires forall k :: from <= k < i && ds[k].id == id ==> !Forgets(cfg, ds, k)
    ensures AttemptsOf(At(cfg, ds, i), id) == Requeues(cfg, ds, id, from, i)
  {
    if from > 0 {
      SettlementForgets(cfg, ds, from - 1);
    }
    CountsRequeues(cfg, ds, id, from, i);
  }

  /** A requested requeue is overruled exactly at the M-th attempt since the run began or since the id was last
      settled otherwise: it starts afresh after every ack and every dead-letter. */
  lemma OverruledSinceSettledIff(cfg: Config, ds: seq<Delivery>, from: nat, i: nat)
    requires from <= i < |ds| && ds[i].outcome == Requeue && HandlerRuns(cfg, ds, i)
    requires from == 0 || (ds[from - 1].id == ds[i].id && Forgets(cfg, ds, from - 1))
    requires forall k :: from <= k < i && ds[k].id == ds[i].id ==> !Forgets(cfg, ds, k)
    ensures !Requeued(cfg, ds, i) <==>
              cfg.maxAttempts > 0 && ds[i].id != "" && Requeues(cfg, ds, ds[i].id, from, i) == cfg.maxAttempts - 1
  {
    if Capped(cfg, ds[i].id) {
      AttemptsSinceSettled(cfg, ds, ds[i].id, from, i);
      AttemptsBelowCap(cfg, ds, ds[i].id, i);
    }
  }

  // ---- the duplicate filter ----

  /** Does delivery i put a new id into the filter? */
  predicate Inserts(cfg: Config, ds: seq<Delivery>, i: nat)
    requires i < |ds|
  {
    && cfg.dedup.Some? && HandlerRuns(cfg, ds, i) && ds[i].outcome == Ack
    && ds[i].id != "" && ds[i].id !in At(cfg, ds, i).order
  }

  /** Every id the filter ever took in, in order. */
  function Inserted(cfg: Config, ds: seq<Delivery>, i: nat): seq<string>
    requires i <= |ds|
  {
    if i == 0 then []
    else Inserted(cfg, ds, i - 1) + if Inserts(cfg, ds, i - 1) then [ds[i - 1].id] else []
  }

  function LastOf(s: seq<string>, n: nat): seq<string> {
    if |s| <= n then s else s[|s| - n..]
  }

  lemma LastOfSnoc(s: seq<string>, x: string, n: nat)
    requires n > 0
    ensures LastOf(s + [x], n) == if |LastOf(s, n)| >= n then LastOf(s, n)[1..] + [x] else LastOf(s, n) + [x]
  {
  }

  lemma KeptIfRecent(s: seq<string>, n: nat, cap: nat, id: string)
    requires 1 <= n <= |s| && s[n - 1] == id && |s| - n < cap
    ensures id in LastOf(s, cap)
  {
    var kept := LastOf(s, cap);
    assert kept[n - 1 - (|s| - |kept|)] == id;
  }

  /** An element last added as number n is among the last `cap` exactly while fewer than `cap` followed. */
  lemma KeptIff(s: seq<string>, n: nat, cap: nat, id: string)
    requires 1 <= n <= |s| && s[n - 1] == id
    requires forall p :: n <= p < |s| ==> s[p] != id
    ensures id in LastOf(s, cap) <==> |s| - n < cap
  {
    if |s| - n < cap {
      KeptIfRecent(s, n, cap, id);
    } else {
      var kept := LastOf(s, cap);
      forall p | 0 <= p < |kept| ensures kept[p] != id {
        assert kept[p] == s[|s| - cap + p];
      }
    }
  }

  /** The filter always holds the last `capacity` ids it took in. */
  lemma {:induction false} FilterIsLastInsertions(cfg: Config, ds: seq<Delivery>, i: nat)
    requires ValidConfig(cfg) && cfg.dedup.Some? && i <= |ds|
    ensures At(cfg, ds, i).order == LastOf(Inserted(cfg, ds, i), cfg.dedup.value)
  {
    if i > 0 {
      hide LastOf;
      FilterIsLastInsertions(cfg, ds, i - 1);
      if Inserts(cfg, ds, i - 1) {
        LastOfSnoc(Inserted(cfg, ds, i - 1), ds[i - 1].id, cfg.dedup.value);
      } else {
        assert Inserted(cfg, ds, i) == Inserted(cfg, ds, i - 1);
      }
    } else {
      assert LastOf([], cfg.dedup.value) == [];
    }
  }

  lemma {:induction false} InsertedExtends(cfg: Config, ds: seq<Delivery>, i: nat, j: nat, id: string)
    requires i <= j <= |ds|
    ensures Inserted(cfg, ds, i) <= Inserted(cfg, ds, j)
    ensures (forall k :: i <= k < j && ds[k].id == id ==> !Inserts(cfg, ds, k)) ==>
              forall p :: |Inserted(cfg, ds, i)| <= p < |Inserted(cfg, ds, j)| ==> Inserted(cfg, ds, j)[p] != id
    decreases j - i
  {
    if i < j {
      InsertedExtends(cfg, ds, i, j - 1, id);
    }
  }

  /** After a delivery of an id has been handled and acked, a redelivery runs the handler again if and
      only if at least `capacity` further new ids have been marked in between. */
  lemma RedeliveryRunsIff(cfg: Config, ds: seq<Delivery>, i: nat, j: nat)
    requires ValidConfig(cfg) && cfg.dedup.Some? && i < j < |ds|
    requires ds[i].id == ds[j].id != "" && HandlerRuns(cfg, ds, i) && ds[i].outcome == Ack
    requires forall k :: i < k < j && ds[k].id == ds[i].id ==> !Inserts(cfg, ds, k)
    ensures HandlerRuns(cfg, ds, j) <==>
              |Inserted(cfg, ds, j)| - |Inserted(cfg, ds, i + 1)| >= cfg.dedup.value
  {
    hide LastOf;
    var id, cap := ds[i].id, cfg.dedup.value;
    var then', now := Inserted(cfg, ds, i + 1), Inserted(cfg, ds, j);
    FilterIsLastInsertions(cfg, ds, j);
    InsertedExtends(cfg, ds, i + 1, j, id);
    assert then'[|then'| - 1] == id;
    assert now[|then'| - 1] == id;
    KeptIff(now, |then'|, cap, id);
  }

  /** In particular the handler does not see the id again before `capacity` new ids have been marked,
      whatever is delivered in between. */
  lemma NotReprocessedEarly(cfg: Config, ds: seq<Delivery>, i: nat, j: nat)
    requires ValidConfig(cfg) && cfg.dedup.Some? && i < j < |ds|
    requires ds[i].id == ds[j].id != "" && HandlerRuns(cfg, ds, i) && ds[i].outcome == Ack
    requires |Inserted(cfg, ds, j)| - |Inserted(cfg, ds, i + 1)| < cfg.dedup.value
    ensures !HandlerRuns(cfg, ds, j)
  {
    var cap := cfg.dedup.value;
    var then', now := Inserted(cfg, ds, i + 1), Inserted(cfg, ds, j);
    FilterIsLastInsertions(cfg, ds, j);
    InsertedExtends(cfg, ds, i + 1, j, "");
    assert now[|then'| - 1] == then'[|then'| - 1] == ds[i].id;
    KeptIfRecent(now, |then'|, cap, ds[i].id);
  }

  // ---- the code ----

  /** The filter: a queue and a set with the same elements. */
  class Dedup {
    const cap: nat
    var order: seq<string>
    var elems: set<string>

    ghost predicate Valid()
      reads this
    {
      && cap > 0 && |order| <= cap
      && elems == (set x | x in order)
      && "" !in elems
      && forall i, j :: 0 <= i < j < |order| ==> order[i] != order[j]
    }

    constructor (capacity: int)
      ensures Valid() && order == []
      ensures cap == if capacity <= 0 then 1024 else capacity
    {
      cap := if capacity <= 0 then 1024 else capacity;
      order, elems := [], {};
    }

    method Seen(id: string) returns (seen: bool)
      requires Valid()
      ensures seen <==> id != "" && id in order
    {
      if id == "" {
        return false;
      }
      return id in elems;
    }

    method Mark(id: string)
      requires Valid()
      modifies this
      ensures Valid() && order == MarkedOrder(cap, old(order), id)
    {
      if id == "" || id in elems {
        return;
      }
      if |order| >= cap {
        var oldest := order[0];
        order := order[1..];
        elems := elems - {oldest};
      }
      order := order + [id];
      elems := elems + {id};
    }
  }

  datatype Settlement = Acked | NackRequeued | NackDead

  class ConsumerRunner {
    const maxAttempts: int
    const dedup: Dedup?
    var attempts: map<string, nat>

    constructor (maxAttempts: int, dedup: Dedup?)
      ensures this.maxAttempts == maxAttempts && this.dedup == dedup && attempts == map[]
    {
      this.maxAttempts, this.dedup, attempts := maxAttempts, dedup, map[];
    }

    function Cfg(): Config {
      Config(maxAttempts, if dedup == null then None else Some(dedup.cap))
    }

    function Model(): State
      reads this, dedup
    {
      State(if dedup == null then [] else dedup.order, attempts)
    }

    method AttemptExceeded(id: string) returns (exceeded: bool)
      modifies this
      ensures exceeded <==> Capped(Cfg(), id) && AttemptsOf(old(Model()), id) + 1 >= maxAttempts
      ensures attempts == if Capped(Cfg(), id) then old(attempts)[id := AttemptsOf(old(Model()), id) + 1] else old(attempts)
    {
      if maxAttempts <= 0 || id == "" {
        return false;
      }
      attempts := attempts[id := (if id in attempts then attempts[id] else 0) + 1];
      return attempts[id] >= maxAttempts;
    }

    method ForgetAttempts(id: string)
      requires "" !in attempts
      modifies this
      ensures attempts == old(attempts) - {id}
    {
      if id == "" {
        return;
      }
      attempts := attempts - {id};
    }

    /** One delivery.  `calls` are the settlements sent to the broker: exactly one, a plain ack for a
        duplicate, and otherwise the one the handler asked for, but for a requeue at the M-th attempt. */
    method Dispatch(d: Delivery) returns (calls: seq<Settlement>, ran: bool)
      requires (dedup != null ==> dedup.Valid()) && "" !in attempts
      modifies this, dedup
      ensures (dedup != null ==> dedup.Valid()) && "" !in attempts
      ensures Model() == Next(Cfg(), old(Model()), d)
      ensures ran == Runs(Cfg(), old(Model()), d)
      ensures calls == [if !ran then Acked else
                          match Decided(Cfg(), old(Model()), d)
                          case Ack => Acked case Requeue => NackRequeued case DeadLetter => NackDead]
      ensures ran <==> !(dedup != null && d.id != "" && d.id in old(dedup.order))
      ensures !ran ==> calls == [Acked] && attempts == old(attempts) && dedup.order == old(dedup.order)
      ensures ran && d.outcome == Ack ==> calls == [Acked] && d.id !in attempts
      ensures ran && d.outcome == DeadLetter ==> calls == [NackDead] && d.id !in attempts
      ensures ran && d.outcome == Requeue && (maxAttempts <= 0 || d.id == "") ==> calls == [NackRequeued] && attempts == old(attempts)
      ensures ran && d.outcome == Requeue && maxAttempts > 0 && d.id != "" ==>
                var n := 1 + if d.id in old(attempts) then old(attempts)[d.id] else 0;
                if n >= maxAttempts then calls == [NackDead] && d.id !in attempts
                else calls == [NackRequeued] && d.id in attempts && attempts[d.id] == n
      ensures forall x :: x != d.id ==> (x in attempts <==> x in old(attempts)) && (x in attempts ==> attempts[x] == old(attempts)[x])
      ensures ran && d.outcome == Ack && dedup != null && d.id != "" ==> dedup.order != [] && dedup.order[|dedup.order| - 1] == d.id
      ensures ran && d.outcome != Ack && dedup != null ==> dedup.order == old(dedup.order)
    {
      calls := [];
      if dedup != null {
        var seen := dedup.Seen(d.id);
        if seen {
          calls := calls + [Acked];
          return calls, false;
        }
      }
      ran := true;
      var outcome := d.outcome;
      if outcome == Requeue {
        var exceeded := AttemptExceeded(d.id);
        if exceeded {
          outcome := DeadLetter;
        }
      }
      match outcome {
        case Ack =>
          calls := calls + [Acked];
          if dedup != null {
            dedup.Mark(d.id);
          }
          ForgetAttempts(d.id);
        case Requeue =>
          calls := calls + [NackRequeued];
        case DeadLetter =>
          calls := calls + [NackDead];
          ForgetAttempts(d.id);
      }
    }
  }
}
