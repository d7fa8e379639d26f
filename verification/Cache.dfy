/** The in-memory cache (cache/cache.go) and the read-through loader on top of it
    (cache/getorload.go).  The cache is shown to behave like a plain map of entries with deadlines in
    which nothing is ever cleaned up; the loader is a run of overlapping callers that share flights. */
module Cache {

  import opened Options

  // ---- the reference: a map from keys to entries with deadlines ----

  datatype Entry = Entry(value: string, deadline: Option<int>)

  type Table = map<string, Entry>

  predicate Expired(e: Entry, now: int) {
    e.deadline.Some? && now > e.deadline.value
  }

  /** The entry a reader sees at time `now`. */
  function Lookup(t: Table, key: string, now: int): Option<string> {
    if key in t && !Expired(t[key], now) then Some(t[key].value) else None
  }

  function Deadline(now: int, ttl: int): Option<int> {
    if ttl > 0 then Some(now + ttl) else None
  }

  datatype Op =
    | Get(key: string, now: int)
    | Exists(key: string, now: int)
    | Set(key: string, value: string, ttl: int, now: int)
    | Delete(key: string, now: int)
    | Clear(now: int)

  /** What an operation returns: the text of Get (empty when missing), the bit of Exists. */
  datatype Reply = Text(s: string) | Bit(b: bool) | Nothing

  function ReplyOf(t: Table, op: Op): Reply {
    match op
    case Get(k, now) => Text(match Lookup(t, k, now) case Some(v) => v case None => "")
    case Exists(k, now) => Bit(Lookup(t, k, now).Some?)
    case _ => Nothing
  }

  /** The reference never removes an entry just because it expired. */
  function After(t: Table, op: Op): Table {
    match op
    case Set(k, v, ttl, now) => t[k := Entry(v, Deadline(now, ttl))]
    case Delete(k, _) => t - {k}
    case Clear(_) => map[]
    case _ => t
  }

  // ---- the implementation: two maps, cleaned lazily ----

  datatype Maps = Maps(data: map<string, string>, ttl: map<string, int>)

  predicate ValidMaps(m: Maps) {
    m.ttl.Keys <= m.data.Keys
  }

  /** Get and Exists drop the key when its deadline has passed. */
  function Cleaned(m: Maps, key: string, now: int): Maps {
    if key in m.ttl && now > m.ttl[key] then Maps(m.data - {key}, m.ttl - {key}) else m
  }

  function MapsAfter(m: Maps, op: Op): Maps {
    match op
    case Get(k, now) => Cleaned(m, k, now)
    case Exists(k, now) => Cleaned(m, k, now)
    case Set(k, v, ttl, now) => Maps(m.data[k := v], if ttl > 0 then m.ttl[k := now + ttl] else m.ttl - {k})
    case Delete(k, _) => Maps(m.data - {k}, m.ttl - {k})
    case Clear(_) => Maps(map[], map[])
  }

  function MapsReply(m: Maps, op: Op): Reply {
    match op
    case Get(k, now) => var c := Cleaned(m, k, now); Text(if k in c.data then c.data[k] else "")
    case Exists(k, now) => Bit(k in Cleaned(m, k, now).data)
    case _ => Nothing
  }

  /** From `now` on, both sides show every reader the same entries. */
  ghost predicate Agree(m: Maps, t: Table, now: int) {
    forall k, at :: at >= now ==>
      Lookup(t, k, at) ==
      (if k in m.data && !(k in m.ttl && at > m.ttl[k]) then Some(m.data[k]) else None)
  }

  function MapsAt(ops: seq<Op>, i: nat): Maps
    requires i <= |ops|
  {
    if i == 0 then Maps(map[], map[]) else MapsAfter(MapsAt(ops, i - 1), ops[i - 1])
  }

  function TableAt(ops: seq<Op>, i: nat): Table
    requires i <= |ops|
  {
    if i == 0 then map[] else After(TableAt(ops, i - 1), ops[i - 1])
  }

  predicate Monotone(ops: seq<Op>) {
    forall i, j :: 0 <= i <= j < |ops| ==> ops[i].now <= ops[j].now
  }

  lemma AgreeStep(m: Maps, t: Table, op: Op)
    requires ValidMaps(m) && Agree(m, t, op.now)
    ensures ValidMaps(MapsAfter(m, op)) && Agree(MapsAfter(m, op), After(t, op), op.now)
    ensures MapsReply(m, op) == ReplyOf(t, op)
  {
    var m', t' := MapsAfter(m, op), After(t, op);
    if op.Get? || op.Exists? {
      assert Lookup(t, op.key, op.now) ==
        (if op.key in m.data && !(op.key in m.ttl && op.now > m.ttl[op.key]) then Some(m.data[op.key]) else None);
    }
    forall k, at | at >= op.now
      ensures Lookup(t', k, at) == (if k in m'.data && !(k in m'.ttl && at > m'.ttl[k]) then Some(m'.data[k]) else None)
    {
      assert Lookup(t, k, at) == (if k in m.data && !(k in m.ttl && at > m.ttl[k]) then Some(m.data[k]) else None);
    }
  }

  /** Refinement: over every sequence of operations under a clock that never goes back, each reply of the
      two-map cache with lazy cleaning is the reply of the reference map. */
  lemma {:induction false} CacheRefinesTable(ops: seq<Op>, i: nat)
    requires Monotone(ops) && i < |ops|
    ensures ValidMaps(MapsAt(ops, i)) && Agree(MapsAt(ops, i), TableAt(ops, i), ops[i].now)
    ensures MapsReply(MapsAt(ops, i), ops[i]) == ReplyOf(TableAt(ops, i), ops[i])
  {
    hide MapsAfter, After, MapsReply, ReplyOf;
    if i > 0 {
      CacheRefinesTable(ops, i - 1);
      AgreeStep(MapsAt(ops, i - 1), TableAt(ops, i - 1), ops[i - 1]);
      assert ops[i - 1].now <= ops[i].now;
    }
    AgreeStep(MapsAt(ops, i), TableAt(ops, i), ops[i]);
  }

  /** The operation changes what is stored under the key. */
  predicate Rewrites(op: Op, key: string) {
    op.Clear? || ((op.Set? || op.Delete?) && op.key == key)
  }

  lemma {:induction false} TableKeeps(ops: seq<Op>, key: string, i: nat, j: nat)
    requires i <= j <= |ops| && forall k :: i <= k < j ==> !Rewrites(ops[k], key)
    ensures key in TableAt(ops, j) <==> key in TableAt(ops, i)
    ensures key in TableAt(ops, i) ==> TableAt(ops, j)[key] == TableAt(ops, i)[key]
    decreases j
  {
    if i < j {
      TableKeeps(ops, key, i, j - 1);
      assert !Rewrites(ops[j - 1], key);
    }
  }

  /** An entry lives exactly as long as its ttl: read after a Set of its key, with no other write of the key in
      between, the cache shows the value up to and including the time of the Set plus the ttl, and nothing later; a ttl
      that is not positive never ends. */
  lemma EntryLivesItsTtl(ops: seq<Op>, i: nat, j: nat)
    requires Monotone(ops) && i < j < |ops| && ops[i].Set? && forall k :: i < k < j ==> !Rewrites(ops[k], ops[i].key)
    ensures
      var shown := ops[i].ttl <= 0 || ops[j].now <= ops[i].now + ops[i].ttl;
      && (ops[j].Get? && ops[j].key == ops[i].key ==> MapsReply(MapsAt(ops, j), ops[j]) == Text(if shown then ops[i].value else ""))
      && (ops[j].Exists? && ops[j].key == ops[i].key ==> MapsReply(MapsAt(ops, j), ops[j]) == Bit(shown))
  {
    hide MapsReply, MapsAfter;
    TableKeeps(ops, ops[i].key, i + 1, j);
    CacheRefinesTable(ops, j);
  }

  /** Nothing is shown for a key from the start, a Clear or its Delete up to its next Set. */
  lemma NothingWithoutSet(ops: seq<Op>, i: nat, j: nat, key: string)
    requires Monotone(ops) && i <= j < |ops|
    requires i == 0 || ops[i - 1].Clear? || (ops[i - 1].Delete? && ops[i - 1].key == key)
    requires forall k :: i <= k < j ==> !(ops[k].Set? && ops[k].key == key)
    ensures ops[j].Get? && ops[j].key == key ==> MapsReply(MapsAt(ops, j), ops[j]) == Text("")
    ensures ops[j].Exists? && ops[j].key == key ==> MapsReply(MapsAt(ops, j), ops[j]) == Bit(false)
  {
    hide MapsReply, MapsAfter;
    StaysAbsent(ops, i, j, key);
    CacheRefinesTable(ops, j);
  }

  lemma {:induction false} StaysAbsent(ops: seq<Op>, i: nat, j: nat, key: string)
    requires i <= j <= |ops|
    requires i == 0 || ops[i - 1].Clear? || (ops[i - 1].Delete? && ops[i - 1].key == key)
    requires forall k :: i <= k < j ==> !(ops[k].Set? && ops[k].key == key)
    ensures key !in TableAt(ops, j)
    decreases j
  {
    if i < j {
      StaysAbsent(ops, i, j - 1, key);
      assert !(ops[j - 1].Set? && ops[j - 1].key == key);
    }
  }

  // ---- the cache object ----

  class MemoryCache {
    var data: map<string, string>
    var ttl: map<string, int>

    function Model(): Maps
      reads this
    {
      Maps(data, ttl)
    }

    constructor ()
      ensures Model() == Maps(map[], map[])
    {
      data, ttl := map[], map[];
    }

    method Get(key: string, now: int) returns (s: string)
      modifies this
      ensures Model() == MapsAfter(old(Model()), Op.Get(key, now))
      ensures Text(s) == MapsReply(old(Model()), Op.Get(key, now))
    {
      if key in ttl {
        if now > ttl[key] {
          data := data - {key};
          ttl := ttl - {key};
          return "";
        }
      }
      if key in data {
        return data[key];
      }
      return "";
    }

    method Set(key: string, value: string, t: int, now: int)
      modifies this
      ensures Model() == MapsAfter(old(Model()), Op.Set(key, value, t, now))
    {
      data := data[key := value];
      if t > 0 {
        ttl := ttl[key := now + t];
      } else {
        ttl := ttl - {key};
      }
    }

    method Delete(key: string)
      modifies this
      ensures Model() == MapsAfter(old(Model()), Op.Delete(key, 0))
    {
      data := data - {key};
      ttl := ttl - {key};
    }

    method Exists(key: string, now: int) returns (b: bool)
      modifies this
      ensures Model() == MapsAfter(old(Model()), Op.Exists(key, now))
      ensures Bit(b) == MapsReply(old(Model()), Op.Exists(key, now))
    {
      if key in ttl {
        if now > ttl[key] {
          data := data - {key};
          ttl := ttl - {key};
          return false;
        }
      }
      return key in data;
    }

    method Clear()
      modifies this
      ensures Model() == MapsAfter(old(Model()), Op.Clear(0))
    {
      data, ttl := map[], map[];
    }
  }

  // ---- one entry over time ----

  /** What a reader of the key sees, with an empty text for nothing. */
  function TextOf(m: Maps, key: string, now: int): string {
    MapsReply(m, Get(key, now)).s
  }

  /** The machine below keeps one text for the key.  That is what the cache does: a Set of the key shows its text,
      and over any other operation and any time the text stays or vanishes for good. */
  lemma EntryStaysOrVanishes(m: Maps, key: string, op: Op, t: int, t': int)
    requires ValidMaps(m) && t <= op.now <= t'
    ensures op.Set? && op.key == key ==> TextOf(MapsAfter(m, op), key, op.now) == op.value
    ensures !(op.Set? && op.key == key) ==> TextOf(MapsAfter(m, op), key, t') in {TextOf(m, key, t), ""}
    ensures !(op.Set? && op.key == key) && TextOf(m, key, t) == "" ==> TextOf(MapsAfter(m, op), key, t') == ""
  {
  }

  // ---- GetOrLoad on one key, with any number of overlapping callers ----

  datatype Result = Value(v: int) | Error(e: int)

  /** JSON text of values: never empty, and decoded back to the value. */
  datatype Codec = Codec(encode: int -> string, decode: string -> Option<int>)

  ghost predicate Lossless(c: Codec) {
    forall v :: c.encode(v) != "" && c.decode(c.encode(v)) == Some(v)
  }

  /** A singleflight call: what its leader is doing for it, and everyone who gets its result.  After a second
      read that misses the leader is `Starting`; once the result is known and any value stored it is `Finishing`,
      and until the flight ends it can still be joined. */
  datatype Work = Checking | Starting | Loading | Storing(v: int) | Finishing(r: Result)
  datatype Flight = Flight(leader: nat, work: Work, waiters: set<nat>)

  /** `text` is the cached entry (empty when there is none), `called` the calls made so far, `missed` those
      between their first read and the flight, `owed` those that are about to return, with their result: they found
      the entry at the first read, or their flight has ended; `loads` are the results load has returned and
      `returned` what calls got. */
  datatype World = World(text: string, called: set<nat>, missed: set<nat>, flight: Option<Flight>,
                         owed: map<nat, Result>, loads: seq<Result>, returned: seq<(nat, Result)>)

  /** A failing read is a miss, and a failing write is ignored; `Vanish` is expiry, Delete or Clear. */
  datatype Step =
    | Call(caller: nat, readable: bool)
    | Join(caller: nat)
    | Check(readable: bool)
    | Begin
    | Load(r: Result)
    | Store(written: bool)
    | End
    | Deliver(caller: nat)
    | Vanish

  function Read(c: Codec, w: World, readable: bool): Option<int> {
    if !readable || w.text == "" then None else c.decode(w.text)
  }

  predicate Doing(w: World, work: Work) {
    w.flight.Some? && w.flight.value.work == work
  }

  predicate Legal(w: World, s: Step) {
    match s
    case Call(c, _) => c !in w.called
    case Join(c) => c in w.missed
    case Check(_) => Doing(w, Checking)
    case Begin => Doing(w, Starting)
    case Load(_) => Doing(w, Loading)
    case Store(_) => w.flight.Some? && w.flight.value.work.Storing?
    case End => w.flight.Some? && w.flight.value.work.Finishing?
    case Deliver(c) => c in w.owed
    case Vanish => true
  }

  function Working(w: World, work: Work): World
    requires w.flight.Some?
  {
    w.(flight := Some(w.flight.value.(work := work)))
  }

  function Next(c: Codec, w: World, s: Step): World
    requires Legal(w, s)
  {
    match s
    case Call(caller, readable) =>
      var w' := w.(called := w.called + {caller});
      (match Read(c, w, readable)
       case Some(v) => w'.(owed := w.owed[caller := Value(v)])
       case None => w'.(missed := w.missed + {caller}))
    case Join(caller) =>
      var f := if w.flight.Some? then w.flight.value else Flight(caller, Checking, {});
      w.(missed := w.missed - {caller}, flight := Some(f.(waiters := f.waiters + {caller})))
    case Check(readable) =>
      Working(w, match Read(c, w, readable) case Some(v) => Finishing(Value(v)) case None => Starting)
    case Begin => Working(w, Loading)
    case Load(r) => Working(w.(loads := w.loads + [r]), if r.Value? then Storing(r.v) else Finishing(r))
    case Store(written) =>
      var v := w.flight.value.work.v;
      Working(if written then w.(text := c.encode(v)) else w, Finishing(Value(v)))
    case End =>
      // the key is free for another flight, and the callers of this one are owed its result
      var f := w.flight.value;
      w.(flight := None, owed := w.owed + map x | x in f.waiters :: f.work.r)
    case Deliver(caller) => w.(owed := w.owed - {caller}, returned := w.returned + [(caller, w.owed[caller])])
    case Vanish => w.(text := "")
  }

  const Empty := World("", {}, {}, None, map[], [], [])

  ghost predicate IsRun(c: Codec, ws: seq<World>, steps: seq<Step>) {
    && |ws| == |steps| + 1 && ws[0] == Empty
    && forall i :: 0 <= i < |steps| ==> Legal(ws[i], steps[i]) && ws[i + 1] == Next(c, ws[i], steps[i])
  }

  // ---- where results come from ----

  /** One of the loads from number `first` on returned this. */
  ghost predicate Since(loads: seq<Result>, first: nat, r: Result) {
    exists i :: first <= i < |loads| && loads[i] == r
  }

  /** The cached text, and everything about to be stored or handed out, came from a load since number `first`;
      calls in `exempt`, and the first `before` returns, may be older. */
  ghost predicate FreshSince(c: Codec, w: World, first: nat, exempt: set<nat>, before: nat) {
    && first <= |w.loads| && before <= |w.returned|
    && (w.text != "" ==> exists v :: Since(w.loads, first, Value(v)) && w.text == c.encode(v))
    && (w.flight.Some? && w.flight.value.work.Storing? ==> Since(w.loads, first, Value(w.flight.value.work.v)))
    && (w.flight.Some? && w.flight.value.work.Finishing? ==> Since(w.loads, first, w.flight.value.work.r))
    && (forall x :: x in w.owed && x !in exempt ==> Since(w.loads, first, w.owed[x]))
    && (forall k :: before <= k < |w.returned| && w.returned[k].0 !in exempt ==> Since(w.loads, first, w.returned[k].1))
  }

  lemma SinceGrows(loads: seq<Result>, r: Result, first: nat)
    requires first <= |loads|
    ensures forall x :: Since(loads, first, x) ==> Since(loads + [r], first, x)
    ensures Since(loads + [r], first, r)
  {
    forall x | Since(loads, first, x) ensures Since(loads + [r], first, x) {
      var i :| first <= i < |loads| && loads[i] == x;
      assert (loads + [r])[i] == x;
    }
    assert (loads + [r])[|loads|] == r;
  }

  lemma ReadIsFresh(c: Codec, w: World, readable: bool, first: nat, exempt: set<nat>, before: nat)
    requires Lossless(c) && FreshSince(c, w, first, exempt, before)
    ensures Read(c, w, readable).Some? ==> Since(w.loads, first, Value(Read(c, w, readable).value))
  {
    if Read(c, w, readable).Some? {
      var v :| Since(w.loads, first, Value(v)) && w.text == c.encode(v);
      assert c.decode(c.encode(v)) == Some(v);
    }
  }

  lemma StepKeepsFresh(c: Codec, w: World, s: Step, first: nat, exempt: set<nat>, before: nat)
    requires Lossless(c) && FreshSince(c, w, first, exempt, before) && Legal(w, s)
    ensures FreshSince(c, Next(c, w, s), first, exempt, before)
  {
    if s.Call? || s.Check? {
      ReadIsFresh(c, w, s.readable, first, exempt, before);
    }
    if s.Load? {
      SinceGrows(w.loads, s.r, first);
    }
    var w' := Next(c, w, s);
    hide Lossless, Since;
    if w.text != "" {
      var v :| Since(w.loads, first, Value(v)) && w.text == c.encode(v);
      assert Since(w'.loads, first, Value(v));
    }
  }

  lemma {:induction false} RunKeepsFresh(c: Codec, ws: seq<World>, steps: seq<Step>, m: nat, i: nat, first: nat, exempt: set<nat>, before: nat)
    requires Lossless(c) && IsRun(c, ws, steps) && m <= i <= |steps| && FreshSince(c, ws[m], first, exempt, before)
    ensures FreshSince(c, ws[i], first, exempt, before)
    decreases i
  {
    if m < i {
      hide FreshSince, Next, Legal, Lossless;
      RunKeepsFresh(c, ws, steps, m, i - 1, first, exempt, before);
      assert Legal(ws[i - 1], steps[i - 1]);
      StepKeepsFresh(c, ws[i - 1], steps[i - 1], first, exempt, before);
    }
  }

  /** Every GetOrLoad, in every interleaving with expiry, Delete and Clear, returns what some load of the
      key returned. */
  lemma ReturnsComeFromLoads(c: Codec, ws: seq<World>, steps: seq<Step>, i: nat, k: nat)
    requires Lossless(c) && IsRun(c, ws, steps) && i <= |steps| && k < |ws[i].returned|
    ensures ws[i].returned[k].1 in ws[i].loads
  {
    RunKeepsFresh(c, ws, steps, 0, i, 0, {}, 0);
    assert Since(ws[i].loads, 0, ws[i].returned[k].1);
  }

  lemma {:induction false} TextStays(c: Codec, ws: seq<World>, steps: seq<Step>, a: nat, b: nat)
    requires IsRun(c, ws, steps) && a <= b <= |steps|
    requires forall k :: a <= k < b ==> !steps[k].Vanish? && !(steps[k].Store? && steps[k].written)
    ensures ws[b].text == ws[a].text
    decreases b
  {
    if a < b {
      TextStays(c, ws, steps, a, b - 1);
      assert Legal(ws[b - 1], steps[b - 1]) && ws[b] == Next(c, ws[b - 1], steps[b - 1]);
    }
  }

  /** What is stored is served: until the entry vanishes or is stored again, a call whose first read works gets the
      stored value, without waiting for a flight and without a load. */
  lemma StoredIsServed(c: Codec, ws: seq<World>, steps: seq<Step>, a: nat, b: nat)
    requires Lossless(c) && IsRun(c, ws, steps) && a < b < |steps|
    requires steps[a].Store? && steps[a].written && steps[b].Call? && steps[b].readable
    requires forall k :: a < k < b ==> !steps[k].Vanish? && !(steps[k].Store? && steps[k].written)
    ensures Legal(ws[a], steps[a]) && ws[a].flight.value.work.Storing?
    ensures
      var x := steps[b].caller;
      && x in ws[b + 1].owed && ws[b + 1].owed[x] == Value(ws[a].flight.value.work.v)
      && ws[b + 1].missed == ws[b].missed && ws[b + 1].flight == ws[b].flight && ws[b + 1].loads == ws[b].loads
  {
    assert Legal(ws[a], steps[a]) && ws[a + 1] == Next(c, ws[a], steps[a]);
    assert Legal(ws[b], steps[b]) && ws[b + 1] == Next(c, ws[b], steps[b]);
    TextStays(c, ws, steps, a + 1, b);
    var v := ws[a].flight.value.work.v;
    assert c.encode(v) != "" && c.decode(c.encode(v)) == Some(v);
  }

  /** A loader that always returns the same result makes the cache invisible: every caller gets it. */
  lemma AgreesWithUncachedLoader(c: Codec, ws: seq<World>, steps: seq<Step>, i: nat, k: nat, result: Result)
    requires Lossless(c) && IsRun(c, ws, steps) && i <= |steps| && k < |ws[i].returned|
    requires forall r :: r in ws[i].loads ==> r == result
    ensures ws[i].returned[k].1 == result
  {
    ReturnsComeFromLoads(c, ws, steps, i, k);
  }

  /** Errors are never cached: while every load has failed the cache is empty, so every reader misses and
      every flight loads again. */
  lemma ErrorsAreNotCached(c: Codec, ws: seq<World>, steps: seq<Step>, i: nat)
    requires Lossless(c) && IsRun(c, ws, steps) && i <= |steps|
    requires forall r :: r in ws[i].loads ==> r.Error?
    ensures ws[i].text == ""
  {
    RunKeepsFresh(c, ws, steps, 0, i, 0, {}, 0);
    forall j | 0 <= j < |ws[i].loads| ensures ws[i].loads[j].Error? {
      assert ws[i].loads[j] in ws[i].loads;
    }
  }

  // ---- invalidation ----

  /** The loads that have begun. */
  function Begun(w: World): nat {
    |w.loads| + if Doing(w, Loading) then 1 else 0
  }

  /** A flight is under way whose result is known or being loaded: it found the entry at its second read, or has
      begun to load, and has not ended. */
  predicate ResultUnderWay(w: World) {
    w.flight.Some? && !w.flight.value.work.Checking? && !w.flight.value.work.Starting?
  }

  /** Invalidation: when the entry vanishes while no flight has its result under way, every call that is not about
      to return by then, and every later one, gets the result of a load that began afterwards. */
  lemma VanishInvalidates(c: Codec, ws: seq<World>, steps: seq<Step>, m: nat, i: nat, k: nat)
    requires Lossless(c) && IsRun(c, ws, steps) && m < i <= |steps|
    requires steps[m].Vanish? && !ResultUnderWay(ws[m])
    requires |ws[m].returned| <= k < |ws[i].returned| && ws[i].returned[k].0 !in ws[m].owed
    ensures Since(ws[i].loads, Begun(ws[m]), ws[i].returned[k].1)
  {
    var w := ws[m];
    assert Legal(w, steps[m]) && ws[m + 1] == Next(c, w, steps[m]);
    assert FreshSince(c, ws[m + 1], |w.loads|, w.owed.Keys, |w.returned|);
    RunKeepsFresh(c, ws, steps, m + 1, i, |w.loads|, w.owed.Keys, |w.returned|);
  }

  lemma Extend(c: Codec, ws: seq<World>, steps: seq<Step>, s: Step) returns (ws': seq<World>, steps': seq<Step>)
    requires IsRun(c, ws, steps) && Legal(ws[|steps|], s)
    ensures IsRun(c, ws', steps') && ws <= ws' && steps <= steps' && |steps'| == |steps| + 1 && |ws'| == |steps'| + 1
    ensures ws'[|steps'|] == Next(c, ws[|steps|], s)
  {
    RunGrows(c, ws, steps, s);
    hide Next, Legal, IsRun;
    ws', steps' := ws + [Next(c, ws[|steps|], s)], steps + [s];
  }

  lemma RunGrows(c: Codec, ws: seq<World>, steps: seq<Step>, s: Step)
    requires IsRun(c, ws, steps) && Legal(ws[|steps|], s)
    ensures IsRun(c, ws + [Next(c, ws[|steps|], s)], steps + [s]) && |ws| == |steps| + 1
  {
    hide Next, Legal;
    var ws', steps' := ws + [Next(c, ws[|steps|], s)], steps + [s];
    forall i | 0 <= i < |steps'| ensures Legal(ws'[i], steps'[i]) && ws'[i + 1] == Next(c, ws'[i], steps'[i]) {
      assert ws'[i] == ws[i];
      if i < |steps| {
        assert steps'[i] == steps[i] && ws'[i + 1] == ws[i + 1];
        assert Legal(ws[i], steps[i]);
      }
    }
  }

  lemma {:induction false} FreshCaller(used: set<nat>) returns (x: nat)
    ensures forall y :: y in used ==> y < x
    decreases used
  {
    if used == {} {
      x := 0;
    } else {
      var y :| y in used;
      x := FreshCaller(used - {y});
      assert used == used - {y} + {y};
      if x <= y {
        x := y + 1;
      }
    }
  }

  /** And that condition is needed: if a flight has its result under way when the entry vanishes, the run can go on
      so that a later call gets the result of a load that began before. */
  lemma VanishDuringFlight(c: Codec, ws: seq<World>, steps: seq<Step>, m: nat) returns (ws': seq<World>, steps': seq<Step>, x: nat, j: nat)
    requires Lossless(c) && IsRun(c, ws, steps) && |steps| == m + 1
    requires steps[m].Vanish? && ResultUnderWay(ws[m])
    ensures IsRun(c, ws', steps') && ws <= ws' && steps <= steps' && |ws'| == |steps'| + 1
    ensures x !in ws[m].called && j < Begun(ws[m]) && j < |ws'[|steps'|].loads|
    ensures ws'[|steps'|].returned == ws[m].returned + [(x, ws'[|steps'|].loads[j])]
  {
    assert Legal(ws[m], steps[m]) && ws[m + 1] == Next(c, ws[m], steps[m]);
    RunKeepsFresh(c, ws, steps, 0, m, 0, {}, 0);
    var w := ws[m];
    x := FreshCaller(w.called);
    hide IsRun, FreshSince, Lossless;
    ws', steps' := Extend(c, ws, steps, Call(x, true));
    ws', steps' := Extend(c, ws', steps', Join(x));
    if Doing(w, Loading) {
      j := |w.loads|;
      ws', steps' := Extend(c, ws', steps', Load(Error(0)));
    } else {
      j := KnownLoad(c, w);
      if w.flight.value.work.Storing? {
        ws', steps' := Extend(c, ws', steps', Store(false));
      }
    }
    assert ws'[|steps'|].flight.value.work == Finishing(ws'[|steps'|].loads[j]);
    ws', steps' := EndAndDeliver(c, ws', steps', x);
  }

  lemma EndAndDeliver(c: Codec, ws: seq<World>, steps: seq<Step>, x: nat) returns (ws': seq<World>, steps': seq<Step>)
    requires IsRun(c, ws, steps) && |ws| == |steps| + 1
    requires var w := ws[|steps|]; w.flight.Some? && w.flight.value.work.Finishing? && x in w.flight.value.waiters
    ensures IsRun(c, ws', steps') && ws <= ws' && steps <= steps' && |ws'| == |steps'| + 1
    ensures var w, w' := ws[|steps|], ws'[|steps'|];
      w'.loads == w.loads && w'.returned == w.returned + [(x, w.flight.value.work.r)]
  {
    hide IsRun;
    ws', steps' := Extend(c, ws, steps, End);
    ws', steps' := Extend(c, ws', steps', Deliver(x));
  }

  lemma KnownLoad(c: Codec, w: World) returns (j: nat)
    requires FreshSince(c, w, 0, {}, 0) && w.flight.Some? && (w.flight.value.work.Storing? || w.flight.value.work.Finishing?)
    ensures j < |w.loads|
    ensures w.loads[j] == if w.flight.value.work.Storing? then Value(w.flight.value.work.v) else w.flight.value.work.r
  {
    var work := w.flight.value.work;
    j :| 0 <= j < |w.loads| && w.loads[j] == if work.Storing? then Value(work.v) else work.r;
  }

  /** No load need be under way: a leader finds the entry and is delayed, the entry is deleted, and a call that
      begins after that joins the flight and gets the deleted value. */
  lemma DeletedValueIsShared(c: Codec, v: int) returns (ws: seq<World>, steps: seq<Step>, m: nat)
    requires Lossless(c)
    ensures IsRun(c, ws, steps) && m < |steps| && steps[m].Vanish? && Begun(ws[m]) == |ws[m].loads|
    ensures 2 !in ws[m].called && |ws[|steps|].loads| == |ws[m].loads|
    ensures ws[|steps|].returned == [(2, Value(v))]
  {
    ws, steps := [Empty], [];
    assert IsRun(c, ws, steps);
    ws, steps := FillAndFind(c, v, ws, steps);
    m := |steps|;
    hide IsRun, Lossless;
    var w := ws[m];
    ws, steps := Extend(c, ws, steps, Vanish);
    ws, steps := Extend(c, ws, steps, Call(2, true));
    ws, steps := Extend(c, ws, steps, Join(2));
    ws, steps := EndAndDeliver(c, ws, steps, 2);
    assert ws[m] == w && steps[m] == Vanish;
  }

  /** Call 0 loads and stores a value; call 1, which had missed before that, leads a flight that finds it. */
  lemma FillAndFind(c: Codec, v: int, ws0: seq<World>, steps0: seq<Step>) returns (ws: seq<World>, steps: seq<Step>)
    requires Lossless(c) && ws0 == [Empty] && steps0 == [] && IsRun(c, ws0, steps0)
    ensures IsRun(c, ws, steps) && |ws| == |steps| + 1
    ensures ws[|steps|] == World(c.encode(v), {0, 1}, {}, Some(Flight(1, Finishing(Value(v)), {1})),
                                 map[0 := Value(v)], [Value(v)], [])
  {
    hide IsRun;
    ws, steps := TwoMiss(c, ws0, steps0);
    ws, steps := Fill(c, v, ws, steps);
    ws, steps := Extend(c, ws, steps, Join(1));
    assert {1} - {1} == {} && {} + {1} == {1};
    ws, steps := Extend(c, ws, steps, Check(true));
  }

  lemma TwoMiss(c: Codec, ws0: seq<World>, steps0: seq<Step>) returns (ws: seq<World>, steps: seq<Step>)
    requires ws0 == [Empty] && steps0 == [] && IsRun(c, ws0, steps0)
    ensures IsRun(c, ws, steps) && |ws| == |steps| + 1
    ensures ws[|steps|] == World("", {0, 1}, {1}, Some(Flight(0, Checking, {0})), map[], [], [])
  {
    hide IsRun;
    ws, steps := Extend(c, ws0, steps0, Call(0, true));
    ws, steps := Extend(c, ws, steps, Call(1, true));
    assert {} + {0} + {1} == {0, 1};
    assert ws[|steps|] == World("", {0, 1}, {0, 1}, None, map[], [], []);
    ws, steps := Extend(c, ws, steps, Join(0));
    assert {0, 1} - {0} == {1} && {} + {0} == {0};
  }

  lemma Fill(c: Codec, v: int, ws0: seq<World>, steps0: seq<Step>) returns (ws: seq<World>, steps: seq<Step>)
    requires IsRun(c, ws0, steps0) && |ws0| == |steps0| + 1
    requires ws0[|steps0|] == World("", {0, 1}, {1}, Some(Flight(0, Checking, {0})), map[], [], [])
    ensures IsRun(c, ws, steps) && |ws| == |steps| + 1
    ensures ws[|steps|] == World(c.encode(v), {0, 1}, {1}, None, map[0 := Value(v)], [Value(v)], [])
  {
    hide IsRun;
    ws, steps := Extend(c, ws0, steps0, Check(true));
    ws, steps := Extend(c, ws, steps, Begin);
    ws, steps := Extend(c, ws, steps, Load(Value(v)));
    ws, steps := Extend(c, ws, steps, Store(true));
    var w := ws[|steps|];
    assert w == World(c.encode(v), {0, 1}, {1}, Some(Flight(0, Finishing(Value(v)), {0})), map[], [Value(v)], []);
    ws, steps := Extend(c, ws, steps, End);
    assert ws[|steps|].owed == map[0 := Value(v)];
  }

  // ---- load runs once per flight ----

  /** Number of flights begun by the first i steps. */
  function Flights(ws: seq<World>, steps: seq<Step>, i: nat): nat
    requires i <= |steps| < |ws|
  {
    if i == 0 then 0
    else Flights(ws, steps, i - 1) + if steps[i - 1].Join? && ws[i - 1].flight.None? then 1 else 0
  }

  /** Number of flights that found the entry when they looked again. */
  function Hits(c: Codec, ws: seq<World>, steps: seq<Step>, i: nat): nat
    requires i <= |steps| < |ws|
  {
    if i == 0 then 0
    else Hits(c, ws, steps, i - 1) + if steps[i - 1].Check? && Read(c, ws[i - 1], steps[i - 1].readable).Some? then 1 else 0
  }

  predicate BeforeLoaded(work: Work) {
    work.Checking? || work.Starting? || work.Loading?
  }

  /** Stampede protection: every flight, however many callers wait on it, either found the entry, or loads
      exactly once, or has not come to it yet. */
  lemma {:induction false} OneLoadPerFlight(c: Codec, ws: seq<World>, steps: seq<Step>, i: nat)
    requires IsRun(c, ws, steps) && i <= |steps|
    ensures Flights(ws, steps, i) == |ws[i].loads| + Hits(c, ws, steps, i) +
              if ws[i].flight.Some? && BeforeLoaded(ws[i].flight.value.work) then 1 else 0
  {
    if i > 0 {
      OneLoadPerFlight(c, ws, steps, i - 1);
      assert Legal(ws[i - 1], steps[i - 1]);
    }
  }

  // ---- the code ----

  method Cached(cache: MemoryCache, codec: Codec, key: string, now: int) returns (v: Option<int>)
    modifies cache
    ensures cache.Model() == MapsAfter(old(cache.Model()), Get(key, now))
    ensures v == Decoded(codec, old(cache.Model()), key, now)
  {
    var s := cache.Get(key, now);
    if s == "" {
      return None;
    }
    return codec.decode(s);
  }

  /** What `cached` makes of the entry: an empty or undecodable one is a miss. */
  function Decoded(codec: Codec, m: Maps, key: string, now: int): Option<int> {
    if TextOf(m, key, now) == "" then None else codec.decode(TextOf(m, key, now))
  }

  /** Where a call stands. */
  datatype Standing = Outside | Missed | Leading(work: Work) | Waiting | Owed(r: Result)

  function StandingOf(w: World, me: nat): Standing {
    if me in w.missed then Missed
    else if me in w.owed then Owed(w.owed[me])
    else if w.flight.Some? && me in w.flight.value.waiters then
      if w.flight.value.leader == me then Leading(w.flight.value.work) else Waiting
    else Outside
  }

  /** A step of the call `me`, or of the flight it leads. */
  predicate ActsFor(w: World, s: Step, me: nat) {
    match s
    case Call(x, _) => x == me
    case Join(x) => x == me
    case Deliver(x) => x == me
    case Vanish => false
    case _ => w.flight.Some? && w.flight.value.leader == me
  }

  /** Every call is in one place. */
  predicate Orderly(w: World) {
    && w.missed <= w.called && w.owed.Keys <= w.called && w.missed !! w.owed.Keys
    && (w.flight.Some? ==>
          var f := w.flight.value;
          f.waiters <= w.called && f.leader in f.waiters && f.waiters !! w.missed && f.waiters !! w.owed.Keys)
  }

  lemma OrderlyStep(c: Codec, w: World, s: Step)
    requires Orderly(w) && Legal(w, s)
    ensures Orderly(Next(c, w, s))
  {
  }

  lemma {:induction false} RunIsOrderly(c: Codec, ws: seq<World>, steps: seq<Step>, i: nat)
    requires IsRun(c, ws, steps) && i <= |steps|
    ensures Orderly(ws[i])
  {
    if i > 0 {
      hide Orderly, Next, Legal;
      RunIsOrderly(c, ws, steps, i - 1);
      assert Legal(ws[i - 1], steps[i - 1]);
      OrderlyStep(c, ws[i - 1], steps[i - 1]);
    }
  }

  lemma OthersLeaveMe(c: Codec, w: World, s: Step, me: nat)
    requires Orderly(w) && Legal(w, s) && !ActsFor(w, s, me)
    ensures var before, after := StandingOf(w, me), StandingOf(Next(c, w, s), me);
      && (after == before || (before.Waiting? && after.Owed?))
      && (before.Leading? ==> Next(c, w, s).loads == w.loads)
  {
  }

  /** The callers of one key and their shared group; `ws` and `steps` record the run so far. */
  class Group {
    const codec: Codec
    var w: World
    ghost var ws: seq<World>
    ghost var steps: seq<Step>

    ghost predicate Recorded()
      reads this
    {
      IsRun(codec, ws, steps) && |ws| == |steps| + 1 && ws[|steps|] == w
    }

    constructor (codec: Codec)
      ensures Recorded() && this.codec == codec && w == Empty
    {
      this.codec, w, ws, steps := codec, Empty, [Empty], [];
    }

    method Do(s: Step)
      requires Recorded() && Legal(w, s)
      modifies this
      ensures Recorded() && w == Next(codec, old(w), s) && steps == old(steps) + [s] && old(ws) <= ws
    {
      RunGrows(codec, ws, steps, s);
      hide IsRun, Next, Legal;
      w := Next(codec, w, s);
      ws, steps := ws + [w], steps + [s];
    }

    /** Everyone and everything else acting meanwhile: of `during`, whatever is possible when its turn comes. */
    method Others(me: nat, during: seq<Step>)
      requires Recorded()
      modifies this
      ensures Recorded() && old(ws) <= ws && old(steps) <= steps
      ensures StandingOf(old(w), me).Leading? ==> w.loads == old(w.loads)
      ensures StandingOf(w, me) == StandingOf(old(w), me) || (StandingOf(old(w), me).Waiting? && StandingOf(w, me).Owed?)
    {
      hide IsRun, Next, Legal, StandingOf, Orderly;
      for i := 0 to |during|
        invariant Recorded() && old(ws) <= ws && old(steps) <= steps
        invariant StandingOf(old(w), me).Leading? ==> w.loads == old(w.loads)
        invariant StandingOf(w, me) == StandingOf(old(w), me) || (StandingOf(old(w), me).Waiting? && StandingOf(w, me).Owed?)
      {
        if Legal(w, during[i]) && !ActsFor(w, during[i], me) {
          RunIsOrderly(codec, ws, steps, |steps|);
          OthersLeaveMe(codec, w, during[i], me);
          Do(during[i]);
        }
      }
    }

    method FirstRead(me: nat, readable: bool) returns (v: Option<int>)
      requires Recorded() && me !in w.called
      modifies this
      ensures Recorded() && old(ws) <= ws && steps == old(steps) + [Call(me, readable)]
      ensures v == Read(codec, old(w), readable)
      ensures StandingOf(w, me) == if v.Some? then Owed(Value(v.value)) else Missed
    {
      RunIsOrderly(codec, ws, steps, |steps|);
      hide IsRun;
      v := Read(codec, w, readable);
      Do(Call(me, readable));
    }

    method JoinFlight(me: nat) returns (led: bool)
      requires Recorded() && StandingOf(w, me).Missed?
      modifies this
      ensures Recorded() && old(ws) <= ws && steps == old(steps) + [Join(me)] && (led <==> old(w.flight).None?)
      ensures StandingOf(w, me) == if led then Leading(Checking) else Waiting
    {
      RunIsOrderly(codec, ws, steps, |steps|);
      hide IsRun;
      led := w.flight.None?;
      Do(Join(me));
    }

    /** What the leader does for its flight, with everyone else acting in between, also after its last read or write
        and before the flight ends.  The second read is made in `ws[at]`; a decodable entry ends the flight without a
        load, and otherwise the load's result does, of which only a value is stored. */
    method Lead(me: nat, readable: bool, load: Result, written: bool, during: seq<seq<Step>>) returns (r: Result, ghost at: nat)
      requires Recorded() && StandingOf(w, me) == Leading(Checking) && |during| == 5
      modifies this
      ensures Recorded() && old(ws) <= ws && old(steps) <= steps && old(|steps|) <= at < |steps|
      ensures steps[at] == Check(readable) && steps[|steps| - 1] == End && StandingOf(w, me) == Owed(r)
      ensures r == if Read(codec, ws[at], readable).Some? then Value(Read(codec, ws[at], readable).value) else load
      ensures w.loads == ws[at].loads + if Read(codec, ws[at], readable).Some? then [] else [load]
      ensures Read(codec, ws[at], readable).None? && load.Value? ==> exists l :: at < l < |steps| && steps[l] == Store(written)
    {
      hide IsRun, Next, Legal, StandingOf, Read;
      Others(me, during[0]);
      at := |steps|;
      ghost var seen := w;
      var v := DoCheck(me, readable);
      ghost var l := at;
      if v.Some? {
        r := Value(v.value);
      } else {
        r := load;
        l := LoadAndStore(me, load, written, during[1], during[2], during[3]);
      }
      Finish(me, r, during[4]);
      assert ws[at] == seen;
      assert v.None? && load.Value? ==> steps[l] == Store(written);
    }

    /** Everything from a second read that missed up to the end of the flight's work. */
    method LoadAndStore(me: nat, load: Result, written: bool, before: seq<Step>, loading: seq<Step>, storing: seq<Step>) returns (ghost l: nat)
      requires Recorded() && StandingOf(w, me) == Leading(Starting)
      modifies this
      ensures Recorded() && old(ws) <= ws && old(steps) <= steps && w.loads == old(w.loads) + [load]
      ensures StandingOf(w, me) == Leading(Finishing(load)) && old(|steps|) <= l < |steps|
      ensures load.Value? ==> steps[l] == Store(written)
    {
      hide IsRun, Next, Legal, StandingOf, Read;
      Others(me, before);
      DoBegin(me);
      Others(me, loading);
      l := |steps|;
      DoLoad(me, load);
      if load.Value? {
        Others(me, storing);
        l := |steps|;
        DoStore(me, load.v, written);
      }
    }

    method Finish(me: nat, ghost r: Result, during: seq<Step>)
      requires Recorded() && StandingOf(w, me) == Leading(Finishing(r))
      modifies this
      ensures Recorded() && old(ws) <= ws && old(steps) <= steps && |old(steps)| < |steps|
      ensures steps[|steps| - 1] == End && StandingOf(w, me) == Owed(r) && w.loads == old(w.loads)
    {
      hide IsRun, Next, Legal, StandingOf, Read;
      Others(me, during);
      DoEnd(me, r);
    }

    method DoCheck(me: nat, readable: bool) returns (v: Option<int>)
      requires Recorded() && StandingOf(w, me) == Leading(Checking)
      modifies this
      ensures Recorded() && old(ws) <= ws && steps == old(steps) + [Check(readable)] && w.loads == old(w.loads)
      ensures v == Read(codec, old(w), readable)
      ensures StandingOf(w, me) == Leading(if v.Some? then Finishing(Value(v.value)) else Starting)
    {
      hide IsRun;
      v := Read(codec, w, readable);
      Do(Check(readable));
    }

    method DoBegin(me: nat)
      requires Recorded() && StandingOf(w, me) == Leading(Starting)
      modifies this
      ensures Recorded() && old(ws) <= ws && steps == old(steps) + [Begin] && w.loads == old(w.loads)
      ensures StandingOf(w, me) == Leading(Loading)
    {
      hide IsRun;
      Do(Begin);
    }

    method DoLoad(me: nat, load: Result)
      requires Recorded() && StandingOf(w, me) == Leading(Loading)
      modifies this
      ensures Recorded() && old(ws) <= ws && steps == old(steps) + [Load(load)] && w.loads == old(w.loads) + [load]
      ensures StandingOf(w, me) == Leading(if load.Value? then Storing(load.v) else Finishing(load))
    {
      hide IsRun;
      Do(Load(load));
    }

    method DoStore(me: nat, v: int, written: bool)
      requires Recorded() && StandingOf(w, me) == Leading(Storing(v))
      modifies this
      ensures Recorded() && old(ws) <= ws && steps == old(steps) + [Store(written)] && w.loads == old(w.loads)
      ensures StandingOf(w, me) == Leading(Finishing(Value(v)))
      ensures w.text == if written then codec.encode(v) else old(w.text)
    {
      hide IsRun;
      Do(Store(written));
    }

    method DoEnd(me: nat, ghost r: Result)
      requires Recorded() && StandingOf(w, me) == Leading(Finishing(r))
      modifies this
      ensures Recorded() && old(ws) <= ws && steps == old(steps) + [End] && w.loads == old(w.loads)
      ensures StandingOf(w, me) == Owed(r)
    {
      hide IsRun;
      Do(End);
    }

    method Collect(me: nat) returns (r: Result)
      requires Recorded() && StandingOf(w, me).Owed?
      modifies this
      ensures Recorded() && old(ws) <= ws && steps == old(steps) + [Deliver(me)] && StandingOf(old(w), me) == Owed(r)
      ensures w.returned == old(w.returned) + [(me, r)]
    {
      hide IsRun;
      r := w.owed[me];
      Do(Deliver(me));
    }

    /** The flight of a call that missed. */
    method Fly(me: nat, second: bool, load: Result, written: bool, during: seq<seq<Step>>) returns (led: bool, ghost at: nat)
      requires Recorded() && StandingOf(w, me).Missed? && |during| == 7
      modifies this
      ensures Recorded() && old(ws) <= ws && old(steps) <= steps && (led <==> old(w.flight).None?)
      ensures led ==> at < |steps| && steps[at] == Check(second)
      ensures led ==> StandingOf(w, me) ==
                      Owed(if Read(codec, ws[at], second).Some? then Value(Read(codec, ws[at], second).value) else load)
      ensures StandingOf(w, me).Waiting? || StandingOf(w, me).Owed?
    {
      hide IsRun, Next, Legal, StandingOf, Read;
      at := 0;
      led := JoinFlight(me);
      if led {
        var _, checked := Lead(me, second, load, written, during[1..6]);
        at := checked;
      }
      Others(me, during[6]);
    }

    /** One call, with everyone else acting between any two of its steps.  An entry at the first read is returned
        without more ado.  Otherwise the call joins the flight: a leader does the flight's work, and its result is the
        entry its second read found or what load returned; a follower returns what its flight ended with, and is still
        waiting (`None`) if `during` does not end it.  What is returned is the last of the run's returns. */
    method GetOrLoad(me: nat, first: bool, second: bool, load: Result, written: bool, during: seq<seq<Step>>)
      returns (r: Option<Result>, led: bool, ghost at: nat)
      requires Recorded() && me !in w.called && |during| == 7
      modifies this
      ensures Recorded() && old(ws) <= ws && old(steps) <= steps && |old(steps)| < |steps|
      ensures steps[|old(steps)|] == Call(me, first)
      ensures Read(codec, old(w), first).Some? ==> r == Some(Value(Read(codec, old(w), first).value)) && !led
      ensures led ==> at < |steps| && steps[at] == Check(second)
      ensures led ==> r == Some(if Read(codec, ws[at], second).Some? then Value(Read(codec, ws[at], second).value) else load)
      ensures r.Some? ==> w.returned != [] && w.returned[|w.returned| - 1] == (me, r.value)
      ensures r.None? ==> StandingOf(w, me) == Waiting
    {
      hide IsRun, Next, Legal, StandingOf, Read;
      at, led := 0, false;
      var v := FirstRead(me, first);
      Others(me, during[0]);
      if v.None? {
        led, at := Fly(me, second, load, written, during);
      }
      if StandingOf(w, me).Owed? {
        var result := Collect(me);
        return Some(result), led, at;
      }
      return None, led, at;
    }
  }
}
