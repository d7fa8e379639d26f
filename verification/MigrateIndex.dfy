/** The blue/green index rebuild (database/elasticsearch/mapping: lifecycle.go, aliases.go).
    A run is any sequence of MigrateIndex calls on one alias, each of which may be cut short after
    any remote request: the request may fail, or take effect and lose its reply, and a reindex may
    copy only some documents before it fails. */
module MigrateIndex {

  import opened Sorting

  type Docs = map<string, int>

  /** Physical indices with their documents, and aliases with the indices they point at; an alias
      that points nowhere does not exist. */
  datatype Cluster = Cluster(indices: map<string, Docs>, aliases: map<string, set<string>>)

  ghost predicate Valid(c: Cluster) {
    forall x :: x in c.aliases ==> c.aliases[x] != {} && c.aliases[x] <= c.indices.Keys && x !in c.indices
  }

  function Targets(c: Cluster, alias: string): set<string> {
    if alias in c.aliases then c.aliases[alias] else {}
  }

  /** The document ids a reader finds through the alias. */
  ghost function Reachable(c: Cluster, alias: string): set<string> {
    set i, id | i in Targets(c, alias) && i in c.indices && id in c.indices[i] :: id
  }

  // ---- the remote requests ----

  function Ensured(c: Cluster, index: string): Cluster {
    if index in c.indices then c else c.(indices := c.indices[index := map[]])
  }

  function Pointed(c: Cluster, alias: string, index: string): Cluster {
    c.(aliases := c.aliases[alias := Targets(c, alias) + {index}])
  }

  /** _reindex having copied the documents `ids`; a copy overwrites. */
  function Copied(c: Cluster, src: string, dst: string, ids: set<string>): Cluster
    requires src in c.indices && dst in c.indices
  {
    var moved := map id | id in c.indices[src] && id in ids :: c.indices[src][id];
    c.(indices := c.indices[dst := c.indices[dst] + moved])
  }

  /** _aliases with a remove and an add action: refused unless the alias is on the old index. */
  function Swapped(c: Cluster, alias: string, old': string, new': string): Cluster {
    if old' !in Targets(c, alias) then c
    else c.(aliases := c.aliases[alias := (c.aliases[alias] - {old'}) + {new'}])
  }

  /** Deleting an index also takes it out of every alias. */
  function Deleted(c: Cluster, index: string): Cluster {
    Cluster(c.indices - {index},
            map x | x in c.aliases && c.aliases[x] != {index} :: c.aliases[x] - {index})
  }

  // ---- the procedure as a state machine ----

  datatype Target = Target(index: string, deleteOld: bool)

  /** Where a MigrateIndex call stands; `k` counts the old indices already dealt with. */
  datatype Pc =
    | Idle
    | Resolved(t: Target, olds: seq<string>)
    | Pointing(t: Target)
    | Copying(t: Target, olds: seq<string>, k: nat)
    | Swapping(t: Target, olds: seq<string>, k: nat)
    | Deleting(t: Target, olds: seq<string>, k: nat)
    | Done(t: Target)

  datatype World = World(c: Cluster, pc: Pc)

  /** One remote request and its outcome; `Local` is a loop step without a request.  A request that is
      applied but not ok lost its reply; either way the call returns an error. */
  datatype Step =
    | Begin(t: Target, olds: seq<string>)
    | Ensure(applied: bool, ok: bool)
    | Point(applied: bool, ok: bool)
    | Copy(ids: set<string>, ok: bool)
    | Swap(applied: bool, ok: bool)
    | Delete(applied: bool, ok: bool)
    | Local
    | Abort

  ghost predicate Lists(olds: seq<string>, s: set<string>) {
    && (forall x :: x in s <==> x in olds)
    && (forall i, j :: 0 <= i < j < |olds| ==> olds[i] != olds[j])
  }

  /** Nothing left to do with old index number k. */
  predicate Skips(t: Target, olds: seq<string>, k: nat) {
    k >= |olds| || olds[k] == t.index
  }

  ghost predicate Legal(alias: string, w: World, s: Step) {
    match s
    case Begin(t, olds) =>
      (w.pc.Idle? || w.pc.Done?) && t.index != alias && t.index !in w.c.aliases && Lists(olds, Targets(w.c, alias))
    case Ensure(applied, ok) => w.pc.Resolved? && (ok ==> applied)
    case Point(applied, ok) => w.pc.Pointing? && (ok ==> applied)
    case Copy(ids, ok) =>
      && w.pc.Copying? && !Skips(w.pc.t, w.pc.olds, w.pc.k)
      && (ok ==> w.pc.olds[w.pc.k] in w.c.indices && w.c.indices[w.pc.olds[w.pc.k]].Keys <= ids)
    case Swap(applied, ok) => w.pc.Swapping? && !Skips(w.pc.t, w.pc.olds, w.pc.k) && (ok ==> applied)
    case Delete(applied, ok) =>
      w.pc.Deleting? && w.pc.t.deleteOld && !Skips(w.pc.t, w.pc.olds, w.pc.k) && (ok ==> applied)
    case Local =>
      || ((w.pc.Copying? || w.pc.Swapping?) && Skips(w.pc.t, w.pc.olds, w.pc.k))
      || (w.pc.Deleting? && (!w.pc.t.deleteOld || Skips(w.pc.t, w.pc.olds, w.pc.k)))
    case Abort => true
  }

  function LocalPc(pc: Pc): Pc {
    match pc
    case Copying(t, olds, k) => if k >= |olds| then Swapping(t, olds, 0) else Copying(t, olds, k + 1)
    case Swapping(t, olds, k) => if k >= |olds| then Deleting(t, olds, 0) else Swapping(t, olds, k + 1)
    case Deleting(t, olds, k) => if k >= |olds| || !t.deleteOld then Done(t) else Deleting(t, olds, k + 1)
    case _ => pc
  }

  ghost function Next(alias: string, w: World, s: Step): World
    requires Legal(alias, w, s)
  {
    match s
    case Begin(t, olds) => World(w.c, Resolved(t, olds))
    case Ensure(applied, ok) =>
      World(if applied then Ensured(w.c, w.pc.t.index) else w.c,
            if !ok then Idle else if w.pc.olds == [] then Pointing(w.pc.t) else Copying(w.pc.t, w.pc.olds, 0))
    case Point(applied, ok) =>
      World(if applied then Pointed(w.c, alias, w.pc.t.index) else w.c, if ok then Done(w.pc.t) else Idle)
    case Copy(ids, ok) =>
      World(if w.pc.olds[w.pc.k] in w.c.indices && w.pc.t.index in w.c.indices
            then Copied(w.c, w.pc.olds[w.pc.k], w.pc.t.index, ids) else w.c,
            if ok then Copying(w.pc.t, w.pc.olds, w.pc.k + 1) else Idle)
    case Swap(applied, ok) =>
      World(if applied then Swapped(w.c, alias, w.pc.olds[w.pc.k], w.pc.t.index) else w.c,
            if ok then Swapping(w.pc.t, w.pc.olds, w.pc.k + 1) else Idle)
    case Delete(applied, ok) =>
      World(if applied then Deleted(w.c, w.pc.olds[w.pc.k]) else w.c,
            if ok then Deleting(w.pc.t, w.pc.olds, w.pc.k + 1) else Idle)
    case Local => World(w.c, LocalPc(w.pc))
    case Abort => World(w.c, Idle)
  }

  // ---- what holds at every point ----

  ghost predicate CopiedUpTo(c: Cluster, t: Target, olds: seq<string>, k: nat) {
    && k <= |olds|
    && t.index in c.indices
    && forall j :: 0 <= j < k ==> olds[j] in c.indices && c.indices[olds[j]].Keys <= c.indices[t.index].Keys
  }

  /** The old indices from number k on, and the target once one has been swapped. */
  ghost predicate SwappedUpTo(c: Cluster, alias: string, t: Target, olds: seq<string>, k: nat) {
    && k <= |olds|
    && (forall x :: x in Targets(c, alias) <==> (exists j :: k <= j < |olds| && olds[j] == x) || (k > 0 && x == t.index))
  }

  ghost predicate Unique(olds: seq<string>) {
    forall i, j :: 0 <= i < j < |olds| ==> olds[i] != olds[j]
  }

  ghost predicate PcInv(alias: string, w: World) {
    match w.pc
    case Idle => true
    case Resolved(t, olds) => t.index != alias && t.index !in w.c.aliases && Lists(olds, Targets(w.c, alias))
    case Pointing(t) => t.index != alias && t.index in w.c.indices && Targets(w.c, alias) == {}
    case Copying(t, olds, k) => olds != [] && Lists(olds, Targets(w.c, alias)) && CopiedUpTo(w.c, t, olds, k)
    case Swapping(t, olds, k) =>
      olds != [] && Unique(olds) && CopiedUpTo(w.c, t, olds, |olds|) && SwappedUpTo(w.c, alias, t, olds, k)
    case Deleting(t, olds, k) => Targets(w.c, alias) == {t.index} && t.index in w.c.indices && k <= |olds|
    case Done(t) => Targets(w.c, alias) == {t.index} && t.index in w.c.indices
  }

  ghost predicate Inv(alias: string, w: World) {
    Valid(w.c) && alias !in w.c.indices && PcInv(alias, w)
  }

  /** What no step may do to a reader of the alias. */
  ghost predicate ReaderSafe(alias: string, c: Cluster, c': Cluster) {
    && (Targets(c, alias) != {} ==> Targets(c', alias) != {})
    && Reachable(c, alias) <= Reachable(c', alias)
  }

  /** Readers lose nothing when the alias keeps its indices and the indices their ids. */
  lemma KeepsReaders(alias: string, c: Cluster, c': Cluster)
    requires Targets(c, alias) <= Targets(c', alias)
    requires forall i :: i in Targets(c, alias) && i in c.indices ==> i in c'.indices && c.indices[i].Keys <= c'.indices[i].Keys
    ensures ReaderSafe(alias, c, c')
  {
    forall id | id in Reachable(c, alias) ensures id in Reachable(c', alias) {
      var i :| i in Targets(c, alias) && i in c.indices && id in c.indices[i];
      assert i in Targets(c', alias) && i in c'.indices && id in c'.indices[i];
    }
  }

  lemma EnsureStep(alias: string, w: World, s: Step)
    requires Inv(alias, w) && Legal(alias, w, s) && (s.Ensure? || s.Point? || s.Begin? || s.Local? || s.Abort?)
    ensures Inv(alias, Next(alias, w, s)) && ReaderSafe(alias, w.c, Next(alias, w, s).c)
  {
    KeepsReaders(alias, w.c, Next(alias, w, s).c);
    if s.Local? {
      LocalStep(alias, w);
    }
  }

  lemma LocalStep(alias: string, w: World)
    requires Inv(alias, w) && Legal(alias, w, Local)
    ensures PcInv(alias, World(w.c, LocalPc(w.pc)))
  {
    match w.pc
    case Copying(t, olds, k) =>
      if k >= |olds| {
        assert SwappedUpTo(w.c, alias, t, olds, 0);
      }
    case Swapping(t, olds, k) =>
      if k >= |olds| {
        assert Targets(w.c, alias) == {t.index};
      } else {
        assert SwappedUpTo(w.c, alias, t, olds, k + 1);
      }
    case _ =>
  }

  lemma CopyStep(alias: string, w: World, s: Step)
    requires Inv(alias, w) && Legal(alias, w, s) && s.Copy?
    ensures Inv(alias, Next(alias, w, s)) && ReaderSafe(alias, w.c, Next(alias, w, s).c)
  {
    var w' := Next(alias, w, s);
    var src, dst := w.pc.olds[w.pc.k], w.pc.t.index;
    assert src in Targets(w.c, alias);
    assert w'.c.indices.Keys == w.c.indices.Keys;
    assert forall i :: i in w.c.indices ==> w.c.indices[i].Keys <= w'.c.indices[i].Keys;
    assert forall i :: i in w.c.indices && i != dst ==> w'.c.indices[i] == w.c.indices[i];
    KeepsReaders(alias, w.c, w'.c);
  }

  lemma SwapStep(alias: string, w: World, s: Step)
    requires Inv(alias, w) && Legal(alias, w, s) && s.Swap?
    ensures Inv(alias, Next(alias, w, s)) && ReaderSafe(alias, w.c, Next(alias, w, s).c)
  {
    var c, c', t, olds, k := w.c, Next(alias, w, s).c, w.pc.t, w.pc.olds, w.pc.k;
    assert olds[k] in Targets(c, alias);
    if s.applied {
      assert c'.aliases[alias] == (c.aliases[alias] - {olds[k]}) + {t.index};
      assert SwappedUpTo(c', alias, t, olds, k + 1);
      forall id | id in Reachable(c, alias) ensures id in Reachable(c', alias) {
        var i :| i in Targets(c, alias) && i in c.indices && id in c.indices[i];
        if i == olds[k] {
          assert id in c.indices[t.index] && t.index in Targets(c', alias);
        } else {
          assert i in Targets(c', alias);
        }
      }
    }
  }

  lemma DeleteStep(alias: string, w: World, s: Step)
    requires Inv(alias, w) && Legal(alias, w, s) && s.Delete?
    ensures Inv(alias, Next(alias, w, s)) && ReaderSafe(alias, w.c, Next(alias, w, s).c)
    ensures w.pc.olds[w.pc.k] !in Targets(w.c, alias)
  {
    var c, c' := w.c, Next(alias, w, s).c;
    if s.applied {
      assert Targets(c', alias) == Targets(c, alias);
    }
    KeepsReaders(alias, c, c');
  }

  lemma StepIsSafe(alias: string, w: World, s: Step)
    requires Inv(alias, w) && Legal(alias, w, s)
    ensures Inv(alias, Next(alias, w, s)) && ReaderSafe(alias, w.c, Next(alias, w, s).c)
  {
    hide Inv, Next, ReaderSafe;
    match s
    case Copy(_, _) => CopyStep(alias, w, s);
    case Swap(_, _) => SwapStep(alias, w, s);
    case Delete(_, _) => DeleteStep(alias, w, s);
    case _ => EnsureStep(alias, w, s);
  }

  // ---- every run, with any number of crashes and reruns ----

  /** `ws` are the successive worlds of the run `steps` from `ws[0]`. */
  ghost predicate IsRun(alias: string, ws: seq<World>, steps: seq<Step>) {
    && |ws| == |steps| + 1
    && forall i :: 0 <= i < |steps| ==> Legal(alias, ws[i], steps[i]) && ws[i + 1] == Next(alias, ws[i], steps[i])
  }

  lemma {:induction false} RunKeepsInv(alias: string, ws: seq<World>, steps: seq<Step>, i: nat)
    requires IsRun(alias, ws, steps) && i <= |steps| && Inv(alias, ws[0])
    ensures Inv(alias, ws[i])
  {
    hide Inv, Next, Legal;
    if i > 0 {
      RunKeepsInv(alias, ws, steps, i - 1);
      assert Legal(alias, ws[i - 1], steps[i - 1]);
      StepIsSafe(alias, ws[i - 1], steps[i - 1]);
    }
  }

  /** Zero downtime: between any two points of any run, a non-empty alias stays non-empty and no
      document id reachable through it is lost. */
  lemma {:induction false} NothingIsLost(alias: string, ws: seq<World>, steps: seq<Step>, i: nat, j: nat)
    requires IsRun(alias, ws, steps) && i <= j <= |steps| && Inv(alias, ws[0])
    ensures ReaderSafe(alias, ws[i].c, ws[j].c)
    decreases j - i
  {
    if i < j {
      hide Inv, Next, Legal, Targets, Reachable;
      NothingIsLost(alias, ws, steps, i, j - 1);
      RunKeepsInv(alias, ws, steps, j - 1);
      assert Legal(alias, ws[j - 1], steps[j - 1]);
      StepIsSafe(alias, ws[j - 1], steps[j - 1]);
    }
  }

  /** A call that returns nil leaves the alias at exactly its target. */
  lemma SuccessPointsAtTarget(alias: string, ws: seq<World>, steps: seq<Step>, i: nat)
    requires IsRun(alias, ws, steps) && i <= |steps| && Inv(alias, ws[0])
    requires ws[i].pc.Done?
    ensures Targets(ws[i].c, alias) == {ws[i].pc.t.index}
  {
    RunKeepsInv(alias, ws, steps, i);
  }

  /** No index is deleted while the alias points at it. */
  lemma DeletesOnlyUnaliased(alias: string, ws: seq<World>, steps: seq<Step>, i: nat, index: string)
    requires IsRun(alias, ws, steps) && i < |steps| && Inv(alias, ws[0])
    requires index in ws[i].c.indices && index !in ws[i + 1].c.indices
    ensures index !in Targets(ws[i].c, alias)
    ensures ws[i].pc.Deleting? && ws[i].pc.t.deleteOld
  {
    RunKeepsInv(alias, ws, steps, i);
    assert Legal(alias, ws[i], steps[i]);
    if steps[i].Delete? {
      DeleteStep(alias, ws[i], steps[i]);
    }
  }

  /** The indices deleted by steps number i, ..., j - 1. */
  ghost function Gone(ws: seq<World>, steps: seq<Step>, i: nat, j: nat): set<string>
    requires i <= j <= |steps| < |ws|
    decreases j
  {
    if i == j then {} else Gone(ws, steps, i, j - 1) + Victim(ws[j - 1], steps[j - 1])
  }

  ghost function Victim(w: World, s: Step): set<string> {
    if s.Delete? && s.applied && w.pc.Deleting? && w.pc.k < |w.pc.olds| then {w.pc.olds[w.pc.k]} else {}
  }

  lemma OtherAliasStep(alias: string, w: World, s: Step, other: string)
    requires Inv(alias, w) && Legal(alias, w, s) && other != alias
    ensures Targets(Next(alias, w, s).c, other) == Targets(w.c, other) - Victim(w, s)
  {
  }

  /** The guarantee is for the migrated alias alone: between any two points of any run another alias has lost
      exactly the deleted indices, so it keeps all of its own if and only if none of them was deleted. */
  lemma {:induction false} OtherAliasKeptIff(alias: string, ws: seq<World>, steps: seq<Step>, i: nat, j: nat, other: string)
    requires IsRun(alias, ws, steps) && i <= j <= |steps| && Inv(alias, ws[0]) && other != alias
    ensures Targets(ws[j].c, other) == Targets(ws[i].c, other) - Gone(ws, steps, i, j)
    ensures Targets(ws[j].c, other) == Targets(ws[i].c, other) <==> Targets(ws[i].c, other) !! Gone(ws, steps, i, j)
    decreases j
  {
    if i < j {
      OtherAliasKeptIff(alias, ws, steps, i, j - 1, other);
      RunKeepsInv(alias, ws, steps, j - 1);
      assert Legal(alias, ws[j - 1], steps[j - 1]) && ws[j] == Next(alias, ws[j - 1], steps[j - 1]);
      hide Next, Legal, Inv, Targets, IsRun;
      OtherAliasStep(alias, ws[j - 1], steps[j - 1], other);
    }
  }

  /** The old indices a successful call deletes. */
  function Retired(c: Cluster, alias: string, t: Target): set<string> {
    if t.deleteOld then Targets(c, alias) - {t.index} else {}
  }

  lemma Extend(alias: string, ws: seq<World>, steps: seq<Step>, s: Step) returns (ws': seq<World>, steps': seq<Step>)
    requires IsRun(alias, ws, steps) && Legal(alias, ws[|steps|], s)
    ensures IsRun(alias, ws', steps') && ws'[0] == ws[0] && ws'[|steps'|] == Next(alias, ws[|steps|], s)
  {
    ws', steps' := ws + [Next(alias, ws[|steps|], s)], steps + [s];
  }

  /** A successful migration of "docs" from "v1" to "v2" that leaves another alias of "v1" pointing nowhere. */
  lemma SharedIndexIsLost() returns (ws: seq<World>, steps: seq<Step>)
    ensures IsRun("docs", ws, steps) && Inv("docs", ws[0]) && ws[0].pc.Idle? && ws[|steps|].pc.Done?
    ensures Targets(ws[0].c, "other") == {"v1"} && Targets(ws[|steps|].c, "other") == {}
  {
    var c := Cluster(map["v1" := map[]], map["docs" := {"v1"}, "other" := {"v1"}]);
    var t := Target("v2", true);
    ws, steps := [World(c, Idle)], [];
    assert IsRun("docs", ws, steps);
    ws, steps := CopiedAndSwapped(c, t, ws, steps);
    hide IsRun;
    ws, steps := Extend("docs", ws, steps, Delete(true, true));
    ws, steps := Extend("docs", ws, steps, Local);
  }

  lemma CopiedAndSwapped(c: Cluster, t: Target, ws0: seq<World>, steps0: seq<Step>) returns (ws: seq<World>, steps: seq<Step>)
    requires c == Cluster(map["v1" := map[]], map["docs" := {"v1"}, "other" := {"v1"}]) && t == Target("v2", true)
    requires IsRun("docs", ws0, steps0) && ws0[|steps0|] == World(c, Idle)
    ensures IsRun("docs", ws, steps) && ws[0] == ws0[0] && ws[|steps|].pc == Deleting(t, ["v1"], 0)
    ensures ws[|steps|].c.aliases == map["docs" := {"v2"}, "other" := {"v1"}]
  {
    hide IsRun;
    ws, steps := Extend("docs", ws0, steps0, Begin(t, ["v1"]));
    ws, steps := Extend("docs", ws, steps, Ensure(true, true));
    ws, steps := Extend("docs", ws, steps, Copy({}, true));
    ws, steps := Extend("docs", ws, steps, Local);
    ws, steps := Extend("docs", ws, steps, Swap(true, true));
    assert {"v1"} - {"v1"} + {"v2"} == {"v2"};
    assert ws[|steps|].c.aliases == map["docs" := {"v2"}, "other" := {"v1"}];
    ws, steps := Extend("docs", ws, steps, Local);
  }

  // ---- what is copied ----

  function DocsOf(c: Cluster, index: string): Docs {
    if index in c.indices then c.indices[index] else map[]
  }

  /** The target after the first k old indices have been copied over it, later ones winning. */
  function Merged(c: Cluster, index: string, olds: seq<string>, k: nat): Docs
    requires k <= |olds|
  {
    if k == 0 then DocsOf(c, index)
    else if olds[k - 1] == index then Merged(c, index, olds, k - 1)
    else Merged(c, index, olds, k - 1) + DocsOf(c, olds[k - 1])
  }

  lemma DonePoints(alias: string, w: World)
    requires Inv(alias, w)
    ensures w.pc.Done? ==> Targets(w.c, alias) == {w.pc.t.index}
  {
  }

  lemma CopyingHasTarget(alias: string, w: World)
    requires Inv(alias, w) && (w.pc.Copying? || w.pc.Deleting?)
    ensures w.pc.t.index in w.c.indices
  {
  }

  lemma MergedNothing(c: Cluster, index: string, olds: seq<string>)
    requires olds == []
    ensures Merged(c, index, olds, |olds|) == DocsOf(Ensured(c, index), index)
  {
  }

  /** Creating the target empty changes nothing about what will be merged. */
  lemma {:induction false} MergedEnsured(c: Cluster, index: string, olds: seq<string>, k: nat)
    requires k <= |olds|
    ensures Merged(Ensured(c, index), index, olds, k) == Merged(c, index, olds, k)
  {
    if k > 0 {
      MergedEnsured(c, index, olds, k - 1);
    }
  }

  /** Copied documents: an id comes from the last old index that has it, and from the target's own
      documents only when no old index has it. */
  lemma {:induction false} MergedIsLastCopy(c: Cluster, index: string, olds: seq<string>, k: nat, id: string)
    requires k <= |olds|
    ensures id in Merged(c, index, olds, k) <==>
              id in DocsOf(c, index) || exists j :: 0 <= j < k && olds[j] != index && id in DocsOf(c, olds[j])
    ensures forall j :: 0 <= j < k && olds[j] != index && id in DocsOf(c, olds[j])
              && (forall m :: j < m < k && olds[m] != index ==> id !in DocsOf(c, olds[m]))
              ==> Merged(c, index, olds, k)[id] == DocsOf(c, olds[j])[id]
  {
    if k > 0 {
      MergedIsLastCopy(c, index, olds, k - 1, id);
    }
  }

  /** The indices are copied in the order of their names, so of several old documents with one id the one in the
      index with the greatest name is kept. */
  lemma MergedIsGreatest(c: Cluster, index: string, olds: seq<string>, id: string, o: string)
    requires Sorted(olds) && Distinct(olds)
    requires o in olds && o != index && id in DocsOf(c, o)
    requires forall p :: p in olds && p != index && id in DocsOf(c, p) ==> Below(p, o)
    ensures id in Merged(c, index, olds, |olds|) && Merged(c, index, olds, |olds|)[id] == DocsOf(c, o)[id]
  {
    var j :| 0 <= j < |olds| && olds[j] == o;
    forall m | j < m < |olds| && olds[m] != index ensures id !in DocsOf(c, olds[m]) {
      if id in DocsOf(c, olds[m]) {
        BelowAntisymmetric(olds[j], olds[m]);
      }
    }
    MergedIsLastCopy(c, index, olds, |olds|, id);
  }

  type Indices = map<string, Docs>

  /** Beside the target, which is there, exactly the indices not in `gone` are left, with the documents they had. */
  ghost predicate OthersKept(before: Indices, after: Indices, index: string, gone: set<string>) {
    && index in after
    && (forall x :: x != index ==> (x in after <==> x in before && x !in gone))
    && (forall x :: x != index && x in after ==> after[x] == before[x])
  }

  /** Every alias has lost exactly the indices in `gone`. */
  ghost predicate AliasesLost(before: Cluster, after: Cluster, gone: set<string>) {
    forall x :: Targets(after, x) == Targets(before, x) - gone
  }

  lemma NothingGone(c: Cluster, index: string, t: Target, olds: seq<string>)
    requires index in c.indices
    ensures OthersKept(c.indices, c.indices, index, {}) && OthersKept(c.indices, c.indices, index, DeletedOf(t, olds, 0))
    ensures AliasesLost(c, c, DeletedOf(t, olds, 0))
    ensures DocsOf(c, index) == Merged(c, index, olds, 0)
    ensures !t.deleteOld ==> DeletedOf(t, olds, |olds|) == DeletedOf(t, olds, 0)
  {
  }

  /** One more old index copied over the target. */
  lemma CopiedOne(a: Cluster, b: Cluster, c: Cluster, index: string, olds: seq<string>, k: nat)
    requires k < |olds| && OthersKept(a.indices, b.indices, index, {}) && DocsOf(b, index) == Merged(a, index, olds, k)
    requires olds[k] != index ==>
               && index in b.indices && olds[k] in b.indices
               && c == b.(indices := b.indices[index := b.indices[index] + b.indices[olds[k]]])
    requires olds[k] == index ==> c == b
    ensures OthersKept(a.indices, c.indices, index, {}) && DocsOf(c, index) == Merged(a, index, olds, k + 1)
  {
  }

  /** The first k old indices are deleted, and the target is as it was. */
  ghost predicate Shrunk(a: Cluster, c: Cluster, t: Target, olds: seq<string>, k: nat) {
    && k <= |olds|
    && OthersKept(a.indices, c.indices, t.index, DeletedOf(t, olds, k)) && AliasesLost(a, c, DeletedOf(t, olds, k))
    && t.index in a.indices && c.indices[t.index] == a.indices[t.index]
  }

  lemma ShrunkByNothing(c: Cluster, t: Target, olds: seq<string>)
    requires t.index in c.indices
    ensures Shrunk(c, c, t, olds, 0) && (!t.deleteOld ==> Shrunk(c, c, t, olds, |olds|))
  {
    NothingGone(c, t.index, t, olds);
  }

  lemma ShrunkKeepsTarget(a: Cluster, c: Cluster, t: Target, olds: seq<string>, k: nat)
    requires Shrunk(a, c, t, olds, k)
    ensures OthersKept(a.indices, c.indices, t.index, DeletedOf(t, olds, k)) && AliasesLost(a, c, DeletedOf(t, olds, k))
    ensures t.index in a.indices && t.index in c.indices && c.indices[t.index] == a.indices[t.index]
    ensures DocsOf(c, t.index) == DocsOf(a, t.index)
  {
  }

  /** One more old index deleted. */
  lemma DeletedOne(a: Cluster, b: Cluster, c: Cluster, t: Target, olds: seq<string>, k: nat)
    requires t.deleteOld && k < |olds| && Shrunk(a, b, t, olds, k)
    requires c.indices == b.indices - if olds[k] == t.index then {} else {olds[k]}
    requires AliasesLost(b, c, if olds[k] == t.index then {} else {olds[k]})
    ensures Shrunk(a, c, t, olds, k + 1)
  {
    hide Targets;
    forall x ensures Targets(c, x) == Targets(a, x) - DeletedOf(t, olds, k + 1) {
      assert Targets(b, x) == Targets(a, x) - DeletedOf(t, olds, k);
    }
  }

  lemma NoneLost(c: Cluster)
    ensures AliasesLost(c, c, {})
  {
  }

  lemma OthersKeptTwice(a: Indices, b: Indices, c: Indices, index: string, gone: set<string>)
    requires OthersKept(a, b, index, {}) && OthersKept(b, c, index, gone)
    ensures OthersKept(a, c, index, gone)
  {
  }

  // ---- the code ----

  datatype Fault = NoFault | BeforeEffect | AfterEffect

  /** A client running MigrateIndex against the cluster.  `ws` and `steps` record the run so far. */
  class Client {
    const alias: string
    var c: Cluster
    ghost var pc: Pc
    ghost var ws: seq<World>
    ghost var steps: seq<Step>

    ghost predicate Recorded()
      reads this
    {
      && IsRun(alias, ws, steps)
      && ws[|ws| - 1] == World(c, pc)
      && Inv(alias, ws[0]) && Inv(alias, ws[|ws| - 1])
    }

    constructor (alias: string, c: Cluster)
      requires Valid(c) && alias !in c.indices
      ensures Recorded() && this.alias == alias && this.c == c && pc == Idle && steps == []
    {
      this.alias, this.c, pc, ws, steps := alias, c, Idle, [World(c, Idle)], [];
    }

    /** One more step of the run. */
    ghost method Record(s: Step)
      requires |ws| > 0 && IsRun(alias, ws, steps) && Inv(alias, ws[0]) && Inv(alias, ws[|ws| - 1])
      requires Legal(alias, ws[|ws| - 1], s) && World(c, Next(alias, ws[|ws| - 1], s).pc) == Next(alias, ws[|ws| - 1], s)
      modifies this`pc, this`ws, this`steps
      ensures Recorded() && steps == old(steps) + [s] && ws == old(ws) + [Next(alias, old(ws)[|old(ws)| - 1], s)]
      ensures pc == Next(alias, old(ws)[|old(ws)| - 1], s).pc
    {
      var w := ws[|ws| - 1];
      StepIsSafe(alias, w, s);
      pc, ws, steps := Next(alias, w, s).pc, ws + [Next(alias, w, s)], steps + [s];
    }

    /** The indices the alias points at, in the order of their names, whatever order the response has them in. */
    method AliasIndices() returns (olds: seq<string>)
      ensures Lists(olds, Targets(c, alias)) && Sorted(olds)
    {
      olds := [];
      var left := if alias in c.aliases then c.aliases[alias] else {};
      while left != {}
        invariant forall x :: x in Targets(c, alias) <==> x in left || x in olds
        invariant forall x :: x in left ==> x !in olds
        invariant forall i, j :: 0 <= i < j < |olds| ==> olds[i] != olds[j]
        decreases left
      {
        var x :| x in left;
        olds, left := olds + [x], left - {x};
      }
      ghost var found := olds;
      SortSorts(olds);
      SortKeepsDistinct(olds);
      olds := Sort(olds);
      forall x ensures x in olds <==> x in found {
        SortKeepsMembers(found, x);
      }
      hide Sort, Sorted, Below;
    }

    method Start(t: Target, olds: seq<string>)
      requires Recorded() && (pc.Idle? || pc.Done?)
      requires t.index !in c.aliases && t.index != alias && Lists(olds, Targets(c, alias))
      modifies this`pc, this`ws, this`steps
      ensures Recorded() && old(ws) <= ws && pc == Resolved(t, olds)
    {
      Record(Begin(t, olds));
    }

    method EnsureIndex(t: Target, ghost olds: seq<string>, fault: Fault) returns (ok: bool)
      requires Recorded() && pc == Resolved(t, olds)
      modifies this
      ensures Recorded() && old(ws) <= ws
      ensures c == if fault == BeforeEffect then old(c) else Ensured(old(c), t.index)
      ensures ok ==> pc == if olds == [] then Pointing(t) else Copying(t, olds, 0)
      ensures !ok ==> pc == Idle
      ensures ok <==> fault == NoFault
    {
      if fault != BeforeEffect && t.index !in c.indices {
        c := c.(indices := c.indices[t.index := map[]]);
      }
      ok := fault == NoFault;
      Record(Ensure(fault != BeforeEffect, ok));
    }

    method EnsureAlias(t: Target, fault: Fault) returns (ok: bool)
      requires Recorded() && pc == Pointing(t)
      modifies this
      ensures Recorded() && old(ws) <= ws
      ensures pc == if ok then Done(t) else Idle
      ensures ok <==> fault == NoFault
      ensures c.indices == old(c.indices)
      ensures Targets(c, alias) == Targets(old(c), alias) + if fault == BeforeEffect then {} else {t.index}
      ensures forall x :: x != alias ==> Targets(c, x) == Targets(old(c), x)
    {
      if fault != BeforeEffect {
        c := Pointed(c, alias, t.index);
      }
      ok := fault == NoFault;
      Record(Point(fault != BeforeEffect, ok));
    }

    /** Reindex old index number k, possibly failing after copying only the documents `partial`. */
    method Reindex(t: Target, olds: seq<string>, k: nat, fault: Fault, partial: set<string>) returns (ok: bool)
      requires Recorded() && pc == Copying(t, olds, k) && k < |olds| && olds[k] != t.index
      modifies this
      ensures Recorded() && old(ws) <= ws && (ok <==> fault == NoFault)
      ensures pc == if ok then Copying(t, olds, k + 1) else Idle
      ensures t.index in old(c.indices) && olds[k] in old(c.indices)
      ensures ok ==> c == old(c).(indices := old(c.indices)[t.index := old(c.indices)[t.index] + old(c.indices)[olds[k]]])
    {
      ok := fault == NoFault;
      assert olds[k] in Targets(c, alias);
      var src := c.indices[olds[k]];
      var ids := if ok then src.Keys else partial;
      var moved := map id | id in src && id in ids :: src[id];
      assert ok ==> moved == src;
      c := c.(indices := c.indices[t.index := c.indices[t.index] + moved]);
      Record(Copy(ids, ok));
    }

    method SwapAlias(t: Target, olds: seq<string>, k: nat, fault: Fault) returns (ok: bool)
      requires Recorded() && pc == Swapping(t, olds, k) && k < |olds| && olds[k] != t.index
      modifies this
      ensures Recorded() && old(ws) <= ws && (ok <==> fault == NoFault)
      ensures pc == if ok then Swapping(t, olds, k + 1) else Idle
      ensures c.indices == old(c.indices)
      ensures Targets(c, alias) == if fault == BeforeEffect then Targets(old(c), alias) else Targets(old(c), alias) - {olds[k]} + {t.index}
      ensures forall x :: x != alias ==> Targets(c, x) == Targets(old(c), x)
    {
      ok := fault == NoFault;
      if fault != BeforeEffect && alias in c.aliases && olds[k] in c.aliases[alias] {
        c := c.(aliases := c.aliases[alias := (c.aliases[alias] - {olds[k]}) + {t.index}]);
      }
      Record(Swap(fault != BeforeEffect, ok));
    }

    method DeleteIndex(t: Target, olds: seq<string>, k: nat, fault: Fault) returns (ok: bool)
      requires Recorded() && pc == Deleting(t, olds, k) && t.deleteOld && k < |olds| && olds[k] != t.index
      modifies this
      ensures Recorded() && old(ws) <= ws && (ok <==> fault == NoFault)
      ensures pc == if ok then Deleting(t, olds, k + 1) else Idle
      ensures t.index in old(c.indices) && t.index in c.indices && c.indices[t.index] == old(c.indices)[t.index]
      ensures c.indices == old(c.indices) - if fault == BeforeEffect then {} else {olds[k]}
      ensures AliasesLost(old(c), c, if fault == BeforeEffect then {} else {olds[k]})
    {
      ok := fault == NoFault;
      assert t.index in c.indices;
      if fault != BeforeEffect {
        c := Cluster(c.indices - {olds[k]},
                     map x | x in c.aliases && c.aliases[x] != {olds[k]} :: c.aliases[x] - {olds[k]});
      }
      Record(Delete(fault != BeforeEffect, ok));
    }

    /** A loop step without a request: an old index that is the target, or the end of a loop. */
    method Advance()
      requires Recorded()
      requires ((pc.Copying? || pc.Swapping?) && Skips(pc.t, pc.olds, pc.k)) ||
               (pc.Deleting? && (!pc.t.deleteOld || Skips(pc.t, pc.olds, pc.k)))
      modifies this`pc, this`ws, this`steps
      ensures Recorded() && old(ws) <= ws && pc == LocalPc(old(pc))
    {
      Record(Local);
    }

    method CopyAll(t: Target, olds: seq<string>, faults: nat -> Fault, partial: set<string>) returns (ok: bool)
      requires Recorded() && pc == Copying(t, olds, 0)
      modifies this
      ensures Recorded() && old(ws) <= ws
      ensures pc == if ok then Swapping(t, olds, 0) else Idle
      ensures ok ==> DocsOf(c, t.index) == Merged(old(c), t.index, olds, |olds|)
      ensures ok ==> c.aliases == old(c.aliases) && OthersKept(old(c.indices), c.indices, t.index, {})
      ensures (forall n :: faults(n) == NoFault) ==> ok
    {
      CopyingHasTarget(alias, ws[|ws| - 1]);
      NothingGone(c, t.index, t, olds);
      hide Inv, IsRun, Next, Legal, OthersKept, DocsOf, Merged;
      for k := 0 to |olds|
        invariant Recorded() && pc == Copying(t, olds, k) && old(ws) <= ws
        invariant c.aliases == old(c.aliases)
        invariant OthersKept(old(c.indices), c.indices, t.index, {}) && DocsOf(c, t.index) == Merged(old(c), t.index, olds, k)
      {
        ghost var before := c;
        if olds[k] == t.index {
          Advance();
        } else {
          ok := Reindex(t, olds, k, faults(1 + k), partial);
          if !ok {
            return;
          }
        }
        CopiedOne(old(c), before, c, t.index, olds, k);
      }
      Advance();
      ok := true;
    }

    method SwapAll(t: Target, olds: seq<string>, faults: nat -> Fault) returns (ok: bool)
      requires Recorded() && pc == Swapping(t, olds, 0)
      modifies this
      ensures Recorded() && old(ws) <= ws
      ensures pc == if ok then Deleting(t, olds, 0) else Idle
      ensures c.indices == old(c.indices)
      ensures forall x :: x != alias ==> Targets(c, x) == Targets(old(c), x)
      ensures (forall n :: faults(n) == NoFault) ==> ok
    {
      hide Inv, IsRun, Next, Legal, Targets;
      for k := 0 to |olds|
        invariant Recorded() && pc == Swapping(t, olds, k) && old(ws) <= ws && c.indices == old(c.indices)
        invariant forall x :: x != alias ==> Targets(c, x) == Targets(old(c), x)
      {
        if olds[k] == t.index {
          Advance();
        } else {
          ok := SwapAlias(t, olds, k, faults(1 + |olds| + k));
          if !ok {
            return;
          }
        }
      }
      Advance();
      ok := true;
    }

    method DeleteAll(t: Target, olds: seq<string>, faults: nat -> Fault) returns (ok: bool)
      requires Recorded() && pc == Deleting(t, olds, 0)
      modifies this
      ensures Recorded() && old(ws) <= ws
      ensures pc == if ok then Done(t) else Idle
      ensures DocsOf(c, t.index) == DocsOf(old(c), t.index)
      ensures ok ==> AliasesLost(old(c), c, DeletedOf(t, olds, |olds|))
      ensures ok ==> OthersKept(old(c.indices), c.indices, t.index, DeletedOf(t, olds, |olds|))
      ensures (forall n :: faults(n) == NoFault) ==> ok
    {
      CopyingHasTarget(alias, ws[|ws| - 1]);
      NothingGone(c, t.index, t, olds);
      hide Inv, IsRun, Next, Legal, Targets, OthersKept, AliasesLost, DocsOf, DeletedOf;
      ShrunkByNothing(c, t, olds);
      hide Shrunk;
      if t.deleteOld {
        for k := 0 to |olds|
          invariant Recorded() && pc == Deleting(t, olds, k) && old(ws) <= ws
          invariant Shrunk(old(c), c, t, olds, k)
        {
          ghost var before := c;
          if olds[k] == t.index {
            Advance();
            NoneLost(c);
          } else {
            ok := DeleteIndex(t, olds, k, faults(1 + 2 * |olds| + k));
            if !ok {
              ShrunkKeepsTarget(old(c), before, t, olds, k);
              return;
            }
          }
          DeletedOne(old(c), before, c, t, olds, k);
        }
      }
      ShrunkKeepsTarget(old(c), c, t, olds, |olds|);
      Advance();
      ok := true;
    }

    method CopySwapDelete(t: Target, olds: seq<string>, faults: nat -> Fault, partial: set<string>) returns (ok: bool)
      requires Recorded() && pc == Copying(t, olds, 0)
      modifies this
      ensures Recorded() && old(ws) <= ws
      ensures pc == if ok then Done(t) else Idle
      ensures ok ==> DocsOf(c, t.index) == Merged(old(c), t.index, olds, |olds|)
      ensures ok ==> forall x :: x != alias ==> Targets(c, x) == Targets(old(c), x) - DeletedOf(t, olds, |olds|)
      ensures ok ==> OthersKept(old(c.indices), c.indices, t.index, DeletedOf(t, olds, |olds|))
      ensures (forall n :: faults(n) == NoFault) ==> ok
    {
      hide Inv, IsRun, Merged, DeletedOf, OthersKept;
      ok := CopyAll(t, olds, faults, partial);
      ghost var copied := c.indices;
      if ok {
        ok := SwapAll(t, olds, faults);
      }
      if ok {
        ok := DeleteAll(t, olds, faults);
        if ok {
          OthersKeptTwice(old(c.indices), copied, c.indices, t.index, DeletedOf(t, olds, |olds|));
        }
      }
    }

    /** Everything after the alias has been resolved. */
    method Rebuild(t: Target, olds: seq<string>, faults: nat -> Fault, partial: set<string>) returns (ok: bool)
      requires Recorded() && (pc.Idle? || pc.Done?)
      requires t.index !in c.aliases && t.index != alias && Lists(olds, Targets(c, alias))
      modifies this
      ensures Recorded() && old(ws) <= ws
      ensures pc == if ok then Done(t) else Idle
      ensures ok ==> Targets(c, alias) == {t.index}
      ensures ok ==> DocsOf(c, t.index) == Merged(old(c), t.index, olds, |olds|)
      ensures ok ==> forall x :: x != alias ==> Targets(c, x) == Targets(old(c), x) - DeletedOf(t, olds, |olds|)
      ensures ok ==> OthersKept(old(c.indices), c.indices, t.index, DeletedOf(t, olds, |olds|))
      ensures (forall n :: faults(n) == NoFault) ==> ok
    {
      hide Inv, IsRun, Next, Legal, Merged, Lists, DeletedOf;
      Start(t, olds);
      ok := EnsureIndex(t, olds, faults(0));
      if !ok {
        return;
      }
      assert forall x :: Targets(c, x) == Targets(old(c), x);
      assert OthersKept(old(c.indices), c.indices, t.index, {});
      ghost var ensured := c.indices;
      hide Targets, Ensured, OthersKept;
      if |olds| == 0 {
        MergedNothing(old(c), t.index, olds);
        NothingDeleted(t, olds);
        ok := EnsureAlias(t, faults(1));
        DonePoints(alias, ws[|ws| - 1]);
        return;
      }
      MergedEnsured(old(c), t.index, olds, |olds|);
      ok := CopySwapDelete(t, olds, faults, partial);
      if ok {
        OthersKeptTwice(old(c.indices), ensured, c.indices, t.index, DeletedOf(t, olds, |olds|));
      }
      DonePoints(alias, ws[|ws| - 1]);
    }

    /** The whole call; `faults(n)` is what happens to remote request n, the lookup of the alias being the first,
        and `partial` what a failing reindex still copies.  Whatever they are, the call is a run of the state
        machine, so the run theorems cover it.  Without faults it succeeds.  On success the alias is exactly the
        new index, which holds the documents of the old indices copied over its own; any other alias has lost
        exactly the old indices that were to be deleted, so it is unchanged if and only if it had none of them. */
    method MigrateIndex(t: Target, faults: nat -> Fault, partial: set<string>) returns (ok: bool, olds: seq<string>)
      requires Recorded() && (pc.Idle? || pc.Done?)
      requires t.index == alias || t.index !in c.aliases
      modifies this
      ensures Recorded() && old(ws) <= ws && (pc.Idle? || pc.Done?)
      ensures t.index == alias || faults(0) != NoFault ==> !ok && c == old(c)
      ensures t.index != alias && (forall n :: faults(n) == NoFault) ==> ok
      ensures ReaderSafe(alias, old(c), c)
      ensures ok ==> pc == Done(t) && Targets(c, alias) == {t.index}
      ensures ok ==> Lists(olds, Targets(old(c), alias)) && Sorted(olds) && DocsOf(c, t.index) == Merged(old(c), t.index, olds, |olds|)
      ensures ok ==> forall x :: x != alias ==> Targets(c, x) == Targets(old(c), x) - Retired(old(c), alias, t)
      ensures ok ==> OthersKept(old(c.indices), c.indices, t.index, if t.deleteOld then Targets(old(c), alias) - {t.index} else {})
      ensures ok ==> forall x :: x != alias ==>
                (Targets(c, x) == Targets(old(c), x) <==>
                 !(t.deleteOld && exists o :: o in Targets(old(c), alias) && o != t.index && o in Targets(old(c), x)))
    {
      olds := [];
      if t.index == alias || faults(0) != NoFault {
        SameReaders(alias, c);
        return false, olds;
      }
      hide Inv, ReaderSafe, IsRun, Next, Merged, DeletedOf, OthersKept, DocsOf, Targets, Lists;
      ghost var c0, i0 := c, |ws| - 1;
      ghost var pc0 := pc;
      olds := AliasIndices();
      ok := Rebuild(t, olds, n => if n >= 0 then faults(n + 1) else NoFault, partial);
      NothingIsLost(alias, ws, steps, i0, |ws| - 1);
      assert ws[i0] == World(c0, pc0);
      if ok {
        RetiredIsDeleted(c0, alias, t, olds);
        OthersKeptIff(c0, c, alias, t);
      }
    }
  }

  /** What success means for the other aliases, each of which keeps everything if and only if it had no retired index. */
  lemma OthersKeptIff(c: Cluster, c': Cluster, alias: string, t: Target)
    requires forall x :: x != alias ==> Targets(c', x) == Targets(c, x) - Retired(c, alias, t)
    ensures forall x :: x != alias ==>
              (Targets(c', x) == Targets(c, x) <==>
               !(t.deleteOld && exists o :: o in Targets(c, alias) && o != t.index && o in Targets(c, x)))
  {
    forall x | x != alias
      ensures Targets(c', x) == Targets(c, x) <==>
              !(t.deleteOld && exists o :: o in Targets(c, alias) && o != t.index && o in Targets(c, x))
    {
      assert Targets(c', x) == Targets(c, x) - Retired(c, alias, t);
      KeptIff(Targets(c, x), Targets(c', x), Targets(c, alias), t);
    }
  }

  /** The old indices among the first k that a call with target `t` deletes. */
  function DeletedOf(t: Target, olds: seq<string>, k: nat): set<string>
    requires k <= |olds|
  {
    if !t.deleteOld || k == 0 then {}
    else DeletedOf(t, olds, k - 1) + if olds[k - 1] == t.index then {} else {olds[k - 1]}
  }

  lemma NothingDeleted(t: Target, olds: seq<string>)
    requires olds == []
    ensures DeletedOf(t, olds, |olds|) == {}
  {
  }

  lemma {:induction false} DeletedOfHas(t: Target, olds: seq<string>, k: nat, x: string)
    requires k <= |olds|
    ensures x in DeletedOf(t, olds, k) <==> t.deleteOld && x in olds[..k] && x != t.index
  {
    if k > 0 {
      DeletedOfHas(t, olds, k - 1, x);
      assert olds[..k] == olds[..k - 1] + [olds[k - 1]];
    }
  }

  lemma RetiredIsDeleted(c: Cluster, alias: string, t: Target, olds: seq<string>)
    requires Lists(olds, Targets(c, alias))
    ensures DeletedOf(t, olds, |olds|) == Retired(c, alias, t)
  {
    assert olds[..|olds|] == olds;
    forall x ensures x in DeletedOf(t, olds, |olds|) <==> x in Retired(c, alias, t) {
      DeletedOfHas(t, olds, |olds|, x);
    }
  }

  lemma KeptIff(before: set<string>, after: set<string>, migrated: set<string>, t: Target)
    requires after == before - if t.deleteOld then migrated - {t.index} else {}
    ensures after == before <==> !(t.deleteOld && exists o :: o in migrated && o != t.index && o in before)
  {
    if t.deleteOld {
      if o :| o in migrated && o != t.index && o in before {
        assert o !in after;
      } else {
        assert after == before;
      }
    }
  }

  lemma SameReaders(alias: string, c: Cluster)
    ensures ReaderSafe(alias, c, c)
  {
  }
}
