/** Bulk indexing and the generic Source-to-index sync (database/elasticsearch/indexing: bulk.go,
    sync.go).  A batch becomes one bulk request of index operations, deduplicated by id and in map
    iteration order; the request is replayed whole after a transport failure, which may have
    executed any part of it. */
module BulkSync {

  import opened Options

  datatype Doc = Doc(id: string, body: int)

  type Index = map<string, int>

  /** The server's mapping check: which documents it refuses as items. */
  type Refuses = (string, int) -> bool

  // ---- the reference: one document after the other ----

  function Upserted(ix: Index, refuses: Refuses, d: Doc): Index {
    if d.id == "" || refuses(d.id, d.body) then ix else ix[d.id := d.body]
  }

  /** The first n documents of `ds`, one by one. */
  function OneByOne(ix: Index, refuses: Refuses, ds: seq<Doc>, n: nat): Index
    requires n <= |ds|
  {
    if n == 0 then ix else Upserted(OneByOne(ix, refuses, ds, n - 1), refuses, ds[n - 1])
  }

  // ---- batches ----

  /** The map a batch is collected in: the last body of each id wins. */
  function Collected(batch: seq<Doc>, n: nat): map<string, int>
    requires n <= |batch|
  {
    if n == 0 then map[]
    else if batch[n - 1].id == "" then Collected(batch, n - 1)
    else Collected(batch, n - 1)[batch[n - 1].id := batch[n - 1].body]
  }

  function Accepted(refuses: Refuses, docs: map<string, int>): map<string, int> {
    map id | id in docs && !refuses(id, docs[id]) :: docs[id]
  }

  function BatchEffect(ix: Index, refuses: Refuses, batch: seq<Doc>): Index {
    ix + Accepted(refuses, Collected(batch, |batch|))
  }

  /** The first n batches. */
  function BatchesEffect(ix: Index, refuses: Refuses, batches: seq<seq<Doc>>, n: nat): Index
    requires n <= |batches|
  {
    if n == 0 then ix else BatchEffect(BatchesEffect(ix, refuses, batches, n - 1), refuses, batches[n - 1])
  }

  function Flat(batches: seq<seq<Doc>>, n: nat): seq<Doc>
    requires n <= |batches|
  {
    if n == 0 then [] else Flat(batches, n - 1) + batches[n - 1]
  }

  predicate NothingRefused(refuses: Refuses, ds: seq<Doc>) {
    forall i :: 0 <= i < |ds| ==> !refuses(ds[i].id, ds[i].body)
  }

  /** Every collected entry is one of the batch's documents. */
  lemma {:induction false} CollectedFrom(batch: seq<Doc>, n: nat, id: string)
    requires n <= |batch| && id in Collected(batch, n)
    ensures id != "" && exists i :: 0 <= i < n && batch[i] == Doc(id, Collected(batch, n)[id])
  {
    var last := batch[n - 1];
    if last.id == id && id != "" {
      assert last == Doc(id, Collected(batch, n)[id]);
    } else {
      CollectedFrom(batch, n - 1, id);
      var i :| 0 <= i < n - 1 && batch[i] == Doc(id, Collected(batch, n - 1)[id]);
      assert batch[i] == Doc(id, Collected(batch, n)[id]);
    }
  }

  lemma {:induction false} CollectedIsOneByOne(ix: Index, refuses: Refuses, batch: seq<Doc>, n: nat)
    requires n <= |batch| && NothingRefused(refuses, batch)
    ensures ix + Collected(batch, n) == OneByOne(ix, refuses, batch, n)
  {
    if n > 0 {
      CollectedIsOneByOne(ix, refuses, batch, n - 1);
    }
  }

  lemma BatchIsOneByOne(ix: Index, refuses: Refuses, batch: seq<Doc>)
    requires NothingRefused(refuses, batch)
    ensures BatchEffect(ix, refuses, batch) == OneByOne(ix, refuses, batch, |batch|)
  {
    var docs := Collected(batch, |batch|);
    forall id | id in docs ensures !refuses(id, docs[id]) {
      CollectedFrom(batch, |batch|, id);
    }
    assert Accepted(refuses, docs) == docs;
    CollectedIsOneByOne(ix, refuses, batch, |batch|);
  }

  lemma {:induction false} OneByOneConcat(ix: Index, refuses: Refuses, a: seq<Doc>, b: seq<Doc>, n: nat)
    requires n <= |b|
    ensures OneByOne(ix, refuses, a + b, |a| + n) == OneByOne(OneByOne(ix, refuses, a, |a|), refuses, b, n)
  {
    if n == 0 {
      OneByOnePrefix(ix, refuses, a, b, |a|);
    } else {
      OneByOneConcat(ix, refuses, a, b, n - 1);
      assert (a + b)[|a| + n - 1] == b[n - 1];
    }
  }

  lemma {:induction false} OneByOnePrefix(ix: Index, refuses: Refuses, a: seq<Doc>, b: seq<Doc>, n: nat)
    requires n <= |a|
    ensures OneByOne(ix, refuses, a + b, n) == OneByOne(ix, refuses, a, n)
  {
    if n > 0 {
      OneByOnePrefix(ix, refuses, a, b, n - 1);
      assert (a + b)[n - 1] == a[n - 1];
    }
  }

  lemma NothingRefusedParts(refuses: Refuses, a: seq<Doc>, b: seq<Doc>)
    requires NothingRefused(refuses, a + b)
    ensures NothingRefused(refuses, a) && NothingRefused(refuses, b)
  {
    assert forall i :: 0 <= i < |a| ==> (a + b)[i] == a[i];
    assert forall i :: 0 <= i < |b| ==> (a + b)[|a| + i] == b[i];
  }

  /** Without refused items, however a source cuts its documents into batches, syncing them leaves the
      index as upserting every document with an id one by one in source order. */
  lemma {:induction false} SyncIsOneByOne(ix: Index, refuses: Refuses, batches: seq<seq<Doc>>, n: nat)
    requires n <= |batches| && NothingRefused(refuses, Flat(batches, n))
    ensures BatchesEffect(ix, refuses, batches, n) == OneByOne(ix, refuses, Flat(batches, n), |Flat(batches, n)|)
  {
    hide OneByOne, BatchEffect, NothingRefused;
    if n == 0 {
      OneByOneOfNothing(ix, refuses);
    } else {
      var done, batch := Flat(batches, n - 1), batches[n - 1];
      NothingRefusedParts(refuses, done, batch);
      SyncIsOneByOne(ix, refuses, batches, n - 1);
      BatchIsOneByOne(BatchesEffect(ix, refuses, batches, n - 1), refuses, batch);
      OneByOneConcat(ix, refuses, done, batch, |batch|);
    }
  }

  lemma OneByOneOfNothing(ix: Index, refuses: Refuses)
    ensures OneByOne(ix, refuses, [], 0) == ix
  {
  }

  /** With refused items that law fails: a refused last version of an id hides the accepted earlier one
      when both are in the same batch. */
  lemma RefusalHidesEarlierVersion()
    ensures
      var refuses := (id: string, body: int) => body == 2;
      var batch := [Doc("a", 1), Doc("a", 2)];
      BatchEffect(map[], refuses, batch) == map[] && OneByOne(map[], refuses, batch, 2) == map["a" := 1]
  {
    var refuses := (id: string, body: int) => body == 2;
    var batch := [Doc("a", 1), Doc("a", 2)];
    assert Collected(batch, 1) == map["a" := 1];
    assert Collected(batch, 2) == map["a" := 2];
    assert OneByOne(map[], refuses, batch, 1) == map["a" := 1];
  }

  function Lookup(ix: Index, id: string): Option<int> {
    if id in ix then Some(ix[id]) else None
  }

  /** The last version of an id in the batch that the server does not refuse. */
  function LastAccepted(refuses: Refuses, batch: seq<Doc>, n: nat, id: string): Option<int>
    requires n <= |batch|
  {
    if n == 0 then None
    else if batch[n - 1].id == id && !refuses(id, batch[n - 1].body) then Some(batch[n - 1].body)
    else LastAccepted(refuses, batch, n - 1, id)
  }

  /** The last version of `id` is refused while an earlier version is not, and that one differs from what
      the index holds. */
  predicate Shadows(ix: Index, refuses: Refuses, batch: seq<Doc>, id: string) {
    var docs, good := Collected(batch, |batch|), LastAccepted(refuses, batch, |batch|, id);
    id in docs && refuses(id, docs[id]) && good.Some? && good != Lookup(ix, id)
  }

  /** Exactly when a batch agrees with the one-by-one reference: no refused document shadows an accepted one. */
  lemma BatchAgreesIff(ix: Index, refuses: Refuses, batch: seq<Doc>)
    ensures BatchEffect(ix, refuses, batch) == OneByOne(ix, refuses, batch, |batch|) <==>
            forall id :: !Shadows(ix, refuses, batch, id)
  {
    var one, all := OneByOne(ix, refuses, batch, |batch|), BatchEffect(ix, refuses, batch);
    forall id ensures Lookup(all, id) != Lookup(one, id) <==> Shadows(ix, refuses, batch, id) {
      LookupsDifferIff(ix, refuses, batch, id);
    }
    if forall id :: !Shadows(ix, refuses, batch, id) {
      SameLookups(all, one);
    }
  }

  lemma LookupsDifferIff(ix: Index, refuses: Refuses, batch: seq<Doc>, id: string)
    ensures Lookup(BatchEffect(ix, refuses, batch), id) != Lookup(OneByOne(ix, refuses, batch, |batch|), id) <==>
            Shadows(ix, refuses, batch, id)
  {
    OneByOneLookup(ix, refuses, batch, |batch|, id);
    LastAcceptedIsLast(refuses, batch, |batch|, id);
  }

  lemma SameLookups(a: Index, b: Index)
    requires forall id :: Lookup(a, id) == Lookup(b, id)
    ensures a == b
  {
    assert forall id :: id in a <==> Lookup(a, id).Some?;
    assert forall id :: id in b <==> Lookup(b, id).Some?;
    assert forall id :: id in a ==> a[id] == Lookup(a, id).value;
    assert forall id :: id in b ==> b[id] == Lookup(b, id).value;
  }

  lemma {:induction false} OneByOneLookup(ix: Index, refuses: Refuses, batch: seq<Doc>, n: nat, id: string)
    requires n <= |batch|
    ensures Lookup(OneByOne(ix, refuses, batch, n), id) ==
            if id == "" || LastAccepted(refuses, batch, n, id).None? then Lookup(ix, id)
            else LastAccepted(refuses, batch, n, id)
  {
    if n > 0 {
      OneByOneLookup(ix, refuses, batch, n - 1, id);
    }
  }

  lemma {:induction false} LastAcceptedIsLast(refuses: Refuses, batch: seq<Doc>, n: nat, id: string)
    requires n <= |batch|
    ensures id in Collected(batch, n) && !refuses(id, Collected(batch, n)[id]) ==>
              LastAccepted(refuses, batch, n, id) == Some(Collected(batch, n)[id])
    ensures id !in Collected(batch, n) && id != "" ==> LastAccepted(refuses, batch, n, id).None?
    ensures "" !in Collected(batch, n)
  {
    if n > 0 {
      LastAcceptedIsLast(refuses, batch, n - 1, id);
    }
  }

  /** In the last batch with an accepted version of `id`, a refused last version hides it from an index that holds
      something else; a later batch with an accepted last version repairs that. */
  ghost predicate Hidden(ix: Index, refuses: Refuses, batches: seq<seq<Doc>>, n: nat, id: string)
    requires n <= |batches|
  {
    n > 0 &&
    if id != "" && LastAccepted(refuses, batches[n - 1], |batches[n - 1]|, id).Some?
    then Shadows(BatchesEffect(ix, refuses, batches, n - 1), refuses, batches[n - 1], id)
    else Hidden(ix, refuses, batches, n - 1, id)
  }

  lemma BatchLookup(ix: Index, refuses: Refuses, batch: seq<Doc>, id: string)
    ensures
      var docs := Collected(batch, |batch|);
      Lookup(BatchEffect(ix, refuses, batch), id) ==
      if id in docs && !refuses(id, docs[id]) then Some(docs[id]) else Lookup(ix, id)
  {
  }

  lemma {:induction false} LookupsDifferOverBatches(ix: Index, refuses: Refuses, batches: seq<seq<Doc>>, n: nat, id: string)
    requires n <= |batches|
    ensures Lookup(BatchesEffect(ix, refuses, batches, n), id) !=
            Lookup(OneByOne(ix, refuses, Flat(batches, n), |Flat(batches, n)|), id) <==>
            Hidden(ix, refuses, batches, n, id)
  {
    hide OneByOne, BatchEffect, Collected, LastAccepted;
    if n == 0 {
      OneByOneOfNothing(ix, refuses);
    } else {
      var done, batch := Flat(batches, n - 1), batches[n - 1];
      LookupsDifferOverBatches(ix, refuses, batches, n - 1, id);
      OneByOneConcat(ix, refuses, done, batch, |batch|);
      OneByOneLookup(OneByOne(ix, refuses, done, |done|), refuses, batch, |batch|, id);
      BatchLookup(BatchesEffect(ix, refuses, batches, n - 1), refuses, batch, id);
      LastAcceptedIsLast(refuses, batch, |batch|, id);
    }
  }

  ghost predicate NothingHidden(ix: Index, refuses: Refuses, batches: seq<seq<Doc>>, n: nat)
    requires n <= |batches|
  {
    forall id :: !Hidden(ix, refuses, batches, n, id)
  }

  /** Exactly when a whole sync agrees with the one-by-one reference, whatever is refused: no id is hidden. */
  lemma {:induction false} SyncAgreesIff(ix: Index, refuses: Refuses, batches: seq<seq<Doc>>, n: nat)
    requires n <= |batches|
    ensures BatchesEffect(ix, refuses, batches, n) == OneByOne(ix, refuses, Flat(batches, n), |Flat(batches, n)|) <==>
            NothingHidden(ix, refuses, batches, n)
  {
    var one, all := OneByOne(ix, refuses, Flat(batches, n), |Flat(batches, n)|), BatchesEffect(ix, refuses, batches, n);
    hide Upserted, BatchEffect, Shadows, LastAccepted;
    if NothingHidden(ix, refuses, batches, n) {
      forall id ensures Lookup(all, id) == Lookup(one, id) {
        LookupsDifferOverBatches(ix, refuses, batches, n, id);
        assert !Hidden(ix, refuses, batches, n, id);
      }
      SameLookups(all, one);
    } else {
      var id :| Hidden(ix, refuses, batches, n, id);
      LookupsDifferOverBatches(ix, refuses, batches, n, id);
    }
  }

  // ---- what a bulk request reports ----

  /** One bulk operation; an empty id asks the server to invent one. */
  datatype BulkOp = IndexOp(id: string, body: int)

  datatype Stats = Stats(indexed: nat, failed: nat, errors: seq<string>)

  datatype Report = Report(batches: nat, indexed: nat, failed: nat, errors: seq<string>)

  /** The documents of the first n that carry no id. */
  function Nameless(batch: seq<Doc>, n: nat): seq<Doc>
    requires n <= |batch|
  {
    if n == 0 then []
    else Nameless(batch, n - 1) + if batch[n - 1].id == "" then [batch[n - 1]] else []
  }

  /** One operation per nameless document and one per distinct id. */
  function OpCount(batch: seq<Doc>): nat {
    |Nameless(batch, |batch|)| + |Collected(batch, |batch|)|
  }

  function OpTotal(batches: seq<seq<Doc>>, n: nat): nat
    requires n <= |batches|
  {
    if n == 0 then 0 else OpTotal(batches, n - 1) + OpCount(batches[n - 1])
  }

  function NonEmpty(batches: seq<seq<Doc>>, n: nat): nat
    requires n <= |batches|
  {
    if n == 0 then 0 else NonEmpty(batches, n - 1) + if |batches[n - 1]| > 0 then 1 else 0
  }

  function RefusedIds(refuses: Refuses, ops: seq<BulkOp>, n: nat): seq<string>
    requires n <= |ops|
  {
    if n == 0 then []
    else RefusedIds(refuses, ops, n - 1) + if refuses(ops[n - 1].id, ops[n - 1].body) then [ops[n - 1].id] else []
  }

  /** The ids a batch is to report: one per refused nameless document, and one per id whose last version
      is refused. */
  function Refused(refuses: Refuses, batch: seq<Doc>): multiset<string> {
    var docs, loose := Collected(batch, |batch|), Nameless(batch, |batch|);
    multiset(RefusedIds(refuses, NamelessOps(loose), |loose|)) +
    multiset(set id | id in docs && refuses(id, docs[id]))
  }

  function NamelessOps(loose: seq<Doc>): (ops: seq<BulkOp>)
    ensures |ops| == |loose|
  {
    seq(|loose|, i requires 0 <= i < |loose| => IndexOp("", loose[i].body))
  }

  function RefusedTotal(refuses: Refuses, batches: seq<seq<Doc>>, n: nat): multiset<string>
    requires n <= |batches|
  {
    if n == 0 then multiset{} else RefusedTotal(refuses, batches, n - 1) + Refused(refuses, batches[n - 1])
  }

  /** Every operation is counted once, and every refused one is reported as one error. */
  ghost predicate Accounts(refuses: Refuses, ops: seq<BulkOp>, s: Stats) {
    && s.indexed + s.failed == |ops|
    && s.errors == RefusedIds(refuses, ops, |ops|) && s.failed == |s.errors|
  }

  lemma {:induction false} RefusedIdsPrefix(refuses: Refuses, ops: seq<BulkOp>, more: seq<BulkOp>, n: nat)
    requires n <= |ops|
    ensures RefusedIds(refuses, ops + more, n) == RefusedIds(refuses, ops, n)
  {
    if n > 0 {
      RefusedIdsPrefix(refuses, ops, more, n - 1);
      assert (ops + more)[n - 1] == ops[n - 1];
    }
  }

  lemma RefusedIdsSnoc(refuses: Refuses, ops: seq<BulkOp>, op: BulkOp)
    ensures RefusedIds(refuses, ops + [op], |ops| + 1) ==
            RefusedIds(refuses, ops, |ops|) + if refuses(op.id, op.body) then [op.id] else []
  {
    RefusedIdsPrefix(refuses, ops, [op], |ops|);
  }

  /** The ids of `ids` whose document is refused. */
  function RefusedAmong(refuses: Refuses, docs: map<string, int>, ids: set<string>): set<string>
    requires ids <= docs.Keys
  {
    set id | id in ids && refuses(id, docs[id])
  }

  lemma RefusedAmongStep(refuses: Refuses, docs: map<string, int>, ids: set<string>, id: string)
    requires ids <= docs.Keys && id in docs && id !in ids
    ensures multiset(RefusedAmong(refuses, docs, ids + {id})) ==
            multiset(RefusedAmong(refuses, docs, ids)) + if refuses(id, docs[id]) then multiset{id} else multiset{}
  {
    if refuses(id, docs[id]) {
      assert RefusedAmong(refuses, docs, ids + {id}) == RefusedAmong(refuses, docs, ids) + {id};
    } else {
      assert RefusedAmong(refuses, docs, ids + {id}) == RefusedAmong(refuses, docs, ids);
    }
  }

  /** `ops` carry the entries of `docs` for the ids in `done`, besides operations without an id. */
  ghost predicate Listed(docs: map<string, int>, ops: seq<BulkOp>, done: set<string>) {
    && (forall i :: 0 <= i < |ops| && ops[i].id != "" ==> ops[i].id in docs && docs[ops[i].id] == ops[i].body)
    && (forall id :: id in done ==> exists i :: 0 <= i < |ops| && ops[i].id == id)
  }

  ghost predicate Enumerates(ops: seq<BulkOp>, docs: map<string, int>) {
    Listed(docs, ops, docs.Keys) && "" !in docs
  }

  ghost predicate Reported(refuses: Refuses, loose: seq<BulkOp>, docs: map<string, int>, ops: seq<BulkOp>, done: set<string>)
    requires done <= docs.Keys
  {
    multiset(RefusedIds(refuses, ops, |ops|)) ==
    multiset(RefusedIds(refuses, loose, |loose|)) + multiset(RefusedAmong(refuses, docs, done))
  }

  lemma NothingListed(refuses: Refuses, loose: seq<BulkOp>, docs: map<string, int>)
    requires forall k :: 0 <= k < |loose| ==> loose[k].id == ""
    ensures Listed(docs, loose, {}) && Reported(refuses, loose, docs, loose, {})
  {
    assert RefusedAmong(refuses, docs, {}) == {};
  }

  lemma ListedStep(docs: map<string, int>, ops: seq<BulkOp>, done: set<string>, id: string)
    requires id in docs && Listed(docs, ops, done)
    ensures Listed(docs, ops + [IndexOp(id, docs[id])], done + {id})
  {
    var more := ops + [IndexOp(id, docs[id])];
    forall x | x in done + {id} ensures exists k :: 0 <= k < |more| && more[k].id == x {
      if x == id {
        assert more[|ops|].id == x;
      } else {
        var k :| 0 <= k < |ops| && ops[k].id == x;
        assert more[k].id == x;
      }
    }
  }

  lemma ReportedStep(refuses: Refuses, loose: seq<BulkOp>, docs: map<string, int>, ops: seq<BulkOp>, done: set<string>, id: string)
    requires id in docs && id !in done && done <= docs.Keys && Reported(refuses, loose, docs, ops, done)
    ensures Reported(refuses, loose, docs, ops + [IndexOp(id, docs[id])], done + {id})
  {
    hide RefusedIds, RefusedAmong;
    RefusedIdsSnoc(refuses, ops, IndexOp(id, docs[id]));
    RefusedAmongStep(refuses, docs, done, id);
  }

  lemma AllListed(refuses: Refuses, loose: seq<BulkOp>, docs: map<string, int>, ops: seq<BulkOp>)
    requires "" !in docs && Listed(docs, ops, docs.Keys) && Reported(refuses, loose, docs, ops, docs.Keys)
    ensures Enumerates(ops, docs)
    ensures multiset(RefusedIds(refuses, ops, |ops|)) ==
            multiset(RefusedIds(refuses, loose, |loose|)) + multiset(set id | id in docs && refuses(id, docs[id]))
  {
    hide RefusedIds;
    assert RefusedAmong(refuses, docs, docs.Keys) == set id | id in docs && refuses(id, docs[id]);
  }

  // ---- the code ----

  /** What becomes of one attempt to send a bulk request: the context is done before it, an answer comes
      back, or it fails in transport after the server executed some of the operations. */
  datatype Attempt = Cancelled | Answered | Lost(executed: int -> bool)

  /** Within the first `cap` attempts an answer comes before the context is done. */
  ghost predicate Delivered(attempts: int -> Attempt, cap: int) {
    exists n :: 0 <= n < cap && AnsweredFirst(attempts, n)
  }

  /** Attempt n is answered after n lost ones. */
  ghost predicate AnsweredFirst(attempts: int -> Attempt, n: int) {
    attempts(n).Answered? && forall k :: 0 <= k < n ==> attempts(k).Lost?
  }

  /** A batch gets through: the source and the context are fine, and its request, if it needs one, is delivered. */
  ghost predicate GetsThrough(batches: seq<seq<Doc>>, maxAttempts: int, broken: int -> bool, attempts: (int, int) -> Attempt, n: nat)
    requires n < |batches|
  {
    !broken(n) && (|batches[n]| > 0 ==> Delivered(a => attempts(n, a), if maxAttempts <= 0 then 3 else maxAttempts))
  }

  lemma {:induction false} SomeOperation(batch: seq<Doc>, n: nat)
    requires n <= |batch|
    ensures n > 0 ==> |Nameless(batch, n)| + |Collected(batch, n)| > 0
  {
    if n > 0 {
      SomeOperation(batch, n - 1);
      assert batch[n - 1].id != "" ==> batch[n - 1].id in Collected(batch, n);
    }
  }

  /** The two indexes differ at most at the keys of `good`. */
  ghost predicate SameBeside(a: Index, b: Index, good: map<string, int>) {
    forall id :: id !in good ==> Lookup(a, id) == Lookup(b, id)
  }

  lemma SameBesideUnion(a: Index, b: Index, good: map<string, int>)
    requires SameBeside(a, b, good)
    ensures a + good == b + good
  {
    forall id ensures Lookup(a + good, id) == Lookup(b + good, id) {
      if id !in good {
        assert Lookup(a, id) == Lookup(b, id);
      }
    }
    SameLookups(a + good, b + good);
  }

  lemma Executed(ops: seq<BulkOp>, docs: map<string, int>, good: map<string, int>, before: Index, after: Index)
    requires Enumerates(ops, docs) && good.Keys <= docs.Keys
    requires forall k :: 0 <= k < |ops| && ops[k].id in good ==> Lookup(after, ops[k].id) == Some(good[ops[k].id])
    requires SameBeside(after, before, good)
    ensures after == before + good
  {
    forall id ensures Lookup(after, id) == Lookup(before + good, id) {
      if id in good {
        assert id in docs;
        var i :| 0 <= i < |ops| && ops[i].id == id;
      } else {
        assert Lookup(after, id) == Lookup(before, id);
      }
    }
    SameLookups(after, before + good);
  }

  class Cluster {
    const refuses: Refuses
    var index: Index

    constructor (refuses: Refuses)
      ensures this.refuses == refuses && index == map[]
    {
      this.refuses, index := refuses, map[];
    }

    /** The server executing the operations chosen by `part`, in order. */
    method Execute(ops: seq<BulkOp>, part: int -> bool, ghost docs: map<string, int>)
      requires Enumerates(ops, docs)
      modifies this
      ensures SameBeside(index, old(index), Accepted(refuses, docs))
      ensures (forall i :: part(i)) ==> index == old(index) + Accepted(refuses, docs)
    {
      ghost var good := Accepted(refuses, docs);
      for i := 0 to |ops|
        invariant forall k :: 0 <= k < i && part(k) && ops[k].id in good ==>
                    Lookup(index, ops[k].id) == Some(good[ops[k].id])
        invariant SameBeside(index, old(index), good)
      {
        if part(i) && ops[i].id != "" && !refuses(ops[i].id, ops[i].body) {
          assert ops[i].id in good && good[ops[i].id] == ops[i].body;
          index := index[ops[i].id := ops[i].body];
        }
      }
      if forall i :: part(i) {
        Executed(ops, docs, good, old(index), index);
      }
    }

    /** The response of an executed bulk request, read item by item. */
    method ParseBulkResponse(ops: seq<BulkOp>) returns (s: Stats)
      ensures Accounts(refuses, ops, s)
    {
      s := Stats(0, 0, []);
      for i := 0 to |ops|
        invariant s.indexed + s.failed == i
        invariant s.errors == RefusedIds(refuses, ops, i) && s.failed == |s.errors|
      {
        if refuses(ops[i].id, ops[i].body) {
          s := s.(failed := s.failed + 1, errors := s.errors + [ops[i].id]);
        } else {
          s := s.(indexed := s.indexed + 1);
        }
      }
    }

    /** The request with its replays.  Whatever part of it lost attempts executed, an answered request has the
        effect of executing it once, and a failed one touches no other document. */
    method BulkDo(ops: seq<BulkOp>, maxAttempts: int, attempts: int -> Attempt, ghost docs: map<string, int>)
      returns (s: Option<Stats>)
      requires Enumerates(ops, docs)
      modifies this
      ensures SameBeside(index, old(index), Accepted(refuses, docs))
      ensures s.Some? ==> index == old(index) + Accepted(refuses, docs) && Accounts(refuses, ops, s.value)
      ensures s.Some? <==> ops == [] || Delivered(attempts, if maxAttempts <= 0 then 3 else maxAttempts)
    {
      ghost var good := Accepted(refuses, docs);
      if |ops| == 0 {
        assert docs == map[] && good == map[];
        return Some(Stats(0, 0, []));
      }
      var cap := if maxAttempts <= 0 then 3 else maxAttempts;
      for n := 0 to cap
        invariant SameBeside(index, old(index), good)
        invariant forall k :: 0 <= k < n ==> attempts(k).Lost?
      {
        match attempts(n) {
          case Cancelled => return None;
          case Answered =>
            SameBesideUnion(index, old(index), good);
            assert AnsweredFirst(attempts, n);
            Execute(ops, _ => true, docs);
            var stats := ParseBulkResponse(ops);
            return Some(stats);
          case Lost(executed) => Execute(ops, executed, docs);
        }
      }
      return None;
    }

    /** Collects a batch: a map for the documents with an id, operations for those without, then the map's
        entries in some order. */
    method BatchOps(batch: seq<Doc>) returns (ops: seq<BulkOp>)
      ensures Enumerates(ops, Collected(batch, |batch|))
      ensures |ops| == OpCount(batch)
      ensures multiset(RefusedIds(refuses, ops, |ops|)) == Refused(refuses, batch)
    {
      var docs: map<string, int> := map[];
      ops := [];
      for i := 0 to |batch|
        invariant docs == Collected(batch, i) && "" !in docs
        invariant ops == NamelessOps(Nameless(batch, i))
      {
        if batch[i].id != "" {
          docs := docs[batch[i].id := batch[i].body];
        } else {
          ops := ops + [IndexOp("", batch[i].body)];
        }
      }
      ops := Entries(ops, docs);
    }

    method Entries(loose: seq<BulkOp>, docs: map<string, int>) returns (ops: seq<BulkOp>)
      requires "" !in docs && forall k :: 0 <= k < |loose| ==> loose[k].id == ""
      ensures Enumerates(ops, docs)
      ensures |ops| == |loose| + |docs|
      ensures multiset(RefusedIds(refuses, ops, |ops|)) ==
              multiset(RefusedIds(refuses, loose, |loose|)) + multiset(set id | id in docs && refuses(id, docs[id]))
    {
      hide Listed, Reported, Enumerates, RefusedIds;
      ops := loose;
      var left, done := docs.Keys, {};
      NothingListed(refuses, loose, docs);
      while left != {}
        invariant left + done == docs.Keys && left !! done
        invariant |ops| == |loose| + |done|
        invariant Listed(docs, ops, done)
        invariant Reported(refuses, loose, docs, ops, done)
        decreases left
      {
        var id :| id in left;
        ListedStep(docs, ops, done, id);
        ReportedStep(refuses, loose, docs, ops, done, id);
        ops, left, done := ops + [IndexOp(id, docs[id])], left - {id}, done + {id};
      }
      assert done == docs.Keys;
      AllListed(refuses, loose, docs, ops);
    }

    /** One batch that is not empty. */
    method SyncBatch(batch: seq<Doc>, maxAttempts: int, attempts: int -> Attempt) returns (s: Option<Stats>)
      requires |batch| > 0
      modifies this
      ensures SameBeside(index, old(index), Accepted(refuses, Collected(batch, |batch|)))
      ensures s.Some? ==> index == BatchEffect(old(index), refuses, batch)
      ensures s.Some? ==> s.value.indexed + s.value.failed == OpCount(batch)
      ensures s.Some? ==> s.value.failed == |s.value.errors| && multiset(s.value.errors) == Refused(refuses, batch)
      ensures s.Some? <==> Delivered(attempts, if maxAttempts <= 0 then 3 else maxAttempts)
    {
      hide Accepted, Enumerates, Collected, Refused, Nameless, RefusedIds, Delivered, SameBeside;
      SomeOperation(batch, |batch|);
      var ops := BatchOps(batch);
      s := BulkDo(ops, maxAttempts, attempts, Collected(batch, |batch|));
    }

    /** Drains the source batch by batch; `broken(n)` is a done context or a source error before batch n.
        The first `done` batches took full effect, whatever was replayed on the way and in whatever order the
        maps were iterated, the report adds up over exactly those, and at most the batch after them was
        executed in part. */
    method Sync(batches: seq<seq<Doc>>, maxAttempts: int, broken: int -> bool, attempts: (int, int) -> Attempt)
      returns (rep: Report, ok: bool, ghost done: nat)
      modifies this
      ensures done <= |batches| && (ok <==> done == |batches|)
      ensures forall n :: 0 <= n < done ==> GetsThrough(batches, maxAttempts, broken, attempts, n)
      ensures !ok ==> !GetsThrough(batches, maxAttempts, broken, attempts, done)
      ensures ok ==> index == BatchesEffect(old(index), refuses, batches, done)
      ensures !ok ==> SameBeside(index, BatchesEffect(old(index), refuses, batches, done),
                                 Accepted(refuses, Collected(batches[done], |batches[done]|)))
      ensures rep.batches == NonEmpty(batches, done)
      ensures rep.indexed + rep.failed == OpTotal(batches, done)
      ensures rep.failed == |rep.errors| && multiset(rep.errors) == RefusedTotal(refuses, batches, done)
    {
      hide BatchEffect, Accepted, Collected, Refused, OpCount, Delivered;
      rep, ok, done := Report(0, 0, 0, []), true, 0;
      for n := 0 to |batches|
        invariant done == n
        invariant forall k :: 0 <= k < n ==> GetsThrough(batches, maxAttempts, broken, attempts, k)
        invariant index == BatchesEffect(old(index), refuses, batches, n)
        invariant rep.batches == NonEmpty(batches, n)
        invariant rep.indexed + rep.failed == OpTotal(batches, n)
        invariant rep.failed == |rep.errors| && multiset(rep.errors) == RefusedTotal(refuses, batches, n)
      {
        if broken(n) {
          return rep, false, n;
        }
        if |batches[n]| > 0 {
          var stats := SyncBatch(batches[n], maxAttempts, a => attempts(n, a));
          if stats.None? {
            return rep, false, n;
          }
          rep := Report(rep.batches + 1, rep.indexed + stats.value.indexed,
                        rep.failed + stats.value.failed, rep.errors + stats.value.errors);
        } else {
          BatchEffectIs(BatchesEffect(old(index), refuses, batches, n), refuses, batches[n]);
        }
        done := n + 1;
      }
    }
  }

  lemma BatchEffectIs(ix: Index, refuses: Refuses, batch: seq<Doc>)
    ensures BatchEffect(ix, refuses, batch) == ix + Accepted(refuses, Collected(batch, |batch|))
    ensures |batch| == 0 ==> BatchEffect(ix, refuses, batch) == ix && OpCount(batch) == 0 && Refused(refuses, batch) == multiset{}
  {
    if |batch| == 0 {
      assert Collected(batch, 0) == map[] && Nameless(batch, 0) == [];
      hide Collected, Nameless;
      assert Accepted(refuses, map[]) == map[];
      assert RefusedIds(refuses, NamelessOps([]), 0) == [];
    }
  }

}
