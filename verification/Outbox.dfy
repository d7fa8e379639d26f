/** The transactional outbox (messaging/outbox: dispatcher.go, outbox.go).  A run interleaves
    committed inserts with any number of dispatchers, each going through fetch, publish and mark;
    requests fail, replies get lost and dispatchers die between any two of them.  A claimed row is
    not locked beyond the fetch statement, so dispatchers may hold the same row.  The publish callback
    may return nil without delivering anything, to skip a row it cannot publish. */
module Outbox {

  /** An outbox row.  `delivered` counts the messages the broker got for it and `skipped` the nil returns of
      the callback without one; `spent` holds the attempt numbers of the claims that led to either.  Of the
      deliveries, `marked` were followed by an applied mark, and `loose` were not and will not be: a crash, a
      failed mark, or a lost broker confirmation. */
  datatype Row = Row(sent: bool, attempts: nat, delivered: nat, skipped: nat, spent: set<nat>, loose: nat, marked: nat)

  /** What FetchUnsent returns of a row: its id and its attempt number. */
  datatype Claim = Claim(id: nat, attempt: nat)

  /** `genuine` says whether the row about to be marked was delivered or skipped. */
  datatype Phase = Todo(claims: seq<Claim>) | Marking(claim: Claim, genuine: bool, rest: seq<Claim>)

  /** Rows in the order they were created; a dispatcher without a phase is not draining. */
  datatype World = World(rows: seq<Row>, phase: map<nat, Phase>)

  /** A publish is `accepted` if the broker got the message and `ok` if the callback returned nil: ok without
      accepted is a skip, accepted without ok a lost confirmation. */
  datatype Step =
    | Insert
    | Fetch(d: nat, ids: seq<nat>, delivered: bool)
    | Publish(d: nat, accepted: bool, ok: bool)
    | MarkSent(d: nat, applied: bool, ok: bool)
    | Stop(d: nat)

  const NewRow := Row(false, 0, 0, 0, {}, 0, 0)

  predicate Unsent(w: World, ids: seq<nat>) {
    && (forall i :: 0 <= i < |ids| ==> ids[i] < |w.rows| && !w.rows[ids[i]].sent)
    && (forall i, j :: 0 <= i < j < |ids| ==> ids[i] != ids[j])
  }

  predicate Legal(batch: nat, w: World, s: Step) {
    match s
    case Insert => true
    case Fetch(d, ids, _) => (d in w.phase ==> w.phase[d] == Todo([])) && |ids| <= batch && Unsent(w, ids)
    case Publish(d, accepted, ok) => d in w.phase && w.phase[d].Todo? && w.phase[d].claims != []
    case MarkSent(d, applied, ok) => d in w.phase && w.phase[d].Marking? && (ok ==> applied)
    case Stop(d) => true
  }

  /** The rows after the UPDATE of FetchUnsent. */
  function Bumped(rows: seq<Row>, ids: seq<nat>): seq<Row> {
    seq(|rows|, i requires 0 <= i < |rows| => if i in ids then rows[i].(attempts := rows[i].attempts + 1) else rows[i])
  }

  function Claims(rows: seq<Row>, ids: seq<nat>): seq<Claim>
    requires forall i :: 0 <= i < |ids| ==> ids[i] < |rows|
  {
    seq(|ids|, i requires 0 <= i < |ids| => Claim(ids[i], rows[ids[i]].attempts))
  }

  function PublishedRow(r: Row, attempt: nat, accepted: bool, ok: bool): Row {
    if accepted then
      r.(delivered := r.delivered + 1, spent := r.spent + {attempt}, loose := if ok then r.loose else r.loose + 1)
    else if ok then r.(skipped := r.skipped + 1, spent := r.spent + {attempt})
    else r
  }

  function Published(rows: seq<Row>, c: Claim, accepted: bool, ok: bool): seq<Row> {
    if c.id >= |rows| then rows else rows[c.id := PublishedRow(rows[c.id], c.attempt, accepted, ok)]
  }

  /** The row after its mark was applied. */
  function Marked(rows: seq<Row>, id: nat, genuine: bool): seq<Row> {
    if id >= |rows| then rows
    else rows[id := rows[id].(sent := true, marked := if genuine then rows[id].marked + 1 else rows[id].marked)]
  }

  /** The row after it became clear that its mark will not come. */
  function Loosened(rows: seq<Row>, id: nat, genuine: bool): seq<Row> {
    if id >= |rows| || !genuine then rows else rows[id := rows[id].(loose := rows[id].loose + 1)]
  }

  function Next(batch: nat, w: World, s: Step): World
    requires Legal(batch, w, s)
  {
    match s
    case Insert => w.(rows := w.rows + [NewRow])
    case Fetch(d, ids, delivered) =>
      var rows := Bumped(w.rows, ids);
      World(rows, if delivered then w.phase[d := Todo(Claims(rows, ids))] else w.phase - {d})
    case Publish(d, accepted, ok) =>
      var c, rest := w.phase[d].claims[0], w.phase[d].claims[1..];
      World(Published(w.rows, c, accepted, ok), if ok then w.phase[d := Marking(c, accepted, rest)] else w.phase - {d})
    case MarkSent(d, applied, ok) =>
      var p := w.phase[d];
      World(if applied then Marked(w.rows, p.claim.id, p.genuine) else Loosened(w.rows, p.claim.id, p.genuine),
            if ok then w.phase[d := Todo(p.rest)] else w.phase - {d})
    case Stop(d) =>
      World(if d in w.phase && w.phase[d].Marking? then Loosened(w.rows, w.phase[d].claim.id, w.phase[d].genuine) else w.rows,
            w.phase - {d})
  }

  /** A fetch adds one to the attempts of the rows it claims and to nothing else, and hands each claim out with its
      row's old attempts plus one, in the order of the rows asked for. */
  lemma FetchClaims(batch: nat, w: World, s: Step)
    requires s.Fetch? && Legal(batch, w, s)
    ensures
      var w' := Next(batch, w, s);
      && |w'.rows| == |w.rows|
      && (forall i :: 0 <= i < |w.rows| && i !in s.ids ==> w'.rows[i] == w.rows[i])
      && (forall i :: 0 <= i < |w.rows| && i in s.ids ==> w'.rows[i] == w.rows[i].(attempts := w.rows[i].attempts + 1))
      && (forall d :: d != s.d ==> (d in w'.phase <==> d in w.phase) && (d in w.phase ==> w'.phase[d] == w.phase[d]))
      && (s.d in w'.phase <==> s.delivered)
    ensures s.delivered ==>
              var p := Next(batch, w, s).phase[s.d];
              && p.Todo? && |p.claims| == |s.ids|
              && forall k :: 0 <= k < |s.ids| ==> p.claims[k] == Claim(s.ids[k], w.rows[s.ids[k]].attempts + 1)
  {
    if s.delivered {
      var rows, claims := Next(batch, w, s).rows, Next(batch, w, s).phase[s.d].claims;
      forall k | 0 <= k < |s.ids| ensures claims[k] == Claim(s.ids[k], w.rows[s.ids[k]].attempts + 1) {
        assert s.ids[k] in s.ids;
      }
    }
  }

  /** Steps other than a fetch leave every row's attempts alone, and publishing and marking leave every other row alone. */
  lemma OtherRowsStay(batch: nat, w: World, s: Step, i: nat)
    requires Legal(batch, w, s) && !s.Fetch? && i < |w.rows|
    ensures var w' := Next(batch, w, s); i < |w'.rows| && w'.rows[i].attempts == w.rows[i].attempts
    ensures s.Publish? && w.phase[s.d].claims[0].id != i ==> Next(batch, w, s).rows[i] == w.rows[i]
    ensures s.MarkSent? && w.phase[s.d].claim.id != i ==> Next(batch, w, s).rows[i] == w.rows[i]
    ensures s.MarkSent? && w.phase[s.d].claim.id == i ==> Next(batch, w, s).rows[i].sent == (w.rows[i].sent || s.applied)
    ensures !s.MarkSent? ==> Next(batch, w, s).rows[i].sent == w.rows[i].sent
  {
  }

  ghost predicate IsRun(batch: nat, ws: seq<World>, steps: seq<Step>) {
    && |ws| == |steps| + 1
    && ws[0] == World([], map[])
    && forall i :: 0 <= i < |steps| ==> Legal(batch, ws[i], steps[i]) && ws[i + 1] == Next(batch, ws[i], steps[i])
  }

  // ---- claims ----

  /** The claims a dispatcher may still publish. */
  function Open(p: Phase): seq<Claim> {
    match p case Todo(claims) => claims case Marking(_, _, rest) => rest
  }

  ghost predicate RowInv(r: Row) {
    && r.delivered + r.skipped == |r.spent|
    && (forall n :: n in r.spent ==> 1 <= n <= r.attempts)
    && (r.sent ==> r.delivered > 0 || r.skipped > 0)
  }

  ghost predicate RowsInv(rows: seq<Row>) {
    forall i :: 0 <= i < |rows| ==> RowInv(rows[i])
  }

  ghost predicate GoodClaim(rows: seq<Row>, c: Claim) {
    c.id < |rows| && 1 <= c.attempt <= rows[c.id].attempts && c.attempt !in rows[c.id].spent
  }

  ghost predicate PhaseInv(rows: seq<Row>, p: Phase) {
    && (forall i :: 0 <= i < |Open(p)| ==> GoodClaim(rows, Open(p)[i]))
    && (forall i, j :: 0 <= i < j < |Open(p)| ==> Open(p)[i].id != Open(p)[j].id)
    && (p.Marking? ==> p.claim.id < |rows| && (rows[p.claim.id].delivered > 0 || rows[p.claim.id].skipped > 0))
    && (p.Marking? ==> forall i :: 0 <= i < |p.rest| ==> p.rest[i].id != p.claim.id)
  }

  /** No attempt number of a row is held by two dispatchers. */
  ghost predicate Disjoint(phase: map<nat, Phase>) {
    forall d, e, i, j :: d in phase && e in phase && d != e && 0 <= i < |Open(phase[d])| && 0 <= j < |Open(phase[e])| ==>
      Open(phase[d])[i] != Open(phase[e])[j]
  }

  ghost predicate Inv(w: World) {
    RowsInv(w.rows) && (forall d :: d in w.phase ==> PhaseInv(w.rows, w.phase[d])) && Disjoint(w.phase)
  }

  lemma FetchStep(batch: nat, w: World, s: Step)
    requires Inv(w) && s.Fetch? && Legal(batch, w, s)
    ensures Inv(Next(batch, w, s))
  {
    var w' := Next(batch, w, s);
    FetchKeepsDisjoint(batch, w, s);
    hide Disjoint;
    BumpedKeepsRows(w.rows, s.ids);
    hide RowsInv, Open;
    forall d | d in w'.phase ensures PhaseInv(w'.rows, w'.phase[d]) {
      hide PhaseInv, Bumped, Claims;
      if d == s.d {
        ClaimsAreGood(w, s.ids);
      } else {
        assert PhaseInv(w.rows, w.phase[d]);
        BumpedKeepsPhase(w.rows, s.ids, w.phase[d]);
      }
    }
  }

  lemma BumpedKeepsRows(rows: seq<Row>, ids: seq<nat>)
    requires RowsInv(rows)
    ensures RowsInv(Bumped(rows, ids))
  {
    forall i | 0 <= i < |rows| ensures RowInv(Bumped(rows, ids)[i]) {
      assert RowInv(rows[i]);
    }
  }

  lemma BumpedKeepsPhase(rows: seq<Row>, ids: seq<nat>, p: Phase)
    requires PhaseInv(rows, p)
    ensures PhaseInv(Bumped(rows, ids), p)
  {
    forall i | 0 <= i < |Open(p)| ensures GoodClaim(Bumped(rows, ids), Open(p)[i]) {
      assert GoodClaim(rows, Open(p)[i]);
    }
  }

  lemma ClaimsAreGood(w: World, ids: seq<nat>)
    requires RowsInv(w.rows) && Unsent(w, ids)
    ensures PhaseInv(Bumped(w.rows, ids), Todo(Claims(Bumped(w.rows, ids), ids)))
  {
    var rows := Bumped(w.rows, ids);
    forall i | 0 <= i < |ids| ensures GoodClaim(rows, Claims(rows, ids)[i]) {
      assert ids[i] in ids && RowInv(w.rows[ids[i]]);
    }
  }

  /** New claims carry new attempt numbers. */
  lemma FetchKeepsDisjoint(batch: nat, w: World, s: Step)
    requires Inv(w) && s.Fetch? && Legal(batch, w, s)
    ensures Disjoint(Next(batch, w, s).phase)
  {
    hide RowsInv;
    var w' := Next(batch, w, s);
    if s.delivered {
      var fresh' := Open(w'.phase[s.d]);
      forall e, i, j | e in w.phase && e != s.d && 0 <= i < |fresh'| && 0 <= j < |Open(w.phase[e])|
        ensures fresh'[i] != Open(w.phase[e])[j]
      {
        assert PhaseInv(w.rows, w.phase[e]) && GoodClaim(w.rows, Open(w.phase[e])[j]);
        assert fresh'[i].attempt == w.rows[s.ids[i]].attempts + 1;
      }
    }
  }

  lemma PublishKeepsRows(rows: seq<Row>, c: Claim, accepted: bool, ok: bool)
    requires RowsInv(rows) && GoodClaim(rows, c)
    ensures RowsInv(Published(rows, c, accepted, ok)) && |Published(rows, c, accepted, ok)| == |rows|
  {
    var rows' := Published(rows, c, accepted, ok);
    forall i | 0 <= i < |rows'| ensures RowInv(rows'[i]) {
      assert RowInv(rows[i]);
    }
  }

  /** A publish spends its own claim and no other. */
  lemma PublishKeepsClaim(rows: seq<Row>, c: Claim, accepted: bool, ok: bool, k: Claim)
    requires GoodClaim(rows, k) && k != c
    ensures GoodClaim(Published(rows, c, accepted, ok), k)
  {
  }

  lemma PublishKeepsPhase(rows: seq<Row>, c: Claim, accepted: bool, ok: bool, p: Phase)
    requires PhaseInv(rows, p)
    requires forall i :: 0 <= i < |Open(p)| ==> Open(p)[i] != c
    ensures PhaseInv(Published(rows, c, accepted, ok), p)
  {
    forall i | 0 <= i < |Open(p)| ensures GoodClaim(Published(rows, c, accepted, ok), Open(p)[i]) {
      PublishKeepsClaim(rows, c, accepted, ok, Open(p)[i]);
    }
  }

  lemma PublishingPhase(rows: seq<Row>, p: Phase, accepted: bool)
    requires PhaseInv(rows, p) && p.Todo? && p.claims != []
    ensures GoodClaim(rows, p.claims[0])
    ensures PhaseInv(Published(rows, p.claims[0], accepted, true), Marking(p.claims[0], accepted, p.claims[1..]))
  {
    var c := p.claims[0];
    var rows' := Published(rows, c, accepted, true);
    assert Open(p)[0] == c;
    forall i | 0 <= i < |p.claims[1..]| ensures GoodClaim(rows', p.claims[1..][i]) && p.claims[1..][i].id != c.id {
      assert Open(p)[i + 1] == p.claims[1..][i];
      PublishKeepsClaim(rows, c, accepted, true, Open(p)[i + 1]);
    }
  }

  lemma PublishStep(batch: nat, w: World, s: Step)
    requires Inv(w) && s.Publish? && Legal(batch, w, s)
    ensures Inv(Next(batch, w, s))
  {
    hide Published, GoodClaim, RowsInv, PhaseInv;
    var w', p := Next(batch, w, s), w.phase[s.d];
    var c := p.claims[0];
    PublishingPhase(w.rows, p, s.accepted);
    PublishKeepsRows(w.rows, c, s.accepted, s.ok);
    forall d | d in w.phase && d != s.d ensures PhaseInv(Published(w.rows, c, s.accepted, s.ok), w.phase[d]) {
      forall i | 0 <= i < |Open(w.phase[d])| ensures Open(w.phase[d])[i] != c {
        assert Open(p)[0] != Open(w.phase[d])[i];
      }
      PublishKeepsPhase(w.rows, c, s.accepted, s.ok, w.phase[d]);
    }
    PublishKeepsDisjoint(batch, w, s);
  }

  lemma PublishKeepsDisjoint(batch: nat, w: World, s: Step)
    requires Disjoint(w.phase) && s.Publish? && Legal(batch, w, s)
    ensures Disjoint(Next(batch, w, s).phase)
  {
    hide Published;
    var phase' := Next(batch, w, s).phase;
    forall d, e, i, j | d in phase' && e in phase' && d != e && 0 <= i < |Open(phase'[d])| && 0 <= j < |Open(phase'[e])|
      ensures Open(phase'[d])[i] != Open(phase'[e])[j]
    {
      var i', j' := if d == s.d then i + 1 else i, if e == s.d then j + 1 else j;
      assert Open(phase'[d])[i] == Open(w.phase[d])[i'] && Open(phase'[e])[j] == Open(w.phase[e])[j'];
    }
  }

  /** Open claims stay good when rows only gain attempts. */
  lemma PhaseInvKept(rows: seq<Row>, rows': seq<Row>, p: Phase)
    requires PhaseInv(rows, p) && |rows| <= |rows'|
    requires forall i :: 0 <= i < |rows| ==> rows'[i].attempts == rows[i].attempts && rows'[i].spent == rows[i].spent
    requires forall i :: 0 <= i < |rows| ==> rows'[i].delivered == rows[i].delivered && rows'[i].skipped == rows[i].skipped
    ensures PhaseInv(rows', p)
  {
    forall i | 0 <= i < |Open(p)| ensures GoodClaim(rows', Open(p)[i]) {
      assert GoodClaim(rows, Open(p)[i]);
    }
  }

  lemma TodoAfterMark(rows: seq<Row>, p: Phase)
    requires PhaseInv(rows, p) && p.Marking?
    ensures PhaseInv(rows, Todo(p.rest))
  {
    assert Open(Todo(p.rest)) == Open(p);
  }

  lemma OtherKeepsPhase(batch: nat, w: World, s: Step, d: nat)
    requires !s.Fetch? && !s.Publish? && Legal(batch, w, s)
    requires d in w.phase && d in Next(batch, w, s).phase && PhaseInv(w.rows, w.phase[d])
    ensures
      var w' := Next(batch, w, s);
      PhaseInv(w'.rows, w'.phase[d]) && Open(w'.phase[d]) == Open(w.phase[d])
  {
    var w' := Next(batch, w, s);
    PhaseInvKept(w.rows, w'.rows, w.phase[d]);
    if s.MarkSent? && d == s.d {
      TodoAfterMark(w'.rows, w.phase[d]);
    }
  }

  lemma OtherKeepsRows(batch: nat, w: World, s: Step)
    requires Inv(w) && !s.Fetch? && !s.Publish? && Legal(batch, w, s)
    ensures RowsInv(Next(batch, w, s).rows)
  {
    hide Disjoint;
    var w' := Next(batch, w, s);
    if s.MarkSent? || (s.Stop? && s.d in w.phase) {
      assert PhaseInv(w.rows, w.phase[s.d]);
    }
    forall i | 0 <= i < |w'.rows| ensures RowInv(w'.rows[i]) {
      assert i < |w.rows| ==> RowInv(w.rows[i]);
    }
  }

  lemma SameOpenDisjoint(phase: map<nat, Phase>, phase': map<nat, Phase>)
    requires Disjoint(phase)
    requires forall d :: d in phase' ==> d in phase && Open(phase'[d]) == Open(phase[d])
    ensures Disjoint(phase')
  {
    hide Open;
    forall d, e, i, j | d in phase' && e in phase' && d != e && 0 <= i < |Open(phase'[d])| && 0 <= j < |Open(phase'[e])|
      ensures Open(phase'[d])[i] != Open(phase'[e])[j]
    {
      assert Open(phase'[d]) == Open(phase[d]) && Open(phase'[e]) == Open(phase[e]);
    }
  }

  lemma OtherStep(batch: nat, w: World, s: Step)
    requires Inv(w) && !s.Fetch? && !s.Publish? && Legal(batch, w, s)
    ensures Inv(Next(batch, w, s))
  {
    hide PhaseInv, Open, RowsInv, Disjoint, Marked, Loosened;
    var w' := Next(batch, w, s);
    OtherKeepsRows(batch, w, s);
    forall d | d in w'.phase ensures d in w.phase && PhaseInv(w'.rows, w'.phase[d]) && Open(w'.phase[d]) == Open(w.phase[d]) {
      OtherKeepsPhase(batch, w, s, d);
    }
    SameOpenDisjoint(w.phase, w'.phase);
  }

  lemma StepKeepsInv(batch: nat, w: World, s: Step)
    requires Inv(w) && Legal(batch, w, s)
    ensures Inv(Next(batch, w, s))
  {
    hide Inv, Next;
    match s
    case Fetch(_, _, _) => FetchStep(batch, w, s);
    case Publish(_, _, _) => PublishStep(batch, w, s);
    case _ => OtherStep(batch, w, s);
  }

  lemma {:induction false} RunKeepsInv(batch: nat, ws: seq<World>, steps: seq<Step>, i: nat)
    requires IsRun(batch, ws, steps) && i <= |steps|
    ensures Inv(ws[i])
  {
    if i > 0 {
      hide Inv, Next, Legal;
      RunKeepsInv(batch, ws, steps, i - 1);
      assert Legal(batch, ws[i - 1], steps[i - 1]);
      StepKeepsInv(batch, ws[i - 1], steps[i - 1]);
    }
  }

  lemma {:induction false} BoundedSet(s: set<nat>, n: nat)
    requires forall x :: x in s ==> 1 <= x <= n
    ensures |s| <= n
  {
    if n > 0 {
      var s' := s - {n};
      BoundedSet(s', n - 1);
      assert s <= s' + {n};
      assert |s| <= |s'| + 1;
    } else {
      assert s == {};
    }
  }

  // ---- what sent means ----

  /** A row marked sent was delivered, or skipped by the callback; and deliveries and skips together never
      exceed the attempts counter. */
  lemma SentWasPublished(batch: nat, ws: seq<World>, steps: seq<Step>, i: nat, id: nat)
    requires IsRun(batch, ws, steps) && i <= |steps| && id < |ws[i].rows|
    ensures ws[i].rows[id].sent ==> ws[i].rows[id].delivered > 0 || ws[i].rows[id].skipped > 0
    ensures ws[i].rows[id].delivered + ws[i].rows[id].skipped <= ws[i].rows[id].attempts
  {
    RunKeepsInv(batch, ws, steps, i);
    assert RowInv(ws[i].rows[id]);
    BoundedSet(ws[i].rows[id].spent, ws[i].rows[id].attempts);
  }

  /** The callback skips the rows that are poison to it, and no others. */
  ghost predicate SkipsPoison(poison: nat -> bool, ws: seq<World>, steps: seq<Step>) {
    |ws| == |steps| + 1 && forall i :: 0 <= i < |steps| ==> SkipsPoisonStep(poison, ws[i], steps[i])
  }

  predicate SkipsPoisonStep(poison: nat -> bool, w: World, s: Step) {
    s.Publish? && s.d in w.phase && w.phase[s.d].Todo? && w.phase[s.d].claims != [] ==>
      if poison(w.phase[s.d].claims[0].id) then !s.accepted else s.ok ==> s.accepted
  }

  lemma {:induction false} PoisonIsNotDelivered(poison: nat -> bool, batch: nat, ws: seq<World>, steps: seq<Step>, i: nat, id: nat)
    requires IsRun(batch, ws, steps) && SkipsPoison(poison, ws, steps) && i <= |steps| && id < |ws[i].rows|
    ensures if poison(id) then ws[i].rows[id].delivered == 0 else ws[i].rows[id].skipped == 0
  {
    if i > 0 {
      assert Legal(batch, ws[i - 1], steps[i - 1]) && ws[i] == Next(batch, ws[i - 1], steps[i - 1]);
      assert SkipsPoisonStep(poison, ws[i - 1], steps[i - 1]);
      if id < |ws[i - 1].rows| {
        PoisonIsNotDelivered(poison, batch, ws, steps, i - 1, id);
      }
    }
  }

  /** Exactly when a sent row was delivered: when the callback can publish it. */
  lemma SentIsDeliveredIff(poison: nat -> bool, batch: nat, ws: seq<World>, steps: seq<Step>, i: nat, id: nat)
    requires IsRun(batch, ws, steps) && SkipsPoison(poison, ws, steps) && i <= |steps| && id < |ws[i].rows|
    requires ws[i].rows[id].sent
    ensures ws[i].rows[id].delivered > 0 <==> !poison(id)
  {
    SentWasPublished(batch, ws, steps, i, id);
    PoisonIsNotDelivered(poison, batch, ws, steps, i, id);
  }

  lemma RunGrows(batch: nat, ws: seq<World>, steps: seq<Step>, s: Step)
    requires IsRun(batch, ws, steps) && Legal(batch, ws[|steps|], s)
    ensures IsRun(batch, ws + [Next(batch, ws[|steps|], s)], steps + [s])
  {
    hide Next, Legal;
    var ws', steps' := ws + [Next(batch, ws[|steps|], s)], steps + [s];
    forall i | 0 <= i < |steps'| ensures Legal(batch, ws'[i], steps'[i]) && ws'[i + 1] == Next(batch, ws'[i], steps'[i]) {
      assert ws'[i] == ws[i];
      if i < |steps| {
        assert steps'[i] == steps[i] && ws'[i + 1] == ws[i + 1];
        assert Legal(batch, ws[i], steps[i]);
      }
    }
  }

  lemma Extend(batch: nat, ws: seq<World>, steps: seq<Step>, s: Step) returns (ws': seq<World>, steps': seq<Step>)
    requires IsRun(batch, ws, steps) && Legal(batch, ws[|steps|], s)
    ensures IsRun(batch, ws', steps') && ws <= ws' && steps <= steps' && |steps'| == |steps| + 1
    ensures ws'[|steps'|] == Next(batch, ws[|steps|], s)
  {
    hide Next, Legal;
    RunGrows(batch, ws, steps, s);
    ws', steps' := ws + [Next(batch, ws[|steps|], s)], steps + [s];
  }

  /** A row that is fetched as the only one. */
  lemma OneFetched() returns (ws: seq<World>, steps: seq<Step>)
    ensures IsRun(1, ws, steps) && |steps| == 2
    ensures ws[2] == World([Row(false, 1, 0, 0, {}, 0, 0)], map[0 := Todo([Claim(0, 1)])])
  {
    ws, steps := [World([], map[])], [];
    assert IsRun(1, ws, steps);
    hide IsRun;
    ws, steps := Extend(1, ws, steps, Insert);
    assert ws[1].rows == [NewRow];
    ws, steps := Extend(1, ws, steps, Fetch(0, [0], true));
    var rows := [Row(false, 1, 0, 0, {}, 0, 0)];
    assert Bumped([NewRow], [0]) == rows;
    assert Claims(rows, [0]) == [Claim(0, 1)];
  }

  /** A skipped row ends as sent with nothing delivered. */
  lemma SkippedRowIsSent() returns (ws: seq<World>, steps: seq<Step>)
    ensures IsRun(1, ws, steps) && |ws[|steps|].rows| == 1
    ensures ws[|steps|].rows[0].sent && ws[|steps|].rows[0].delivered == 0
  {
    ws, steps := OneFetched();
    hide IsRun;
    ws, steps := Extend(1, ws, steps, Publish(0, false, true));
    ws, steps := Extend(1, ws, steps, MarkSent(0, true, true));
  }

  /** Rows are never lost, never unsent again, and their counters only rise. */
  lemma {:induction false} RowsOnlyGrow(batch: nat, ws: seq<World>, steps: seq<Step>, i: nat, j: nat, id: nat)
    requires IsRun(batch, ws, steps) && i <= j <= |steps| && id < |ws[i].rows|
    ensures id < |ws[j].rows|
    ensures ws[i].rows[id].sent ==> ws[j].rows[id].sent
    ensures ws[i].rows[id].delivered <= ws[j].rows[id].delivered && ws[i].rows[id].attempts <= ws[j].rows[id].attempts
    ensures ws[i].rows[id].skipped <= ws[j].rows[id].skipped && ws[i].rows[id].loose <= ws[j].rows[id].loose
    decreases j - i
  {
    if i < j {
      RowsOnlyGrow(batch, ws, steps, i, j - 1, id);
      assert Legal(batch, ws[j - 1], steps[j - 1]);
    }
  }

  // ---- the ledger of deliveries ----

  predicate AboutToMark(w: World, d: nat, id: nat) {
    d in w.phase && w.phase[d].Marking? && w.phase[d].genuine && w.phase[d].claim.id == id
  }

  /** The dispatchers that delivered the row and are about to mark it. */
  function Markers(w: World, id: nat): set<nat> {
    set d | d in w.phase && AboutToMark(w, d, id)
  }

  /** Every delivery of a row is followed by an applied mark, or never will be, or its dispatcher is about to
      mark it. */
  ghost predicate Balanced(w: World, id: nat)
    requires id < |w.rows|
  {
    w.rows[id].delivered == w.rows[id].loose + w.rows[id].marked + |Markers(w, id)|
  }

  lemma OneLess(a: set<nat>, b: set<nat>, d: nat)
    requires a == b - {d} && d in b
    ensures |b| == |a| + 1
  {
    assert b == a + {d};
  }

  /** What one step does to the markers of a row. */
  lemma MarkersStep(batch: nat, w: World, s: Step, id: nat)
    requires Legal(batch, w, s)
    ensures
      var w' := Next(batch, w, s);
      Markers(w', id) ==
      if s.Publish? && s.ok && s.accepted && w.phase[s.d].claims[0].id == id then Markers(w, id) + {s.d}
      else if s.MarkSent? || s.Stop? then Markers(w, id) - {s.d}
      else Markers(w, id)
    ensures s.Publish? || s.Fetch? ==> s.d !in Markers(w, id)
  {
    var w' := Next(batch, w, s);
    hide Published, Marked, Loosened, Bumped, Claims;
    if s.Insert? {
      assert w'.phase == w.phase;
    } else {
      assert forall d :: d != s.d ==> (AboutToMark(w', d, id) <==> AboutToMark(w, d, id));
    }
  }

  /** Deliveries neither marked nor given up: one more with a delivery, one less with the end of a marker. */
  lemma LedgerStep(batch: nat, w: World, s: Step, id: nat)
    requires Legal(batch, w, s) && id < |w.rows|
    ensures
      var r, r' := w.rows[id], Next(batch, w, s).rows[id];
      r'.delivered - r'.loose - r'.marked == r.delivered - r.loose - r.marked +
        if s.Publish? && s.ok && s.accepted && w.phase[s.d].claims[0].id == id then 1
        else if (s.MarkSent? || s.Stop?) && AboutToMark(w, s.d, id) then -1
        else 0
  {
  }

  lemma NewRowBalanced(batch: nat, w: World, s: Step, id: nat)
    requires Inv(w) && Legal(batch, w, s) && |w.rows| <= id < |Next(batch, w, s).rows|
    ensures Balanced(Next(batch, w, s), id)
  {
    assert s.Insert?;
    hide RowsInv, Disjoint;
    var w' := Next(batch, w, s);
    forall d | d in w'.phase ensures !AboutToMark(w', d, id) {
      assert PhaseInv(w.rows, w.phase[d]);
    }
    assert Markers(w', id) == {} && w'.rows[id] == NewRow;
  }

  lemma MarkersCount(batch: nat, w: World, s: Step, id: nat)
    requires Legal(batch, w, s)
    ensures
      |Markers(Next(batch, w, s), id)| == |Markers(w, id)| +
        if s.Publish? && s.ok && s.accepted && w.phase[s.d].claims[0].id == id then 1
        else if (s.MarkSent? || s.Stop?) && AboutToMark(w, s.d, id) then -1
        else 0
  {
    MarkersStep(batch, w, s, id);
    hide Next;
    var before, after := Markers(w, id), Markers(Next(batch, w, s), id);
    if (s.MarkSent? || s.Stop?) && AboutToMark(w, s.d, id) {
      OneLess(after, before, s.d);
    } else if s.MarkSent? || s.Stop? {
      assert s.d !in before;
      assert after == before;
    }
  }

  lemma BalancedStep(batch: nat, w: World, s: Step, id: nat)
    requires Inv(w) && Legal(batch, w, s)
    requires id < |w.rows| ==> Balanced(w, id)
    requires id < |Next(batch, w, s).rows|
    ensures Balanced(Next(batch, w, s), id)
  {
    hide Inv, Next, Markers, AboutToMark;
    if id >= |w.rows| {
      NewRowBalanced(batch, w, s, id);
    } else {
      LedgerStep(batch, w, s, id);
      MarkersCount(batch, w, s, id);
    }
  }

  lemma {:induction false} RunIsBalanced(batch: nat, ws: seq<World>, steps: seq<Step>, i: nat, id: nat)
    requires IsRun(batch, ws, steps) && i <= |steps| && id < |ws[i].rows|
    ensures Balanced(ws[i], id)
  {
    if i > 0 {
      hide Inv, Next, Legal, Balanced;
      RunKeepsInv(batch, ws, steps, i - 1);
      assert Legal(batch, ws[i - 1], steps[i - 1]);
      if id < |ws[i - 1].rows| {
        RunIsBalanced(batch, ws, steps, i - 1, id);
      }
      BalancedStep(batch, ws[i - 1], steps[i - 1], id);
    }
  }

  // ---- duplicates ----

  predicate Lists(cs: seq<Claim>, id: nat) {
    exists i :: 0 <= i < |cs| && cs[i].id == id
  }

  /** The dispatcher may still publish the row, or has and is about to mark it. */
  predicate Holds(w: World, d: nat, id: nat) {
    d in w.phase && (Lists(Open(w.phase[d]), id) || AboutToMark(w, d, id))
  }

  /** A fetch whose rows arrive claims a row that another dispatcher holds. */
  ghost predicate DoubleClaims(w: World, s: Step, id: nat) {
    s.Fetch? && s.delivered && id in s.ids && exists e :: e != s.d && Holds(w, e, id)
  }

  /** At most one dispatcher holds the row, and none once a delivery of it has been marked, at most once. */
  ghost predicate Single(w: World, id: nat) {
    && (forall d, e :: Holds(w, d, id) && Holds(w, e, id) ==> d == e)
    && (id < |w.rows| ==> w.rows[id].marked <= 1)
    && (id < |w.rows| && w.rows[id].marked > 0 ==> w.rows[id].sent && forall d :: !Holds(w, d, id))
    && (id >= |w.rows| ==> forall d :: !Holds(w, d, id))
  }

  /** Only a fetch makes a dispatcher hold a row; marking a delivered row ends it. */
  lemma HoldsStep(batch: nat, w: World, s: Step, id: nat, d: nat)
    requires Inv(w) && Legal(batch, w, s)
    ensures Holds(Next(batch, w, s), d, id) ==> Holds(w, d, id) || (s.Fetch? && s.delivered && s.d == d && id in s.ids)
    ensures s.MarkSent? && AboutToMark(w, s.d, id) ==> !Holds(Next(batch, w, s), s.d, id)
    ensures s.Fetch? ==> !Holds(w, s.d, id)
  {
    var w' := Next(batch, w, s);
    if d in w.phase {
      assert PhaseInv(w.rows, w.phase[d]);
    }
    if s.MarkSent? {
      assert PhaseInv(w.rows, w.phase[s.d]);
    }
    hide Published, Marked, Loosened, Bumped, PhaseInv;
    if Holds(w', d, id) && s.Publish? && s.d == d && Lists(Open(w'.phase[d]), id) {
      var i :| 0 <= i < |Open(w'.phase[d])| && Open(w'.phase[d])[i].id == id;
      assert Open(w.phase[d])[i + 1].id == id;
    }
    if Holds(w', d, id) && s.Publish? && s.d == d && AboutToMark(w', d, id) {
      assert Open(w.phase[d])[0].id == id;
    }
  }

  lemma MarkedStep(batch: nat, w: World, s: Step, id: nat)
    requires Legal(batch, w, s) && id < |w.rows|
    ensures
      var r, r' := w.rows[id], Next(batch, w, s).rows[id];
      && r'.marked == r.marked + (if s.MarkSent? && s.applied && AboutToMark(w, s.d, id) then 1 else 0)
      && (r.sent || r'.marked > r.marked ==> r'.sent)
  {
  }

  lemma SingleStep(batch: nat, w: World, s: Step, id: nat)
    requires Inv(w) && Legal(batch, w, s) && Single(w, id) && !DoubleClaims(w, s, id)
    ensures Single(Next(batch, w, s), id)
  {
    var w' := Next(batch, w, s);
    forall d ensures Holds(w', d, id) ==> Holds(w, d, id) || (s.Fetch? && s.delivered && s.d == d && id in s.ids) {
      HoldsStep(batch, w, s, id, d);
    }
    if s.MarkSent? || s.Fetch? {
      HoldsStep(batch, w, s, id, s.d);
    }
    if id < |w.rows| {
      MarkedStep(batch, w, s, id);
      if s.MarkSent? && s.applied && AboutToMark(w, s.d, id) {
        assert Holds(w, s.d, id);
      }
    } else {
      assert id < |w'.rows| ==> w'.rows[id] == NewRow;
    }
    assert s.Fetch? && id in s.ids ==> id < |w.rows| && !w.rows[id].sent;
    hide Next, Holds;
  }

  lemma {:induction false} RunIsSingle(batch: nat, ws: seq<World>, steps: seq<Step>, i: nat, id: nat)
    requires IsRun(batch, ws, steps) && i <= |steps|
    requires forall k :: 0 <= k < i ==> !DoubleClaims(ws[k], steps[k], id)
    ensures Single(ws[i], id)
  {
    if i > 0 {
      hide Inv, Next, Legal, Single, DoubleClaims;
      RunIsSingle(batch, ws, steps, i - 1, id);
      RunKeepsInv(batch, ws, steps, i - 1);
      assert Legal(batch, ws[i - 1], steps[i - 1]);
      SingleStep(batch, ws[i - 1], steps[i - 1], id);
    }
  }

  /** While no fetch claims a row that another dispatcher holds, the row is delivered at most once more than
      its deliveries that were interrupted before the mark. */
  lemma DuplicatesNeedInterruptions(batch: nat, ws: seq<World>, steps: seq<Step>, i: nat, id: nat)
    requires IsRun(batch, ws, steps) && i <= |steps| && id < |ws[i].rows|
    requires forall k :: 0 <= k < i ==> !DoubleClaims(ws[k], steps[k], id)
    ensures ws[i].rows[id].delivered <= 1 + ws[i].rows[id].loose
  {
    RunIsBalanced(batch, ws, steps, i, id);
    RunIsSingle(batch, ws, steps, i, id);
    var markers := Markers(ws[i], id);
    forall d | d in markers ensures Holds(ws[i], d, id) {
    }
    AtMostOne(markers);
  }

  lemma AtMostOne(s: set<nat>)
    requires forall d, e :: d in s && e in s ==> d == e
    ensures |s| <= 1
  {
    if d :| d in s {
      assert s == {d};
    }
  }

  /** In particular for every row when drains do not overlap. */
  lemma DisjointDrainsSuffice(w: World, s: Step, id: nat)
    requires s.Fetch? && forall d :: d in w.phase ==> d == s.d
    ensures !DoubleClaims(w, s, id)
  {
  }

  /** A dispatcher that may still publish a row can go on to deliver it, without touching the row or any other
      dispatcher before that. */
  lemma {:induction false} CanDeliver(batch: nat, ws: seq<World>, steps: seq<Step>, d: nat, id: nat)
    returns (ws': seq<World>, steps': seq<Step>)
    requires IsRun(batch, ws, steps) && d in ws[|steps|].phase && Lists(Open(ws[|steps|].phase[d]), id)
    ensures IsRun(batch, ws', steps') && ws <= ws' && steps <= steps'
    ensures AboutToMark(ws'[|steps'|], d, id)
    ensures forall e :: e != d ==> (AboutToMark(ws'[|steps'|], e, id) <==> AboutToMark(ws[|steps|], e, id))
    ensures forall e :: e != d && e in ws[|steps|].phase ==> e in ws'[|steps'|].phase && ws'[|steps'|].phase[e] == ws[|steps|].phase[e]
    decreases |Open(ws[|steps|].phase[d])|, ws[|steps|].phase[d].Marking?
  {
    var w := ws[|steps|];
    hide IsRun, Published, Marked;
    if w.phase[d].Marking? {
      var ws1, steps1 := Extend(batch, ws, steps, MarkSent(d, true, true));
      ws', steps' := CanDeliver(batch, ws1, steps1, d, id);
    } else if w.phase[d].claims[0].id == id {
      ws', steps' := Extend(batch, ws, steps, Publish(d, true, true));
    } else {
      var i :| 0 <= i < |w.phase[d].claims| && w.phase[d].claims[i].id == id;
      var ws1, steps1 := Extend(batch, ws, steps, Publish(d, true, true));
      assert Open(ws1[|steps1|].phase[d])[i - 1].id == id;
      ws', steps' := CanDeliver(batch, ws1, steps1, d, id);
    }
  }

  /** And the condition is needed: whenever a fetch claims a row that another dispatcher holds, the run can go
      on to deliver the row once too often. */
  lemma DoubleClaimDuplicates(batch: nat, ws: seq<World>, steps: seq<Step>, k: nat, id: nat)
    returns (ws': seq<World>, steps': seq<Step>)
    requires IsRun(batch, ws, steps) && |steps| == k + 1 && DoubleClaims(ws[k], steps[k], id)
    ensures IsRun(batch, ws', steps') && ws <= ws' && steps <= steps' && id < |ws'[|steps'|].rows|
    ensures ws'[|steps'|].rows[id].delivered > 1 + ws'[|steps'|].rows[id].loose
  {
    var d := steps[k].d;
    var e :| e != d && Holds(ws[k], e, id);
    FetchedHolds(batch, ws, steps, k, id, e);
    hide IsRun, DoubleClaims;
    ws', steps' := ws, steps;
    if !AboutToMark(ws[|steps|], e, id) {
      ws', steps' := CanDeliver(batch, ws, steps, e, id);
    }
    ws', steps' := CanDeliver(batch, ws', steps', d, id);
    RowStays(batch, ws', steps', k + 1, id);
    RunIsBalanced(batch, ws', steps', |steps'|, id);
    var markers := Markers(ws'[|steps'|], id);
    assert {d, e} <= markers;
    TwoOrMore(markers, d, e);
  }

  lemma TwoOrMore(s: set<nat>, d: nat, e: nat)
    requires d in s && e in s && d != e
    ensures |s| >= 2
  {
    var rest := s - {d};
    assert e in rest;
    assert |s| == |rest| + 1 && rest != {};
  }

  lemma RowStays(batch: nat, ws: seq<World>, steps: seq<Step>, i: nat, id: nat)
    requires IsRun(batch, ws, steps) && i <= |steps| && id < |ws[i].rows|
    ensures id < |ws[|steps|].rows|
  {
    RowsOnlyGrow(batch, ws, steps, i, |steps|, id);
  }

  lemma FetchedHolds(batch: nat, ws: seq<World>, steps: seq<Step>, k: nat, id: nat, e: nat)
    requires IsRun(batch, ws, steps) && |steps| == k + 1 && steps[k].Fetch? && steps[k].delivered && id in steps[k].ids
    requires e != steps[k].d && Holds(ws[k], e, id)
    ensures Holds(ws[k + 1], e, id) && id < |ws[k + 1].rows|
    ensures steps[k].d in ws[k + 1].phase && Lists(Open(ws[k + 1].phase[steps[k].d]), id)
  {
    var s := steps[k];
    assert Legal(batch, ws[k], s) && ws[k + 1] == Next(batch, ws[k], s);
    var i :| 0 <= i < |s.ids| && s.ids[i] == id;
    assert Open(ws[k + 1].phase[s.d])[i].id == id;
    assert ws[k + 1].phase[e] == ws[k].phase[e];
  }

  /** Two dispatchers fetch the same row and both publish it, with nothing interrupted. */
  lemma OverlapDuplicates() returns (ws: seq<World>, steps: seq<Step>)
    ensures IsRun(1, ws, steps) && |ws[|steps|].rows| == 1
    ensures ws[|steps|].rows[0].delivered == 2 && ws[|steps|].rows[0].loose == 0
  {
    ws, steps := OneFetched();
    var w := ws[2];
    hide IsRun;
    ws, steps := Extend(1, ws, steps, Fetch(1, [0], true));
    var rows := [Row(false, 2, 0, 0, {}, 0, 0)];
    assert Bumped(w.rows, [0]) == rows;
    assert Claims(rows, [0]) == [Claim(0, 2)];
    ws, steps := Extend(1, ws, steps, Publish(0, true, true));
    ws, steps := Extend(1, ws, steps, Publish(1, true, true));
  }

  // ---- the code ----

  ghost function Pending(rows: seq<Row>): set<nat> {
    set i | 0 <= i < |rows| && !rows[i].sent
  }

  lemma Shrinks(before: set<nat>, after: set<nat>, x: nat)
    requires after <= before && x in before && x !in after
    ensures |after| < |before|
  {
    var gone := before - after;
    assert x in gone;
    assert before == after + gone && after !! gone;
    assert |before| == |after| + |gone|;
  }

  lemma NoClaims(rows: seq<Row>)
    ensures Claims(rows, []) == []
  {
  }

  /** What happens to one publish and to the mark that follows it: whether the broker got the message, whether
      the callback returned nil, whether the mark was applied, and whether its reply arrived. */
  datatype Outcome = Outcome(accepted: bool, published: bool, applied: bool, marked: bool)

  predicate Faultless(o: Outcome) {
    o.published && o.marked
  }

  /** The rows after the publish and, if the callback returned nil, the mark of one claim. */
  function Settled(rows: seq<Row>, c: Claim, o: Outcome): seq<Row> {
    var published := Published(rows, c, o.accepted, o.published);
    if !o.published then published
    else if o.applied then Marked(published, c.id, o.accepted)
    else Loosened(published, c.id, o.accepted)
  }

  /** A step of dispatcher d. */
  predicate ActsAs(s: Step, d: nat) {
    !s.Insert? && s.d == d
  }

  /** The table only gains rows, and a sent row stays sent. */
  predicate Grows(rows: seq<Row>, rows': seq<Row>) {
    |rows| <= |rows'| && forall i :: 0 <= i < |rows| && rows[i].sent ==> rows'[i].sent
  }

  lemma StepGrows(batch: nat, w: World, s: Step)
    requires Legal(batch, w, s)
    ensures Grows(w.rows, Next(batch, w, s).rows)
  {
  }

  lemma OthersLeaveMe(batch: nat, w: World, s: Step, d: nat)
    requires Legal(batch, w, s) && !ActsAs(s, d)
    ensures d in Next(batch, w, s).phase <==> d in w.phase
    ensures d in w.phase ==> Next(batch, w, s).phase[d] == w.phase[d]
  {
  }

  /** What others do at point n of a drain: nothing after the end of `during`. */
  function Meanwhile(during: seq<seq<Step>>, n: nat): seq<Step> {
    if n < |during| then during[n] else []
  }

  function Remaining(during: seq<seq<Step>>, n: nat): nat {
    if n < |during| then |during| - n else 0
  }

  /** A dispatcher and the table it drains; `ws` and `steps` record the run so far. */
  class Dispatcher {
    const d: nat
    const batch: nat
    var w: World
    ghost var ws: seq<World>
    ghost var steps: seq<Step>

    ghost predicate Recorded()
      reads this
    {
      IsRun(batch, ws, steps) && |ws| == |steps| + 1 && ws[|steps|] == w
    }

    constructor (d: nat, batch: nat)
      ensures Recorded() && this.d == d && this.batch == batch && w == World([], map[])
    {
      this.d, this.batch, w, ws, steps := d, batch, World([], map[]), [World([], map[])], [];
    }

    /** Performs one step of the run. */
    method Do(s: Step)
      requires Recorded() && Legal(batch, w, s)
      modifies this
      ensures Recorded() && w == Next(batch, old(w), s) && steps == old(steps) + [s] && ws == old(ws) + [w]
    {
      RunGrows(batch, ws, steps, s);
      hide IsRun, Next, Legal;
      w := Next(batch, w, s);
      ws, steps := ws + [w], steps + [s];
    }

    /** The rows the SELECT of FetchUnsent claims: the oldest unsent ones, up to the batch size. */
    method SelectUnsent() returns (ids: seq<nat>)
      ensures Unsent(w, ids) && |ids| <= batch
      ensures forall i :: i in Pending(w.rows) && i !in ids ==> |ids| == batch && forall j :: j in ids ==> j < i
    {
      ids := [];
      var i := 0;
      while i < |w.rows| && |ids| < batch
        invariant 0 <= i <= |w.rows| && |ids| <= batch
        invariant forall k :: 0 <= k < |ids| ==> ids[k] < i && !w.rows[ids[k]].sent
        invariant forall j, k :: 0 <= j < k < |ids| ==> ids[j] != ids[k]
        invariant forall k :: 0 <= k < i && !w.rows[k].sent ==> k in ids
      {
        if !w.rows[i].sent {
          ids := ids + [i];
        }
        i := i + 1;
      }
    }

    /** Everyone else acting meanwhile, inserts included: of `during`, whatever is possible when its turn comes. */
    method Others(during: seq<Step>)
      requires Recorded()
      modifies this
      ensures Recorded() && old(ws) <= ws && old(steps) <= steps && Grows(old(w.rows), w.rows)
      ensures d in w.phase <==> d in old(w.phase)
      ensures d in w.phase ==> w.phase[d] == old(w.phase)[d]
      ensures during == [] ==> w == old(w)
    {
      hide IsRun, Next, Legal;
      for i := 0 to |during|
        invariant Recorded() && old(ws) <= ws && old(steps) <= steps && Grows(old(w.rows), w.rows)
        invariant d in w.phase <==> d in old(w.phase)
        invariant d in w.phase ==> w.phase[d] == old(w.phase)[d]
        invariant i == 0 ==> w == old(w)
      {
        if Legal(batch, w, during[i]) && !ActsAs(during[i], d) {
          StepGrows(batch, w, during[i]);
          OthersLeaveMe(batch, w, during[i], d);
          Do(during[i]);
        }
      }
    }

    /** Claims rows and bumps their attempts; a lost reply leaves the dispatcher without a batch.  A batch that is
        not full has all unsent rows. */
    method FetchUnsent(ok: bool) returns (ids: seq<nat>)
      requires Recorded() && (d in w.phase ==> w.phase[d] == Todo([]))
      modifies this
      ensures Recorded() && old(ws) <= ws && steps == old(steps) + [Fetch(d, ids, ok)]
      ensures Pending(w.rows) == Pending(old(w.rows)) && |w.rows| == |old(w.rows)| && |ids| <= batch
      ensures forall i :: 0 <= i < |ids| ==> ids[i] < |w.rows| && ids[i] in Pending(w.rows)
      ensures |ids| < batch ==> Pending(w.rows) == (set i | 0 <= i < |ids| :: ids[i])
      ensures ok ==> d in w.phase && w.phase[d] == Todo(Claims(w.rows, ids))
      ensures !ok ==> d !in w.phase
    {
      ids := SelectUnsent();
      Do(Fetch(d, ids, ok));
    }

    method Finish()
      requires Recorded() && d in w.phase && w.phase[d] == Todo([])
      modifies this
      ensures Recorded() && old(ws) <= ws && steps == old(steps) + [Stop(d)] && d !in w.phase && w.rows == old(w.rows)
    {
      Do(Stop(d));
    }

    /** The callback for the next claimed row. */
    method PublishNext(o: Outcome)
      requires Recorded() && d in w.phase && w.phase[d].Todo? && w.phase[d].claims != []
      modifies this
      ensures Recorded() && old(ws) <= ws && steps == old(steps) + [Publish(d, o.accepted, o.published)]
      ensures w.rows == Published(old(w.rows), old(w.phase)[d].claims[0], o.accepted, o.published)
      ensures w.phase == if o.published
                         then old(w.phase)[d := Marking(old(w.phase)[d].claims[0], o.accepted, old(w.phase)[d].claims[1..])]
                         else old(w.phase) - {d}
    {
      hide IsRun, Published;
      Do(Publish(d, o.accepted, o.published));
    }

    /** MarkSent for the row just published. */
    method MarkNext(o: Outcome)
      requires Recorded() && d in w.phase && w.phase[d].Marking? && (o.marked ==> o.applied)
      modifies this
      ensures Recorded() && old(ws) <= ws && steps == old(steps) + [MarkSent(d, o.applied, o.marked)]
      ensures w.rows == if o.applied then Marked(old(w.rows), old(w.phase)[d].claim.id, old(w.phase)[d].genuine)
                        else Loosened(old(w.rows), old(w.phase)[d].claim.id, old(w.phase)[d].genuine)
      ensures w.phase == if o.marked then old(w.phase)[d := Todo(old(w.phase)[d].rest)] else old(w.phase) - {d}
    {
      hide IsRun, Marked, Loosened;
      Do(MarkSent(d, o.applied, o.marked));
    }

    /** Publish and mark one claimed row, with everyone else acting in between; false ends the drain. */
    method PublishAndMark(o: Outcome, during: seq<Step>) returns (ok: bool)
      requires Recorded() && d in w.phase && w.phase[d].Todo? && w.phase[d].claims != []
      requires w.phase[d].claims[0].id < |w.rows|
      requires o.marked ==> o.applied
      modifies this
      ensures Recorded() && old(ws) <= ws && old(steps) <= steps && |old(steps)| < |steps|
      ensures steps[|old(steps)|] == Publish(d, o.accepted, o.published)
      ensures o.published ==> |steps| >= |old(steps)| + 2 && steps[|steps| - 1] == MarkSent(d, o.applied, o.marked)
      ensures !o.published ==> |steps| == |old(steps)| + 1
      ensures ok == Faultless(o)
      ensures if ok then d in w.phase && w.phase[d] == Todo(old(w.phase[d].claims)[1..]) else d !in w.phase
      ensures Grows(old(w.rows), w.rows)
      ensures ok ==> w.rows[old(w.phase[d].claims[0].id)].sent
      ensures during == [] ==> w.rows == Settled(old(w.rows), old(w.phase[d].claims[0]), o)
    {
      hide IsRun, Next, Legal;
      PublishNext(o);
      if !o.published {
        return false;
      }
      Others(during);
      MarkNext(o);
      return o.marked;
    }

    /** One drain, with everyone else acting between any two of its requests.  Whatever fails, what it does is a run of
        the state machine and it ends idle; without faults it ends clean.  A clean drain with a positive batch size
        leaves every row sent that was in the table at its last fetch (in `ws[at]`), and so every row that was there when
        it began; rows inserted after that fetch wait for the next drain.  `fetches` and `outcomes` say what happens to
        each request. */
    method Drain(fetches: nat -> bool, outcomes: nat -> Outcome, during: seq<seq<Step>>) returns (clean: bool, ghost at: nat)
      requires Recorded() && d !in w.phase
      requires forall n :: outcomes(n).marked ==> outcomes(n).applied
      modifies this
      ensures Recorded() && d !in w.phase && old(ws) <= ws && old(steps) <= steps && old(|steps|) <= at < |steps|
      ensures steps[at].Fetch? && steps[at].d == d
      ensures clean && batch > 0 ==> |old(w.rows)| <= |ws[at].rows| <= |w.rows|
      ensures clean && batch > 0 ==> forall i :: 0 <= i < |ws[at].rows| ==> w.rows[i].sent
      ensures (forall n :: fetches(n)) && (forall n :: Faultless(outcomes(n))) ==> clean
    {
      hide IsRun, Next, Legal, Claims;
      var fetched: nat, published: nat, now: nat := 0, 0, 0;
      while true
        invariant Recorded() && old(ws) <= ws && old(steps) <= steps && |old(w.rows)| <= |w.rows|
        invariant d in w.phase ==> w.phase[d] == Todo([])
        decreases Remaining(during, now), |Pending(w.rows)|
      {
        ghost var pending := Pending(w.rows);
        Others(Meanwhile(during, now));
        at := |steps|;
        var ids := FetchUnsent(fetches(fetched));
        if !fetches(fetched) {
          return false, at;
        }
        fetched := fetched + 1;
        if |ids| == 0 {
          NoClaims(w.rows);
          Finish();
          if batch > 0 {
            AllSent(w.rows);
          }
          return true, at;
        }
        ghost var rows := w.rows;
        var ok, later := DrainBatch(ids, published, outcomes, during, now + 1);
        if !ok {
          return false, at;
        }
        published := published + |ids|;
        if |ids| < batch {
          Finish();
          LastBatch(rows, w.rows, ids);
          return true, at;
        }
        if now >= |during| {
          assert ids[0] in pending;
          Shrinks(pending, Pending(w.rows), ids[0]);
        }
        now := later;
      }
    }

    method DrainOne(o: Outcome, before: seq<Step>, between: seq<Step>) returns (ok: bool)
      requires Recorded() && d in w.phase && w.phase[d].Todo? && w.phase[d].claims != []
      requires w.phase[d].claims[0].id < |w.rows| && (o.marked ==> o.applied)
      modifies this
      ensures Recorded() && old(ws) <= ws && old(steps) <= steps && Grows(old(w.rows), w.rows) && ok == Faultless(o)
      ensures if ok then d in w.phase && w.phase[d] == Todo(old(w.phase[d].claims)[1..]) else d !in w.phase
      ensures ok ==> w.rows[old(w.phase[d].claims[0].id)].sent
      ensures before == [] && between == [] ==> |w.rows| == |old(w.rows)|
    {
      hide IsRun, Next, Legal;
      Others(before);
      ok := PublishAndMark(o, between);
    }

    /** Publishes and marks a whole batch. */
    method DrainBatch(ids: seq<nat>, from: nat, outcomes: nat -> Outcome, during: seq<seq<Step>>, now: nat)
      returns (ok: bool, later: nat)
      requires Recorded()
      requires forall n :: outcomes(n).marked ==> outcomes(n).applied
      requires forall i :: 0 <= i < |ids| ==> ids[i] < |w.rows|
      requires d in w.phase && w.phase[d] == Todo(Claims(w.rows, ids))
      modifies this
      ensures Recorded() && old(ws) <= ws && old(steps) <= steps && Grows(old(w.rows), w.rows) && now <= later
      ensures if ok then d in w.phase && w.phase[d] == Todo([]) else d !in w.phase
      ensures ok ==> forall i :: 0 <= i < |ids| ==> w.rows[ids[i]].sent
      ensures now >= |during| ==> |w.rows| == |old(w.rows)|
      ensures (forall n :: Faultless(outcomes(n))) ==> ok
    {
      hide IsRun, Next, Legal;
      ghost var claims := Claims(w.rows, ids);
      later := now;
      for k := 0 to |ids|
        invariant Recorded() && old(ws) <= ws && old(steps) <= steps && Grows(old(w.rows), w.rows) && now <= later
        invariant d in w.phase && w.phase[d] == Todo(claims[k..])
        invariant forall i :: 0 <= i < k ==> w.rows[ids[i]].sent
        invariant now >= |during| ==> |w.rows| == |old(w.rows)|
      {
        assert claims[k..][0] == claims[k] && claims[k].id == ids[k];
        ok := DrainOne(outcomes(from + k), Meanwhile(during, later), Meanwhile(during, later + 1));
        later := later + 2;
        if !ok {
          return;
        }
        assert claims[k..][1..] == claims[k + 1..];
      }
      ok := true;
    }
  }

  lemma AllSent(rows: seq<Row>)
    requires Pending(rows) == {}
    ensures forall i :: 0 <= i < |rows| ==> rows[i].sent
  {
    forall i | 0 <= i < |rows| ensures rows[i].sent {
      assert i !in Pending(rows);
    }
  }

  lemma LastBatch(rows: seq<Row>, rows': seq<Row>, ids: seq<nat>)
    requires Grows(rows, rows') && (forall i :: 0 <= i < |ids| ==> ids[i] < |rows| && rows'[ids[i]].sent)
    requires Pending(rows) == (set i | 0 <= i < |ids| :: ids[i])
    ensures forall i :: 0 <= i < |rows| ==> rows'[i].sent
  {
    forall i | 0 <= i < |rows| ensures rows'[i].sent {
      if !rows[i].sent {
        assert i in Pending(rows);
      }
    }
  }
}
