/** What declared coverage is worth: with honest providers the reported bounds are true. */
module PositionCoverage {
  // The chain is every transaction of the mint in order, with the state of the world between any
  // two. A provider is honest when its pages show nothing else, and when a history that it finishes
  // shows every transaction of the account.

  import opened Wrappers
  import opened PositionLedger
  import opened PositionInvariants
  import opened PositionSoundness
  import opened PositionBounds
  import opened PositionUppers
  import opened PositionOrder
  import opened PositionPages
  import opened PositionResolver

  datatype Fact = Fact(signature: Signature, raw: RawTx, batch: RawBatch, moves: seq<nat>)

  datatype Chain = Chain(facts: seq<Fact>, worlds: seq<World>)

  /** One transaction changes only the accounts it lists; a failed one changes nothing. */
  ghost predicate Transition(f: Fact, w: World, v: World)
    requires BatchOk(f.batch.body)
  {
    var b := f.batch.body;
    && w.sold <= v.sold && Happened(b, w, f.moves)
    && (forall a :: a !in b.rows ==>
        Has(v.balance, a) == Has(w.balance, a)
        && PositionSoundness.Holds(v, a) == PositionSoundness.Holds(w, a))
    && (b.status == Parsed ==> v == WorldLegs(w, b.legs, f.moves))
    && (b.status == Failed ==> v == w)
  }

  ghost predicate FactOk(f: Fact) {
    f.batch.inScope && f.batch.signature == Some(f.signature) && BatchOk(f.batch.body) && BatchSafe(f.batch.body)
  }

  /** The stated places put the first transaction after the second; a missing place says nothing. */
  predicate PlacedAfter(a: RawBatch, b: RawBatch) {
    && a.slot.Some? && b.slot.Some?
    && (b.slot.value < a.slot.value
        || (a.slot == b.slot && a.index.At? && b.index.At? && b.index.position < a.index.position))
  }

  ghost predicate ChainOk(chain: Chain, total: nat) {
    && |chain.worlds| == |chain.facts| + 1
    && (forall i :: 0 <= i < |chain.facts| ==> FactOk(chain.facts[i]))
    && (forall i :: 0 <= i < |chain.worlds| ==> WorldOk(chain.worlds[i], total))
    && (forall i :: 0 <= i < |chain.facts| ==> Transition(chain.facts[i], chain.worlds[i], chain.worlds[i + 1]))
    && (forall i, j :: 0 <= i < j < |chain.facts| ==>
          !PlacedAfter(chain.facts[i].batch, chain.facts[j].batch)
          && chain.facts[i].signature != chain.facts[j].signature)
  }

  predicate Shows(f: Fact, row: FetchedRow) {
    row.signature == Some(f.signature) && row.raw == f.raw && row.batch == f.batch
  }

  /** Pages show transactions of the chain, and a finished history shows all of its account's. */
  ghost predicate HonestPages(fetch: Fetch, chain: Chain) {
    && (forall a, c, n, row :: fetch(a, c, n).Page? && row in fetch(a, c, n).rows && row.signature.Some?
          ==> exists i :: 0 <= i < |chain.facts| && Shows(chain.facts[i], row))
    && (forall a, trail, p, i :: FullHistory(fetch, a, trail, p)
          && 0 <= i < |chain.facts| && a in chain.facts[i].batch.body.rows
          ==> Showed(fetch, a, trail, chain.facts[i].signature))
  }

  // ---- what was collected ----

  predicate Kept(chain: Chain, collected: map<Signature, Stored>, i: nat)
    requires i < |chain.facts|
  {
    chain.facts[i].signature in collected
  }

  /** The stored transactions are facts of the chain. */
  lemma StoredIsFact(fetch: Fetch, chain: Chain, collected: map<Signature, Stored>, s: Signature) returns (i: nat)
    requires HonestPages(fetch, chain) && Extends(fetch, map[], collected) && s in collected
    ensures i < |chain.facts| && chain.facts[i].signature == s && collected[s].batch == chain.facts[i].batch
  {
    assert FromPage(fetch, s, collected[s]);
    var a, c, n, row :| fetch(a, c, n).Page? && row in fetch(a, c, n).rows && row.signature == Some(s)
                        && collected[s] == Stored(row.raw, row.batch);
    i :| 0 <= i < |chain.facts| && Shows(chain.facts[i], row);
  }

  /** A fact that touches a fully read account was collected. */
  lemma TouchedIsKept(fetch: Fetch, chain: Chain, collected: map<Signature, Stored>, a: Account, i: nat)
    requires HonestPages(fetch, chain) && FullyRead(fetch, a, collected)
    requires i < |chain.facts| && a in chain.facts[i].batch.body.rows
    ensures Kept(chain, collected, i)
  {
    var trail, p :| FullHistory(fetch, a, trail, p) && Received(fetch, a, trail, collected);
    assert Showed(fetch, a, trail, chain.facts[i].signature);
  }

  // ---- the observed part of the chain ----

  function KeptFrom(chain: Chain, collected: map<Signature, Stored>, i: nat): seq<RawBatch>
    requires i <= |chain.facts|
    decreases |chain.facts| - i
  {
    if i == |chain.facts| then []
    else (if Kept(chain, collected, i) then [chain.facts[i].batch] else []) + KeptFrom(chain, collected, i + 1)
  }

  function EpochsFrom(chain: Chain, collected: map<Signature, Stored>, i: nat): seq<Epoch>
    requires i <= |chain.facts| && |chain.worlds| == |chain.facts| + 1
    decreases |chain.facts| - i
  {
    if i == |chain.facts| then []
    else
      (if Kept(chain, collected, i)
       then [Epoch(chain.facts[i].batch.body, chain.worlds[i], chain.facts[i].moves)] else [])
      + EpochsFrom(chain, collected, i + 1)
  }

  lemma {:induction false} EpochsAreKept(chain: Chain, collected: map<Signature, Stored>, i: nat, total: nat)
    requires ChainOk(chain, total) && i <= |chain.facts|
    ensures Observed(EpochsFrom(chain, collected, i)) == Bodies(KeptFrom(chain, collected, i))
    ensures forall e :: e in EpochsFrom(chain, collected, i) ==> BatchOk(e.batch) && BatchSafe(e.batch)
    decreases |chain.facts| - i
  {
    if i < |chain.facts| {
      EpochsAreKept(chain, collected, i + 1, total);
      assert FactOk(chain.facts[i]);
      hide BatchOk, BatchSafe, ChainOk;
    }
  }

  lemma {:induction false} KeptIn(chain: Chain, collected: map<Signature, Stored>, i: nat, b: RawBatch)
    requires i <= |chain.facts|
    ensures b in KeptFrom(chain, collected, i) <==>
            exists j :: i <= j < |chain.facts| && Kept(chain, collected, j) && chain.facts[j].batch == b
    decreases |chain.facts| - i
  {
    if i < |chain.facts| {
      KeptIn(chain, collected, i + 1, b);
    }
  }

  /** Among retained transactions the chain's order is the canonical one. */
  lemma RetainedIsEarlier(es: set<RawBatch>, a: RawBatch, b: RawBatch)
    requires forall c :: c in es ==> c.slot.Some? && c.index != Malformed
    requires a in Retained(es) && b in Retained(es) && a != b && !PlacedAfter(a, b)
    ensures Earlier(a, b)
  {
    if a.slot == b.slot {
      assert !Clash(a, b) && !Clash(b, a);
    }
  }

  lemma {:induction false} KeptInOrder(chain: Chain, collected: map<Signature, Stored>, i: nat, total: nat,
                                       es: set<RawBatch>)
    requires ChainOk(chain, total) && i <= |chain.facts|
    requires forall c :: c in es ==> c.slot.Some? && c.index != Malformed
    requires forall b :: b in KeptFrom(chain, collected, i) ==> b in Retained(es)
    ensures InOrder(KeptFrom(chain, collected, i))
    decreases |chain.facts| - i
  {
    if i < |chain.facts| {
      var f, rest := chain.facts[i], KeptFrom(chain, collected, i + 1);
      assert forall b :: b in rest ==> b in KeptFrom(chain, collected, i);
      KeptInOrder(chain, collected, i + 1, total, es);
      if Kept(chain, collected, i) {
        assert f.batch in KeptFrom(chain, collected, i);
        forall k | 0 <= k < |rest| ensures Earlier(f.batch, rest[k]) {
          KeptIn(chain, collected, i + 1, rest[k]);
          var j :| i + 1 <= j < |chain.facts| && chain.facts[j].batch == rest[k];
          assert FactOk(f) && FactOk(chain.facts[j]);
          RetainedIsEarlier(es, f.batch, rest[k]);
        }
      }
    }
  }

  // ---- the chain explains what was observed ----

  lemma StepUnobserved(policy: Policy, l: Ledger, f: Fact, w: World, v: World, total: nat)
    requires FactOk(f) && LedgerOk(policy, l) && Transition(f, w, v) && WorldOk(v, total)
    ensures Unobserved(BatchStep(policy, l, f.batch.body), WorldAfter(l, f.batch.body, w, f.moves), v, total)
  {
    var b := f.batch.body;
    BatchKeeps(policy, l, b);
    if BatchStep(policy, l, b).complete && b.status != Parsed && b.status != Failed {
      NotParsedGaps(policy, l, b);
    }
    hide BatchStep, LedgerOk, WorldOk, WorldLegs, Happened, BatchOk, BatchSafe, Claimed;
  }

  lemma SkipUnobserved(l: Ledger, w: World, f: Fact, u: World, v: World, total: nat)
    requires Unobserved(l, w, u, total) && BatchOk(f.batch.body) && Transition(f, u, v) && WorldOk(v, total)
    requires forall a :: a in l.nodes ==> a !in f.batch.body.rows
    ensures Unobserved(l, w, v, total)
  {
    hide WorldOk, Happened, BatchOk, WorldLegs;
  }

  /** What was not collected lists none of these accounts. */
  ghost predicate Untouched(chain: Chain, collected: map<Signature, Stored>, i: nat, accounts: set<Account>) {
    forall j :: i <= j < |chain.facts| && !Kept(chain, collected, j) ==> chain.facts[j].batch.body.rows.Keys !! accounts
  }

  /** Transactions that touch no tracked account may stay unobserved. */
  lemma {:induction false} ChainExplains(policy: Policy, l: Ledger, w: World, chain: Chain,
                                         collected: map<Signature, Stored>, i: nat, total: nat)
    requires ChainOk(chain, total) && i <= |chain.facts| && LedgerOk(policy, l)
    requires forall b :: b in Bodies(KeptFrom(chain, collected, i)) ==> BatchOk(b)
    requires forall e :: e in EpochsFrom(chain, collected, i) ==> BatchOk(e.batch)
    requires Unobserved(l, w, chain.worlds[i], total)
    requires Untouched(chain, collected, i, Batches(policy, l, Bodies(KeptFrom(chain, collected, i))).nodes.Keys)
    ensures Explains(policy, l, w, EpochsFrom(chain, collected, i), chain.worlds[|chain.facts|], total)
    decreases |chain.facts| - i
  {
    if i < |chain.facts| {
      var f, u, v := chain.facts[i], chain.worlds[i], chain.worlds[i + 1];
      var rest, kept := EpochsFrom(chain, collected, i + 1), KeptFrom(chain, collected, i + 1);
      assert FactOk(f) && Transition(f, u, v) && WorldOk(v, total);
      hide ChainOk, WorldOk, Transition, FactOk;
      if Kept(chain, collected, i) {
        var e := Epoch(f.batch.body, u, f.moves);
        assert EpochsFrom(chain, collected, i) == [e] + rest;
        assert Bodies(KeptFrom(chain, collected, i)) == [f.batch.body] + Bodies(kept);
        KeptStep(policy, l, f, u, v, total, chain);
        assert forall b :: b in Bodies(kept) ==> b in Bodies(KeptFrom(chain, collected, i));
        assert forall x :: x in rest ==> x in EpochsFrom(chain, collected, i);
        BatchesOnTop(policy, l, f.batch.body, Bodies(kept));
        hide BatchStep, WorldAfter, LedgerOk, Unobserved, Happened, BatchOk, Batches, EpochsFrom, KeptFrom, Explains;
        ChainExplains(policy, BatchStep(policy, l, f.batch.body), WorldAfter(l, f.batch.body, u, f.moves), chain,
                      collected, i + 1, total);
        ExplainsOnTop(policy, l, w, e, rest, chain.worlds[|chain.facts|], total);
      } else {
        assert EpochsFrom(chain, collected, i) == rest && KeptFrom(chain, collected, i) == kept;
        SkipUnobserved(l, w, f, u, v, total);
        ChainExplains(policy, l, w, chain, collected, i + 1, total);
      }
    }
  }

  lemma BatchesOnTop(policy: Policy, l: Ledger, b: Batch, bs: seq<Batch>)
    requires BatchOk(b) && forall c :: c in bs ==> BatchOk(c)
    ensures Batches(policy, l, [b] + bs) == Batches(policy, BatchStep(policy, l, b), bs)
  {
    assert ([b] + bs)[1..] == bs;
    hide BatchStep, BatchOk;
  }

  lemma ExplainsOnTop(policy: Policy, l: Ledger, w: World, e: Epoch, rest: seq<Epoch>, end: World, total: nat)
    requires BatchOk(e.batch) && (forall x :: x in rest ==> BatchOk(x.batch)) && Happened(e.batch, e.start, e.moves)
    requires Unobserved(l, w, e.start, total)
    requires Explains(policy, BatchStep(policy, l, e.batch), WorldAfter(l, e.batch, e.start, e.moves), rest, end, total)
    ensures Explains(policy, l, w, [e] + rest, end, total)
  {
    assert ([e] + rest)[1..] == rest;
    hide BatchStep, WorldAfter, BatchOk, Happened, Unobserved;
  }

  lemma KeptStep(policy: Policy, l: Ledger, f: Fact, w: World, v: World, total: nat, chain: Chain)
    requires FactOk(f) && LedgerOk(policy, l) && Transition(f, w, v) && WorldOk(v, total)
    ensures BatchOk(f.batch.body) && Happened(f.batch.body, w, f.moves)
            && LedgerOk(policy, BatchStep(policy, l, f.batch.body))
    ensures Unobserved(BatchStep(policy, l, f.batch.body), WorldAfter(l, f.batch.body, w, f.moves), v, total)
  {
    StepUnobserved(policy, l, f, w, v, total);
    BatchKeeps(policy, l, f.batch.body);
    hide BatchStep, LedgerOk, WorldOk, Unobserved, BatchSafe;
  }

  // ---- a complete replay replays exactly the kept facts ----

  lemma {:induction false} CompleteStatuses(policy: Policy, l: Ledger, bs: seq<Batch>, b: Batch)
    requires (forall c :: c in bs ==> BatchOk(c)) && LedgerOk(policy, l) && Batches(policy, l, bs).complete && b in bs
    ensures b.status == Parsed || b.status == Failed
    decreases |bs|
  {
    BatchKeeps(policy, l, bs[0]);
    var next := BatchStep(policy, l, bs[0]);
    BatchesKeep(policy, next, bs[1..]);
    if b == bs[0] {
      if b.status == Partial || b.status == Unavailable {
        NotParsedGaps(policy, l, b);
      }
    } else {
      hide BatchStep, LedgerOk, Claimed;
      CompleteStatuses(policy, next, bs[1..], b);
    }
  }

  /** Without gaps every supplied transaction is replayed. */
  lemma NoGapsKeepAll(h: Horizon, raw: set<RawBatch>)
    requires Gaps(h, raw) == {}
    ensures Retained(Eligible(h, raw)) == raw
  {
    MisplacedHasAll(h, Unambiguous(raw));
    forall b | b in raw ensures b in Retained(Eligible(h, raw)) {
      assert b.inScope && b.signature.Some? && !Conflicting(raw, b);
      assert b in Unambiguous(raw) && b in Eligible(h, raw);
      assert !SlotClashes(Eligible(h, raw), b.slot);
    }
  }

  lemma MisplacedHasAll(h: Horizon, batches: set<RawBatch>)
    ensures forall b :: b in batches && PlacementGap(h, b).Some? ==> PlacementGap(h, b).value in Misplaced(h, batches)
  {}

  lemma CompleteHasNoGaps(policy: Policy, h: Horizon, seeds: seq<Seed>, complete: bool, raw: seq<RawBatch>)
    requires BodiesOk(raw) && SeedsOk(policy, seeds) && Replayed(policy, h, seeds, complete, raw).complete
    ensures complete && Prepared(h, raw) == (Bodies(Arranged(h, Members(raw))), {}) && Gaps(h, Members(raw)) == {}
    ensures LedgerOk(policy, Begin(policy, seeds, true, {}))
    ensures forall b :: b in Bodies(Arranged(h, Members(raw))) ==> BatchOk(b)
    ensures Replayed(policy, h, seeds, complete, raw)
            == Batches(policy, Begin(policy, seeds, true, {}), Bodies(Arranged(h, Members(raw))))
  {
    PreparedOk(h, raw);
    var (bs, gaps) := Prepared(h, raw);
    BeginKeeps(policy, seeds, complete, gaps);
    hide Prepared, BodiesOk, LedgerOk, Claimed;
    BatchesKeep(policy, Begin(policy, seeds, complete, gaps), bs);
    BeginComplete(policy, seeds, complete, gaps);
    hide Begin, Batches;
    PreparedClean(h, raw);
  }

  lemma BeginComplete(policy: Policy, seeds: seq<Seed>, complete: bool, gaps: set<Issue>)
    requires Begin(policy, seeds, complete, gaps).complete
    ensures complete && gaps == {}
  {}

  lemma PreparedClean(h: Horizon, raw: seq<RawBatch>)
    requires Prepared(h, raw).1 == {}
    ensures Prepared(h, raw) == (Bodies(Arranged(h, Members(raw))), {}) && Gaps(h, Members(raw)) == {}
  {
    hide Gaps, Arranged, Events;
  }

  /** In a complete replay nothing was withdrawn. */
  lemma NothingWithdrawn(policy: Policy, h: Horizon, seeds: seq<Seed>, order: seq<Signature>,
                         collected: map<Signature, Stored>, conflicts: set<Signature>, s: Signature)
    requires CollectedOk(order, collected) && SeedsOk(policy, seeds) && s in collected
    requires Replayed(policy, h, seeds, true, BatchesOf(order, collected, conflicts)).complete
    ensures s !in conflicts
  {
    var raw := BatchesOf(order, collected, conflicts);
    CompleteHasNoGaps(policy, h, seeds, true, raw);
    NoGapsKeepAll(h, Members(raw));
    var k :| 0 <= k < |order| && order[k] == s;
    var b := raw[k];
    assert b in raw && b in Members(raw);
    var arranged := Arranged(h, Members(raw));
    assert b in arranged;
    var j :| 0 <= j < |arranged| && arranged[j] == b;
    assert Bodies(arranged)[j] == b.body && b.body in Bodies(arranged);
    hide Replayed, Gaps, Batches, Begin, Arranged, LedgerOk;
    CompleteStatuses(policy, Begin(policy, seeds, true, {}), Bodies(arranged), b.body);
  }

  lemma MembersAreKept(fetch: Fetch, chain: Chain, order: seq<Signature>, collected: map<Signature, Stored>,
                       conflicts: set<Signature>, total: nat)
    requires ChainOk(chain, total) && HonestPages(fetch, chain) && Extends(fetch, map[], collected)
    requires CollectedOk(order, collected) && forall s :: s in collected ==> s !in conflicts
    ensures PositionOrder.Holds(KeptFrom(chain, collected, 0), Members(BatchesOf(order, collected, conflicts)))
  {
    var raw, kept := BatchesOf(order, collected, conflicts), KeptFrom(chain, collected, 0);
    hide HonestPages, Extends;
    forall b | b in kept ensures b in Members(raw) {
      KeptIn(chain, collected, 0, b);
      var j :| 0 <= j < |chain.facts| && Kept(chain, collected, j) && chain.facts[j].batch == b;
      var s := chain.facts[j].signature;
      var i := StoredIsFact(fetch, chain, collected, s);
      assert i == j;
      var k :| 0 <= k < |order| && order[k] == s;
      assert raw[k] == b;
    }
    forall b | b in Members(raw) ensures b in kept {
      var k :| 0 <= k < |raw| && raw[k] == b;
      var i := StoredIsFact(fetch, chain, collected, order[k]);
      KeptIn(chain, collected, 0, b);
      assert Kept(chain, collected, i);
    }
  }

  lemma SeedsStayOk(policy: Policy, seeds: seq<Seed>, others: seq<Seed>)
    requires SeedsOk(policy, seeds) && |others| == |seeds|
    requires forall i ::
             0 <= i < |seeds|
             ==> others[i].(boundaryVerified := false) == seeds[i].(boundaryVerified := false)
    ensures SeedsOk(policy, others)
  {
    forall i | 0 <= i < |others| ensures SeedOk(policy, others[i]) {
      assert SeedOk(policy, seeds[i]);
    }
    forall i, j | 0 <= i < j < |others| ensures others[i].account != others[j].account {
      assert seeds[i].account != seeds[j].account;
    }
  }

  /** The declared resolution replays the kept part of the chain from a start without gaps. */
  lemma ReplayIsChain(policy: Policy, horizon: Horizon, fetch: Fetch, r: Resolution, chain: Chain)
    requires SeedsOk(policy, r.seeds) && CollectedOk(r.order, r.collected) && Extends(fetch, map[], r.collected)
    requires (r.ledger, r.confirmed)
             == Settled(Replayed(policy, horizon, r.seeds, true, BatchesOf(r.order, r.collected, r.conflicts)),
                        r.closings)
    requires r.ledger.complete && ChainOk(chain, Bought(r.seeds)) && HonestPages(fetch, chain)
    ensures var l0, bs := Begin(policy, r.seeds, true, {}), Bodies(KeptFrom(chain, r.collected, 0));
            && (forall b :: b in bs ==> BatchOk(b)) && LedgerOk(policy, l0)
            && Batches(policy, l0, bs).nodes.Keys == r.ledger.nodes.Keys
            && (r.ledger, r.confirmed) == Settled(Batches(policy, l0, bs), r.closings)
  {
    var raw := BatchesOf(r.order, r.collected, r.conflicts);
    var kept, arranged := KeptFrom(chain, r.collected, 0), Arranged(horizon, Members(raw));
    SettledStaysComplete(policy, horizon, r.seeds, raw, r.closings);
    CompleteHasNoGaps(policy, horizon, r.seeds, true, raw);
    NoGapsKeepAll(horizon, Members(raw));
    hide Gaps, Begin, LedgerOk, HonestPages, ChainOk, Arranged, Settled, BatchOk;
    forall s | s in r.collected ensures s !in r.conflicts {
      NothingWithdrawn(policy, horizon, r.seeds, r.order, r.collected, r.conflicts, s);
    }
    hide Replayed, Batches;
    MembersAreKept(fetch, chain, r.order, r.collected, r.conflicts, Bought(r.seeds));
    KeptInOrder(chain, r.collected, 0, Bought(r.seeds), Eligible(horizon, Members(raw)));
    hide CollectedOk, Extends, BatchesOf, KeptFrom, InOrder, PositionOrder.Holds;
    OrderUnique(arranged, kept, Members(raw));
  }

  /** Closing rows repair nothing: a settled complete ledger was complete before. */
  lemma SettledStaysComplete(policy: Policy, h: Horizon, seeds: seq<Seed>, raw: seq<RawBatch>,
                             closings: seq<ClosingRow>)
    requires BodiesOk(raw) && SeedsOk(policy, seeds)
    requires Settled(Replayed(policy, h, seeds, true, raw), closings).0.complete
    ensures Replayed(policy, h, seeds, true, raw).complete
  {
    PreparedOk(h, raw);
    var (bs, gaps) := Prepared(h, raw);
    BeginKeeps(policy, seeds, true, gaps);
    hide Prepared, Begin, LedgerOk, Claimed;
    BatchesKeep(policy, Begin(policy, seeds, true, gaps), bs);
    var l := Replayed(policy, h, seeds, true, raw);
    hide Batches, ConfirmAll, Settle;
    ConfirmKeeps(policy, l, map[], closings);
    SettleKeeps(policy, ConfirmAll(l, map[], closings).0, ConfirmAll(l, map[], closings).1);
  }

  lemma NothingTouched(fetch: Fetch, chain: Chain, collected: map<Signature, Stored>, accounts: set<Account>)
    requires HonestPages(fetch, chain) && forall a :: a in accounts ==> FullyRead(fetch, a, collected)
    ensures Untouched(chain, collected, 0, accounts)
  {
    hide HonestPages, FullyRead;
    forall j, a | 0 <= j < |chain.facts| && !Kept(chain, collected, j) && a in accounts
      ensures a !in chain.facts[j].batch.body.rows
    {
      if a in chain.facts[j].batch.body.rows {
        TouchedIsKept(fetch, chain, collected, a, j);
      }
    }
  }

  lemma FirstIsOk(chain: Chain, total: nat)
    requires ChainOk(chain, total)
    ensures WorldOk(chain.worlds[0], total)
  {}

  lemma FirstWorld(l: Ledger, chain: Chain, total: nat)
    requires ChainOk(chain, total)
    ensures Unobserved(l, chain.worlds[0], chain.worlds[0], total)
  {
    FirstIsOk(chain, total);
    hide WorldOk;
  }

  lemma AnalysisIsSettled(policy: Policy, seeds: seq<Seed>, bs: seq<Batch>, closings: seq<ClosingRow>)
    requires forall b :: b in bs ==> BatchOk(b)
    ensures Analyze(policy, seeds, true, {}, bs, closings)
            == Settled(Batches(policy, Begin(policy, seeds, true, {}), bs), closings)
  {
    hide Batches, Begin, ConfirmAll, Settle;
  }

  /**
   From providers to bounds: when coverage is declared complete, the analysis ends complete and
   the providers are honest about the chain, every reported bound is true of it.
   */
  lemma CoverageMakesBoundsTrue(policy: Policy, horizon: Horizon, seeds: seq<Seed>, fetch: Fetch, r: Resolution,
                                chain: Chain)
    requires SeedsOk(policy, seeds) && Resolved(policy, horizon, seeds, fetch, r)
    requires r.coverageComplete && r.ledger.complete
    requires ChainOk(chain, Bought(r.seeds)) && HonestPages(fetch, chain)
    requires SeedsTrue(r.seeds, chain.worlds[0])
    requires ClosingsTrue(r.ledger, r.closings, chain.worlds[|chain.facts|])
    ensures ReportTrue(r.ledger, r.confirmed, chain.worlds[|chain.facts|], Bought(r.seeds))
  {
    var total, end := Bought(r.seeds), chain.worlds[|chain.facts|];
    var epochs := EpochsFrom(chain, r.collected, 0);
    SeedsStayOk(policy, seeds, r.seeds);
    var l0 := Begin(policy, r.seeds, true, {});
    hide Begin, ChainOk, HonestPages, Gaps, Arranged, SeedsTrue, Explains, ReportTrue, FullyRead, CollectedOk, Extends,
         BatchesOf, LedgerOk, SeedsOk;
    ReplayIsChain(policy, horizon, fetch, r, chain);
    NothingTouched(fetch, chain, r.collected, r.ledger.nodes.Keys);
    FirstWorld(l0, chain, total);
    EpochsAreKept(chain, r.collected, 0, total);
    ChainExplains(policy, l0, chain.worlds[0], chain, r.collected, 0, total);
    hide Settled, Untouched, Unobserved, BatchOk, BatchSafe;
    FirstIsOk(chain, total);
    AnalysisIsSettled(policy, r.seeds, Observed(epochs), r.closings);
    CompleteAnalysisSound(policy, r.seeds, {}, chain.worlds[0], epochs, r.closings, end);
  }
}
