/** When a replay ends complete, what it counts and which accounts it tracks. */
module PositionCompleteness {
  // Soundness alone would also hold of a replay that gives up at once. Here: failed transactions
  // change nothing, and a truthful history ends complete exactly when no credit to a tracked
  // account is hidden from the record.

  import opened Wrappers
  import opened PositionLedger
  import opened PositionInvariants
  import opened PositionSoundness
  import opened PositionBounds
  import opened MapTotals

  // ---- failed transactions ----

  function WithoutFailed(bs: seq<Batch>): (r: seq<Batch>)
    ensures forall b :: b in r <==> b in bs && b.status != Failed
  {
    if bs == [] then [] else (if bs[0].status == Failed then [] else [bs[0]]) + WithoutFailed(bs[1..])
  }

  lemma {:induction false} FailedAreSkipped(policy: Policy, l: Ledger, bs: seq<Batch>)
    requires forall b :: b in bs ==> BatchOk(b)
    ensures Batches(policy, l, bs) == Batches(policy, l, WithoutFailed(bs))
    decreases |bs|
  {
    if bs != [] {
      var rest := WithoutFailed(bs[1..]);
      FailedAreSkipped(policy, BatchStep(policy, l, bs[0]), bs[1..]);
      if bs[0].status != Failed {
        assert ([bs[0]] + rest)[1..] == rest;
      } else {
        assert [] + rest == rest;
      }
    }
  }

  /** A failed transaction moved nothing, so removing it changes nothing in the report. */
  lemma FailedChangeNothing(policy: Policy, seeds: seq<Seed>, historyComplete: bool, gaps: set<Issue>, bs: seq<Batch>,
                            closings: seq<ClosingRow>)
    requires forall b :: b in bs ==> BatchOk(b)
    ensures Analyze(policy, seeds, historyComplete, gaps, bs, closings)
            == Analyze(policy, seeds, historyComplete, gaps, WithoutFailed(bs), closings)
  {
    FailedAreSkipped(policy, Begin(policy, seeds, historyComplete, gaps), bs);
  }

  // ---- credits that the record does not see ----

  /** How far the record of a tracked account lies below its real balance. */
  function Shortfall(l: Ledger, running: Balances, a: Account): int
    requires a in l.nodes
  {
    Has(running, a) - l.nodes[a].balance
  }

  /**
   What one leg hides from the record of an account: a sale into a tracked vault is not credited,
   and an account found on the way enters with its balance before the transaction.
   */
  function StepHides(l: Ledger, r: Ledger, rows: map<Account, Row>, leg: Leg, running: Balances, a: Account): int
    requires RowsOk(rows) && LegInRows(rows, leg) && AllComplete(rows)
  {
    if MovesNothing(leg) || a != leg.destination || a !in r.nodes then 0
    else if a in l.nodes then if leg.verifiedSale then leg.amount else 0
    else Has(running, a) - rows[a].before.value
  }

  function Hidden(policy: Policy, l: Ledger, rows: map<Account, Row>, legs: seq<Leg>, running: Balances,
                  a: Account): int
    requires RowsOk(rows) && AllComplete(rows) && forall leg :: leg in legs ==> LegInRows(rows, leg)
    decreases |legs|
  {
    if legs == [] then 0
    else
      var r := LegStep(policy, l, rows, legs[0]);
      StepHides(l, r, rows, legs[0], running, a)
      + Hidden(policy, r, rows, legs[1..], MoveBalance(running, legs[0]), a)
  }

  /** Over the transaction nothing stays hidden of any account that it leaves tracked. */
  ghost predicate NothingHidden(policy: Policy, l: Ledger, b: Batch)
    requires BatchOk(b) && b.status == Parsed
  {
    forall a :: a in Legs(policy, l, b.rows, b.legs).nodes ==>
      Hidden(policy, l, b.rows, b.legs, Before(b.rows), a) == 0
  }

  lemma FoundBalance(policy: Policy, l: Ledger, rows: map<Account, Row>, leg: Leg)
    requires RowsOk(rows) && LegInRows(rows, leg) && AllComplete(rows) && !MovesNothing(leg)
    ensures var r, d := LegStep(policy, l, rows, leg), leg.destination;
            d in r.nodes && d !in l.nodes ==> r.nodes[d].balance == rows[d].before.value + leg.amount
  {
    hide Guaranteed, ZeroLowers, IsService;
  }

  lemma StepShortfall(policy: Policy, l: Ledger, rows: map<Account, Row>, leg: Leg, running: Balances, a: Account)
    requires RowsOk(rows) && LegInRows(rows, leg) && AllComplete(rows) && LedgerOk(policy, l) && OwnersAgree(l, rows)
    requires LegStep(policy, l, rows, leg).complete && a in LegStep(policy, l, rows, leg).nodes
    ensures var r := LegStep(policy, l, rows, leg);
            Shortfall(r, MoveBalance(running, leg), a)
            == (if a in l.nodes then Shortfall(l, running, a) else 0) + StepHides(l, r, rows, leg, running, a)
  {
    if !MovesNothing(leg) {
      LegNodes(policy, l, rows, leg);
      FoundBalance(policy, l, rows, leg);
      hide LegStep, LedgerOk, OwnersAgree, RowsOk, IsService, ClaimOf;
    }
  }

  lemma StepHidesNoLess(policy: Policy, l: Ledger, rows: map<Account, Row>, legs: seq<Leg>, running: Balances,
                        a: Account)
    requires RowsOk(rows) && AllComplete(rows) && forall leg :: leg in legs ==> LegInRows(rows, leg)
    requires a in l.nodes
    ensures Hidden(policy, l, rows, legs, running, a) >= 0
    decreases |legs|
  {
    if legs != [] {
      StepHidesNoLess(policy, LegStep(policy, l, rows, legs[0]), rows, legs[1..], MoveBalance(running, legs[0]), a);
    }
  }

  /** Legs that end complete leave each record short by what they hid. */
  lemma {:induction false} CompleteShortfall(policy: Policy, l: Ledger, rows: map<Account, Row>, legs: seq<Leg>,
                                             running: Balances, a: Account)
    requires RowsOk(rows) && AllComplete(rows) && LedgerOk(policy, l) && OwnersAgree(l, rows)
    requires forall leg :: leg in legs ==> LegInRows(rows, leg)
    requires Legs(policy, l, rows, legs).complete && a in Legs(policy, l, rows, legs).nodes
    ensures l.complete
    ensures Shortfall(Legs(policy, l, rows, legs), MoveBalances(running, legs), a)
            == (if a in l.nodes then Shortfall(l, running, a) else 0) + Hidden(policy, l, rows, legs, running, a)
    decreases |legs|
  {
    if legs != [] {
      var r := LegStep(policy, l, rows, legs[0]);
      LegKeeps(policy, l, rows, legs[0]);
      LegsKeep(policy, r, rows, legs[1..]);
      hide LegStep, MoveBalance, Shortfall, StepHides, LedgerOk, Claimed;
      ShortfallGrows(policy, l, rows, legs[0], running);
      CompleteShortfall(policy, r, rows, legs[1..], MoveBalance(running, legs[0]), a);
      if a in r.nodes {
        StepShortfall(policy, l, rows, legs[0], running, a);
      } else {
        NothingHides(policy, l, rows, legs[0], running, a);
      }
    }
  }

  lemma NothingHides(policy: Policy, l: Ledger, rows: map<Account, Row>, leg: Leg, running: Balances, a: Account)
    requires RowsOk(rows) && LegInRows(rows, leg) && AllComplete(rows) && a !in LegStep(policy, l, rows, leg).nodes
    ensures a !in l.nodes && StepHides(l, LegStep(policy, l, rows, leg), rows, leg, running, a) == 0
  {
    hide LegStep;
  }

  /** Real balances pay every leg. */
  predicate Affordable(legs: seq<Leg>, running: Balances)
    decreases |legs|
  {
    legs != [] ==>
      && (MovesNothing(legs[0]) || legs[0].amount <= Has(running, legs[0].source))
      && Affordable(legs[1..], MoveBalance(running, legs[0]))
  }

  lemma StepCompletes(policy: Policy, l: Ledger, rows: map<Account, Row>, leg: Leg)
    requires RowsOk(rows) && LegInRows(rows, leg) && l.complete
    requires !MovesNothing(leg) && leg.source in l.nodes ==> leg.amount <= l.nodes[leg.source].balance
    ensures LegStep(policy, l, rows, leg).complete
  {
    hide Guaranteed, ZeroLowers, IsService;
  }

  /** Affordable legs that hide nothing in the end raise no gap. */
  lemma {:induction false} SeenCompletes(policy: Policy, l: Ledger, rows: map<Account, Row>, legs: seq<Leg>,
                                         running: Balances)
    requires RowsOk(rows) && AllComplete(rows) && LedgerOk(policy, l) && OwnersAgree(l, rows) && l.complete
    requires forall leg :: leg in legs ==> LegInRows(rows, leg)
    requires Affordable(legs, running)
    requires forall a :: a in Legs(policy, l, rows, legs).nodes && a in rows ==>
               (if a in l.nodes then Shortfall(l, running, a) else 0) + Hidden(policy, l, rows, legs, running, a) == 0
    ensures Legs(policy, l, rows, legs).complete
    decreases |legs|
  {
    if legs != [] {
      var leg, r, next := legs[0], LegStep(policy, l, rows, legs[0]), MoveBalance(running, legs[0]);
      if leg.source in l.nodes {
        StepHidesNoLess(policy, l, rows, legs, running, leg.source);
        assert Shortfall(l, running, leg.source) <= 0;
      }
      StepCompletes(policy, l, rows, leg);
      LegKeeps(policy, l, rows, leg);
      ShortfallGrows(policy, l, rows, leg, running);
      hide LegStep, MoveBalance, Shortfall, StepHides, LedgerOk, Claimed;
      forall a | a in Legs(policy, r, rows, legs[1..]).nodes && a in rows
        ensures (if a in r.nodes then Shortfall(r, next, a) else 0) + Hidden(policy, r, rows, legs[1..], next, a) == 0
      {
        if a in r.nodes {
          StepShortfall(policy, l, rows, leg, running, a);
        } else {
          NothingHides(policy, l, rows, leg, running, a);
        }
      }
      SeenCompletes(policy, r, rows, legs[1..], next);
    }
  }

  // ---- one truthful transaction ----

  lemma {:induction false} FeasibleIsAffordable(w: World, legs: seq<Leg>, moves: seq<nat>, running: Balances,
                                                accounts: set<Account>)
    requires FeasibleLegs(w, legs, moves)
    requires forall leg :: leg in legs ==> leg.source in accounts && leg.destination in accounts
    requires forall a :: a in accounts ==> Has(running, a) == Has(w.balance, a)
    ensures Affordable(legs, running)
    decreases |legs|
  {
    if legs != [] {
      FeasibleIsAffordable(WorldLeg(w, legs[0], moves[0]), legs[1..], moves[1..], MoveBalance(running, legs[0]),
                           accounts);
    }
  }

  lemma CleanRows(policy: Policy, l: Ledger, rows: map<Account, Row>, read: Reading)
    requires LedgerOk(policy, l)
    requires forall a :: a in l.nodes && a in rows ==> Read(read, l.nodes[a], rows[a]).1.None?
    requires read != Settling
    ensures ReadRows(l, rows, read) == l
  {
    assert Revealed(l, rows, read) == {};
    assert ReadRows(l, rows, read).nodes == l.nodes;
  }

  lemma OpensClean(l: Ledger, b: Batch, w: World, moves: seq<nat>, total: nat)
    requires BatchOk(b) && b.status == Parsed && Sound(l, w, total) && l.complete && Happened(b, w, moves)
    requires OwnersAgree(l, b.rows)
    ensures forall a :: a in l.nodes && a in b.rows ==> Read(Opening, l.nodes[a], b.rows[a]).1.None?
    ensures forall a :: a in l.nodes && a in b.rows ==> Shortfall(l, Before(b.rows), a) == 0
  {
    hide WorldOk, Bounded, FeasibleLegs;
  }

  lemma ClosesClean(b: Batch, r: Ledger)
    requires BatchSafe(b) && b.status == Parsed
    requires forall a :: a in r.nodes && a in b.rows ==> Shortfall(r, MoveBalances(Before(b.rows), b.legs), a) == 0
    ensures forall a :: a in r.nodes && a in b.rows ==> Read(Closing, r.nodes[a], b.rows[a]).1.None?
  {
    hide MoveBalances, Before;
  }

  /** Of an account that the transaction does not list, nothing can be hidden. */
  lemma {:induction false} UnlistedHidesNothing(policy: Policy, l: Ledger, rows: map<Account, Row>, legs: seq<Leg>,
                                                running: Balances, a: Account)
    requires RowsOk(rows) && AllComplete(rows) && (forall leg :: leg in legs ==> LegInRows(rows, leg)) && a !in rows
    ensures Hidden(policy, l, rows, legs, running, a) == 0
    decreases |legs|
  {
    if legs != [] {
      hide LegStep;
      UnlistedHidesNothing(policy, LegStep(policy, l, rows, legs[0]), rows, legs[1..], MoveBalance(running, legs[0]),
                           a);
    }
  }

  /** A parsed transaction that truly happened leaves no gap exactly when it hides nothing. */
  lemma BatchCompletesIff(policy: Policy, l: Ledger, b: Batch, w: World, moves: seq<nat>, total: nat)
    requires BatchSafe(b) && b.status == Parsed && LedgerOk(policy, l) && OwnersAgree(l, b.rows)
    requires l.complete && Sound(l, w, total) && Happened(b, w, moves)
    ensures BatchStep(policy, l, b).complete <==> NothingHidden(policy, l, b)
    ensures BatchStep(policy, l, b).complete ==> BatchStep(policy, l, b) == Legs(policy, l, b.rows, b.legs)
  {
    var r, start := Legs(policy, l, b.rows, b.legs), Before(b.rows);
    OpensClean(l, b, w, moves, total);
    if BatchStep(policy, l, b).complete {
      CleanBatch(policy, l, b);
      ClosingBalances(b, r);
      hide Legs, BatchStep, LedgerOk, Sound, Happened, Reconciled, Hidden, MoveBalances, Before, OwnersAgree;
      forall a | a in r.nodes ensures Hidden(policy, l, b.rows, b.legs, start, a) == 0 {
        if a in b.rows {
          CompleteShortfall(policy, l, b.rows, b.legs, start, a);
        } else {
          UnlistedHidesNothing(policy, l, b.rows, b.legs, start, a);
        }
      }
    } else if NothingHidden(policy, l, b) {
      NothingHiddenCompletes(policy, l, b, w, moves, total);
    }
  }

  lemma NothingHiddenCompletes(policy: Policy, l: Ledger, b: Batch, w: World, moves: seq<nat>, total: nat)
    requires BatchSafe(b) && b.status == Parsed && LedgerOk(policy, l) && OwnersAgree(l, b.rows)
    requires l.complete && Sound(l, w, total) && Happened(b, w, moves) && NothingHidden(policy, l, b)
    ensures BatchStep(policy, l, b).complete
  {
    var r, start := Legs(policy, l, b.rows, b.legs), Before(b.rows);
    OpensClean(l, b, w, moves, total);
    BeforeIsReal(b, w, moves);
    assert Admit(l, b) == l;
    CleanRows(policy, l, b.rows, Opening);
    assert BatchStep(policy, l, b) == ReadRows(r, b.rows, Closing);
    FeasibleIsAffordable(w, b.legs, moves, start, b.rows.Keys);
    hide Legs, BatchStep, Sound, Happened, Hidden, MoveBalances, Before, OwnersAgree, FeasibleLegs, Affordable, Admit;
    SeenCompletes(policy, l, b.rows, b.legs, start);
    LegsKeep(policy, l, b.rows, b.legs);
    forall a | a in r.nodes && a in b.rows ensures Shortfall(r, MoveBalances(start, b.legs), a) == 0 {
      CompleteShortfall(policy, l, b.rows, b.legs, start, a);
    }
    hide Shortfall, LedgerOk, Claimed, Reconciled;
    ClosesClean(b, r);
    CleanRows(policy, r, b.rows, Closing);
  }

  // ---- a whole run ----

  /** Each transaction failed, or was parsed and hides nothing from the ledger it finds. */
  ghost predicate EverythingSeen(policy: Policy, l: Ledger, bs: seq<Batch>)
    requires forall b :: b in bs ==> BatchOk(b)
    decreases |bs|
  {
    bs != [] ==>
      && (bs[0].status == Failed || (bs[0].status == Parsed && NothingHidden(policy, l, bs[0])))
      && EverythingSeen(policy, BatchStep(policy, l, bs[0]), bs[1..])
  }

  /** Token accounts keep their owners. */
  ghost predicate OwnedAlike(own: Account -> Owner, l: Ledger) {
    forall a :: a in l.nodes ==> l.nodes[a].owner == own(a)
  }

  ghost predicate ListedAlike(own: Account -> Owner, b: Batch) {
    forall a :: a in b.rows ==> b.rows[a].owner == own(a)
  }

  lemma LegKeepsOwners(policy: Policy, l: Ledger, rows: map<Account, Row>, leg: Leg, own: Account -> Owner)
    requires RowsOk(rows) && LegInRows(rows, leg) && OwnedAlike(own, l)
    requires forall a :: a in rows ==> rows[a].owner == own(a)
    ensures OwnedAlike(own, LegStep(policy, l, rows, leg))
  {
    if !MovesNothing(leg) {
      var valid := Valid(rows, leg);
      var (debited, lower, upper) := Debit(l, leg, valid);
      assert OwnedAlike(own, debited) by { hide Guaranteed; }
      hide Debit, OwnedAlike;
      CreditKeepsOwners(debited, leg, valid, lower, upper, own);
      if valid && leg.destination !in debited.nodes && leg.source in debited.nodes && upper > 0 {
        DiscoverKeepsOwners(policy, debited, rows, leg, own);
        CreditKeepsOwners(Discover(policy, debited, rows, leg), leg, valid, lower, upper, own);
      }
      hide Discover, Credit, IsService;
      SameNodesOwned(debited, LegStep(policy, l, rows, leg), own);
    }
  }

  lemma SameNodesOwned(l: Ledger, r: Ledger, own: Account -> Owner)
    ensures l.nodes == r.nodes && OwnedAlike(own, l) ==> OwnedAlike(own, r)
  {}

  lemma DiscoverKeepsOwners(policy: Policy, l: Ledger, rows: map<Account, Row>, leg: Leg, own: Account -> Owner)
    requires RowsOk(rows) && LegInRows(rows, leg) && OwnedAlike(own, l) && Valid(rows, leg)
    requires leg.source in l.nodes && rows[leg.destination].owner == own(leg.destination)
    ensures OwnedAlike(own, Discover(policy, l, rows, leg))
  {}

  lemma CreditKeepsOwners(l: Ledger, leg: Leg, valid: bool, lower: nat, upper: nat, own: Account -> Owner)
    requires OwnedAlike(own, l)
    ensures OwnedAlike(own, Credit(l, leg, valid, lower, upper))
  {}

  lemma {:induction false} LegsKeepOwners(policy: Policy, l: Ledger, rows: map<Account, Row>, legs: seq<Leg>,
                                          own: Account -> Owner)
    requires RowsOk(rows) && OwnedAlike(own, l) && forall leg :: leg in legs ==> LegInRows(rows, leg)
    requires forall a :: a in rows ==> rows[a].owner == own(a)
    ensures OwnedAlike(own, Legs(policy, l, rows, legs))
    decreases |legs|
  {
    if legs != [] {
      LegKeepsOwners(policy, l, rows, legs[0], own);
      hide LegStep;
      LegsKeepOwners(policy, LegStep(policy, l, rows, legs[0]), rows, legs[1..], own);
    }
  }

  /** One step of a truthful run: complete exactly when the transaction is seen, and then exact again. */
  lemma StepCompletesIff(policy: Policy, l: Ledger, e: Epoch, total: nat, own: Account -> Owner)
    requires BatchOk(e.batch) && BatchSafe(e.batch) && LedgerOk(policy, l) && l.complete && Sound(l, e.start, total)
    requires OwnedAlike(own, l) && ListedAlike(own, e.batch) && Happened(e.batch, e.start, e.moves)
    ensures var r := BatchStep(policy, l, e.batch);
            && (r.complete
                <==> e.batch.status == Failed || (e.batch.status == Parsed && NothingHidden(policy, l, e.batch)))
            && (r.complete ==> Sound(r, WorldAfter(l, e.batch, e.start, e.moves), total) && OwnedAlike(own, r))
  {
    var b := e.batch;
    if b.status == Parsed {
      assert OwnersAgree(l, b.rows);
      BatchCompletesIff(policy, l, b, e.start, e.moves, total);
      if BatchStep(policy, l, b).complete {
        CompleteBatchSound(policy, l, b, e.start, e.moves, total);
        LegsKeepOwners(policy, l, b.rows, b.legs, own);
      }
    } else if b.status != Failed {
      NotParsedGaps(policy, l, b);
    }
  }

  lemma {:induction false} RunCompletesIff(policy: Policy, l: Ledger, w: World, epochs: seq<Epoch>, end: World,
                                           total: nat, own: Account -> Owner)
    requires forall e :: e in epochs ==> BatchOk(e.batch) && BatchSafe(e.batch) && ListedAlike(own, e.batch)
    requires LedgerOk(policy, l) && l.complete && Sound(l, w, total) && OwnedAlike(own, l)
    requires Explains(policy, l, w, epochs, end, total)
    ensures var r := Batches(policy, l, Observed(epochs));
            && (r.complete <==> EverythingSeen(policy, l, Observed(epochs)))
            && (r.complete ==> Sound(r, end, total) && OwnedAlike(own, r))
    decreases |epochs|
  {
    if epochs != [] {
      var e := epochs[0];
      var r := BatchStep(policy, l, e.batch);
      assert Observed(epochs)[0] == e.batch && Observed(epochs)[1..] == Observed(epochs[1..]);
      assert Sound(l, e.start, total) by { hide WorldOk; }
      BatchKeeps(policy, l, e.batch);
      BatchesKeep(policy, r, Observed(epochs[1..]));
      StepCompletesIff(policy, l, e, total, own);
      hide BatchStep, LedgerOk, Sound, Claimed, OwnedAlike, ListedAlike, Happened, NothingHidden, WorldOk, BatchSafe;
      if r.complete {
        RunCompletesIff(policy, r, WorldAfter(l, e.batch, e.start, e.moves), epochs[1..], end, total, own);
      }
    } else {
      hide WorldOk, Bounded;
    }
  }

  // ---- the whole analysis ----

  /** Every closing row is about a tracked account of its owner and carries an amount. */
  predicate ClosingsUsable(l: Ledger, closings: seq<ClosingRow>) {
    forall row :: row in closings ==>
      row.inScope && row.account in l.nodes && row.owner == l.nodes[row.account].owner && row.amount.Some?
  }

  lemma {:induction false} ConfirmCompletesIff(l: Ledger, seen: Confirmed, closings: seq<ClosingRow>, end: World)
    requires ClosingsTrue(l, closings, end) && l.complete
    requires forall a :: a in seen ==> seen[a].Some? && seen[a].value == Has(end.balance, a)
    ensures var (r, confirmed) := ConfirmAll(l, seen, closings);
            && (r.complete <==> ClosingsUsable(l, closings))
            && (r.complete ==>
                  r == l && forall a :: a in confirmed ==>
                    confirmed[a].Some? && confirmed[a].value == Has(end.balance, a))
    decreases |closings|
  {
    if closings != [] {
      var (r, next) := Confirm(l, seen, closings[0]);
      assert closings[0] in closings;
      if r.complete {
        ConfirmCompletesIff(r, next, closings[1..], end);
      } else {
        ConfirmStaysOpen(r, next, closings[1..]);
      }
    }
  }

  lemma {:induction false} ConfirmStaysOpen(l: Ledger, seen: Confirmed, closings: seq<ClosingRow>)
    requires !l.complete
    ensures !ConfirmAll(l, seen, closings).0.complete
    decreases |closings|
  {
    if closings != [] {
      var (r, next) := Confirm(l, seen, closings[0]);
      ConfirmStaysOpen(r, next, closings[1..]);
    }
  }

  /** Confirmed balances that are the recorded ones change nothing. */
  lemma SettlesClean(policy: Policy, l: Ledger, confirmed: Confirmed)
    requires LedgerOk(policy, l)
    requires forall a :: a in confirmed && a in l.nodes ==> confirmed[a] == Some(l.nodes[a].balance)
    ensures Settle(l, confirmed) == l
  {
    var rows := ConfirmedRows(confirmed);
    forall a | a in l.nodes && a in rows
      ensures Read(Settling, l.nodes[a], rows[a]) == (l.nodes[a], None)
    {
      assert NodeOk(policy, a, l.nodes[a]);
    }
    hide Read;
    assert Revealed(l, rows, Settling) == {};
    assert ReadRows(l, rows, Settling).nodes == l.nodes;
  }

  lemma SettlingStaysOpen(policy: Policy, l: Ledger, confirmed: Confirmed)
    requires LedgerOk(policy, l) && !l.complete
    ensures !Settle(l, confirmed).complete
  {
    SettleKeeps(policy, l, confirmed);
  }

  /** Where the analysis may start complete. */
  predicate StartsComplete(policy: Policy, seeds: seq<Seed>, historyComplete: bool, gaps: set<Issue>) {
    && historyComplete && gaps == {} && |seeds| <= policy.maxAccounts
    && forall s :: s in seeds ==> s.boundaryVerified
  }

  lemma BeginsCompleteIff(policy: Policy, seeds: seq<Seed>, historyComplete: bool, gaps: set<Issue>)
    ensures Begin(policy, seeds, historyComplete, gaps).complete
            <==> StartsComplete(policy, seeds, historyComplete, gaps)
  {
    hide SeedNodes, ZeroLowers;
  }

  lemma {:induction false} SeedNodesOwned(seeds: seq<Seed>, own: Account -> Owner)
    requires forall s :: s in seeds ==> s.owner == own(s.account)
    ensures forall a :: a in SeedNodes(seeds) ==> SeedNodes(seeds)[a].owner == own(a)
  {
    if seeds != [] {
      SeedNodesOwned(seeds[..|seeds| - 1], own);
      assert seeds[|seeds| - 1] in seeds;
    }
  }

  ghost predicate Entered(seeds: seq<Seed>, nodes: map<Account, Node>) {
    && (forall s :: s in seeds ==>
          s.account in nodes && nodes[s.account] == Node(s.owner, s.balance, s.lower, s.upper, 0))
    && (forall a :: a in nodes ==> exists s :: s in seeds && s.account == a)
  }

  /** The purchases of a list of seeds, by account. */
  ghost function Purchases(seeds: seq<Seed>): map<Account, nat> {
    if seeds == [] then map[]
    else Purchases(seeds[..|seeds| - 1])[seeds[|seeds| - 1].account := seeds[|seeds| - 1].bought]
  }

  lemma EnterOne(seeds: seq<Seed>, nodes: map<Account, Node>, s: Seed)
    requires Entered(seeds, nodes) && s.account !in nodes
    ensures Entered(seeds + [s], nodes[s.account := Node(s.owner, s.balance, s.lower, s.upper, 0)])
  {
    var more := nodes[s.account := Node(s.owner, s.balance, s.lower, s.upper, 0)];
    forall a | a in more ensures exists r :: r in seeds + [s] && r.account == a {
      if a == s.account {
        assert s in seeds + [s];
      } else {
        var r :| r in seeds && r.account == a;
        assert r in seeds + [s];
      }
    }
  }

  lemma {:induction false} SeedsEnter(policy: Policy, seeds: seq<Seed>)
    requires SeedsOk(policy, seeds)
    ensures Entered(seeds, SeedNodes(seeds))
  {
    if seeds != [] {
      var k := |seeds| - 1;
      var rest, s := seeds[..k], seeds[k];
      assert seeds == rest + [s];
      SeedsEnter(policy, rest);
      assert s.account !in SeedNodes(rest);
      hide SeedOk;
      EnterOne(rest, SeedNodes(rest), s);
    }
  }

  /** The frozen position is what was bought over all seeds, each account once. */
  lemma {:induction false} BoughtIsTotal(policy: Policy, seeds: seq<Seed>)
    requires SeedsOk(policy, seeds)
    ensures Purchases(seeds).Keys == SeedNodes(seeds).Keys && Bought(seeds) == Total(Purchases(seeds), Units)
  {
    hide Total;
    if seeds == [] {
      NothingHeld();
    } else {
      var k := |seeds| - 1;
      var rest, s := seeds[..k], seeds[k];
      BoughtIsTotal(policy, rest);
      SeedsEnter(policy, rest);
      assert s.account !in SeedNodes(rest);
      HoldsPut(Purchases(rest), s.account, s.bought);
    }
  }

  /** A complete analysis starts from the seeds just as they were given. */
  lemma StartIsSeeds(policy: Policy, seeds: seq<Seed>)
    requires SeedsOk(policy, seeds) && StartsComplete(policy, seeds, true, {})
    ensures var l := Begin(policy, seeds, true, {});
            Entered(seeds, l.nodes) && l == Ledger(l.nodes, 0, 0, 0, true, {})
  {
    SeedsEnter(policy, seeds);
    assert seeds[..Min(|seeds|, policy.maxAccounts)] == seeds;
    hide SeedNodes, ZeroLowers, Entered;
  }

  lemma BeginOwned(policy: Policy, seeds: seq<Seed>, historyComplete: bool, gaps: set<Issue>, own: Account -> Owner)
    requires forall s :: s in seeds ==> s.owner == own(s.account)
    ensures OwnedAlike(own, Begin(policy, seeds, historyComplete, gaps))
  {
    SeedNodesOwned(seeds[..Min(|seeds|, policy.maxAccounts)], own);
    hide SeedNodes;
  }

  /** The condition on everything that the analysis is given. */
  ghost predicate Completes(policy: Policy, seeds: seq<Seed>, historyComplete: bool, gaps: set<Issue>,
                            bs: seq<Batch>, closings: seq<ClosingRow>)
    requires forall b :: b in bs ==> BatchOk(b)
  {
    var l0 := Begin(policy, seeds, historyComplete, gaps);
    && StartsComplete(policy, seeds, historyComplete, gaps) && EverythingSeen(policy, l0, bs)
    && ClosingsUsable(Batches(policy, l0, bs), closings)
  }

  /**
   When the analysis ends complete: on truthful evidence, exactly when nothing was missing at the
   start, every transaction failed or hides nothing, and every closing balance is usable.
   */
  lemma AnalysisCompletesIff(policy: Policy, seeds: seq<Seed>, historyComplete: bool, gaps: set<Issue>, w: World,
                             epochs: seq<Epoch>, closings: seq<ClosingRow>, end: World, own: Account -> Owner)
    requires SeedsOk(policy, seeds) && SeedsTrue(seeds, w) && WorldOk(w, Bought(seeds))
    requires forall s :: s in seeds ==> s.owner == own(s.account)
    requires forall e :: e in epochs ==> BatchOk(e.batch) && BatchSafe(e.batch) && ListedAlike(own, e.batch)
    requires Explains(policy, Begin(policy, seeds, historyComplete, gaps), w, epochs, end, Bought(seeds))
    requires ClosingsTrue(Batches(policy, Begin(policy, seeds, historyComplete, gaps), Observed(epochs)), closings, end)
    ensures Analyze(policy, seeds, historyComplete, gaps, Observed(epochs), closings).0.complete
            <==> Completes(policy, seeds, historyComplete, gaps, Observed(epochs), closings)
  {
    var l0, bs, total := Begin(policy, seeds, historyComplete, gaps), Observed(epochs), Bought(seeds);
    BeginsCompleteIff(policy, seeds, historyComplete, gaps);
    BeginKeeps(policy, seeds, historyComplete, gaps);
    BatchesKeep(policy, l0, bs);
    var l := Batches(policy, l0, bs);
    ConfirmKeeps(policy, l, map[], closings);
    var (m, confirmed) := ConfirmAll(l, map[], closings);
    if l0.complete {
      StartSound(policy, seeds, historyComplete, gaps, w);
      BeginOwned(policy, seeds, historyComplete, gaps, own);
      hide Begin, LedgerOk, Sound, Claimed, OwnedAlike, ListedAlike, WorldOk, BatchSafe, Explains, SeedsTrue;
      RunCompletesIff(policy, l0, w, epochs, end, total, own);
    }
    if l.complete {
      ConfirmCompletesIff(l, map[], closings, end);
      if m.complete {
        ConfirmedIsRecorded(l, end, total, confirmed);
        SettlesClean(policy, m, confirmed);
      }
    }
    hide Settle, ConfirmAll, EverythingSeen, Batches, Begin, StartsComplete;
    if !m.complete {
      SettlingStaysOpen(policy, m, confirmed);
    }
  }

  lemma ConfirmedIsRecorded(l: Ledger, end: World, total: nat, confirmed: Confirmed)
    requires l.complete && Sound(l, end, total)
    requires forall a :: a in confirmed ==> confirmed[a].Some? && confirmed[a].value == Has(end.balance, a)
    ensures forall a :: a in confirmed && a in l.nodes ==> confirmed[a] == Some(l.nodes[a].balance)
  {
    hide WorldOk, Bounded;
  }

  // ---- what the record of issues says ----

  /** A gap is never silent. */
  predicate Flagged(l: Ledger) {
    !l.complete ==> l.issues != {}
  }

  /** Limits that stop discovery without making the history incomplete. */
  const LIMITS: set<Issue> := {AccountLimit, DepthLimit}

  lemma ReadFlags(l: Ledger, rows: map<Account, Row>, read: Reading)
    requires Flagged(l)
    ensures Flagged(ReadRows(l, rows, read))
    ensures ReadRows(l, rows, read).complete ==> l.complete && ReadRows(l, rows, read).issues == l.issues
  {}

  lemma LegFlags(policy: Policy, l: Ledger, rows: map<Account, Row>, leg: Leg)
    requires RowsOk(rows) && LegInRows(rows, leg) && Flagged(l)
    ensures var r := LegStep(policy, l, rows, leg);
            Flagged(r) && (r.complete ==> l.complete && r.issues <= l.issues + LIMITS)
  {
    hide Guaranteed, ZeroLowers, IsService;
  }

  lemma {:induction false} LegsFlag(policy: Policy, l: Ledger, rows: map<Account, Row>, legs: seq<Leg>)
    requires RowsOk(rows) && Flagged(l) && forall leg :: leg in legs ==> LegInRows(rows, leg)
    ensures var r := Legs(policy, l, rows, legs);
            Flagged(r) && (r.complete ==> l.complete && r.issues <= l.issues + LIMITS)
    decreases |legs|
  {
    if legs != [] {
      LegFlags(policy, l, rows, legs[0]);
      hide LegStep;
      LegsFlag(policy, LegStep(policy, l, rows, legs[0]), rows, legs[1..]);
    }
  }

  lemma BatchFlags(policy: Policy, l: Ledger, b: Batch)
    requires BatchOk(b) && Flagged(l)
    ensures var r := BatchStep(policy, l, b);
            Flagged(r) && (r.complete ==> l.complete && r.issues <= l.issues + LIMITS)
  {
    if b.status == Parsed || b.status == Partial {
      assert Flagged(Admit(l, b)) && (Admit(l, b).complete ==> Admit(l, b) == l);
      var ready := ReadRows(Admit(l, b), b.rows, Opening);
      ReadFlags(Admit(l, b), b.rows, Opening);
      LegsFlag(policy, ready, b.rows, b.legs);
      ReadFlags(Legs(policy, ready, b.rows, b.legs), b.rows, Closing);
      hide ReadRows, Legs, Admit, Flagged;
      assert ready.complete ==> ready.issues == l.issues;
    }
  }

  lemma {:induction false} BatchesFlag(policy: Policy, l: Ledger, bs: seq<Batch>)
    requires (forall b :: b in bs ==> BatchOk(b)) && Flagged(l)
    ensures var r := Batches(policy, l, bs);
            Flagged(r) && (r.complete ==> l.complete && r.issues <= l.issues + LIMITS)
    decreases |bs|
  {
    if bs != [] {
      BatchFlags(policy, l, bs[0]);
      hide BatchStep;
      BatchesFlag(policy, BatchStep(policy, l, bs[0]), bs[1..]);
    }
  }

  lemma {:induction false} ConfirmFlags(l: Ledger, seen: Confirmed, closings: seq<ClosingRow>)
    requires Flagged(l)
    ensures var r := ConfirmAll(l, seen, closings).0;
            Flagged(r) && (r.complete ==> l.complete && r.issues == l.issues)
    decreases |closings|
  {
    if closings != [] {
      var (r, next) := Confirm(l, seen, closings[0]);
      ConfirmFlags(r, next, closings[1..]);
    }
  }

  /** An incomplete analysis names an issue; a complete one names nothing but limits it ran into. */
  lemma IssuesTell(policy: Policy, seeds: seq<Seed>, historyComplete: bool, gaps: set<Issue>, bs: seq<Batch>,
                   closings: seq<ClosingRow>)
    requires forall b :: b in bs ==> BatchOk(b)
    ensures var l := Analyze(policy, seeds, historyComplete, gaps, bs, closings).0;
            (l.complete ==> l.issues <= LIMITS) && (!l.complete ==> l.issues != {})
  {
    var l0 := Begin(policy, seeds, historyComplete, gaps);
    assert Flagged(l0) && (l0.complete ==> l0.issues == {}) by { hide SeedNodes, ZeroLowers; }
    hide Begin;
    BatchesFlag(policy, l0, bs);
    var l := Batches(policy, l0, bs);
    ConfirmFlags(l, map[], closings);
    var (m, confirmed) := ConfirmAll(l, map[], closings);
    hide Batches, ConfirmAll;
    ReadFlags(m, ConfirmedRows(confirmed), Settling);
  }

  // ---- verified sales ----

  function LegSale(rows: map<Account, Row>, leg: Leg): nat
    requires leg.source in rows && leg.destination in rows
  {
    if !MovesNothing(leg) && leg.verifiedSale && Valid(rows, leg) then leg.amount else 0
  }

  function SalesOver(rows: map<Account, Row>, legs: seq<Leg>): nat
    requires forall leg :: leg in legs ==> LegInRows(rows, leg)
    decreases |legs|
  {
    if legs == [] then 0
    else
      assert LegInRows(rows, legs[0]);
      LegSale(rows, legs[0]) + SalesOver(rows, legs[1..])
  }

  /** The verified sales that a list of transactions shows, whoever sold. */
  function SalesIn(bs: seq<Batch>): nat
    requires forall b :: b in bs ==> BatchOk(b)
    decreases |bs|
  {
    if bs == [] then 0
    else
      assert BatchOk(bs[0]);
      (if bs[0].status == Parsed || bs[0].status == Partial then SalesOver(bs[0].rows, bs[0].legs) else 0)
      + SalesIn(bs[1..])
  }

  lemma LegCounts(policy: Policy, l: Ledger, rows: map<Account, Row>, leg: Leg)
    requires RowsOk(rows) && LegInRows(rows, leg)
    ensures LegStep(policy, l, rows, leg).observedSale == l.observedSale + LegSale(rows, leg)
  {
    hide Guaranteed, ZeroLowers, IsService;
  }

  lemma {:induction false} LegsCount(policy: Policy, l: Ledger, rows: map<Account, Row>, legs: seq<Leg>)
    requires RowsOk(rows) && forall leg :: leg in legs ==> LegInRows(rows, leg)
    ensures Legs(policy, l, rows, legs).observedSale == l.observedSale + SalesOver(rows, legs)
    decreases |legs|
  {
    if legs != [] {
      LegCounts(policy, l, rows, legs[0]);
      hide LegStep;
      LegsCount(policy, LegStep(policy, l, rows, legs[0]), rows, legs[1..]);
    }
  }

  lemma {:induction false} BatchesCount(policy: Policy, l: Ledger, bs: seq<Batch>)
    requires forall b :: b in bs ==> BatchOk(b)
    ensures Batches(policy, l, bs).observedSale == l.observedSale + SalesIn(bs)
    decreases |bs|
  {
    if bs != [] {
      var b := bs[0];
      assert BatchOk(b);
      LegsCount(policy, ReadRows(Admit(l, b), b.rows, Opening), b.rows, b.legs);
      BatchesCount(policy, BatchStep(policy, l, b), bs[1..]);
      hide Legs;
    }
  }

  lemma {:induction false} ConfirmSellsNothing(l: Ledger, seen: Confirmed, closings: seq<ClosingRow>)
    ensures ConfirmAll(l, seen, closings).0.observedSale == l.observedSale
    decreases |closings|
  {
    if closings != [] {
      var (r, next) := Confirm(l, seen, closings[0]);
      ConfirmSellsNothing(r, next, closings[1..]);
    }
  }

  /** The observed sales are the sum over the verified sales of the replayed transactions. */
  lemma ObservedSales(policy: Policy, seeds: seq<Seed>, historyComplete: bool, gaps: set<Issue>, bs: seq<Batch>,
                      closings: seq<ClosingRow>)
    requires forall b :: b in bs ==> BatchOk(b)
    ensures Analyze(policy, seeds, historyComplete, gaps, bs, closings).0.observedSale == SalesIn(bs)
  {
    var l0 := Begin(policy, seeds, historyComplete, gaps);
    BatchesCount(policy, l0, bs);
    ConfirmSellsNothing(Batches(policy, l0, bs), map[], closings);
    hide Batches, ConfirmAll, SeedNodes, ZeroLowers;
  }

  // ---- which accounts are tracked ----

  /** The account that a leg pays units to which may be attributed, unless it sells or serves. */
  function LegPays(policy: Policy, l: Ledger, rows: map<Account, Row>, leg: Leg): set<Account>
    requires LegInRows(rows, leg)
  {
    if !MovesNothing(leg) && Valid(rows, leg) && !leg.verifiedSale
       && !IsService(policy, leg.destination, leg.destinationOwner) && TracksSender(l, leg)
       && leg.amount <= l.nodes[leg.source].balance && l.nodes[leg.source].upper > 0
    then {leg.destination} else {}
  }

  function LegsPay(policy: Policy, l: Ledger, rows: map<Account, Row>, legs: seq<Leg>): set<Account>
    requires RowsOk(rows) && forall leg :: leg in legs ==> LegInRows(rows, leg)
    decreases |legs|
  {
    if legs == [] then {}
    else LegPays(policy, l, rows, legs[0]) + LegsPay(policy, LegStep(policy, l, rows, legs[0]), rows, legs[1..])
  }

  function BatchPays(policy: Policy, l: Ledger, b: Batch): set<Account>
    requires BatchOk(b)
  {
    if b.status == Parsed || b.status == Partial
    then LegsPay(policy, ReadRows(Admit(l, b), b.rows, Opening), b.rows, b.legs) else {}
  }

  /** Every account that a tracked one pays in the course of a run. */
  function Paid(policy: Policy, l: Ledger, bs: seq<Batch>): set<Account>
    requires forall b :: b in bs ==> BatchOk(b)
    decreases |bs|
  {
    if bs == [] then {} else BatchPays(policy, l, bs[0]) + Paid(policy, BatchStep(policy, l, bs[0]), bs[1..])
  }

  /** New accounts stay within the limit, and a limit goes on record only where it is reached. */
  ghost predicate Limited(policy: Policy, l: Ledger, r: Ledger) {
    && |l.nodes| <= |r.nodes| <= Max(|l.nodes|, policy.maxAccounts)
    && (AccountLimit in r.issues ==> AccountLimit in l.issues || |r.nodes| >= policy.maxAccounts)
    && (DepthLimit in r.issues ==>
          DepthLimit in l.issues || exists a :: a in r.nodes && r.nodes[a].depth >= policy.maxDepth)
  }

  /** From `l` to `r` the accounts of `paid` joined, all of them unless a limit is on record. */
  ghost predicate Joined(policy: Policy, l: Ledger, r: Ledger, paid: set<Account>) {
    && Limited(policy, l, r)
    && l.nodes.Keys <= r.nodes.Keys <= l.nodes.Keys + paid && l.issues <= r.issues
    && (r.issues !! LIMITS ==> r.nodes.Keys == l.nodes.Keys + paid)
    && SameDepths(l, r) && Newcomers(policy, l, r)
  }

  ghost predicate SameDepths(l: Ledger, r: Ledger) {
    forall a :: a in l.nodes ==> a in r.nodes && r.nodes[a].depth == l.nodes[a].depth
  }

  ghost predicate Newcomers(policy: Policy, l: Ledger, r: Ledger) {
    forall a :: a in r.nodes && a !in l.nodes ==> Reached(policy, r, a)
  }

  /** A recipient lies one step further than an account that is tracked, within the depth limit. */
  ghost predicate Reached(policy: Policy, r: Ledger, a: Account)
    requires a in r.nodes
  {
    r.nodes[a].depth <= policy.maxDepth && exists s :: s in r.nodes && r.nodes[a].depth == r.nodes[s].depth + 1
  }

  lemma LimitedOn(policy: Policy, l: Ledger, m: Ledger, r: Ledger)
    requires Limited(policy, l, m) && Limited(policy, m, r)
    requires SameDepths(m, r)
    ensures Limited(policy, l, r)
  {
    if DepthLimit in r.issues && DepthLimit !in l.issues && DepthLimit in m.issues {
      var a :| a in m.nodes && m.nodes[a].depth >= policy.maxDepth;
      assert a in r.nodes && r.nodes[a].depth >= policy.maxDepth;
    }
  }

  /** Whoever was reached stays reached, as depths do not change. */
  lemma NewcomersOn(policy: Policy, l: Ledger, m: Ledger, r: Ledger)
    requires Newcomers(policy, l, m) && Newcomers(policy, m, r) && SameDepths(m, r)
    ensures Newcomers(policy, l, r)
  {
    forall a | a in r.nodes && a !in l.nodes ensures Reached(policy, r, a) {
      if a in m.nodes {
        assert Reached(policy, m, a);
        var s :| s in m.nodes && m.nodes[a].depth == m.nodes[s].depth + 1;
        assert s in r.nodes && r.nodes[a].depth == r.nodes[s].depth + 1;
      }
    }
  }

  lemma DepthsOn(l: Ledger, m: Ledger, r: Ledger)
    requires SameDepths(l, m) && SameDepths(m, r)
    ensures SameDepths(l, r)
  {}

  lemma JoinedOn(policy: Policy, l: Ledger, m: Ledger, r: Ledger, paid: set<Account>, more: set<Account>)
    requires Joined(policy, l, m, paid) && Joined(policy, m, r, more)
    ensures Joined(policy, l, r, paid + more)
  {
    hide Limited, SameDepths, Newcomers;
    LimitedOn(policy, l, m, r);
    DepthsOn(l, m, r);
    NewcomersOn(policy, l, m, r);
    FewerIssues(m.issues, r.issues);
  }

  lemma FewerIssues(some: set<Issue>, all: set<Issue>)
    requires some <= all
    ensures all !! LIMITS ==> some !! LIMITS
  {
    forall i | all !! LIMITS && i in some ensures i !in LIMITS {
      assert i in all;
    }
  }

  predicate SameLimits(l: Ledger, r: Ledger) {
    && (AccountLimit in r.issues <==> AccountLimit in l.issues)
    && (DepthLimit in r.issues <==> DepthLimit in l.issues)
  }

  lemma LimitsStay(policy: Policy, l: Ledger, r: Ledger)
    requires r.nodes.Keys == l.nodes.Keys && SameLimits(l, r)
    ensures Limited(policy, l, r)
  {
    assert |r.nodes| == |r.nodes.Keys| && |l.nodes| == |l.nodes.Keys|;
  }

  lemma DebitJoins(l: Ledger, leg: Leg, valid: bool)
    ensures var (r, lower, upper) := Debit(l, leg, valid);
            && r.nodes.Keys == l.nodes.Keys && l.issues <= r.issues && SameLimits(l, r)
            && SameDepths(l, r)
            && (upper > 0 && leg.amount > 0
                <==> leg.amount > 0 && TracksSender(l, leg) && leg.amount <= l.nodes[leg.source].balance
                     && l.nodes[leg.source].upper > 0)
  {
    hide Guaranteed;
  }

  lemma LegJoins(policy: Policy, l: Ledger, rows: map<Account, Row>, leg: Leg)
    requires RowsOk(rows) && LegInRows(rows, leg)
    ensures Joined(policy, l, LegStep(policy, l, rows, leg), LegPays(policy, l, rows, leg))
  {
    if !MovesNothing(leg) {
      var valid := Valid(rows, leg);
      DebitJoins(l, leg, valid);
      var (debited, lower, upper) := Debit(l, leg, valid);
      var r := LegStep(policy, l, rows, leg);
      hide Debit, IsService, Joined;
      if !(leg.verifiedSale && valid) && !IsService(policy, leg.destination, leg.destinationOwner) {
        if valid && leg.destination !in debited.nodes && leg.source in debited.nodes && upper > 0 {
          DiscoverJoins(policy, debited, rows, leg);
          CreditJoins(policy, Discover(policy, debited, rows, leg), leg, valid, lower, upper);
          hide LegStep, Discover, Credit;
          JoinedThrice(policy, l, debited, Discover(policy, debited, rows, leg), r, leg.destination);
        } else {
          CreditJoins(policy, debited, leg, valid, lower, upper);
          hide LegStep, Discover, Credit;
          JoinedAlready(policy, l, debited, r, LegPays(policy, l, rows, leg));
        }
      } else {
        assert r.nodes == debited.nodes && r.issues == debited.issues;
        hide LegStep, Discover, Credit;
        JoinedNone(policy, l, r);
      }
    }
  }

  lemma JoinedNone(policy: Policy, l: Ledger, r: Ledger)
    requires r.nodes.Keys == l.nodes.Keys && l.issues <= r.issues && SameLimits(l, r)
    requires SameDepths(l, r)
    ensures Joined(policy, l, r, {})
  {
    LimitsStay(policy, l, r);
  }

  lemma JoinedThrice(policy: Policy, l: Ledger, m: Ledger, n: Ledger, r: Ledger, d: Account)
    requires m.nodes.Keys == l.nodes.Keys && l.issues <= m.issues && SameLimits(l, m)
    requires SameDepths(l, m)
    requires Joined(policy, m, n, {d}) && Joined(policy, n, r, {})
    ensures Joined(policy, l, r, {d})
  {
    JoinedNone(policy, l, m);
    JoinedOn(policy, l, m, n, {}, {d});
    JoinedOn(policy, l, n, r, {} + {d}, {});
    assert {} + {d} + {} == {d};
  }

  lemma JoinedAlready(policy: Policy, l: Ledger, m: Ledger, r: Ledger, paid: set<Account>)
    requires m.nodes.Keys == l.nodes.Keys && l.issues <= m.issues && SameLimits(l, m) && paid <= m.nodes.Keys
    requires SameDepths(l, m)
    requires Joined(policy, m, r, {})
    ensures Joined(policy, l, r, paid)
  {
    JoinedNone(policy, l, m);
    JoinedOn(policy, l, m, r, {}, {});
  }

  lemma DiscoverJoins(policy: Policy, l: Ledger, rows: map<Account, Row>, leg: Leg)
    requires RowsOk(rows) && LegInRows(rows, leg) && Valid(rows, leg)
    requires leg.source in l.nodes && leg.destination !in l.nodes
    ensures Joined(policy, l, Discover(policy, l, rows, leg), {leg.destination})
  {
    var r := Discover(policy, l, rows, leg);
    if leg.destination in r.nodes {
      assert r.nodes[leg.destination].depth == r.nodes[leg.source].depth + 1;
    }
  }

  lemma CreditJoins(policy: Policy, l: Ledger, leg: Leg, valid: bool, lower: nat, upper: nat)
    ensures Joined(policy, l, Credit(l, leg, valid, lower, upper), {})
  {
    JoinedNone(policy, l, Credit(l, leg, valid, lower, upper));
  }

  lemma {:induction false} LegsJoin(policy: Policy, l: Ledger, rows: map<Account, Row>, legs: seq<Leg>)
    requires RowsOk(rows) && forall leg :: leg in legs ==> LegInRows(rows, leg)
    ensures Joined(policy, l, Legs(policy, l, rows, legs), LegsPay(policy, l, rows, legs))
    decreases |legs|
  {
    if legs != [] {
      var m := LegStep(policy, l, rows, legs[0]);
      LegJoins(policy, l, rows, legs[0]);
      hide LegStep, LegPays, Joined;
      LegsJoin(policy, m, rows, legs[1..]);
      JoinedOn(policy, l, m, Legs(policy, m, rows, legs[1..]), LegPays(policy, l, rows, legs[0]),
               LegsPay(policy, m, rows, legs[1..]));
    }
  }

  lemma ReadJoins(policy: Policy, l: Ledger, rows: map<Account, Row>, read: Reading)
    ensures Joined(policy, l, ReadRows(l, rows, read), {})
  {
    JoinedNone(policy, l, ReadRows(l, rows, read));
  }

  lemma JoinedFourfold(policy: Policy, l: Ledger, m: Ledger, n: Ledger, o: Ledger, r: Ledger, paid: set<Account>)
    requires Joined(policy, l, m, {}) && Joined(policy, m, n, {}) && Joined(policy, n, o, paid)
    requires Joined(policy, o, r, {})
    ensures Joined(policy, l, r, paid)
  {
    hide Joined;
    JoinedOn(policy, l, m, n, {}, {});
    JoinedOn(policy, l, n, o, {} + {}, paid);
    JoinedOn(policy, l, o, r, {} + {} + paid, {});
    assert {} + {} + paid + {} == paid;
  }

  lemma BatchJoins(policy: Policy, l: Ledger, b: Batch)
    requires BatchOk(b)
    ensures Joined(policy, l, BatchStep(policy, l, b), BatchPays(policy, l, b))
  {
    if b.status == Parsed || b.status == Partial {
      var admitted := Admit(l, b);
      var ready := ReadRows(admitted, b.rows, Opening);
      var paid, moved := LegsPay(policy, ready, b.rows, b.legs), Legs(policy, ready, b.rows, b.legs);
      hide Joined;
      JoinedNone(policy, l, admitted);
      ReadJoins(policy, admitted, b.rows, Opening);
      LegsJoin(policy, ready, b.rows, b.legs);
      ReadJoins(policy, moved, b.rows, Closing);
      var r := ReadRows(moved, b.rows, Closing);
      hide ReadRows, Legs, LegsPay, Admit;
      JoinedFourfold(policy, l, admitted, ready, moved, r, paid);
    } else {
      hide Joined;
      JoinedNone(policy, l, BatchStep(policy, l, b));
    }
  }

  /**
   An account is tracked after a run exactly when it was before or was paid by a tracked account
   units that may be attributed, as long as no limit stopped its discovery.
   */
  lemma {:induction false} TrackedArePaid(policy: Policy, l: Ledger, bs: seq<Batch>)
    requires forall b :: b in bs ==> BatchOk(b)
    ensures Joined(policy, l, Batches(policy, l, bs), Paid(policy, l, bs))
    decreases |bs|
  {
    if bs != [] {
      var m := BatchStep(policy, l, bs[0]);
      BatchJoins(policy, l, bs[0]);
      hide BatchStep, BatchPays, Joined;
      TrackedArePaid(policy, m, bs[1..]);
      JoinedOn(policy, l, m, Batches(policy, m, bs[1..]), BatchPays(policy, l, bs[0]), Paid(policy, m, bs[1..]));
    }
  }
}
