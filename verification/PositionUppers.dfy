/** The upper share that follows the units, and what it leaves out: value that comes back. */
module PositionUppers {
  // Value that leaves the tracked accounts may come back with no upper bound attached, so `upper` and
  // `soldUpper` alone bound nothing in general. What they do bound, for every attribution, is
  // everything except what returned.

  import opened Wrappers
  import opened PositionLedger
  import opened PositionInvariants
  import opened PositionSoundness
  import opened MapTotals

  /** Attributed units held beyond the recorded upper bound, account by account. */
  ghost function Excess(l: Ledger, w: World): map<Account, nat> {
    map a | a in l.nodes :: ExcessAt(l, w, a)
  }

  function ExcessAt(l: Ledger, w: World, a: Account): nat
    requires a in l.nodes
  {
    Max(0, Holds(w, a) - l.nodes[a].upper)
  }

  ghost function TotalExcess(l: Ledger, w: World): nat {
    Total(Excess(l, w), Units)
  }

  /** Attributed units that enter the tracked accounts with this leg without a tracked sender. */
  function Returned(l: Ledger, r: Ledger, w: World, leg: Leg, moved: nat): nat {
    if MovesNothing(leg) || leg.destination !in r.nodes then 0
    else
      (if leg.source !in l.nodes && !leg.verifiedSale then moved else 0)
      + (if leg.destination !in l.nodes then Holds(w, leg.destination) else 0)
  }

  /** Attributed units really sold out of a tracked account by this leg. */
  function SoldBy(l: Ledger, leg: Leg, moved: nat): nat {
    if !MovesNothing(leg) && leg.verifiedSale && leg.source in l.nodes then moved else 0
  }

  /** What the sender pays out of its excess: units beyond the share that the leg carries. */
  function Overpaid(l: Ledger, leg: Leg, moved: nat): nat {
    if leg.source in l.nodes then Max(0, moved - Min(leg.amount, l.nodes[leg.source].upper)) else 0
  }

  lemma SenderExcess(policy: Policy, l: Ledger, rows: map<Account, Row>, leg: Leg, w: World, moved: nat)
    requires RowsOk(rows) && LegInRows(rows, leg) && AllComplete(rows) && LedgerOk(policy, l) && OwnersAgree(l, rows)
    requires LegStep(policy, l, rows, leg).complete && Feasible(w, leg, moved) && !MovesNothing(leg)
    requires leg.source in l.nodes && l.nodes[leg.source].balance >= Has(w.balance, leg.source)
    ensures var r := LegStep(policy, l, rows, leg);
            ExcessAt(r, WorldLeg(w, leg, moved), leg.source) + Overpaid(l, leg, moved) <= ExcessAt(l, w, leg.source)
  {
    LegNodes(policy, l, rows, leg);
    hide LegStep, LedgerOk, OwnersAgree, Claims, Guaranteed, IsService;
    WorldLegHolds(w, leg, moved, leg.source);
    hide WorldLeg;
  }

  lemma ReceiverExcess(policy: Policy, l: Ledger, rows: map<Account, Row>, leg: Leg, w: World, moved: nat)
    requires RowsOk(rows) && LegInRows(rows, leg) && AllComplete(rows) && LedgerOk(policy, l) && OwnersAgree(l, rows)
    requires LegStep(policy, l, rows, leg).complete && Feasible(w, leg, moved) && !MovesNothing(leg)
    requires leg.destination in LegStep(policy, l, rows, leg).nodes
    ensures var r := LegStep(policy, l, rows, leg);
            ExcessAt(r, WorldLeg(w, leg, moved), leg.destination)
            <= (if leg.destination in l.nodes then ExcessAt(l, w, leg.destination) else 0)
               + Returned(l, r, w, leg, moved) + (if leg.verifiedSale then 0 else Overpaid(l, leg, moved))
  {
    LegNodes(policy, l, rows, leg);
    assert leg.destination in l.nodes ==> NodeOk(policy, leg.destination, l.nodes[leg.destination]);
    hide LegStep, LedgerOk, Claims, Guaranteed, IsService, OwnersAgree;
    WorldLegHolds(w, leg, moved, leg.destination);
    hide WorldLeg;
  }

  lemma ExcessFlows(m: map<Account, nat>, n: map<Account, nat>, s: Account, d: Account, over: nat, received: nat)
    requires s != d
    requires n.Keys == m.Keys || n.Keys == m.Keys + {d}
    requires forall a :: a in m && a != s && a != d ==> n[a] == m[a]
    requires s in m ==> n[s] + over <= m[s]
    requires s !in m ==> over == 0
    requires d in n ==> n[d] <= (if d in m then m[d] else 0) + received
    ensures Total(n, Units) + over <= Total(m, Units) + received
  {
    hide Total;
    var m1 := if s in m then m[s := n[s]] else m;
    if s in m {
      TotalPut(m, Units, s, n[s]);
    }
    assert Total(m1, Units) + over <= Total(m, Units);
    if d in n {
      OneMoreKey(m1, n, d);
      TotalPut(m1, Units, d, n[d]);
    } else {
      assert n == m1;
    }
  }

  lemma OneMoreKey(m: map<Account, nat>, n: map<Account, nat>, d: Account)
    requires d in n && n.Keys == m.Keys + {d} && forall a :: a in m && a != d ==> n[a] == m[a]
    ensures n == m[d := n[d]]
  {}

  lemma OtherExcess(policy: Policy, l: Ledger, rows: map<Account, Row>, leg: Leg, w: World, moved: nat)
    requires RowsOk(rows) && LegInRows(rows, leg) && AllComplete(rows) && LedgerOk(policy, l) && OwnersAgree(l, rows)
    requires LegStep(policy, l, rows, leg).complete && Feasible(w, leg, moved) && !MovesNothing(leg)
    ensures var r := LegStep(policy, l, rows, leg);
            && (r.nodes.Keys == l.nodes.Keys || r.nodes.Keys == l.nodes.Keys + {leg.destination})
            && (forall a :: a in l.nodes && a != leg.source && a != leg.destination
                  ==> ExcessAt(r, WorldLeg(w, leg, moved), a) == ExcessAt(l, w, a))
            && SoldBy(l, leg, moved) - (r.soldUpper - l.soldUpper)
               <= (if leg.verifiedSale then Overpaid(l, leg, moved) else 0)
  {
    LegNodes(policy, l, rows, leg);
    var r := LegStep(policy, l, rows, leg);
    hide LegStep, LedgerOk, OwnersAgree, Claims, Guaranteed, IsService;
    forall a | a in l.nodes && a != leg.source && a != leg.destination
      ensures ExcessAt(r, WorldLeg(w, leg, moved), a) == ExcessAt(l, w, a)
    {
      WorldLegHolds(w, leg, moved, a);
    }
  }

  lemma LegUppers(policy: Policy, l: Ledger, rows: map<Account, Row>, leg: Leg, w: World, moved: nat)
    requires RowsOk(rows) && LegInRows(rows, leg) && AllComplete(rows) && LedgerOk(policy, l) && OwnersAgree(l, rows)
    requires LegStep(policy, l, rows, leg).complete && Feasible(w, leg, moved)
    requires leg.source in l.nodes ==> l.nodes[leg.source].balance >= Has(w.balance, leg.source)
    ensures var r, end := LegStep(policy, l, rows, leg), WorldLeg(w, leg, moved);
            var back := Returned(l, r, w, leg, moved);
            && TotalExcess(r, end) <= TotalExcess(l, w) + back
            && SoldBy(l, leg, moved) - (r.soldUpper - l.soldUpper) + TotalExcess(r, end) <= TotalExcess(l, w) + back
  {
    hide Total;
    if !MovesNothing(leg) {
      var r, end := LegStep(policy, l, rows, leg), WorldLeg(w, leg, moved);
      var s, d := leg.source, leg.destination;
      OtherExcess(policy, l, rows, leg, w, moved);
      if s in l.nodes { SenderExcess(policy, l, rows, leg, w, moved); }
      if d in r.nodes { ReceiverExcess(policy, l, rows, leg, w, moved); }
      hide LegStep, LedgerOk, OwnersAgree, WorldLeg, ExcessAt, SoldBy, Returned, RowsOk;
      assert s !in l.nodes ==> Overpaid(l, leg, moved) == 0;
      hide Overpaid;
      ExcessFlows(Excess(l, w), Excess(r, end), s, d, Overpaid(l, leg, moved),
                  Returned(l, r, w, leg, moved) + if leg.verifiedSale then 0 else Overpaid(l, leg, moved));
    }
  }

  // ---- over a transaction and a run ----

  function ReturnedOver(policy: Policy, l: Ledger, rows: map<Account, Row>, legs: seq<Leg>, w: World,
                        moves: seq<nat>): nat
    requires RowsOk(rows) && (forall leg :: leg in legs ==> LegInRows(rows, leg)) && FeasibleLegs(w, legs, moves)
    decreases |legs|
  {
    if legs == [] then 0
    else
      var r := LegStep(policy, l, rows, legs[0]);
      Returned(l, r, w, legs[0], moves[0])
      + ReturnedOver(policy, r, rows, legs[1..], WorldLeg(w, legs[0], moves[0]), moves[1..])
  }

  function SoldOver(policy: Policy, l: Ledger, rows: map<Account, Row>, legs: seq<Leg>, moves: seq<nat>): nat
    requires RowsOk(rows) && (forall leg :: leg in legs ==> LegInRows(rows, leg)) && |moves| == |legs|
    decreases |legs|
  {
    if legs == [] then 0
    else SoldBy(l, legs[0], moves[0]) + SoldOver(policy, LegStep(policy, l, rows, legs[0]), rows, legs[1..], moves[1..])
  }

  lemma {:induction false} LegsUppers(policy: Policy, l: Ledger, rows: map<Account, Row>, legs: seq<Leg>,
                                      running: Balances, w: World, moves: seq<nat>)
    requires RowsOk(rows) && AllComplete(rows) && LedgerOk(policy, l) && OwnersAgree(l, rows)
    requires forall leg :: leg in legs ==> LegInRows(rows, leg)
    requires Legs(policy, l, rows, legs).complete && FeasibleLegs(w, legs, moves)
    requires forall a :: a in rows ==> Has(running, a) == Has(w.balance, a)
    requires RecordsCover(policy, l, rows, legs, running)
    ensures var r, end := Legs(policy, l, rows, legs), WorldLegs(w, legs, moves);
            var back := ReturnedOver(policy, l, rows, legs, w, moves);
            && TotalExcess(r, end) <= TotalExcess(l, w) + back
            && SoldOver(policy, l, rows, legs, moves) - (r.soldUpper - l.soldUpper) + TotalExcess(r, end)
               <= TotalExcess(l, w) + back
    decreases |legs|
  {
    hide Total;
    if legs != [] {
      var next := LegStep(policy, l, rows, legs[0]);
      LegKeeps(policy, l, rows, legs[0]);
      LegsKeep(policy, next, rows, legs[1..]);
      ShortfallGrows(policy, l, rows, legs[0], running);
      LegUppers(policy, l, rows, legs[0], w, moves[0]);
      hide LegStep, TotalExcess, Returned, SoldBy;
      LegsUppers(policy, next, rows, legs[1..], MoveBalance(running, legs[0]), WorldLeg(w, legs[0], moves[0]),
                 moves[1..]);
    }
  }

  ghost function ReturnedIn(policy: Policy, l: Ledger, epochs: seq<Epoch>): nat
    requires forall e :: e in epochs ==> BatchOk(e.batch)
    decreases |epochs|
  {
    if epochs == [] then 0
    else
      var e := epochs[0];
      assert BatchOk(e.batch);
      (if e.batch.status == Parsed && FeasibleLegs(e.start, e.batch.legs, e.moves)
       then ReturnedOver(policy, l, e.batch.rows, e.batch.legs, e.start, e.moves) else 0)
      + ReturnedIn(policy, BatchStep(policy, l, e.batch), epochs[1..])
  }

  ghost function SoldIn(policy: Policy, l: Ledger, epochs: seq<Epoch>): nat
    requires forall e :: e in epochs ==> BatchOk(e.batch)
    decreases |epochs|
  {
    if epochs == [] then 0
    else
      var e := epochs[0];
      assert BatchOk(e.batch);
      (if e.batch.status == Parsed && |e.moves| == |e.batch.legs|
       then SoldOver(policy, l, e.batch.rows, e.batch.legs, e.moves) else 0)
      + SoldIn(policy, BatchStep(policy, l, e.batch), epochs[1..])
  }

  lemma SameHoldings(l: Ledger, w: World, v: World)
    requires forall a :: a in l.nodes ==> Holds(v, a) == Holds(w, a)
    ensures TotalExcess(l, v) == TotalExcess(l, w)
  {
    hide Total;
    assert Excess(l, v) == Excess(l, w);
  }

  /**
   Over every complete run and every attribution: the excess of the tracked holdings over
   their upper bounds, and of the tracked sales over the sold upper bound, is at most what
   came back from outside the tracked accounts.
   */
  lemma {:induction false} UppersBoundAllButReturns(policy: Policy, l: Ledger, w: World, epochs: seq<Epoch>,
                                                    end: World, total: nat)
    requires forall e :: e in epochs ==> BatchOk(e.batch) && BatchSafe(e.batch)
    requires LedgerOk(policy, l) && Explains(policy, l, w, epochs, end, total)
    requires Batches(policy, l, Observed(epochs)).complete
    ensures l.complete
    ensures var r, back := Batches(policy, l, Observed(epochs)), ReturnedIn(policy, l, epochs);
            && TotalExcess(r, end) <= TotalExcess(l, w) + back
            && SoldIn(policy, l, epochs) - (r.soldUpper - l.soldUpper) + TotalExcess(r, end) <= TotalExcess(l, w) + back
    decreases |epochs|
  {
    hide Total;
    hide WorldOk;
    if epochs == [] {
      SameHoldings(l, w, end);
    } else {
      var e := epochs[0];
      assert BatchOk(e.batch) && Observed(epochs)[0] == e.batch;
      assert Observed(epochs)[1..] == Observed(epochs[1..]);
      var next := BatchStep(policy, l, e.batch);
      BatchKeeps(policy, l, e.batch);
      BatchesKeep(policy, next, Observed(epochs[1..]));
      assert next.complete;
      if e.batch.status == Parsed {
        CompleteBatch(policy, l, e.batch);
        LegsUppers(policy, l, e.batch.rows, e.batch.legs, Before(e.batch.rows), e.start, e.moves);
      } else if e.batch.status != Failed {
        NotParsedGaps(policy, l, e.batch);
        assert false;
      }
      SameHoldings(l, w, e.start);
      hide BatchStep, TotalExcess, LedgerOk, Legs, Happened;
      UppersBoundAllButReturns(policy, next, WorldAfter(l, e.batch, e.start, e.moves), epochs[1..], end, total);
    }
  }

  lemma {:induction false} SoldOverInWorld(policy: Policy, l: Ledger, rows: map<Account, Row>, legs: seq<Leg>,
                                           w: World, moves: seq<nat>)
    requires RowsOk(rows) && (forall leg :: leg in legs ==> LegInRows(rows, leg)) && FeasibleLegs(w, legs, moves)
    ensures w.sold + SoldOver(policy, l, rows, legs, moves) <= WorldLegs(w, legs, moves).sold
    decreases |legs|
  {
    if legs != [] {
      hide LegStep, MoveUnits, MoveBalance;
      SoldOverInWorld(policy, LegStep(policy, l, rows, legs[0]), rows, legs[1..], WorldLeg(w, legs[0], moves[0]),
                      moves[1..]);
    }
  }

  lemma {:induction false} SoldInWorld(policy: Policy, l: Ledger, w: World, epochs: seq<Epoch>, end: World, total: nat)
    requires forall e :: e in epochs ==> BatchOk(e.batch)
    requires LedgerOk(policy, l) && Explains(policy, l, w, epochs, end, total)
    requires Batches(policy, l, Observed(epochs)).complete
    ensures w.sold + SoldIn(policy, l, epochs) <= end.sold
    decreases |epochs|
  {
    hide Total;
    hide WorldOk;
    if epochs != [] {
      var e := epochs[0];
      assert BatchOk(e.batch) && Observed(epochs)[0] == e.batch;
      assert Observed(epochs)[1..] == Observed(epochs[1..]);
      var next := BatchStep(policy, l, e.batch);
      BatchKeeps(policy, l, e.batch);
      BatchesKeep(policy, next, Observed(epochs[1..]));
      assert l.complete;
      if e.batch.status == Parsed {
        SoldOverInWorld(policy, l, e.batch.rows, e.batch.legs, e.start, e.moves);
      }
      hide BatchStep, LedgerOk, Legs;
      SoldInWorld(policy, next, WorldAfter(l, e.batch, e.start, e.moves), epochs[1..], end, total);
    }
  }

  /** The reported upper bound on sold units. */
  ghost function SoldUpper(l: Ledger, total: nat): int {
    Min(total - Total(l.nodes, LowerOf), l.soldUpper)
  }

  /** Every tracked account holds at most its upper bound. */
  ghost predicate UppersTrue(l: Ledger, w: World) {
    forall a :: a in l.nodes ==> Holds(w, a) <= l.nodes[a].upper
  }

  lemma NoExcess(l: Ledger, w: World)
    requires UppersTrue(l, w)
    ensures TotalExcess(l, w) == 0
  {
    var nothing: map<Account, nat> := map[];
    TotalDominated(Excess(l, w), Units, nothing, Units);
  }

  lemma ExcessOf(l: Ledger, w: World, a: Account)
    requires a in l.nodes
    ensures Holds(w, a) <= l.nodes[a].upper + TotalExcess(l, w)
  {
    hide Total;
    TotalPick(Excess(l, w), Units, a);
  }

  /**
   The two reported upper bounds hold up to the units that came back from outside; with no
   return flow they hold outright.
   */
  lemma UpperBoundsUpToReturns(policy: Policy, seeds: seq<Seed>, w: World, epochs: seq<Epoch>, end: World)
    requires SeedsOk(policy, seeds) && forall e :: e in epochs ==> BatchOk(e.batch) && BatchSafe(e.batch)
    requires Start(policy, seeds, true).complete ==>
               Sound(Start(policy, seeds, true), w, Bought(seeds)) && UppersTrue(Start(policy, seeds, true), w)
    requires Explains(policy, Start(policy, seeds, true), w, epochs, end, Bought(seeds))
    requires Batches(policy, Start(policy, seeds, true), Observed(epochs)).complete
    ensures var l0 := Start(policy, seeds, true);
            var l, back := Batches(policy, l0, Observed(epochs)), ReturnedIn(policy, l0, epochs);
            && SoldIn(policy, l0, epochs) <= SoldUpper(l, Bought(seeds)) + back
            && forall a :: a in l.nodes ==> Holds(end, a) <= l.nodes[a].upper + back
  {
    hide Total;
    var l0, bs, total := Start(policy, seeds, true), Observed(epochs), Bought(seeds);
    var l := Batches(policy, l0, bs);
    StartKeeps(policy, seeds, true);
    UppersBoundAllButReturns(policy, l0, w, epochs, end, total);
    NoExcess(l0, w);
    forall a | a in l.nodes ensures Holds(end, a) <= l.nodes[a].upper + ReturnedIn(policy, l0, epochs) {
      ExcessOf(l, end, a);
    }
    CompleteRunCovered(policy, l0, bs);
    ReplaySound(policy, l0, w, epochs, end, total);
    SoldInWorld(policy, l0, w, epochs, end, total);
    TotalDominated(l.nodes, LowerOf, end.attributed, Units);
    hide Batches, Explains, ReturnedIn, SoldIn, TotalExcess;
    assert l0.soldUpper == 0;
  }

  // ---- when nothing returns ----

  /**
   What a reader of the ledger and the snapshots can see of a leg: it pays no tracked account
   out of an untracked one, and an account that it makes tracked was empty just before.
   */
  predicate NoEntry(policy: Policy, l: Ledger, rows: map<Account, Row>, leg: Leg, running: Balances)
    requires RowsOk(rows) && LegInRows(rows, leg)
  {
    !MovesNothing(leg) && leg.destination in LegStep(policy, l, rows, leg).nodes ==>
      && (leg.source in l.nodes || leg.verifiedSale)
      && (leg.destination in l.nodes || Has(running, leg.destination) <= 0)
  }

  /** Or the guaranteed units already account for the whole purchase, so that nothing is outside. */
  ghost predicate Returnless(policy: Policy, l: Ledger, rows: map<Account, Row>, leg: Leg, running: Balances,
                             total: nat)
    requires RowsOk(rows) && LegInRows(rows, leg)
  {
    Claimed(l) >= total || NoEntry(policy, l, rows, leg, running)
  }

  /** Units held outside the tracked accounts are not among those guaranteed inside. */
  lemma OutsideIsUnclaimed(l: Ledger, w: World, total: nat, a: Account)
    requires WorldOk(w, total) && Bounded(l, w) && a !in l.nodes
    ensures Claimed(l) + Holds(w, a) <= total
  {
    hide Total;
    if a in w.attributed {
      TotalPick(w.attributed, Units, a);
      TotalDominated(l.nodes, LowerOf, w.attributed - {a}, Units);
    } else {
      TotalDominated(l.nodes, LowerOf, w.attributed, Units);
    }
  }

  lemma ReturnlessLeg(policy: Policy, l: Ledger, rows: map<Account, Row>, leg: Leg, w: World, moved: nat, total: nat)
    requires RowsOk(rows) && LegInRows(rows, leg) && Feasible(w, leg, moved)
    requires WorldOk(w, total) && Bounded(l, w) && Returnless(policy, l, rows, leg, w.balance, total)
    ensures Returned(l, LegStep(policy, l, rows, leg), w, leg, moved) == 0
  {
    hide LegStep, Bounded;
    var s, d := leg.source, leg.destination;
    assert !MovesNothing(leg) ==> moved <= Holds(w, s);
    assert Holds(w, d) <= Has(w.balance, d);
    if s !in l.nodes { OutsideIsUnclaimed(l, w, total, s); }
    if d !in l.nodes { OutsideIsUnclaimed(l, w, total, d); }
    hide WorldOk, Claimed;
  }

  /** The lower bounds, and one more unit in an untracked account. */
  ghost function StrayWorld(l: Ledger, running: Balances, a: Account): World {
    LeastWorld(l, running).(attributed := LeastWorld(l, running).attributed[a := 1])
  }

  lemma StrayIsOk(policy: Policy, l: Ledger, leg: Leg, running: Balances, total: nat, a: Account)
    requires Roomy(l, leg, running, total) && LedgerOk(policy, l) && Claimed(l) < total && a !in l.nodes
    requires Has(running, a) > 0
    ensures var w := StrayWorld(l, running, a);
            WorldOk(w, total) && Bounded(l, w) && UppersTrue(l, w) && w.balance == running
  {
    hide Total;
    var least := LeastWorld(l, running);
    LeastIsOk(l, leg, running, total);
    TotalDominated(least.attributed, Units, l.nodes, LowerOf);
    TotalPut(least.attributed, Units, a, 1);
  }

  /** One unit outside can come back with a leg that pays a tracked account. */
  lemma EntryReturns(policy: Policy, l: Ledger, rows: map<Account, Row>, leg: Leg, running: Balances, total: nat)
    returns (w: World, moved: nat)
    requires RowsOk(rows) && LegInRows(rows, leg) && LedgerOk(policy, l) && Roomy(l, leg, running, total)
    requires Claimed(l) < total
    requires !NoEntry(policy, l, rows, leg, running)
    ensures w.balance == running && WorldOk(w, total) && Bounded(l, w) && UppersTrue(l, w)
            && Feasible(w, leg, moved)
    ensures Returned(l, LegStep(policy, l, rows, leg), w, leg, moved) > 0
  {
    var s, d := leg.source, leg.destination;
    var a := if s !in l.nodes && !leg.verifiedSale then s else d;
    hide LegStep;
    w := StrayWorld(l, running, a);
    assert d !in l.nodes || a == s;
    StrayIsOk(policy, l, leg, running, total, a);
    if a == s {
      moved := 1;
    } else {
      moved := if s in l.nodes then Guaranteed(leg.amount, Has(running, s), l.nodes[s].lower) else 0;
    }
  }

  /**
   Exactly the legs without entry, and those that find nothing outside, bring nothing back in
   any world with these balances that the bounds allow.
   */
  lemma NothingReturnsIff(policy: Policy, l: Ledger, rows: map<Account, Row>, leg: Leg, running: Balances, total: nat)
    requires RowsOk(rows) && LegInRows(rows, leg) && LedgerOk(policy, l) && Roomy(l, leg, running, total)
    ensures (forall w: World, moved: nat ::
               w.balance == running && WorldOk(w, total) && Bounded(l, w) && UppersTrue(l, w)
                   && Feasible(w, leg, moved)
               ==> Returned(l, LegStep(policy, l, rows, leg), w, leg, moved) == 0)
            <==> Returnless(policy, l, rows, leg, running, total)
  {
    hide LegStep, Feasible, LedgerOk, RowsOk, WorldOk, Bounded, UppersTrue, Returned, NoEntry, Claimed, Roomy;
    if Returnless(policy, l, rows, leg, running, total) {
      forall w: World, moved: nat
        | w.balance == running && WorldOk(w, total) && Bounded(l, w) && UppersTrue(l, w) && Feasible(w, leg, moved)
        ensures Returned(l, LegStep(policy, l, rows, leg), w, leg, moved) == 0
      {
        ReturnlessLeg(policy, l, rows, leg, w, moved, total);
      }
    } else {
      var w, moved := EntryReturns(policy, l, rows, leg, running, total);
    }
  }

  // ---- when the upper bounds themselves hold ----

  /** The most that one tracked account can hold beside the guarantees of all others. */
  ghost function Room(l: Ledger, total: nat, a: Account): int
    requires a in l.nodes
  {
    total - Claimed(l) + l.nodes[a].lower
  }

  /**
   The leg can push no account over its upper bound: what an untracked sender may add to a
   tracked account still fits under its bound, and an account that becomes tracked was empty, or
   all that could be in it is what the sender passes on.
   */
  ghost predicate KeepsUppers(policy: Policy, l: Ledger, rows: map<Account, Row>, leg: Leg, running: Balances,
                              total: nat)
    requires RowsOk(rows) && LegInRows(rows, leg)
  {
    var s, d := leg.source, leg.destination;
    !MovesNothing(leg) && !leg.verifiedSale && d in LegStep(policy, l, rows, leg).nodes ==>
      && (s !in l.nodes && d in l.nodes ==>
            Min(Min(l.nodes[d].upper, Has(running, d)) + leg.amount, Room(l, total, d)) <= l.nodes[d].upper)
      && (s in l.nodes && d !in l.nodes ==>
            || Has(running, d) <= 0
            || Room(l, total, s) <= Max(Min(leg.amount, l.nodes[s].upper), l.nodes[s].lower))
  }

  /** A tracked and an untracked account together fit beside all other guarantees. */
  lemma TwoFit(l: Ledger, w: World, total: nat, a: Account, b: Account)
    requires WorldOk(w, total) && Bounded(l, w) && a in l.nodes && b !in l.nodes
    ensures Holds(w, a) + Holds(w, b) <= Room(l, total, a)
  {
    hide Total;
    var raised := l.nodes[a := l.nodes[a].(lower := Holds(w, a))];
    TotalPut(l.nodes, LowerOf, a, raised[a]);
    assert l.nodes[a := l.nodes[a]] == l.nodes;
    if b in w.attributed {
      TotalPick(w.attributed, Units, b);
      TotalDominated(raised, LowerOf, w.attributed - {b}, Units);
    } else {
      TotalDominated(raised, LowerOf, w.attributed, Units);
    }
  }

  /** The two accounts of the leg together fit beside all other guarantees, if one of them is tracked. */
  lemma PairFits(l: Ledger, leg: Leg, w: World, moved: nat, total: nat)
    requires !MovesNothing(leg) && Feasible(w, leg, moved) && WorldOk(w, total) && Bounded(l, w)
    ensures var s, d := leg.source, leg.destination;
            && moved <= leg.amount && moved <= Holds(w, s) && leg.amount - moved <= Has(w.balance, s) - Holds(w, s)
            && Holds(w, d) <= Has(w.balance, d)
            && (s in l.nodes && d !in l.nodes ==>
                  l.nodes[s].lower <= Holds(w, s) && Holds(w, d) + Holds(w, s) <= Room(l, total, s))
            && (d in l.nodes && s !in l.nodes ==> Holds(w, d) + Holds(w, s) <= Room(l, total, d))
  {
    var s, d := leg.source, leg.destination;
    if s in l.nodes && d !in l.nodes { TwoFit(l, w, total, s, d); }
    if d in l.nodes && s !in l.nodes { TwoFit(l, w, total, d, s); }
    hide Room, Has;
  }

  lemma KeptAtSource(policy: Policy, l: Ledger, rows: map<Account, Row>, leg: Leg, w: World, moved: nat, total: nat)
    requires RowsOk(rows) && LegInRows(rows, leg) && AllComplete(rows) && LedgerOk(policy, l) && OwnersAgree(l, rows)
    requires LegStep(policy, l, rows, leg).complete && !MovesNothing(leg) && Feasible(w, leg, moved)
    requires WorldOk(w, total) && Bounded(l, w) && UppersTrue(l, w)
    requires leg.source in l.nodes && l.nodes[leg.source].balance >= Has(w.balance, leg.source)
    ensures leg.source in LegStep(policy, l, rows, leg).nodes
    ensures Holds(WorldLeg(w, leg, moved), leg.source) <= LegStep(policy, l, rows, leg).nodes[leg.source].upper
  {
    hide LegStep, WorldLeg, LedgerOk, OwnersAgree, RowsOk, AllComplete, IsService, Claims, Guaranteed, Feasible, Valid,
         LegInRows, WorldOk, Bounded, Room, Has, Holds;
    PairFits(l, leg, w, moved, total);
    LegNodes(policy, l, rows, leg);
    WorldLegHolds(w, leg, moved, leg.source);
  }

  lemma KeptAtDestination(policy: Policy, l: Ledger, rows: map<Account, Row>, leg: Leg, w: World, moved: nat,
                          total: nat)
    requires RowsOk(rows) && LegInRows(rows, leg) && AllComplete(rows) && LedgerOk(policy, l) && OwnersAgree(l, rows)
    requires LegStep(policy, l, rows, leg).complete && !MovesNothing(leg) && Feasible(w, leg, moved)
    requires WorldOk(w, total) && Bounded(l, w) && UppersTrue(l, w)
    requires KeepsUppers(policy, l, rows, leg, w.balance, total)
    requires leg.destination in LegStep(policy, l, rows, leg).nodes
    ensures Holds(WorldLeg(w, leg, moved), leg.destination)
            <= LegStep(policy, l, rows, leg).nodes[leg.destination].upper
  {
    hide LegStep, WorldLeg, LedgerOk, OwnersAgree, RowsOk, AllComplete, IsService, Claims, Guaranteed, PassesOn,
         Feasible, Valid, LegInRows, WorldOk, Bounded, Room, Has, Holds;
    PairFits(l, leg, w, moved, total);
    LegNodes(policy, l, rows, leg);
    FoundWithinLimits(policy, l, rows, leg);
    WorldLegHolds(w, leg, moved, leg.destination);
  }

  lemma KeptElsewhere(policy: Policy, l: Ledger, rows: map<Account, Row>, leg: Leg, w: World, moved: nat, total: nat,
                      a: Account)
    requires RowsOk(rows) && LegInRows(rows, leg) && AllComplete(rows) && LedgerOk(policy, l) && OwnersAgree(l, rows)
    requires LegStep(policy, l, rows, leg).complete && !MovesNothing(leg) && Feasible(w, leg, moved)
    requires WorldOk(w, total) && Bounded(l, w) && UppersTrue(l, w)
    requires a in LegStep(policy, l, rows, leg).nodes && a != leg.source && a != leg.destination
    ensures Holds(WorldLeg(w, leg, moved), a) <= LegStep(policy, l, rows, leg).nodes[a].upper
  {
    hide LegStep, WorldLeg, LedgerOk, OwnersAgree, RowsOk, AllComplete, IsService, Claims, Guaranteed, Feasible, Valid,
         LegInRows, WorldOk, Bounded, Holds;
    LegNodes(policy, l, rows, leg);
    WorldLegHolds(w, leg, moved, a);
  }

  lemma SourceStays(policy: Policy, l: Ledger, rows: map<Account, Row>, leg: Leg)
    requires RowsOk(rows) && LegInRows(rows, leg) && leg.source in LegStep(policy, l, rows, leg).nodes
    requires !MovesNothing(leg)
    ensures leg.source in l.nodes
  {
    hide Guaranteed, ZeroLowers;
  }

  /** The leg brings tracked sales no more than it adds to the sold bound. */
  lemma SoldKept(policy: Policy, l: Ledger, rows: map<Account, Row>, leg: Leg, w: World, moved: nat)
    requires RowsOk(rows) && LegInRows(rows, leg) && AllComplete(rows) && LedgerOk(policy, l) && OwnersAgree(l, rows)
    requires LegStep(policy, l, rows, leg).complete && Feasible(w, leg, moved) && UppersTrue(l, w)
    ensures SoldBy(l, leg, moved) <= LegStep(policy, l, rows, leg).soldUpper - l.soldUpper
  {
    if !MovesNothing(leg) {
      LegNodes(policy, l, rows, leg);
      hide LegStep, LedgerOk, OwnersAgree, RowsOk, IsService, Claims, Guaranteed;
    }
  }

  lemma UppersKept(policy: Policy, l: Ledger, rows: map<Account, Row>, leg: Leg, w: World, moved: nat, total: nat)
    requires RowsOk(rows) && LegInRows(rows, leg) && AllComplete(rows) && LedgerOk(policy, l) && OwnersAgree(l, rows)
    requires LegStep(policy, l, rows, leg).complete && Feasible(w, leg, moved)
    requires WorldOk(w, total) && Bounded(l, w) && UppersTrue(l, w)
    requires leg.source in l.nodes ==> l.nodes[leg.source].balance >= Has(w.balance, leg.source)
    requires KeepsUppers(policy, l, rows, leg, w.balance, total)
    ensures UppersTrue(LegStep(policy, l, rows, leg), WorldLeg(w, leg, moved))
    ensures SoldBy(l, leg, moved) <= LegStep(policy, l, rows, leg).soldUpper - l.soldUpper
  {
    SoldKept(policy, l, rows, leg, w, moved);
    if !MovesNothing(leg) {
      var r := LegStep(policy, l, rows, leg);
      hide LegStep, WorldLeg, LedgerOk, OwnersAgree, RowsOk, AllComplete, WorldOk, Bounded, Feasible, KeepsUppers,
           Holds;
      forall a | a in r.nodes ensures Holds(WorldLeg(w, leg, moved), a) <= r.nodes[a].upper {
        if a == leg.source {
          SourceStays(policy, l, rows, leg);
          KeptAtSource(policy, l, rows, leg, w, moved, total);
        } else if a == leg.destination {
          KeptAtDestination(policy, l, rows, leg, w, moved, total);
        } else {
          KeptElsewhere(policy, l, rows, leg, w, moved, total, a);
        }
      }
    }
  }

  /** The lower bounds, except for one tracked and one untracked account. */
  ghost function PairWorld(l: Ledger, running: Balances, a: Account, x: nat, b: Account, y: nat): World {
    LeastWorld(l, running).(attributed := LeastWorld(l, running).attributed[a := x][b := y])
  }

  lemma PairIsOk(policy: Policy, l: Ledger, leg: Leg, running: Balances, total: nat, a: Account, x: nat, b: Account,
                 y: nat)
    requires Roomy(l, leg, running, total) && LedgerOk(policy, l) && a in l.nodes && b !in l.nodes
    requires l.nodes[a].lower <= x <= Min(l.nodes[a].upper, Has(running, a)) && y <= Has(running, b)
    requires x + y <= Room(l, total, a)
    ensures var w := PairWorld(l, running, a, x, b, y);
            w.balance == running && WorldOk(w, total) && Bounded(l, w) && UppersTrue(l, w)
  {
    hide Total;
    var least := LeastWorld(l, running);
    LeastIsOk(l, leg, running, total);
    TotalDominated(least.attributed, Units, l.nodes, LowerOf);
    TotalPut(least.attributed, Units, a, x);
    TotalPut(least.attributed[a := x], Units, b, y);
  }

  /** Too much may enter a tracked account from an untracked one. */
  lemma EntryExceeds(policy: Policy, l: Ledger, rows: map<Account, Row>, leg: Leg, running: Balances, total: nat)
    returns (w: World, moved: nat)
    requires RowsOk(rows) && LegInRows(rows, leg) && AllComplete(rows) && LedgerOk(policy, l) && OwnersAgree(l, rows)
    requires LegStep(policy, l, rows, leg).complete && Roomy(l, leg, running, total)
    requires !MovesNothing(leg) && !leg.verifiedSale && leg.source !in l.nodes && leg.destination in l.nodes
    requires var d := leg.destination;
             Min(Min(l.nodes[d].upper, Has(running, d)) + leg.amount, Room(l, total, d)) > l.nodes[d].upper
    ensures w.balance == running && WorldOk(w, total) && Bounded(l, w) && UppersTrue(l, w) && Feasible(w, leg, moved)
    ensures !UppersTrue(LegStep(policy, l, rows, leg), WorldLeg(w, leg, moved))
  {
    var s, d := leg.source, leg.destination;
    NodeIsOk(policy, l, d);
    var most := Min(Min(l.nodes[d].upper, Has(running, d)) + leg.amount, Room(l, total, d));
    var x: nat := Max(l.nodes[d].lower, most - leg.amount);
    moved := most - x;
    w := PairWorld(l, running, d, x, s, moved);
    PairIsOk(policy, l, leg, running, total, d, x, s, moved);
    assert Holds(w, d) == x && Holds(w, s) == moved;
    LegNodes(policy, l, rows, leg);
    hide PairWorld, LegStep, LedgerOk, OwnersAgree, RowsOk, WorldOk, Bounded, Roomy, IsService, Claims, Guaranteed,
         Room;
    WorldLegHolds(w, leg, moved, d);
    hide WorldLeg;
  }

  /** An account that becomes tracked may already hold purchased units. */
  lemma FoundExceeds(policy: Policy, l: Ledger, rows: map<Account, Row>, leg: Leg, running: Balances, total: nat)
    returns (w: World, moved: nat)
    requires RowsOk(rows) && LegInRows(rows, leg) && AllComplete(rows) && LedgerOk(policy, l) && OwnersAgree(l, rows)
    requires LegStep(policy, l, rows, leg).complete && Roomy(l, leg, running, total)
    requires !MovesNothing(leg) && !leg.verifiedSale && leg.source in l.nodes && leg.destination !in l.nodes
    requires leg.destination in LegStep(policy, l, rows, leg).nodes && Has(running, leg.destination) > 0
    requires var n := l.nodes[leg.source]; Room(l, total, leg.source) > Max(Min(leg.amount, n.upper), n.lower)
    ensures w.balance == running && WorldOk(w, total) && Bounded(l, w) && UppersTrue(l, w) && Feasible(w, leg, moved)
    ensures !UppersTrue(LegStep(policy, l, rows, leg), WorldLeg(w, leg, moved))
  {
    var s, d := leg.source, leg.destination;
    NodeIsOk(policy, l, s);
    moved := Min(leg.amount, l.nodes[s].upper);
    var x: nat := Max(moved, l.nodes[s].lower);
    w := PairWorld(l, running, s, x, d, 1);
    PairIsOk(policy, l, leg, running, total, s, x, d, 1);
    assert Holds(w, s) == x && Holds(w, d) == 1;
    LegNodes(policy, l, rows, leg);
    hide PairWorld, LegStep, LedgerOk, OwnersAgree, RowsOk, WorldOk, Bounded, Roomy, IsService, Claims, Guaranteed,
         Room;
    WorldLegHolds(w, leg, moved, d);
    hide WorldLeg;
  }

  /**
   One transfer keeps every upper bound true, and its sales within the sold bound, in every world
   with these balances that the bounds allow, exactly when it satisfies `KeepsUppers`.
   */
  lemma UppersKeptIff(policy: Policy, l: Ledger, rows: map<Account, Row>, leg: Leg, running: Balances, total: nat)
    requires RowsOk(rows) && LegInRows(rows, leg) && AllComplete(rows) && LedgerOk(policy, l) && OwnersAgree(l, rows)
    requires LegStep(policy, l, rows, leg).complete && Roomy(l, leg, running, total)
    requires leg.source in l.nodes ==> l.nodes[leg.source].balance >= Has(running, leg.source)
    ensures (forall w: World, moved: nat ::
               w.balance == running && WorldOk(w, total) && Bounded(l, w) && UppersTrue(l, w) && Feasible(w, leg, moved)
               ==> UppersTrue(LegStep(policy, l, rows, leg), WorldLeg(w, leg, moved))
                   && SoldBy(l, leg, moved) <= LegStep(policy, l, rows, leg).soldUpper - l.soldUpper)
            <==> KeepsUppers(policy, l, rows, leg, running, total)
  {
    FoundWithinLimits(policy, l, rows, leg);
    hide LegStep, WorldLeg, Feasible, LedgerOk, OwnersAgree, RowsOk, AllComplete, WorldOk, Bounded, UppersTrue, SoldBy,
         Roomy, Room, PassesOn;
    if KeepsUppers(policy, l, rows, leg, running, total) {
      hide KeepsUppers;
      forall w: World, moved: nat
        | w.balance == running && WorldOk(w, total) && Bounded(l, w) && UppersTrue(l, w) && Feasible(w, leg, moved)
        ensures UppersTrue(LegStep(policy, l, rows, leg), WorldLeg(w, leg, moved))
                && SoldBy(l, leg, moved) <= LegStep(policy, l, rows, leg).soldUpper - l.soldUpper
      {
        UppersKept(policy, l, rows, leg, w, moved, total);
      }
    } else if leg.source in l.nodes {
      var w, moved := FoundExceeds(policy, l, rows, leg, running, total);
    } else {
      var w, moved := EntryExceeds(policy, l, rows, leg, running, total);
    }
  }

  // ---- over a run ----

  ghost predicate LegsKeepUppers(policy: Policy, l: Ledger, rows: map<Account, Row>, legs: seq<Leg>, running: Balances,
                                 total: nat)
    requires RowsOk(rows) && forall leg :: leg in legs ==> LegInRows(rows, leg)
    decreases |legs|
  {
    legs != [] ==>
      && KeepsUppers(policy, l, rows, legs[0], running, total)
      && LegsKeepUppers(policy, LegStep(policy, l, rows, legs[0]), rows, legs[1..], MoveBalance(running, legs[0]),
                        total)
  }

  /** The condition on a run: every parsed transaction, leg by leg, from its own snapshots. */
  ghost predicate RunKeepsUppers(policy: Policy, l: Ledger, bs: seq<Batch>, total: nat)
    requires forall b :: b in bs ==> BatchOk(b)
    decreases |bs|
  {
    bs != [] ==>
      assert BatchOk(bs[0]);
      && (bs[0].status == Parsed ==>
            LegsKeepUppers(policy, l, bs[0].rows, bs[0].legs, Before(bs[0].rows), total))
      && RunKeepsUppers(policy, BatchStep(policy, l, bs[0]), bs[1..], total)
  }

  lemma KeepsUppersAlike(policy: Policy, l: Ledger, rows: map<Account, Row>, leg: Leg, running: Balances,
                         other: Balances, total: nat)
    requires RowsOk(rows) && LegInRows(rows, leg) && KeepsUppers(policy, l, rows, leg, running, total)
    requires forall a :: a in rows ==> Has(running, a) == Has(other, a)
    ensures KeepsUppers(policy, l, rows, leg, other, total)
  {
    hide LegStep, Room;
  }

  lemma {:induction false} LegsUppersHold(policy: Policy, l: Ledger, rows: map<Account, Row>, legs: seq<Leg>,
                                          running: Balances, w: World, moves: seq<nat>, total: nat)
    requires RowsOk(rows) && AllComplete(rows) && LedgerOk(policy, l) && OwnersAgree(l, rows)
    requires forall leg :: leg in legs ==> LegInRows(rows, leg)
    requires Legs(policy, l, rows, legs).complete
    requires WorldOk(w, total) && FeasibleLegs(w, legs, moves) && Bounded(l, w) && UppersTrue(l, w)
    requires forall a :: a in rows ==> Has(running, a) == Has(w.balance, a)
    requires CoveredLegs(policy, l, rows, legs, running) && RecordsCover(policy, l, rows, legs, running)
    requires LegsKeepUppers(policy, l, rows, legs, running, total)
    ensures UppersTrue(Legs(policy, l, rows, legs), WorldLegs(w, legs, moves))
    ensures SoldOver(policy, l, rows, legs, moves) <= Legs(policy, l, rows, legs).soldUpper - l.soldUpper
    decreases |legs|
  {
    hide Total;
    if legs != [] {
      var leg, next := legs[0], LegStep(policy, l, rows, legs[0]);
      LegKeeps(policy, l, rows, leg);
      LegsKeep(policy, next, rows, legs[1..]);
      WorldLegOk(w, leg, moves[0], total);
      LegSound(policy, l, rows, leg, w, moves[0]);
      ShortfallGrows(policy, l, rows, leg, running);
      KeepsUppersAlike(policy, l, rows, leg, running, w.balance, total);
      UppersKept(policy, l, rows, leg, w, moves[0], total);
      hide LegStep, KeepsUppers, WorldOk, Bounded, LedgerOk, OwnersAgree, UppersTrue, SoldBy, Claimed;
      LegsUppersHold(policy, next, rows, legs[1..], MoveBalance(running, leg), WorldLeg(w, leg, moves[0]), moves[1..],
                     total);
    }
  }

  lemma {:induction false} RunUppersHold(policy: Policy, l: Ledger, w: World, epochs: seq<Epoch>, end: World,
                                         total: nat)
    requires forall e :: e in epochs ==> BatchOk(e.batch) && BatchSafe(e.batch)
    requires LedgerOk(policy, l) && Sound(l, w, total) && UppersTrue(l, w)
    requires Explains(policy, l, w, epochs, end, total)
    requires Batches(policy, l, Observed(epochs)).complete
    requires RunKeepsUppers(policy, l, Observed(epochs), total)
    ensures UppersTrue(Batches(policy, l, Observed(epochs)), end)
    ensures SoldIn(policy, l, epochs) <= Batches(policy, l, Observed(epochs)).soldUpper - l.soldUpper
    decreases |epochs|
  {
    hide Total, WorldOk;
    if epochs != [] {
      var e := epochs[0];
      assert BatchOk(e.batch) && Observed(epochs)[0] == e.batch;
      assert Observed(epochs)[1..] == Observed(epochs[1..]);
      var next, after := BatchStep(policy, l, e.batch), WorldAfter(l, e.batch, e.start, e.moves);
      BatchKeeps(policy, l, e.batch);
      BatchesKeep(policy, next, Observed(epochs[1..]));
      assert Sound(l, e.start, total) && UppersTrue(l, e.start);
      BatchUppersHold(policy, l, e, total);
      hide BatchStep, LedgerOk, Legs, Happened, Sound, LegsKeepUppers, SoldOver, UppersTrue;
      RunUppersHold(policy, next, after, epochs[1..], end, total);
    }
  }

  lemma BatchUppersHold(policy: Policy, l: Ledger, e: Epoch, total: nat)
    requires BatchOk(e.batch) && BatchSafe(e.batch) && LedgerOk(policy, l) && l.complete
    requires Sound(l, e.start, total) && UppersTrue(l, e.start) && Happened(e.batch, e.start, e.moves)
    requires BatchStep(policy, l, e.batch).complete
    requires e.batch.status == Parsed ==>
               LegsKeepUppers(policy, l, e.batch.rows, e.batch.legs, Before(e.batch.rows), total)
    ensures var next := BatchStep(policy, l, e.batch);
            && Sound(next, WorldAfter(l, e.batch, e.start, e.moves), total)
            && UppersTrue(next, WorldAfter(l, e.batch, e.start, e.moves))
            && (e.batch.status != Parsed ==> next.soldUpper == l.soldUpper)
            && (e.batch.status == Parsed ==>
                  SoldOver(policy, l, e.batch.rows, e.batch.legs, e.moves) <= next.soldUpper - l.soldUpper)
  {
    hide Total;
    if e.batch.status == Parsed {
      CompleteBatch(policy, l, e.batch);
      BeforeIsReal(e.batch, e.start, e.moves);
      hide BatchStep, LedgerOk, WorldOk, Bounded;
      LegsUppersHold(policy, l, e.batch.rows, e.batch.legs, Before(e.batch.rows), e.start, e.moves, total);
    } else if e.batch.status != Failed {
      NotParsedGaps(policy, l, e.batch);
      assert false;
    }
    hide LegsKeepUppers, SoldOver, Legs;
    BatchSound(policy, l, e.batch, e.start, e.moves, total);
  }

  /** A settled ledger that is complete is the one before settling. */
  lemma SettledIsSame(policy: Policy, l: Ledger, closings: seq<ClosingRow>)
    requires LedgerOk(policy, l)
    requires var (r, confirmed) := ConfirmAll(l, map[], closings); Settle(r, confirmed).complete
    ensures var (r, confirmed) := ConfirmAll(l, map[], closings); Settle(r, confirmed) == l
  {
    hide Total;
    var (r, confirmed) := ConfirmAll(l, map[], closings);
    ConfirmKeeps(policy, l, map[], closings);
    CleanReading(policy, r, ConfirmedRows(confirmed), Settling);
    hide Settle, LedgerOk, Claimed;
    ConfirmedIsSame(l, map[], closings);
  }

  lemma {:induction false} ConfirmedIsSame(l: Ledger, seen: Confirmed, closings: seq<ClosingRow>)
    ensures ConfirmAll(l, seen, closings).0.complete ==> ConfirmAll(l, seen, closings).0 == l
    decreases |closings|
  {
    if closings != [] {
      var (next, more) := Confirm(l, seen, closings[0]);
      ConfirmedIsSame(next, more, closings[1..]);
    }
  }

  /**
   The reported upper bounds of a complete analysis hold when every transaction satisfies the
   condition: tracked sales stay below the sold upper bound, and every tracked holding below its own.
   */
  lemma UpperBoundsHold(policy: Policy, seeds: seq<Seed>, w: World, epochs: seq<Epoch>, closings: seq<ClosingRow>,
                        end: World)
    requires SeedsOk(policy, seeds) && forall e :: e in epochs ==> BatchOk(e.batch) && BatchSafe(e.batch)
    requires var l0 := Start(policy, seeds, true);
             && Sound(l0, w, Bought(seeds)) && UppersTrue(l0, w)
             && Explains(policy, l0, w, epochs, end, Bought(seeds))
             && RunKeepsUppers(policy, l0, Observed(epochs), Bought(seeds))
    requires Analyze(policy, seeds, true, {}, Observed(epochs), closings).0.complete
    ensures var l := Analyze(policy, seeds, true, {}, Observed(epochs), closings).0;
            && SoldIn(policy, Start(policy, seeds, true), epochs) <= SoldUpper(l, Bought(seeds))
            && forall a :: a in l.nodes ==> Holds(end, a) <= l.nodes[a].upper
  {
    hide Total;
    var l0, total := Start(policy, seeds, true), Bought(seeds);
    var l := Batches(policy, l0, Observed(epochs));
    StartKeeps(policy, seeds, true);
    BatchesKeep(policy, l0, Observed(epochs));
    hide Start, Explains, RunKeepsUppers, Sound, SoldIn;
    AnalysisStaysComplete(policy, l, closings);
    SettledIsSame(policy, l, closings);
    RunUppersHold(policy, l0, w, epochs, end, total);
    ReportedSold(policy, l0, w, epochs, end, total);
    hide Batches, LedgerOk, Claimed;
    NothingSoldYet(policy, seeds);
  }

  lemma AnalysisStaysComplete(policy: Policy, l: Ledger, closings: seq<ClosingRow>)
    requires LedgerOk(policy, l)
    ensures var (r, confirmed) := ConfirmAll(l, map[], closings); Settle(r, confirmed).complete ==> l.complete
  {
    hide Total, Settle, ConfirmAll;
    ConfirmKeeps(policy, l, map[], closings);
    var (r, confirmed) := ConfirmAll(l, map[], closings);
    SettleKeeps(policy, r, confirmed);
    hide LedgerOk, Claimed;
  }

  lemma NothingSoldYet(policy: Policy, seeds: seq<Seed>)
    ensures Start(policy, seeds, true).soldUpper == 0
  {}

  /** Real sales fit beside what is surely held. */
  lemma ReportedSold(policy: Policy, l0: Ledger, w: World, epochs: seq<Epoch>, end: World, total: nat)
    requires forall e :: e in epochs ==> BatchOk(e.batch) && BatchSafe(e.batch)
    requires LedgerOk(policy, l0) && Sound(l0, w, total) && Explains(policy, l0, w, epochs, end, total)
    requires Batches(policy, l0, Observed(epochs)).complete
    ensures SoldIn(policy, l0, epochs) <= total - Total(Batches(policy, l0, Observed(epochs)).nodes, LowerOf)
  {
    hide Total;
    CompleteRunCovered(policy, l0, Observed(epochs));
    ReplaySound(policy, l0, w, epochs, end, total);
    SoldInWorld(policy, l0, w, epochs, end, total);
    hide Explains, Batches, SoldIn;
    TotalDominated(Batches(policy, l0, Observed(epochs)).nodes, LowerOf, end.attributed, Units);
  }

  /**
   After a gap the sold upper bound promises nothing: in every world that may follow it holds
   exactly when it is the whole purchase.
   */
  lemma IncompleteSoldIff(l: Ledger, w: World, total: nat)
    requires !l.complete && WorldOk(w, total)
    ensures (forall end: World :: Unobserved(l, w, end, total) ==> end.sold <= SoldUpper(l, total))
            <==> SoldUpper(l, total) >= total
  {
    var all := World(map[], map[], total);
    AllSold(total);
    assert Unobserved(l, w, all, total);
    forall end: World | Unobserved(l, w, end, total) ensures end.sold <= total {}
  }

  lemma AllSold(total: nat)
    ensures WorldOk(World(map[], map[], total), total)
  {
    var nothing: map<Account, nat> := map[];
    assert Total(nothing, Units) == 0;
  }
}
