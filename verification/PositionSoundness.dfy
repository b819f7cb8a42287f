/** Soundness of the replay against every way in which the fungible units can really have moved. */
module PositionSoundness {
  // A world says how many units of the frozen purchase each account really holds and how many were
  // really sold. Nothing fixes which units a transfer takes out of a mixed balance: any number
  // allowed by the sender's contents may move, and every theorem here is for all of them. Activity
  // that the replay does not see may change anything outside the tracked accounts and, once the
  // ledger is incomplete, everything.

  import opened Wrappers
  import opened PositionLedger
  import opened PositionInvariants
  import opened MapTotals

  type Balances = map<Account, int>

  datatype World = World(balance: Balances, attributed: map<Account, nat>, sold: nat)

  function Has(b: Balances, a: Account): int { if a in b then b[a] else 0 }

  function Holds(w: World, a: Account): nat { if a in w.attributed then w.attributed[a] else 0 }

  ghost predicate WorldOk(w: World, total: nat) {
    && (forall a :: Holds(w, a) <= Has(w.balance, a))
    && Total(w.attributed, Units) + w.sold <= total
  }

  // ---- one leg in the world ----

  /** Of `amount` units taken from `balance`, `held` of them attributed, `moved` may be attributed. */
  predicate MayMove(amount: nat, balance: int, held: nat, moved: nat) {
    moved <= amount && moved <= held && amount - moved <= balance - held
  }

  /** Sender contents are all that limits how many attributed units leave with a leg. */
  predicate Feasible(w: World, leg: Leg, moved: nat) {
    if MovesNothing(leg) then moved == 0
    else MayMove(leg.amount, Has(w.balance, leg.source), Holds(w, leg.source), moved)
  }

  function MoveBalance(b: Balances, leg: Leg): Balances {
    if MovesNothing(leg) then b
    else b[leg.source := Has(b, leg.source) - leg.amount][leg.destination := Has(b, leg.destination) + leg.amount]
  }

  function MoveUnits(w: World, leg: Leg, moved: nat): map<Account, nat>
    requires Feasible(w, leg, moved)
  {
    if MovesNothing(leg) then w.attributed
    else
      var left := w.attributed[leg.source := Holds(w, leg.source) - moved];
      if leg.verifiedSale then left else left[leg.destination := Holds(w, leg.destination) + moved]
  }

  function WorldLeg(w: World, leg: Leg, moved: nat): World
    requires Feasible(w, leg, moved)
  {
    World(MoveBalance(w.balance, leg), MoveUnits(w, leg, moved), w.sold + if leg.verifiedSale then moved else 0)
  }

  lemma HoldsPut(m: map<Account, nat>, a: Account, n: nat)
    ensures Total(m[a := n], Units) == Total(m, Units) - (if a in m then m[a] else 0) + n
  {
    hide Total;
    TotalPut(m, Units, a, n);
  }

  lemma WorldLegOk(w: World, leg: Leg, moved: nat, total: nat)
    requires WorldOk(w, total) && Feasible(w, leg, moved)
    ensures WorldOk(WorldLeg(w, leg, moved), total)
  {
    hide Total;
    if !MovesNothing(leg) {
      HoldsPut(w.attributed, leg.source, Holds(w, leg.source) - moved);
      var left := w.attributed[leg.source := Holds(w, leg.source) - moved];
      HoldsPut(left, leg.destination, Holds(w, leg.destination) + moved);
      var r := WorldLeg(w, leg, moved);
      forall a ensures Holds(r, a) <= Has(r.balance, a) {
        assert Holds(w, a) <= Has(w.balance, a);
      }
    }
  }

  predicate FeasibleLegs(w: World, legs: seq<Leg>, moves: seq<nat>)
    decreases |legs|
  {
    && |moves| == |legs|
    && (legs != [] ==>
        Feasible(w, legs[0], moves[0])
        && FeasibleLegs(WorldLeg(w, legs[0], moves[0]), legs[1..], moves[1..]))
  }

  function WorldLegs(w: World, legs: seq<Leg>, moves: seq<nat>): World
    requires FeasibleLegs(w, legs, moves)
    decreases |legs|
  {
    if legs == [] then w else WorldLegs(WorldLeg(w, legs[0], moves[0]), legs[1..], moves[1..])
  }

  function MoveBalances(b: Balances, legs: seq<Leg>): Balances
    decreases |legs|
  {
    if legs == [] then b else MoveBalances(MoveBalance(b, legs[0]), legs[1..])
  }

  // ---- lower bounds ----

  ghost predicate Bounded(l: Ledger, w: World) {
    && (forall a :: a in l.nodes ==> l.nodes[a].lower <= Holds(w, a))
    && l.soldLower <= w.sold
  }

  /** A leg claims units as certain. */
  predicate Claims(l: Ledger, leg: Leg) {
    && !MovesNothing(leg) && TracksSender(l, leg)
    && leg.amount <= l.nodes[leg.source].balance
    && Guaranteed(leg.amount, l.nodes[leg.source].balance, l.nodes[leg.source].lower) > 0
  }

  /** The claim is passed on: it counts as sold, or a tracked account receives it. */
  predicate PassesOn(policy: Policy, l: Ledger, leg: Leg)
    requires leg.source in l.nodes
  {
    || leg.verifiedSale
    || (!IsService(policy, leg.destination, leg.destinationOwner)
        && (leg.destination in l.nodes
            || (|l.nodes| < policy.maxAccounts && l.nodes[leg.source].depth + 1 <= policy.maxDepth)))
  }

  /** A claim that is passed on is made against a recorded balance that is not below the real one. */
  predicate CoveredLeg(policy: Policy, l: Ledger, leg: Leg, running: Balances) {
    Claims(l, leg) && PassesOn(policy, l, leg) ==> l.nodes[leg.source].balance >= Has(running, leg.source)
  }

  /**
   The debit rule is exactly right: with a recorded balance `recorded`, a real balance `actual`
   and at least `lower` attributed units among them, the claimed amount is certain for every
   attribution if and only if nothing is claimed or the record is not below the real balance.
   */
  lemma ClaimIsCertainIff(amount: nat, recorded: nat, actual: nat, lower: nat)
    requires lower <= recorded && lower <= actual && amount <= recorded && amount <= actual
    ensures (forall held: nat, moved: nat ::
               lower <= held <= actual && MayMove(amount, actual, held, moved)
               ==> Guaranteed(amount, recorded, lower) <= moved)
            <==> (Guaranteed(amount, recorded, lower) == 0 || recorded >= actual)
  {
    if Guaranteed(amount, recorded, lower) > 0 && recorded < actual {
      var moved := Guaranteed(amount, actual, lower);
      assert MayMove(amount, actual, lower, moved);
      assert Guaranteed(amount, recorded, lower) > moved;
    }
  }

  predicate OwnersAgree(l: Ledger, rows: map<Account, Row>) {
    forall a :: a in l.nodes && a in rows ==> l.nodes[a].owner == rows[a].owner
  }

  function Spent(n: Node, amount: nat): Node
    requires amount <= n.balance
  {
    n.(balance := n.balance - amount, lower := Max(0, n.lower - amount), upper := Min(n.upper, n.balance - amount))
  }

  /** The debit of a leg that leaves a complete ledger complete. */
  lemma DebitNodes(policy: Policy, l: Ledger, rows: map<Account, Row>, leg: Leg)
    requires RowsOk(rows) && LegInRows(rows, leg) && AllComplete(rows) && OwnersAgree(l, rows)
    requires !MovesNothing(leg) && LegStep(policy, l, rows, leg).complete
    ensures var (debited, lower, upper) := Debit(l, leg, true);
            var s := leg.source;
            && l.complete && lower == ClaimOf(l, leg)
            && upper == (if s in l.nodes then Min(leg.amount, l.nodes[s].upper) else 0)
            && (s in l.nodes ==> TracksSender(l, leg) && leg.amount <= l.nodes[s].balance)
            && debited == if s in l.nodes then l.(nodes := l.nodes[s := Spent(l.nodes[s], leg.amount)]) else l
  {
    hide ZeroLowers, Guaranteed, IsService;
    assert Valid(rows, leg);
    if leg.source in l.nodes {
      assert TracksSender(l, leg);
      StaysComplete(policy, l, rows, leg);
    }
  }

  lemma StaysComplete(policy: Policy, l: Ledger, rows: map<Account, Row>, leg: Leg)
    requires RowsOk(rows) && LegInRows(rows, leg) && !MovesNothing(leg) && LegStep(policy, l, rows, leg).complete
    ensures l.complete && Debit(l, leg, Valid(rows, leg)).0.complete
    ensures TracksSender(l, leg) ==> leg.amount <= l.nodes[leg.source].balance
  {
    hide ZeroLowers, Guaranteed, IsService;
  }

  /** A leg out of a complete ledger, account by account; an overdrawn record is the gap case. */
  lemma LegNodes(policy: Policy, l: Ledger, rows: map<Account, Row>, leg: Leg)
    requires RowsOk(rows) && LegInRows(rows, leg) && AllComplete(rows) && LedgerOk(policy, l) && OwnersAgree(l, rows)
    requires !MovesNothing(leg) && LegStep(policy, l, rows, leg).complete
    ensures var r, s, d := LegStep(policy, l, rows, leg), leg.source, leg.destination;
            var claim := ClaimOf(l, leg);
            var stays := leg.verifiedSale || IsService(policy, d, leg.destinationOwner);
            var share := if s in l.nodes then Min(leg.amount, l.nodes[s].upper) else 0;
            && l.complete && OwnersAgree(r, rows)
            && r.soldLower == l.soldLower + (if leg.verifiedSale then claim else 0)
            && r.soldUpper == l.soldUpper + (if leg.verifiedSale then share else 0)
            && r.nodes.Keys <= l.nodes.Keys + {d}
            && (forall a :: a in l.nodes && a != s && a != d ==> r.nodes[a] == l.nodes[a])
            && (s in l.nodes ==>
                  && TracksSender(l, leg)
                  && r.nodes[s].balance == l.nodes[s].balance - leg.amount
                  && r.nodes[s].lower == Max(0, l.nodes[s].lower - leg.amount)
                  && r.nodes[s].upper == Min(l.nodes[s].upper, l.nodes[s].balance - leg.amount))
            && (d in l.nodes && stays ==> r.nodes[d] == l.nodes[d])
            && (d in l.nodes && !stays ==>
                  && r.nodes[d].balance == l.nodes[d].balance + leg.amount
                  && r.nodes[d].lower == l.nodes[d].lower + claim
                  && r.nodes[d].upper == l.nodes[d].upper + share)
            && (d in r.nodes && d !in l.nodes ==> !stays && r.nodes[d].lower == claim && r.nodes[d].upper == share)
            && (d in l.nodes ==> !IsService(policy, d, leg.destinationOwner))
  {
    hide Debit, ClaimOf, IsService;
    DebitNodes(policy, l, rows, leg);
    DeliveryNodes(policy, l, rows, leg);
    assert Valid(rows, leg);
    if leg.destination in l.nodes {
      NotAService(policy, l, leg.destination);
      assert l.nodes[leg.destination].owner == leg.destinationOwner;
    }
    hide LedgerOk, LegStep, RowsOk, AllComplete;
  }

  /** What the leg does beyond its debit: at most one account changes, by what the debit released. */
  lemma DeliveryNodes(policy: Policy, l: Ledger, rows: map<Account, Row>, leg: Leg)
    requires RowsOk(rows) && LegInRows(rows, leg) && AllComplete(rows) && !MovesNothing(leg)
    ensures var (debited, lower, upper) := Debit(l, leg, true);
            var r, d := LegStep(policy, l, rows, leg), leg.destination;
            var stays := leg.verifiedSale || IsService(policy, d, leg.destinationOwner);
            && r.complete == debited.complete
            && r.soldLower == debited.soldLower + (if leg.verifiedSale then lower else 0)
            && r.soldUpper == debited.soldUpper + (if leg.verifiedSale then upper else 0)
            && r.nodes.Keys <= debited.nodes.Keys + {d}
            && (forall a :: a in debited.nodes && a != d ==> r.nodes[a] == debited.nodes[a])
            && (d in debited.nodes && (stays || debited.nodes[d].owner != leg.destinationOwner)
                ==> r.nodes[d] == debited.nodes[d])
            && (d in debited.nodes && !stays && debited.nodes[d].owner == leg.destinationOwner ==>
                  r.nodes[d] == debited.nodes[d].(balance := debited.nodes[d].balance + leg.amount,
                                                  lower := debited.nodes[d].lower + lower,
                                                      upper := debited.nodes[d].upper + upper))
            && (d in r.nodes && d !in debited.nodes ==>
                  !stays && r.nodes[d].lower == lower && r.nodes[d].upper == upper
                      && r.nodes[d].owner == leg.destinationOwner)
  {
    assert Valid(rows, leg);
    hide Debit, IsService, Discover, Credit, RowsOk, AllComplete;
    var (debited, lower, upper) := Debit(l, leg, true);
    if !leg.verifiedSale && !IsService(policy, leg.destination, leg.destinationOwner) {
      if leg.destination !in debited.nodes && leg.source in debited.nodes && upper > 0 {
        DiscoverNodes(policy, debited, rows, leg);
        CreditNodes(Discover(policy, debited, rows, leg), leg, lower, upper);
      } else {
        CreditNodes(debited, leg, lower, upper);
      }
    }
  }

  lemma DiscoverNodes(policy: Policy, l: Ledger, rows: map<Account, Row>, leg: Leg)
    requires leg.source in l.nodes && leg.destination in rows && rows[leg.destination].before.Some?
    requires leg.destination !in l.nodes
    ensures var r, d := Discover(policy, l, rows, leg), leg.destination;
            && r.complete == l.complete && r.soldLower == l.soldLower && r.soldUpper == l.soldUpper
            && r.nodes.Keys <= l.nodes.Keys + {d}
               && (forall a :: a in l.nodes ==> a in r.nodes && r.nodes[a] == l.nodes[a])
            && (d in r.nodes ==>
                r.nodes[d].lower == 0 && r.nodes[d].upper == 0
                && r.nodes[d].owner == leg.destinationOwner)
  {}

  lemma CreditNodes(l: Ledger, leg: Leg, lower: nat, upper: nat)
    ensures var r, d := Credit(l, leg, true, lower, upper), leg.destination;
            && r.complete == l.complete && r.soldLower == l.soldLower && r.soldUpper == l.soldUpper
            && r.nodes.Keys == l.nodes.Keys && (forall a :: a in l.nodes && a != d ==> r.nodes[a] == l.nodes[a])
            && (d in l.nodes ==>
                  r.nodes[d] == if l.nodes[d].owner != leg.destinationOwner then l.nodes[d]
                                else l.nodes[d].(balance := l.nodes[d].balance + leg.amount,
                                                 lower := l.nodes[d].lower + lower, upper := l.nodes[d].upper + upper))
  {}

  lemma NotAService(policy: Policy, l: Ledger, a: Account)
    requires LedgerOk(policy, l) && a in l.nodes
    ensures !IsService(policy, a, l.nodes[a].owner)
  {
    hide Total;
    assert NodeOk(policy, a, l.nodes[a]);
  }

  function ClaimOf(l: Ledger, leg: Leg): nat {
    if Claims(l, leg) then Guaranteed(leg.amount, l.nodes[leg.source].balance, l.nodes[leg.source].lower) else 0
  }

  lemma ClaimIsMoved(policy: Policy, l: Ledger, leg: Leg, w: World, moved: nat)
    requires !MovesNothing(leg) && Feasible(w, leg, moved) && CoveredLeg(policy, l, leg, w.balance)
    requires leg.source in l.nodes ==> l.nodes[leg.source].lower <= Holds(w, leg.source)
    ensures leg.source in l.nodes && PassesOn(policy, l, leg) ==> ClaimOf(l, leg) <= moved
    ensures leg.source !in l.nodes ==> ClaimOf(l, leg) == 0
  {
    hide PassesOn;
  }

  /** Only a claim that is passed on reaches an account that the leg discovers. */
  lemma FoundWithinLimits(policy: Policy, l: Ledger, rows: map<Account, Row>, leg: Leg)
    requires RowsOk(rows) && LegInRows(rows, leg)
    ensures var r, d := LegStep(policy, l, rows, leg), leg.destination;
            d in r.nodes && d !in l.nodes ==> leg.source in l.nodes && PassesOn(policy, l, leg)
  {
    hide Guaranteed, ZeroLowers;
  }

  /** A share that is passed on to an untracked account makes it tracked. */
  lemma PassedOnIsFound(policy: Policy, l: Ledger, rows: map<Account, Row>, leg: Leg)
    requires RowsOk(rows) && LegInRows(rows, leg) && AllComplete(rows) && LedgerOk(policy, l)
    requires Claims(l, leg) && PassesOn(policy, l, leg) && !leg.verifiedSale
    ensures leg.destination in LegStep(policy, l, rows, leg).nodes
  {
    NodeIsOk(policy, l, leg.source);
    hide LedgerOk, ZeroLowers;
    var (debited, lower, upper) := Debit(l, leg, true);
    assert upper > 0 && |debited.nodes| == |l.nodes| by {
      assert debited.nodes.Keys == l.nodes.Keys;
      assert |debited.nodes| == |debited.nodes.Keys| && |l.nodes| == |l.nodes.Keys|;
    }
    hide IsService, Guaranteed;
    if leg.destination !in l.nodes {
      assert leg.destination in Discover(policy, debited, rows, leg).nodes;
    }
  }

  lemma NodeIsOk(policy: Policy, l: Ledger, a: Account)
    requires LedgerOk(policy, l) && a in l.nodes
    ensures NodeOk(policy, a, l.nodes[a])
  {}

  lemma WorldLegHolds(w: World, leg: Leg, moved: nat, a: Account)
    requires !MovesNothing(leg) && Feasible(w, leg, moved)
    ensures var received := if a == leg.destination && !leg.verifiedSale then moved else 0;
            Holds(WorldLeg(w, leg, moved), a) == Holds(w, a) - (if a == leg.source then moved else 0) + received
    ensures moved <= leg.amount
  {}

  lemma LegSound(policy: Policy, l: Ledger, rows: map<Account, Row>, leg: Leg, w: World, moved: nat)
    requires RowsOk(rows) && LegInRows(rows, leg) && AllComplete(rows) && LedgerOk(policy, l)
    requires Feasible(w, leg, moved)
    requires Bounded(l, w) && CoveredLeg(policy, l, leg, w.balance) && (l.complete ==> OwnersAgree(l, rows))
    ensures var r := LegStep(policy, l, rows, leg);
            Bounded(r, WorldLeg(w, leg, moved)) && (r.complete ==> OwnersAgree(r, rows))
  {
    if MovesNothing(leg) {
      hide LedgerOk, OwnersAgree, Bounded, Debit, Credit, Discover;
    } else {
      LegKeeps(policy, l, rows, leg);
      hide LegStep, Guaranteed, Claims, CoveredLeg, RowsOk;
      SoldStays(w, leg, moved);
      if LegStep(policy, l, rows, leg).complete {
        CompleteLegSound(policy, l, rows, leg, w, moved);
      } else {
        GapSellsNothing(policy, l, rows, leg);
        GapBounded(policy, l, LegStep(policy, l, rows, leg), w, WorldLeg(w, leg, moved));
      }
    }
  }

  lemma SoldStays(w: World, leg: Leg, moved: nat)
    requires Feasible(w, leg, moved)
    ensures w.sold <= WorldLeg(w, leg, moved).sold
  {}

  /** After a gap nothing is claimed, so nothing can be over-claimed. */
  lemma GapBounded(policy: Policy, l: Ledger, r: Ledger, w: World, end: World)
    requires LedgerOk(policy, r) && !r.complete && Bounded(l, w) && w.sold <= end.sold && r.soldLower == l.soldLower
    ensures Bounded(r, end)
  {}

  lemma GapSellsNothing(policy: Policy, l: Ledger, rows: map<Account, Row>, leg: Leg)
    requires RowsOk(rows) && LegInRows(rows, leg) && LedgerOk(policy, l) && !LegStep(policy, l, rows, leg).complete
    ensures LegStep(policy, l, rows, leg).soldLower == l.soldLower
  {
    if !MovesNothing(leg) {
      DebitKeeps(policy, l, leg, Valid(rows, leg));
    }
    hide Debit, LedgerOk, Evolves, IsService, RowsOk;
  }

  lemma CompleteLegSound(policy: Policy, l: Ledger, rows: map<Account, Row>, leg: Leg, w: World, moved: nat)
    requires RowsOk(rows) && LegInRows(rows, leg) && AllComplete(rows) && LedgerOk(policy, l) && Feasible(w, leg, moved)
    requires Bounded(l, w) && CoveredLeg(policy, l, leg, w.balance) && (l.complete ==> OwnersAgree(l, rows))
    requires !MovesNothing(leg) && LegStep(policy, l, rows, leg).complete
    ensures var r := LegStep(policy, l, rows, leg);
            Bounded(r, WorldLeg(w, leg, moved)) && OwnersAgree(r, rows)
  {
    StaysComplete(policy, l, rows, leg);
    hide LegStep, LedgerOk, OwnersAgree, Guaranteed, Claims, IsService, RowsOk;
    var r, end := LegStep(policy, l, rows, leg), WorldLeg(w, leg, moved);
    LegNodes(policy, l, rows, leg);
    ClaimIsMoved(policy, l, leg, w, moved);
    FoundWithinLimits(policy, l, rows, leg);
    assert end.sold == w.sold + if leg.verifiedSale then moved else 0;
    hide WorldLeg, Feasible, CoveredLeg;
    forall a | a in r.nodes ensures r.nodes[a].lower <= Holds(end, a) {
      WorldLegHolds(w, leg, moved, a);
    }
  }

  // ---- the same condition, both ways ----

  /** Every tracked account holds its lower bound and nothing else is held anywhere. */
  ghost function LeastWorld(l: Ledger, running: Balances): World {
    World(running, map a | a in l.nodes :: l.nodes[a].lower, l.soldLower)
  }

  /** The real balances leave room for the lower bounds and for the leg. */
  ghost predicate Roomy(l: Ledger, leg: Leg, running: Balances, total: nat) {
    && Claimed(l) <= total && leg.amount <= Has(running, leg.source)
    && (forall a :: 0 <= Has(running, a)) && forall a :: a in l.nodes ==> l.nodes[a].lower <= Has(running, a)
  }

  lemma LeastIsOk(l: Ledger, leg: Leg, running: Balances, total: nat)
    requires Roomy(l, leg, running, total)
    ensures WorldOk(LeastWorld(l, running), total) && Bounded(l, LeastWorld(l, running))
  {
    hide Total;
    TotalDominated(LeastWorld(l, running).attributed, Units, l.nodes, LowerOf);
  }

  /** The smallest number of attributed units that the leg can take. */
  lemma LeastMoves(l: Ledger, leg: Leg, running: Balances, total: nat) returns (moved: nat)
    requires Roomy(l, leg, running, total) && !MovesNothing(leg) && leg.source in l.nodes
    ensures Feasible(LeastWorld(l, running), leg, moved)
    ensures moved == Guaranteed(leg.amount, Has(running, leg.source), l.nodes[leg.source].lower)
  {
    moved := Guaranteed(leg.amount, Has(running, leg.source), l.nodes[leg.source].lower);
  }

  /** A claim out of an under-recorded balance is false in some world that the bounds allow. */
  lemma UncoveredFails(policy: Policy, l: Ledger, rows: map<Account, Row>, leg: Leg, running: Balances, total: nat)
    returns (moved: nat)
    requires RowsOk(rows) && LegInRows(rows, leg) && AllComplete(rows) && LedgerOk(policy, l) && OwnersAgree(l, rows)
    requires l.complete && Roomy(l, leg, running, total) && !CoveredLeg(policy, l, leg, running)
    ensures Feasible(LeastWorld(l, running), leg, moved)
    ensures !Bounded(LegStep(policy, l, rows, leg), WorldLeg(LeastWorld(l, running), leg, moved))
  {
    var w, r := LeastWorld(l, running), LegStep(policy, l, rows, leg);
    moved := LeastMoves(l, leg, running, total);
    hide LedgerOk, OwnersAgree, Roomy;
    assert moved < ClaimOf(l, leg);
    ClaimKeepsComplete(policy, l, rows, leg);
    LegNodes(policy, l, rows, leg);
    WorldLegHolds(w, leg, moved, leg.destination);
    if !leg.verifiedSale {
      PassedOnIsFound(policy, l, rows, leg);
      hide LegStep, Claims, Guaranteed, WorldLeg, IsService;
      assert r.nodes[leg.destination].lower > Holds(WorldLeg(w, leg, moved), leg.destination);
    }
  }

  lemma ClaimKeepsComplete(policy: Policy, l: Ledger, rows: map<Account, Row>, leg: Leg)
    requires RowsOk(rows) && LegInRows(rows, leg) && l.complete && Claims(l, leg)
    ensures LegStep(policy, l, rows, leg).complete
  {
    hide Guaranteed, IsService, ZeroLowers;
  }

  /**
   One transfer of a complete ledger keeps the bounds true in every world with these balances
   exactly when the claim it passes on, if any, is covered by the recorded balance.
   */
  lemma LegSoundIff(policy: Policy, l: Ledger, rows: map<Account, Row>, leg: Leg, running: Balances, total: nat)
    requires RowsOk(rows) && LegInRows(rows, leg) && AllComplete(rows) && LedgerOk(policy, l) && OwnersAgree(l, rows)
    requires l.complete && Roomy(l, leg, running, total)
    ensures (forall w: World, moved: nat ::
               w.balance == running && WorldOk(w, total) && Bounded(l, w) && Feasible(w, leg, moved)
               ==> Bounded(LegStep(policy, l, rows, leg), WorldLeg(w, leg, moved)))
            <==> CoveredLeg(policy, l, leg, running)
  {
    hide LegStep, WorldLeg, Feasible, LedgerOk, OwnersAgree, RowsOk;
    if CoveredLeg(policy, l, leg, running) {
      forall w: World, moved: nat | w.balance == running && WorldOk(w, total) && Bounded(l, w)
          && Feasible(w, leg, moved)
        ensures Bounded(LegStep(policy, l, rows, leg), WorldLeg(w, leg, moved))
      {
        LegSound(policy, l, rows, leg, w, moved);
      }
    } else {
      hide Bounded, WorldOk, CoveredLeg;
      LeastIsOk(l, leg, running, total);
      var moved := UncoveredFails(policy, l, rows, leg, running, total);
    }
  }

  /**
   While the ledger stays complete, the shortfall of the record against the real balance
   never falls: a discovery sets it, a sale into a tracked vault raises it.
   */
  lemma ShortfallGrows(policy: Policy, l: Ledger, rows: map<Account, Row>, leg: Leg, running: Balances)
    requires RowsOk(rows) && LegInRows(rows, leg) && AllComplete(rows) && LedgerOk(policy, l) && OwnersAgree(l, rows)
    requires l.complete && LegStep(policy, l, rows, leg).complete
    ensures var r := LegStep(policy, l, rows, leg);
            && OwnersAgree(r, rows)
            && (forall a :: a in l.nodes ==>
                  Has(running, a) - l.nodes[a].balance <= Has(MoveBalance(running, leg), a) - r.nodes[a].balance)
            && (forall a :: a in r.nodes && a !in rows ==> a in l.nodes && r.nodes[a] == l.nodes[a])
  {
    if !MovesNothing(leg) {
      LegNodes(policy, l, rows, leg);
      hide LegStep;
    }
  }

  lemma {:induction false} ShortfallGrowsAlong(policy: Policy, l: Ledger, rows: map<Account, Row>, legs: seq<Leg>,
                                               running: Balances)
    requires RowsOk(rows) && AllComplete(rows) && LedgerOk(policy, l) && OwnersAgree(l, rows)
    requires forall leg :: leg in legs ==> LegInRows(rows, leg)
    requires Legs(policy, l, rows, legs).complete
    ensures l.complete
    ensures var r := Legs(policy, l, rows, legs);
            && (forall a :: a in l.nodes ==>
                  Has(running, a) - l.nodes[a].balance <= Has(MoveBalances(running, legs), a) - r.nodes[a].balance)
            && (forall a :: a in r.nodes && a !in rows ==> a in l.nodes && r.nodes[a] == l.nodes[a])
    decreases |legs|
  {
    hide Total;
    if legs != [] {
      var next := LegStep(policy, l, rows, legs[0]);
      LegKeeps(policy, l, rows, legs[0]);
      LegsKeep(policy, next, rows, legs[1..]);
      hide LegStep, MoveBalance;
      assert next.complete;
      ShortfallGrows(policy, l, rows, legs[0], running);
      ShortfallGrowsAlong(policy, next, rows, legs[1..], MoveBalance(running, legs[0]));
    }
  }

  // ---- covered claims over a transaction ----

  predicate CoveredLegs(policy: Policy, l: Ledger, rows: map<Account, Row>, legs: seq<Leg>, running: Balances)
    requires RowsOk(rows) && forall leg :: leg in legs ==> LegInRows(rows, leg)
    decreases |legs|
  {
    legs != [] ==>
      && CoveredLeg(policy, l, legs[0], running)
      && CoveredLegs(policy, LegStep(policy, l, rows, legs[0]), rows, legs[1..], MoveBalance(running, legs[0]))
  }

  /** Along the legs no tracked sender is recorded with less than it really holds. */
  predicate RecordsCover(policy: Policy, l: Ledger, rows: map<Account, Row>, legs: seq<Leg>, running: Balances)
    requires RowsOk(rows) && forall leg :: leg in legs ==> LegInRows(rows, leg)
    decreases |legs|
  {
    legs != [] ==>
      && (legs[0].source in l.nodes ==> l.nodes[legs[0].source].balance >= Has(running, legs[0].source))
      && RecordsCover(policy, LegStep(policy, l, rows, legs[0]), rows, legs[1..], MoveBalance(running, legs[0]))
  }

  /** If every record ends equal to the real balance without a gap, none was ever too low. */
  lemma {:induction false} CompleteCovers(policy: Policy, l: Ledger, rows: map<Account, Row>, legs: seq<Leg>,
                                          running: Balances)
    requires RowsOk(rows) && AllComplete(rows) && LedgerOk(policy, l) && OwnersAgree(l, rows)
    requires forall leg :: leg in legs ==> LegInRows(rows, leg)
    requires Legs(policy, l, rows, legs).complete
    requires var r := Legs(policy, l, rows, legs);
             forall a :: a in r.nodes && a in rows ==> r.nodes[a].balance == Has(MoveBalances(running, legs), a)
    ensures CoveredLegs(policy, l, rows, legs, running) && RecordsCover(policy, l, rows, legs, running)
    decreases |legs|
  {
    hide Total;
    if legs != [] {
      var next := LegStep(policy, l, rows, legs[0]);
      LegKeeps(policy, l, rows, legs[0]);
      LegsKeep(policy, next, rows, legs[1..]);
      ShortfallGrowsAlong(policy, l, rows, legs, running);
      hide LegStep, MoveBalance;
      ShortfallGrows(policy, l, rows, legs[0], running);
      CompleteCovers(policy, next, rows, legs[1..], MoveBalance(running, legs[0]));
    }
  }

  lemma {:induction false} LegsSound(policy: Policy, l: Ledger, rows: map<Account, Row>, legs: seq<Leg>,
                                     running: Balances, w: World, moves: seq<nat>, total: nat)
    requires RowsOk(rows) && AllComplete(rows) && LedgerOk(policy, l)
    requires forall leg :: leg in legs ==> LegInRows(rows, leg)
    requires WorldOk(w, total) && FeasibleLegs(w, legs, moves) && Bounded(l, w)
    requires l.complete ==> OwnersAgree(l, rows)
    requires forall a :: a in rows ==> Has(running, a) == Has(w.balance, a)
    requires CoveredLegs(policy, l, rows, legs, running)
    ensures var end := WorldLegs(w, legs, moves);
            && WorldOk(end, total) && Bounded(Legs(policy, l, rows, legs), end)
            && (forall a :: a in rows ==> Has(MoveBalances(running, legs), a) == Has(end.balance, a))
            && (forall a :: a !in rows ==> Has(end.balance, a) == Has(w.balance, a))
            && w.sold <= end.sold
    decreases |legs|
  {
    hide Total;
    if legs != [] {
      LegKeeps(policy, l, rows, legs[0]);
      WorldLegOk(w, legs[0], moves[0], total);
      LegSound(policy, l, rows, legs[0], w, moves[0]);
      hide LegStep;
      var next := WorldLeg(w, legs[0], moves[0]);
      LegsSound(policy, LegStep(policy, l, rows, legs[0]), rows, legs[1..], MoveBalance(running, legs[0]), next,
                moves[1..], total);
    }
  }

  // ---- one transaction ----

  function Before(rows: map<Account, Row>): Balances {
    map a | a in rows && rows[a].before.Some? :: rows[a].before.value
  }

  /** The snapshots of a parsed transaction add up over its own legs. */
  predicate Reconciled(b: Batch) {
    forall a :: a in b.rows ==>
      b.rows[a].after.Some? && b.rows[a].after.value == Has(MoveBalances(Before(b.rows), b.legs), a)
  }

  predicate BatchSafe(b: Batch) {
    BatchOk(b) && (b.status == Parsed ==> Reconciled(b))
  }

  /** The transaction happened in this world: real balances beforehand, possible unit movements. */
  ghost predicate Happened(b: Batch, w: World, moves: seq<nat>)
    requires BatchOk(b)
  {
    b.status == Parsed ==>
      && (forall a :: a in b.rows ==> b.rows[a].before.value == Has(w.balance, a))
      && FeasibleLegs(w, b.legs, moves)
  }

  /** While nothing is missing the world follows the legs; afterwards it is left unconstrained. */
  ghost function WorldAfter(l: Ledger, b: Batch, w: World, moves: seq<nat>): World
    requires BatchOk(b) && (l.complete ==> Happened(b, w, moves))
  {
    if l.complete && b.status == Parsed then WorldLegs(w, b.legs, moves) else w
  }

  ghost predicate Sound(l: Ledger, w: World, total: nat) {
    && WorldOk(w, total) && Bounded(l, w)
    && (l.complete ==> forall a :: a in l.nodes ==> l.nodes[a].balance == Has(w.balance, a))
  }

  /**
   Every claim that the transaction passes on comes out of an account recorded with at least
   what it really held just then, by the snapshots before the transaction and its own legs.
   */
  predicate ClaimsCovered(policy: Policy, l: Ledger, b: Batch)
    requires BatchOk(b)
  {
    l.complete && b.status == Parsed ==>
        CoveredLegs(policy, ReadRows(l, b.rows, Opening), b.rows, b.legs, Before(b.rows))
  }

  lemma CleanReading(policy: Policy, l: Ledger, rows: map<Account, Row>, read: Reading)
    requires LedgerOk(policy, l) && ReadRows(l, rows, read).complete
    ensures l.complete && ReadRows(l, rows, read) == l
    ensures forall a :: a in l.nodes && a in rows ==> Read(read, l.nodes[a], rows[a]).1.None?
  {
    forall a | a in l.nodes && a in rows
      ensures Read(read, l.nodes[a], rows[a]).1.None?
    {
      GapIsRevealed(l, rows, read, a);
    }
    forall a | a in l.nodes ensures ReadRows(l, rows, read).nodes[a] == l.nodes[a] {
      assert NodeOk(policy, a, l.nodes[a]);
    }
    assert ReadRows(l, rows, read).nodes == l.nodes;
  }

  /** A parsed transaction that leaves the ledger complete reveals nothing at either end. */
  lemma CleanBatch(policy: Policy, l: Ledger, b: Batch)
    requires BatchSafe(b) && b.status == Parsed && LedgerOk(policy, l) && BatchStep(policy, l, b).complete
    ensures l.complete && ReadRows(l, b.rows, Opening) == l && OwnersAgree(l, b.rows)
    ensures var r := Legs(policy, l, b.rows, b.legs);
            && r.complete && BatchStep(policy, l, b) == r
            && forall a :: a in r.nodes && a in b.rows ==> Read(Closing, r.nodes[a], b.rows[a]).1.None?
  {
    hide Reconciled;
    assert Admit(l, b) == l;
    var ready := ReadRows(l, b.rows, Opening);
    ReadKeeps(policy, l, b.rows, Opening);
    var moved := Legs(policy, ready, b.rows, b.legs);
    LegsKeep(policy, ready, b.rows, b.legs);
    hide ReadRows, Legs, LedgerOk, Claimed;
    CleanReading(policy, moved, b.rows, Closing);
    CleanReading(policy, l, b.rows, Opening);
    OpeningOwners(l, b.rows);
  }

  lemma OpeningOwners(l: Ledger, rows: map<Account, Row>)
    requires forall a :: a in l.nodes && a in rows ==> Read(Opening, l.nodes[a], rows[a]).1.None?
    ensures OwnersAgree(l, rows)
  {}

  lemma ClosingBalances(b: Batch, r: Ledger)
    requires BatchSafe(b) && b.status == Parsed
    requires forall a :: a in r.nodes && a in b.rows ==> Read(Closing, r.nodes[a], b.rows[a]).1.None?
    ensures forall a :: a in r.nodes && a in b.rows ==>
              r.nodes[a].balance == Has(MoveBalances(Before(b.rows), b.legs), a)
  {
    hide MoveBalances, Has, Before, BatchOk;
  }

  /** A parsed transaction that leaves the ledger complete had every claim covered. */
  lemma CompleteBatch(policy: Policy, l: Ledger, b: Batch)
    requires BatchSafe(b) && b.status == Parsed && LedgerOk(policy, l)
    requires BatchStep(policy, l, b).complete
    ensures l.complete && ReadRows(l, b.rows, Opening) == l && OwnersAgree(l, b.rows)
    ensures CoveredLegs(policy, l, b.rows, b.legs, Before(b.rows))
    ensures RecordsCover(policy, l, b.rows, b.legs, Before(b.rows))
    ensures var r := BatchStep(policy, l, b);
            && r == Legs(policy, l, b.rows, b.legs)
            && (forall a ::
                a in r.nodes && a in b.rows
                ==> r.nodes[a].balance == Has(MoveBalances(Before(b.rows), b.legs), a))
            && (forall a :: a in r.nodes && a !in b.rows ==> a in l.nodes && r.nodes[a] == l.nodes[a])
  {
    CleanBatch(policy, l, b);
    ClosingBalances(b, Legs(policy, l, b.rows, b.legs));
    hide BatchStep, ReadRows, Legs, LedgerOk, OwnersAgree, Reconciled, Before, MoveBalances, Has, Read, CoveredLegs,
         RecordsCover;
    CompleteCovers(policy, l, b.rows, b.legs, Before(b.rows));
    ShortfallGrowsAlong(policy, l, b.rows, b.legs, Before(b.rows));
  }

  lemma BatchSound(policy: Policy, l: Ledger, b: Batch, w: World, moves: seq<nat>, total: nat)
    requires BatchSafe(b) && LedgerOk(policy, l) && Sound(l, w, total)
    requires l.complete ==> Happened(b, w, moves)
    requires ClaimsCovered(policy, l, b)
    ensures Sound(BatchStep(policy, l, b), WorldAfter(l, b, w, moves), total)
  {
    if l.complete && b.status == Parsed {
      if BatchStep(policy, l, b).complete {
        CompleteBatchSound(policy, l, b, w, moves, total);
      } else {
        GapBatchSound(policy, l, b, w, moves, total);
      }
    } else {
      SilentBatchSound(policy, l, b, w, moves, total);
    }
  }

  /** The batch reads and replays nothing that could be certain. */
  lemma SilentBatchSound(policy: Policy, l: Ledger, b: Batch, w: World, moves: seq<nat>, total: nat)
    requires BatchSafe(b) && LedgerOk(policy, l) && Sound(l, w, total) && (l.complete ==> Happened(b, w, moves))
    requires !(l.complete && b.status == Parsed)
    ensures Sound(BatchStep(policy, l, b), WorldAfter(l, b, w, moves), total)
  {
    hide Total, WorldOk, Reconciled;
    BatchKeeps(policy, l, b);
    if l.complete && b.status == Partial {
      var admitted := Admit(l, b);
      AdmitKeeps(policy, l, b);
      assert !admitted.complete && admitted.soldLower == l.soldLower;
      var ready := ReadRows(admitted, b.rows, Opening);
      ReadKeeps(policy, admitted, b.rows, Opening);
      LegsKeep(policy, ready, b.rows, b.legs);
      ReadKeeps(policy, Legs(policy, ready, b.rows, b.legs), b.rows, Closing);
      hide Legs, ReadRows, Admit, Claimed;
    }
  }

  lemma CompleteBatchSound(policy: Policy, l: Ledger, b: Batch, w: World, moves: seq<nat>, total: nat)
    requires BatchSafe(b) && b.status == Parsed && LedgerOk(policy, l) && l.complete && Sound(l, w, total)
    requires Happened(b, w, moves)
    requires BatchStep(policy, l, b).complete
    ensures Sound(BatchStep(policy, l, b), WorldLegs(w, b.legs, moves), total)
  {
    CompleteBatch(policy, l, b);
    BeforeIsReal(b, w, moves);
    hide BatchStep, ReadRows, Legs, LedgerOk, OwnersAgree, Reconciled, Before, MoveBalances, CoveredLegs, RecordsCover,
         WorldOk, WorldLegs, FeasibleLegs, Bounded;
    LegsSound(policy, l, b.rows, b.legs, Before(b.rows), w, moves, total);
  }

  lemma BeforeIsReal(b: Batch, w: World, moves: seq<nat>)
    requires BatchOk(b) && b.status == Parsed && Happened(b, w, moves)
    ensures forall a :: a in b.rows ==> Has(Before(b.rows), a) == Has(w.balance, a)
    ensures FeasibleLegs(w, b.legs, moves) && AllComplete(b.rows)
  {}

  /** The transaction that raises the first gap: its claims count, and they were covered. */
  lemma GapBatchSound(policy: Policy, l: Ledger, b: Batch, w: World, moves: seq<nat>, total: nat)
    requires BatchSafe(b) && b.status == Parsed && LedgerOk(policy, l) && l.complete && Sound(l, w, total)
    requires Happened(b, w, moves)
    requires ClaimsCovered(policy, l, b) && !BatchStep(policy, l, b).complete
    ensures Sound(BatchStep(policy, l, b), WorldLegs(w, b.legs, moves), total)
  {
    hide Total, Reconciled;
    BeforeIsReal(b, w, moves);
    assert Admit(l, b) == l;
    var ready := ReadRows(l, b.rows, Opening);
    ReadKeeps(policy, l, b.rows, Opening);
    ReadingBounded(policy, l, b.rows, w);
    hide Before, MoveBalances, CoveredLegs, WorldOk, WorldLegs, FeasibleLegs, Happened;
    LegsKeep(policy, ready, b.rows, b.legs);
    var moved, end := Legs(policy, ready, b.rows, b.legs), WorldLegs(w, b.legs, moves);
    hide Legs, Claimed;
    LegsSound(policy, ready, b.rows, b.legs, Before(b.rows), w, moves, total);
    ReadKeeps(policy, moved, b.rows, Closing);
    SameSold(moved, b.rows, Closing);
    hide ReadRows;
  }

  lemma SameSold(l: Ledger, rows: map<Account, Row>, read: Reading)
    ensures ReadRows(l, rows, read).soldLower == l.soldLower
  {}

  /** Reading opening balances claims nothing new. */
  lemma ReadingBounded(policy: Policy, l: Ledger, rows: map<Account, Row>, w: World)
    requires LedgerOk(policy, l) && l.complete && Bounded(l, w)
    ensures var ready := ReadRows(l, rows, Opening);
            Bounded(ready, w) && (ready.complete ==> ready == l && OwnersAgree(ready, rows))
  {
    SameSold(l, rows, Opening);
    ReadKeeps(policy, l, rows, Opening);
    var ready := ReadRows(l, rows, Opening);
    if ready.complete {
      CleanReading(policy, l, rows, Opening);
      OpeningOwners(l, rows);
      hide ReadRows, LedgerOk;
    } else {
      hide ReadRows, Claimed;
    }
  }

  // ---- a whole replay ----

  /** What happened up to and including one observed transaction. */
  datatype Epoch = Epoch(batch: Batch, start: World, moves: seq<nat>)

  /** Unobserved activity: any at all after a gap, and none on tracked accounts before one. */
  ghost predicate Unobserved(l: Ledger, w: World, v: World, total: nat) {
    && WorldOk(v, total) && w.sold <= v.sold
    && (l.complete ==> forall a :: a in l.nodes ==>
          Has(v.balance, a) == Has(w.balance, a) && Holds(v, a) == Holds(w, a))
  }

  ghost predicate Explains(policy: Policy, l: Ledger, w: World, epochs: seq<Epoch>, end: World, total: nat)
    requires forall e :: e in epochs ==> BatchOk(e.batch)
    decreases |epochs|
  {
    if epochs == [] then Unobserved(l, w, end, total)
    else
      var e := epochs[0];
      && Unobserved(l, w, e.start, total)
      && (l.complete ==> Happened(e.batch, e.start, e.moves))
      && Explains(policy, BatchStep(policy, l, e.batch), WorldAfter(l, e.batch, e.start, e.moves), epochs[1..], end,
                  total)
  }

  function Observed(epochs: seq<Epoch>): (bs: seq<Batch>)
    ensures |bs| == |epochs| && forall i :: 0 <= i < |bs| ==> bs[i] == epochs[i].batch
  {
    seq(|epochs|, i requires 0 <= i < |epochs| => epochs[i].batch)
  }

  predicate AllClaimsCovered(policy: Policy, l: Ledger, bs: seq<Batch>)
    requires forall b :: b in bs ==> BatchOk(b)
    decreases |bs|
  {
    bs != [] ==> ClaimsCovered(policy, l, bs[0]) && AllClaimsCovered(policy, BatchStep(policy, l, bs[0]), bs[1..])
  }

  lemma {:induction false} CompleteRunCovered(policy: Policy, l: Ledger, bs: seq<Batch>)
    requires (forall b :: b in bs ==> BatchOk(b) && BatchSafe(b)) && LedgerOk(policy, l)
    requires Batches(policy, l, bs).complete
    ensures AllClaimsCovered(policy, l, bs)
    decreases |bs|
  {
    hide Total;
    if bs != [] {
      BatchKeeps(policy, l, bs[0]);
      BatchesKeep(policy, BatchStep(policy, l, bs[0]), bs[1..]);
      if bs[0].status == Parsed {
        CompleteBatch(policy, l, bs[0]);
      }
      hide BatchStep, LedgerOk, CoveredLegs, Legs, ReadRows;
      CompleteRunCovered(policy, BatchStep(policy, l, bs[0]), bs[1..]);
    }
  }

  lemma {:induction false} ReplaySound(policy: Policy, l: Ledger, w: World, epochs: seq<Epoch>, end: World, total: nat)
    requires forall e :: e in epochs ==> BatchOk(e.batch) && BatchSafe(e.batch)
    requires LedgerOk(policy, l) && Sound(l, w, total)
    requires Explains(policy, l, w, epochs, end, total)
    requires AllClaimsCovered(policy, l, Observed(epochs))
    ensures Sound(Batches(policy, l, Observed(epochs)), end, total)
    decreases |epochs|
  {
    hide Total;
    hide WorldOk;
    if epochs != [] {
      var e := epochs[0];
      assert Observed(epochs)[0] == e.batch;
      assert Observed(epochs)[1..] == Observed(epochs[1..]);
      BatchKeeps(policy, l, e.batch);
      assert Sound(l, e.start, total);
      BatchSound(policy, l, e.batch, e.start, e.moves, total);
      hide BatchStep, ClaimsCovered, Sound, LedgerOk;
      ReplaySound(policy, BatchStep(policy, l, e.batch), WorldAfter(l, e.batch, e.start, e.moves), epochs[1..], end,
                  total);
    }
  }
}
