/** Concrete runs on which a reported bound is wrong: the conditions of the theorems are needed. */
module PositionCounterexamples {
  import opened Wrappers
  import opened PositionLedger
  import opened PositionInvariants
  import opened PositionSoundness
  import opened PositionUppers
  import opened MapTotals

  const S := Address(1)  // the seed
  const D := Address(2)
  const U := Address(3)
  const V := Address(4)
  const X := Address(5)
  const Y := Address(6)
  const R := Address(7)

  const DefaultPolicy := Policy({}, {}, 32, 2)

  function Moved(source: Account, destination: Account, amount: nat, sale: bool): Leg {
    Leg(source, source, destination, destination, amount, sale)
  }

  function Full(account: Account, before: nat, after: nat): Row {
    Row(account, Some(before), Some(after), true)
  }

  // ---- a sale claimed out of an under-recorded account ----

  // One transaction. D starts with 20 and receives 100 unrelated units before the seed
  // account S pays into it, but it is recorded from its balance before the transaction.
  function HiddenRows(): map<Account, Row> {
    map[
    U := Full(U, 100, 0), S := Full(S, 15, 0), D := Full(D, 20, 10),
    X := Full(X, 0, 25), V := Full(V, 0, 10), Y := Full(Y, 0, 90)]
  }

  function HiddenLegs(): seq<Leg> {
    [
    Moved(U, D, 100, false), Moved(S, D, 5, false), Moved(D, X, 25, false),
    Moved(S, D, 10, false), Moved(D, V, 10, true), Moved(D, Y, 90, false)]
  }

  function HiddenBatch(): Batch {
    Batch(Parsed, HiddenRows(), HiddenLegs())
  }

  // In this world the sale of 10 takes unrelated units only.
  function HiddenMoves(): seq<nat> {
    [0, 5, 0, 10, 0, 5]
  }

  function HiddenWorld(): World {
    World(map[U := 100, S := 15, D := 20], map[S := 15], 0)
  }

  function SeedLedger(): Ledger {
    Ledger(map[S := Node(S, 15, 15, 15, 0)], 0, 0, 0, true, {})
  }

  lemma WorldStep(w: World, legs: seq<Leg>, moves: seq<nat>)
    requires |legs| == |moves| > 0 && Feasible(w, legs[0], moves[0])
    requires FeasibleLegs(WorldLeg(w, legs[0], moves[0]), legs[1..], moves[1..])
    ensures FeasibleLegs(w, legs, moves)
    ensures WorldLegs(w, legs, moves) == WorldLegs(WorldLeg(w, legs[0], moves[0]), legs[1..], moves[1..])
  {}

  lemma HiddenWorldHappens()
    ensures FeasibleLegs(HiddenWorld(), HiddenLegs(), HiddenMoves())
    ensures WorldLegs(HiddenWorld(), HiddenLegs(), HiddenMoves()).sold == 0
  {
    var w0, g, m := HiddenWorld(), HiddenLegs(), HiddenMoves();
    var w1 := WorldLeg(w0, g[0], m[0]);
    var w2 := WorldLeg(w1, g[1], m[1]);
    var w3 := WorldLeg(w2, g[2], m[2]);
    var w4 := WorldLeg(w3, g[3], m[3]);
    var w5 := WorldLeg(w4, g[4], m[4]);
    var w6 := WorldLeg(w5, g[5], m[5]);
    assert w6.sold == 0;
    hide WorldLeg, Feasible;
    WorldStep(w5, g[5..], m[5..]);
    WorldStep(w4, g[4..], m[4..]);
    WorldStep(w3, g[3..], m[3..]);
    WorldStep(w2, g[2..], m[2..]);
    WorldStep(w1, g[1..], m[1..]);
    WorldStep(w0, g, m);
  }

  lemma BalanceTail(b: Balances, legs: seq<Leg>)
    requires legs != []
    ensures MoveBalances(b, legs) == MoveBalances(MoveBalance(b, legs[0]), legs[1..])
  {
    hide MoveBalance;
  }

  function HiddenEnd(): Balances {
    map[U := 0, S := 0, D := 10, X := 25, V := 10, Y := 90]
  }

  function HiddenMiddle(): Balances {
    map[U := 0, S := 10, D := 100, X := 25, V := 0, Y := 0]
  }

  lemma HiddenFirstSteps()
    ensures var b0, g := Before(HiddenRows()), HiddenLegs();
            MoveBalance(MoveBalance(MoveBalance(b0, g[0]), g[1]), g[2]) == HiddenMiddle()
  {
    var g := HiddenLegs();
    var b0: Balances := map[U := 100, S := 15, D := 20, X := 0, V := 0, Y := 0];
    var b1: Balances := map[U := 0, S := 15, D := 120, X := 0, V := 0, Y := 0];
    var b2: Balances := map[U := 0, S := 10, D := 125, X := 0, V := 0, Y := 0];
    assert Before(HiddenRows()) == b0;
    assert MoveBalance(b0, g[0]) == b1;
    assert MoveBalance(b1, g[1]) == b2;
    assert MoveBalance(b2, g[2]) == HiddenMiddle();
    hide MoveBalance, Before;
  }

  lemma HiddenLastSteps()
    ensures var g := HiddenLegs();
            MoveBalance(MoveBalance(MoveBalance(HiddenMiddle(), g[3]), g[4]), g[5]) == HiddenEnd()
  {
    var g := HiddenLegs();
    var b4: Balances := map[U := 0, S := 0, D := 110, X := 25, V := 0, Y := 0];
    var b5: Balances := map[U := 0, S := 0, D := 100, X := 25, V := 10, Y := 0];
    assert MoveBalance(HiddenMiddle(), g[3]) == b4;
    assert MoveBalance(b4, g[4]) == b5;
    assert MoveBalance(b5, g[5]) == HiddenEnd();
    hide MoveBalance;
  }

  lemma HiddenMoved()
    ensures MoveBalances(Before(HiddenRows()), HiddenLegs()) == HiddenEnd()
  {
    HiddenFirstSteps();
    HiddenLastSteps();
    hide MoveBalance, Before, HiddenRows, HiddenEnd, HiddenMiddle;
    var b0, g := Before(HiddenRows()), HiddenLegs();
    var b1 := MoveBalance(b0, g[0]);
    var b2 := MoveBalance(b1, g[1]);
    var b3 := MoveBalance(b2, g[2]);
    var b4 := MoveBalance(b3, g[3]);
    var b5 := MoveBalance(b4, g[4]);
    BalanceTail(b0, g);
    BalanceTail(b1, g[1..]);
    BalanceTail(b2, g[2..]);
    BalanceTail(b3, g[3..]);
    BalanceTail(b4, g[4..]);
    BalanceTail(b5, g[5..]);
    assert MoveBalances(MoveBalance(b5, g[5]), g[6..]) == MoveBalance(b5, g[5]);
    hide MoveBalances;
    assert g[5..][1..] == g[6..] && g[4..][1..] == g[5..] && g[3..][1..] == g[4..] && g[2..][1..] == g[3..]
           && g[1..][1..] == g[2..];
  }

  lemma HiddenReconciles()
    ensures BatchSafe(HiddenBatch()) && BatchOk(HiddenBatch())
  {
    HiddenMoved();
    hide MoveBalances, Before;
    assert RowsOk(HiddenRows()) && AllComplete(HiddenRows());
    forall leg | leg in HiddenLegs() ensures LegInRows(HiddenRows(), leg) {}
  }

  lemma LedgerTail(l: Ledger, rows: map<Account, Row>, legs: seq<Leg>)
    requires RowsOk(rows) && (forall leg :: leg in legs ==> LegInRows(rows, leg)) && legs != []
    ensures Legs(DefaultPolicy, l, rows, legs)
            == Legs(DefaultPolicy, LegStep(DefaultPolicy, l, rows, legs[0]), rows, legs[1..])
  {}

  // The ledger after the second, third, fourth and fifth leg.
  function Found(): Ledger {
    SeedLedger().(nodes := map[S := Node(S, 10, 10, 10, 0), D := Node(D, 25, 5, 5, 1)])
  }
  function Emptied(): Ledger {
    SeedLedger().(nodes := map[S := Node(S, 10, 10, 10, 0), D := Node(D, 0, 0, 0, 1),
                                            X := Node(X, 25, 5, 5, 2)])
  }
  function Refilled(): Ledger {
    SeedLedger().(nodes := map[S := Node(S, 0, 0, 0, 0), D := Node(D, 10, 10, 10, 1),
                                             X := Node(X, 25, 5, 5, 2)])
  }
  function Claimed10(): Ledger {
    Ledger(map[S := Node(S, 0, 0, 0, 0), D := Node(D, 0, 0, 0, 1),
                                X := Node(X, 25, 5, 5, 2)], 10, 10, 10, true, {})
  }

  lemma HiddenRowsOk()
    ensures RowsOk(HiddenRows()) && (forall leg :: leg in HiddenLegs() ==> LegInRows(HiddenRows(), leg))
    ensures AllComplete(HiddenRows())
  {}

  lemma HiddenFirstLegs()
    requires RowsOk(HiddenRows()) && forall leg :: leg in HiddenLegs() ==> LegInRows(HiddenRows(), leg)
    ensures LegStep(DefaultPolicy, SeedLedger(), HiddenRows(), HiddenLegs()[0]) == SeedLedger()
    ensures LegStep(DefaultPolicy, SeedLedger(), HiddenRows(), HiddenLegs()[1]) == Found()
  {}

  lemma HiddenMiddleLegs()
    requires RowsOk(HiddenRows()) && forall leg :: leg in HiddenLegs() ==> LegInRows(HiddenRows(), leg)
    ensures LegStep(DefaultPolicy, Found(), HiddenRows(), HiddenLegs()[2]) == Emptied()
    ensures LegStep(DefaultPolicy, Emptied(), HiddenRows(), HiddenLegs()[3]) == Refilled()
  {
    var out := HiddenLegs()[2];
    var (debited, lower, upper) := Debit(Found(), out, true);
    assert lower == 5 && upper == 5;
    assert debited.nodes == map[S := Node(S, 10, 10, 10, 0), D := Node(D, 0, 0, 0, 1)];
    var found := Discover(DefaultPolicy, debited, HiddenRows(), out);
    assert |debited.nodes| == 2;
    assert Credit(found, out, true, lower, upper).nodes == Emptied().nodes;
    hide Debit, Discover, Credit;
    assert LegStep(DefaultPolicy, Found(), HiddenRows(), out).nodes == Emptied().nodes;
    HiddenRefill(HiddenRows());
  }

  lemma HiddenRefill(rows: map<Account, Row>)
    requires RowsOk(rows) && S in rows && D in rows && LegInRows(rows, Moved(S, D, 10, false))
    requires rows[S].complete && rows[D].complete
    ensures LegStep(DefaultPolicy, Emptied(), rows, Moved(S, D, 10, false)) == Refilled()
  {
    var leg := Moved(S, D, 10, false);
    var e := Emptied();
    assert S in e.nodes && e.nodes[S] == Node(S, 10, 10, 10, 0) && D in e.nodes && e.nodes[D] == Node(D, 0, 0, 0, 1);
    assert Refilled() == e.(nodes := e.nodes[S := Node(S, 0, 0, 0, 0)][D := Node(D, 10, 10, 10, 1)]);
    hide Emptied, Refilled;
  }

  lemma HiddenLastLegs()
    requires RowsOk(HiddenRows()) && forall leg :: leg in HiddenLegs() ==> LegInRows(HiddenRows(), leg)
    ensures LegStep(DefaultPolicy, Refilled(), HiddenRows(), HiddenLegs()[4]) == Claimed10()
    ensures var r := LegStep(DefaultPolicy, Claimed10(), HiddenRows(), HiddenLegs()[5]);
            r.soldLower == 10 && !r.complete
  {}

  lemma HiddenLedger()
    ensures RowsOk(HiddenRows()) && forall leg :: leg in HiddenLegs() ==> LegInRows(HiddenRows(), leg)
    ensures Legs(DefaultPolicy, SeedLedger(), HiddenRows(), HiddenLegs()).soldLower == 10
    ensures !Legs(DefaultPolicy, SeedLedger(), HiddenRows(), HiddenLegs()).complete
  {
    var p, rows, g := DefaultPolicy, HiddenRows(), HiddenLegs();
    HiddenRowsOk(); HiddenFirstLegs(); HiddenMiddleLegs(); HiddenLastLegs();
    hide LegStep;
    var last := LegStep(p, Claimed10(), rows, g[5]);
    assert Legs(p, last, rows, g[6..]) == last;
    LedgerTail(Claimed10(), rows, g[5..]);
    LedgerTail(Refilled(), rows, g[4..]);
    LedgerTail(Emptied(), rows, g[3..]);
    LedgerTail(Found(), rows, g[2..]);
    LedgerTail(SeedLedger(), rows, g[1..]);
    LedgerTail(SeedLedger(), rows, g);
  }

  /**
   Everything the soundness theorem asks for holds except that the claims be covered, and
   the ledger reports 10 units sold in a world where none was.
   */
  lemma SoldCanBeOverclaimed()
    ensures SeedLedger() == Start(DefaultPolicy, [Seed(S, S, 15, 15, 15, 15, true)], true)
    ensures BatchSafe(HiddenBatch()) && Happened(HiddenBatch(), HiddenWorld(), HiddenMoves())
    ensures Sound(SeedLedger(), HiddenWorld(), 15)
    ensures !ClaimsCovered(DefaultPolicy, SeedLedger(), HiddenBatch())
    ensures BatchStep(DefaultPolicy, SeedLedger(), HiddenBatch()).soldLower == 10
    ensures WorldAfter(SeedLedger(), HiddenBatch(), HiddenWorld(), HiddenMoves()).sold == 0
  {
    hide *;
    SeedLedgerStarts();
    HiddenReconciles(); HiddenHappens(); HiddenSound(); HiddenBatchStep();
    OverclaimIsUncovered(DefaultPolicy, SeedLedger(), HiddenBatch(), HiddenWorld(), HiddenMoves(), 15);
  }

  lemma HiddenHappens()
    requires BatchSafe(HiddenBatch())
    ensures Happened(HiddenBatch(), HiddenWorld(), HiddenMoves())
    ensures WorldAfter(SeedLedger(), HiddenBatch(), HiddenWorld(), HiddenMoves()).sold == 0
  {
    HiddenWorldHappens();
    hide FeasibleLegs, WorldLegs, HiddenLegs, HiddenMoves;
    assert forall a :: a in HiddenRows() ==> HiddenRows()[a].before.value == Has(HiddenWorld().balance, a);
    assert HiddenBatch().rows == HiddenRows() && HiddenBatch().legs == HiddenLegs();
  }

  lemma OverclaimIsUncovered(policy: Policy, l: Ledger, b: Batch, w: World, moves: seq<nat>, total: nat)
    requires BatchSafe(b) && LedgerOk(policy, l) && Sound(l, w, total) && (l.complete ==> Happened(b, w, moves))
    requires BatchStep(policy, l, b).soldLower > WorldAfter(l, b, w, moves).sold
    ensures !ClaimsCovered(policy, l, b)
  {
    hide BatchStep, WorldAfter, LedgerOk, Happened, WorldOk;
    if ClaimsCovered(policy, l, b) {
      BatchSound(policy, l, b, w, moves, total);
    }
  }

  lemma SeedLedgerStarts()
    ensures SeedLedger() == Start(DefaultPolicy, [Seed(S, S, 15, 15, 15, 15, true)], true)
  {
    var seed := Seed(S, S, 15, 15, 15, 15, true);
    assert SeedNodes([]) == map[];
    assert [seed][..0] == [] && [seed][..1] == [seed];
    assert SeedNodes([seed]) == SeedNodes([])[S := Node(S, 15, 15, 15, 0)];
  }

  lemma HiddenSound()
    ensures Sound(SeedLedger(), HiddenWorld(), 15) && LedgerOk(DefaultPolicy, SeedLedger())
  {
    var none: map<Account, nat> := map[];
    TotalPut(none, Units, S, 15);
    assert none[S := 15] == HiddenWorld().attributed;
    assert none - {S} == none;
  }

  lemma HiddenBatchStep()
    requires BatchOk(HiddenBatch())
    ensures BatchStep(DefaultPolicy, SeedLedger(), HiddenBatch()).soldLower == 10
  {
    HiddenLedger();
    hide Legs;
    assert Admit(SeedLedger(), HiddenBatch()) == SeedLedger();
    assert Revealed(SeedLedger(), HiddenRows(), Opening) == {};
    assert ReadRows(SeedLedger(), HiddenRows(), Opening).nodes == SeedLedger().nodes;
  }

  // ---- units that come back ----

  // Depth 0: the receiver R is never tracked. It pays the 10 units back, then they are sold.
  const ShallowPolicy := Policy({}, {}, 32, 0)

  function ReturnRows(): map<Account, Row> {
    map[S := Full(S, 10, 0), R := Full(R, 0, 0), V := Full(V, 0, 10)]
  }

  function ReturnLegs(): seq<Leg> {
    [Moved(S, R, 10, false), Moved(R, S, 10, false), Moved(S, V, 10, true)]
  }

  function ReturnWorld(): World {
    World(map[S := 10], map[S := 10], 0)
  }

  function TenLedger(): Ledger {
    Ledger(map[S := Node(S, 10, 10, 10, 0)], 0, 0, 0, true, {})
  }

  function Away(): Ledger {
    TenLedger().(nodes := map[S := Node(S, 0, 0, 0, 0)], issues := {DepthLimit})
  }
  function Back(): Ledger {
    TenLedger().(nodes := map[S := Node(S, 10, 0, 0, 0)], issues := {DepthLimit})
  }

  lemma ReturnLedger()
    ensures RowsOk(ReturnRows()) && (forall leg :: leg in ReturnLegs() ==> LegInRows(ReturnRows(), leg))
    ensures LegStep(ShallowPolicy, TenLedger(), ReturnRows(), ReturnLegs()[0]) == Away()
    ensures LegStep(ShallowPolicy, Away(), ReturnRows(), ReturnLegs()[1]) == Back()
    ensures var r := LegStep(ShallowPolicy, Back(), ReturnRows(), ReturnLegs()[2]);
            r.complete && r.soldUpper == 0 && r.nodes.Keys == {S}
  {}

  function ReturnMoves(): seq<nat> {
    [10, 10, 10]
  }

  function ReturnBatch(): Batch {
    Batch(Parsed, ReturnRows(), ReturnLegs())
  }

  function ReturnSeeds(): seq<Seed> {
    [Seed(S, S, 10, 10, 10, 10, true)]
  }

  function Ended(): Ledger {
    TenLedger().(nodes := map[S := Node(S, 0, 0, 0, 0)], soldLower := 0, soldUpper := 0, observedSale := 10,
                 issues := {DepthLimit})
  }

  lemma ReturnLegsEnd()
    ensures RowsOk(ReturnRows()) && (forall leg :: leg in ReturnLegs() ==> LegInRows(ReturnRows(), leg))
    ensures FeasibleLegs(ReturnWorld(), ReturnLegs(), ReturnMoves())
    ensures Legs(ShallowPolicy, TenLedger(), ReturnRows(), ReturnLegs()) == Ended()
    ensures SoldOver(ShallowPolicy, TenLedger(), ReturnRows(), ReturnLegs(), ReturnMoves()) == 10
    ensures ReturnedOver(ShallowPolicy, TenLedger(), ReturnRows(), ReturnLegs(), ReturnWorld(), ReturnMoves()) == 10
  {
    var p, rows, g, m := ShallowPolicy, ReturnRows(), ReturnLegs(), ReturnMoves();
    ReturnLedger();
    var l3 := LegStep(p, Back(), rows, g[2]);
    assert l3.nodes == Ended().nodes;
    assert l3 == Ended();
    var w1 := WorldLeg(ReturnWorld(), g[0], 10);
    var w2 := WorldLeg(w1, g[1], 10);
    var w3 := WorldLeg(w2, g[2], 10);
    hide LegStep, WorldLeg, Feasible, Ended;
    assert g[2..][1..] == [] && g[1..][1..] == g[2..] && m[2..][1..] == [] && m[1..][1..] == m[2..];
    assert Legs(p, l3, rows, []) == l3 && Legs(p, Back(), rows, g[2..]) == l3;
    assert Legs(p, Away(), rows, g[1..]) == l3;
    assert FeasibleLegs(w2, g[2..], m[2..]);
    assert FeasibleLegs(w1, g[1..], m[1..]);
    assert SoldOver(p, Back(), rows, g[2..], m[2..]) == 10;
    assert SoldOver(p, Away(), rows, g[1..], m[1..]) == 10;
    assert ReturnedOver(p, Back(), rows, g[2..], w2, m[2..]) == 0;
    assert ReturnedOver(p, Away(), rows, g[1..], w1, m[1..]) == 10;
  }

  lemma ReturnMoved()
    ensures MoveBalances(Before(ReturnRows()), ReturnLegs()) == map[S := 0, R := 0, V := 10]
  {
    ReturnMovedSteps();
    var g := ReturnLegs();
    var b0 := Before(ReturnRows());
    assert |g| == 3 && g[1..][1..] == g[2..] && g[2..][1..] == [];
    hide MoveBalance, Before, ReturnRows, ReturnLegs;
    var b1 := MoveBalance(b0, g[0]);
    var b2 := MoveBalance(b1, g[1]);
    BalanceTail(b0, g);
    BalanceTail(b1, g[1..]);
    BalanceTail(b2, g[2..]);
    assert MoveBalances(MoveBalance(b2, g[2]), []) == MoveBalance(b2, g[2]);
    hide MoveBalances;
  }

  lemma ReturnMovedSteps()
    ensures var b0, g := Before(ReturnRows()), ReturnLegs();
            MoveBalance(MoveBalance(MoveBalance(b0, g[0]), g[1]), g[2]) == map[S := 0, R := 0, V := 10]
  {
    var g := ReturnLegs();
    var b0: Balances := map[S := 10, R := 0, V := 0];
    var b1: Balances := map[S := 0, R := 10, V := 0];
    assert Before(ReturnRows()) == b0;
    assert MoveBalance(b0, g[0]) == b1;
    assert MoveBalance(b1, g[1]) == b0;
    assert MoveBalance(b0, g[2]) == map[S := 0, R := 0, V := 10];
    hide MoveBalance, Before;
  }

  lemma ReturnReconciles()
    ensures BatchSafe(ReturnBatch()) && BatchOk(ReturnBatch())
  {
    ReturnMoved();
    hide MoveBalances, Before, MoveBalance;
    assert RowsOk(ReturnRows()) && AllComplete(ReturnRows());
    forall leg | leg in ReturnLegs() ensures LegInRows(ReturnRows(), leg) {}
  }

  lemma ReturnStarts()
    ensures TenLedger() == Start(ShallowPolicy, ReturnSeeds(), true) && SeedsOk(ShallowPolicy, ReturnSeeds())
    ensures Bought(ReturnSeeds()) == 10
  {
    var seed := ReturnSeeds()[0];
    assert SeedNodes([]) == map[];
    assert [seed][..0] == [] && [seed][..1] == [seed];
    assert SeedNodes([seed]) == SeedNodes([])[S := Node(S, 10, 10, 10, 0)];
    assert Bought([seed]) == Bought([]) + 10;
  }

  lemma ReturnSound()
    ensures Sound(TenLedger(), ReturnWorld(), 10) && UppersTrue(TenLedger(), ReturnWorld())
    ensures Total(Ended().nodes, LowerOf) == 0
  {
    var none: map<Account, nat> := map[];
    TotalPut(none, Units, S, 10);
    assert none[S := 10] == ReturnWorld().attributed;
    assert none - {S} == none;
    var nobody: map<Account, Node> := map[];
    TotalPut(nobody, LowerOf, S, Node(S, 0, 0, 0, 0));
    assert nobody - {S} == nobody;
  }

  lemma ReturnBatchStep()
    requires BatchOk(ReturnBatch())
    ensures BatchStep(ShallowPolicy, TenLedger(), ReturnBatch()) == Ended()
  {
    ReturnLegsEnd();
    ReturnReadings();
    hide Legs, ReadRows, ReturnLegs, Ended, TenLedger;
  }

  lemma ReturnReadings()
    ensures Admit(TenLedger(), ReturnBatch()) == TenLedger()
    ensures ReadRows(TenLedger(), ReturnRows(), Opening) == TenLedger()
    ensures ReadRows(Ended(), ReturnRows(), Closing) == Ended()
  {
    assert Revealed(TenLedger(), ReturnRows(), Opening) == {};
    assert ReadRows(TenLedger(), ReturnRows(), Opening).nodes == TenLedger().nodes;
    assert Revealed(Ended(), ReturnRows(), Closing) == {};
    assert ReadRows(Ended(), ReturnRows(), Closing).nodes == Ended().nodes;
  }

  lemma ReturnHappens()
    requires BatchOk(ReturnBatch()) && FeasibleLegs(ReturnWorld(), ReturnLegs(), ReturnMoves())
    ensures Happened(ReturnBatch(), ReturnWorld(), ReturnMoves())
  {
    hide FeasibleLegs, ReturnLegs, ReturnMoves;
    assert forall a :: a in ReturnRows() ==> ReturnRows()[a].before.value == Has(ReturnWorld().balance, a);
  }

  /** A complete analysis of one transaction in a world where it sells `sold` units against the bound `upper`. */
  ghost predicate Sells(policy: Policy, seeds: seq<Seed>, epoch: Epoch, sold: nat, upper: int) {
    && SeedsOk(policy, seeds) && BatchOk(epoch.batch) && BatchSafe(epoch.batch)
    && var l0, total := Start(policy, seeds, true), Bought(seeds);
       && Happened(epoch.batch, epoch.start, epoch.moves)
       && Sound(l0, epoch.start, total) && UppersTrue(l0, epoch.start)
       && Explains(policy, l0, epoch.start, [epoch], WorldAfter(l0, epoch.batch, epoch.start, epoch.moves), total)
       && var l := Analyze(policy, seeds, true, {}, Observed([epoch]), []).0;
          l.complete && SoldIn(policy, l0, [epoch]) == sold && SoldUpper(l, total) == upper
  }

  lemma {:induction false} WorldLegsOk(w: World, legs: seq<Leg>, moves: seq<nat>, total: nat)
    requires WorldOk(w, total) && FeasibleLegs(w, legs, moves)
    ensures WorldOk(WorldLegs(w, legs, moves), total) && w.sold <= WorldLegs(w, legs, moves).sold
    decreases |legs|
  {
    hide WorldOk;
    if legs != [] {
      WorldLegOk(w, legs[0], moves[0], total);
      SoldStays(w, legs[0], moves[0]);
      hide WorldLeg, Feasible;
      WorldLegsOk(WorldLeg(w, legs[0], moves[0]), legs[1..], moves[1..], total);
    }
  }

  /** One parsed transaction is a whole run. */
  lemma OneTransaction(policy: Policy, seeds: seq<Seed>, epoch: Epoch, r: Ledger, sold: nat)
    requires SeedsOk(policy, seeds) && BatchOk(epoch.batch) && BatchSafe(epoch.batch) && epoch.batch.status == Parsed
    requires Happened(epoch.batch, epoch.start, epoch.moves)
    requires var l0 := Start(policy, seeds, true);
             && l0.complete && Sound(l0, epoch.start, Bought(seeds)) && UppersTrue(l0, epoch.start)
             && BatchStep(policy, l0, epoch.batch) == r && r.complete
             && SoldOver(policy, l0, epoch.batch.rows, epoch.batch.legs, epoch.moves) == sold
    ensures Sells(policy, seeds, epoch, sold, SoldUpper(r, Bought(seeds)))
  {
    hide Start, BatchStep, SoldOver, SoldUpper, Bought, UppersTrue, Bounded, SeedsOk, BatchOk, BatchSafe;
    var l0, total := Start(policy, seeds, true), Bought(seeds);
    assert |epoch.moves| == |epoch.batch.legs|;
    WorldLegsOk(epoch.start, epoch.batch.legs, epoch.moves, total);
    hide WorldOk, WorldLegs, FeasibleLegs;
    assert [epoch][1..] == [] && Observed([epoch]) == [epoch.batch] && [epoch.batch][1..] == [];
    assert Batches(policy, l0, [epoch.batch]) == Batches(policy, r, []) == r;
    NoClosings(policy, seeds, [epoch.batch]);
    assert SoldIn(policy, r, []) == 0;
    assert Explains(policy, r, WorldAfter(l0, epoch.batch, epoch.start, epoch.moves), [],
                    WorldAfter(l0, epoch.batch, epoch.start, epoch.moves), total);
  }

  /** Without closing rows the analysis ends with the replay. */
  lemma NoClosings(policy: Policy, seeds: seq<Seed>, bs: seq<Batch>)
    requires forall b :: b in bs ==> BatchOk(b)
    ensures Analyze(policy, seeds, true, {}, bs, []).0 == Batches(policy, Start(policy, seeds, true), bs)
  {
    hide Batches, Start;
    var l := Batches(policy, Start(policy, seeds, true), bs);
    assert ReadRows(l, map[], Settling).nodes == l.nodes && Revealed(l, map[], Settling) == {};
  }

  lemma NothingReported()
    ensures SoldUpper(Ended(), 10) == 0
  {
    ReturnSound();
    hide Total;
  }

  function ReturnEpoch(): Epoch {
    Epoch(ReturnBatch(), ReturnWorld(), ReturnMoves())
  }

  /** Under the condition on its transactions the analysis sells no more than its bound. */
  lemma SellsWithin(policy: Policy, seeds: seq<Seed>, epoch: Epoch, sold: nat, upper: int)
    requires Sells(policy, seeds, epoch, sold, upper)
    requires RunKeepsUppers(policy, Start(policy, seeds, true), Observed([epoch]), Bought(seeds))
    ensures sold <= upper
  {
    hide SoldUpper, SoldIn, UppersTrue, Sound, SeedsOk, BatchOk, BatchSafe, Explains, RunKeepsUppers, Batches, Start;
    var l0 := Start(policy, seeds, true);
    var end := WorldAfter(l0, epoch.batch, epoch.start, epoch.moves);
    UpperBoundsHold(policy, seeds, epoch.start, [epoch], [], end);
  }

  lemma SellsEntered(policy: Policy, seeds: seq<Seed>, epoch: Epoch, sold: nat, upper: int)
    requires Sells(policy, seeds, epoch, sold, upper) && sold > upper
    ensures !RunKeepsUppers(policy, Start(policy, seeds, true), Observed([epoch]), Bought(seeds))
  {
    assert forall b :: b in Observed([epoch]) ==> BatchOk(b);
    hide *;
    if RunKeepsUppers(policy, Start(policy, seeds, true), Observed([epoch]), Bought(seeds)) {
      SellsWithin(policy, seeds, epoch, sold, upper);
    }
  }

  /**
   A whole analysis that meets every condition of `UpperBoundsHold` except the one on its
   transactions: all 10 purchased units are sold in the open, and the reported upper bound on
   sales is zero.
   */
  lemma SoldUpperIgnoresReturns()
    ensures Sells(ShallowPolicy, ReturnSeeds(), ReturnEpoch(), 10, 0) && BatchOk(ReturnEpoch().batch)
    ensures !RunKeepsUppers(ShallowPolicy, Start(ShallowPolicy, ReturnSeeds(), true), Observed([ReturnEpoch()]),
                            Bought(ReturnSeeds()))
  {
    var epoch := ReturnEpoch();
    assert epoch == Epoch(ReturnBatch(), ReturnWorld(), ReturnMoves());
    assert ReturnBatch() == Batch(Parsed, ReturnRows(), ReturnLegs()) && Ended().complete && TenLedger().complete;
    hide *;
    ReturnReconciles(); ReturnStarts(); ReturnSound(); ReturnLegsEnd(); ReturnHappens();
    ReturnBatchStep(); NothingReported();
    OneTransaction(ShallowPolicy, ReturnSeeds(), epoch, Ended(), 10);
    SellsEntered(ShallowPolicy, ReturnSeeds(), epoch, 10, 0);
  }
}
