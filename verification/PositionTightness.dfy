/** The bounds are as good as the evidence allows. */
module PositionTightness {
  // PositionSoundness.dfy shows that the bounds are true in every world. Here worlds are built in
  // which they are reached, so that no better bound would be true.

  import opened Wrappers
  import opened PositionLedger
  import opened PositionInvariants
  import opened PositionSoundness
  import opened PositionBounds
  import opened PositionCompleteness
  import opened PositionUppers
  import opened MapTotals

  // ---- one leg ----

  /** The records are exact and the real balances pay the leg. */
  ghost predicate Exact(l: Ledger, leg: Leg, running: Balances) {
    && (forall a :: 0 <= Has(running, a)) && leg.amount <= Has(running, leg.source)
    && forall a :: a in l.nodes ==> l.nodes[a].balance == Has(running, a)
  }

  /** A world with these balances that the lower bounds allow, and units that may move in it. */
  ghost predicate Allowed(l: Ledger, running: Balances, leg: Leg, w: World, moved: nat, total: nat) {
    w.balance == running && WorldOk(w, total) && Bounded(l, w) && Feasible(w, leg, moved)
  }

  lemma ExactIsCovered(policy: Policy, l: Ledger, rows: map<Account, Row>, leg: Leg, running: Balances, total: nat)
    requires RowsOk(rows) && LegInRows(rows, leg) && LedgerOk(policy, l) && l.complete && Exact(l, leg, running)
    requires Claimed(l) <= total
    ensures Roomy(l, leg, running, total) && CoveredLeg(policy, l, leg, running)
    ensures LegStep(policy, l, rows, leg).complete
  {
    StepCompletes(policy, l, rows, leg);
    hide LegStep, Claimed, PassesOn, Claims;
    forall a | a in l.nodes ensures l.nodes[a].lower <= Has(running, a) {
      NodeIsOk(policy, l, a);
    }
  }

  /** A lower bound reached by moving `moved` units in the world that holds the lower bounds only. */
  lemma Reaches(policy: Policy, l: Ledger, rows: map<Account, Row>, leg: Leg, running: Balances, a: Account)
    returns (moved: nat)
    requires RowsOk(rows) && LegInRows(rows, leg) && AllComplete(rows) && LedgerOk(policy, l) && OwnersAgree(l, rows)
    requires l.complete && Exact(l, leg, running) && LegStep(policy, l, rows, leg).complete && !MovesNothing(leg)
    requires a in LegStep(policy, l, rows, leg).nodes
    ensures Feasible(LeastWorld(l, running), leg, moved)
    ensures Holds(WorldLeg(LeastWorld(l, running), leg, moved), a) == LegStep(policy, l, rows, leg).nodes[a].lower
  {
    var w, s, d := LeastWorld(l, running), leg.source, leg.destination;
    LegNodes(policy, l, rows, leg);
    if s in l.nodes { NodeIsOk(policy, l, s); }
    moved := if s !in l.nodes then 0 else if a == s then Min(leg.amount, l.nodes[s].lower) else ClaimOf(l, leg);
    hide LegStep, LedgerOk, OwnersAgree, RowsOk, IsService;
    WorldLegHolds(w, leg, moved, a);
  }

  /**
   After a leg the lower bound of each tracked account is the largest number that is true of it
   in every world that the bounds before the leg allow.
   */
  lemma LowerIsBest(policy: Policy, l: Ledger, rows: map<Account, Row>, leg: Leg, running: Balances, total: nat,
                    a: Account, n: nat)
    requires RowsOk(rows) && LegInRows(rows, leg) && AllComplete(rows) && LedgerOk(policy, l) && OwnersAgree(l, rows)
    requires l.complete && Exact(l, leg, running) && Claimed(l) <= total && a in LegStep(policy, l, rows, leg).nodes
    ensures (forall w: World, moved: nat :: Allowed(l, running, leg, w, moved, total)
               ==> n <= Holds(WorldLeg(w, leg, moved), a))
            <==> n <= LegStep(policy, l, rows, leg).nodes[a].lower
  {
    var r := LegStep(policy, l, rows, leg);
    ExactIsCovered(policy, l, rows, leg, running, total);
    LeastIsOk(l, leg, running, total);
    var least, moved := LeastWorld(l, running), 0;
    if !MovesNothing(leg) {
      moved := Reaches(policy, l, rows, leg, running, a);
    }
    assert Allowed(l, running, leg, least, moved, total);
    assert Holds(WorldLeg(least, leg, moved), a) == r.nodes[a].lower;
    hide LeastWorld, LegStep, WorldLeg, Feasible, WorldOk, Roomy, Exact, LedgerOk, OwnersAgree, CoveredLeg, Claimed;
    forall w: World, moved: nat | Allowed(l, running, leg, w, moved, total)
      ensures r.nodes[a].lower <= Holds(WorldLeg(w, leg, moved), a)
    {
      LegSound(policy, l, rows, leg, w, moved);
    }
  }

  lemma ReachesSold(policy: Policy, l: Ledger, rows: map<Account, Row>, leg: Leg, running: Balances)
    returns (moved: nat)
    requires RowsOk(rows) && LegInRows(rows, leg) && AllComplete(rows) && LedgerOk(policy, l) && OwnersAgree(l, rows)
    requires l.complete && Exact(l, leg, running) && LegStep(policy, l, rows, leg).complete
    ensures Feasible(LeastWorld(l, running), leg, moved)
    ensures WorldLeg(LeastWorld(l, running), leg, moved).sold == LegStep(policy, l, rows, leg).soldLower
  {
    moved := if MovesNothing(leg) || leg.source !in l.nodes then 0 else ClaimOf(l, leg);
    if !MovesNothing(leg) {
      LegNodes(policy, l, rows, leg);
      if leg.source in l.nodes { NodeIsOk(policy, l, leg.source); }
      hide LegStep, LedgerOk, OwnersAgree, IsService;
    }
  }

  /** And so for what is claimed as sold. */
  lemma SoldLowerIsBest(policy: Policy, l: Ledger, rows: map<Account, Row>, leg: Leg, running: Balances, total: nat,
                        n: nat)
    requires RowsOk(rows) && LegInRows(rows, leg) && AllComplete(rows) && LedgerOk(policy, l) && OwnersAgree(l, rows)
    requires l.complete && Exact(l, leg, running) && Claimed(l) <= total
    ensures (forall w: World, moved: nat :: Allowed(l, running, leg, w, moved, total)
               ==> n <= WorldLeg(w, leg, moved).sold)
            <==> n <= LegStep(policy, l, rows, leg).soldLower
  {
    var r := LegStep(policy, l, rows, leg);
    ExactIsCovered(policy, l, rows, leg, running, total);
    LeastIsOk(l, leg, running, total);
    var least := LeastWorld(l, running);
    var moved := ReachesSold(policy, l, rows, leg, running);
    assert Allowed(l, running, leg, least, moved, total) by { hide LegStep, WorldLeg, LedgerOk; }
    hide LeastWorld, LegStep, WorldLeg, Feasible, WorldOk, Roomy, Exact, LedgerOk, OwnersAgree, CoveredLeg, Claimed,
         ClaimOf;
    forall w: World, moved: nat | Allowed(l, running, leg, w, moved, total)
      ensures r.soldLower <= WorldLeg(w, leg, moved).sold
    {
      LegSound(policy, l, rows, leg, w, moved);
    }
  }

  /** A world for some purchase in which the upper bounds hold as well. */
  ghost predicate Likely(l: Ledger, running: Balances, leg: Leg, w: World, moved: nat, total: nat) {
    Allowed(l, running, leg, w, moved, total) && UppersTrue(l, w)
  }

  /** Every tracked account holds its upper bound and nothing else is held anywhere. */
  ghost function GreatWorld(l: Ledger, running: Balances): World {
    World(running, map a | a in l.nodes :: l.nodes[a].upper, l.soldLower)
  }

  lemma GreatIsOk(policy: Policy, l: Ledger, leg: Leg, running: Balances)
    requires LedgerOk(policy, l) && Exact(l, leg, running)
    ensures var w := GreatWorld(l, running);
            WorldOk(w, Total(w.attributed, Units) + w.sold) && Bounded(l, w) && UppersTrue(l, w)
  {
    hide Total;
    forall a | a in l.nodes ensures l.nodes[a].lower <= l.nodes[a].upper <= Has(running, a) {
      NodeIsOk(policy, l, a);
    }
  }

  lemma GreatReaches(policy: Policy, l: Ledger, rows: map<Account, Row>, leg: Leg, running: Balances, a: Account)
    returns (moved: nat)
    requires RowsOk(rows) && LegInRows(rows, leg) && AllComplete(rows) && LedgerOk(policy, l) && OwnersAgree(l, rows)
    requires l.complete && Exact(l, leg, running) && LegStep(policy, l, rows, leg).complete && !MovesNothing(leg)
    requires a in LegStep(policy, l, rows, leg).nodes
    ensures Feasible(GreatWorld(l, running), leg, moved)
    ensures Holds(WorldLeg(GreatWorld(l, running), leg, moved), a) == LegStep(policy, l, rows, leg).nodes[a].upper
  {
    var w, s, d := GreatWorld(l, running), leg.source, leg.destination;
    LegNodes(policy, l, rows, leg);
    if s in l.nodes { NodeIsOk(policy, l, s); }
    moved := if s !in l.nodes then 0
             else if a == s then Guaranteed(leg.amount, Has(running, s), l.nodes[s].upper)
             else Min(leg.amount, l.nodes[s].upper);
    hide LegStep, LedgerOk, OwnersAgree, RowsOk, IsService;
    WorldLegHolds(w, leg, moved, a);
  }

  /**
   After a leg that brings nothing in from outside, the upper bound of each tracked account is the
   smallest number that is true of it in every world that the bounds before the leg allow.
   */
  lemma UpperIsBest(policy: Policy, l: Ledger, rows: map<Account, Row>, leg: Leg, running: Balances, a: Account,
                    n: nat)
    requires RowsOk(rows) && LegInRows(rows, leg) && AllComplete(rows) && LedgerOk(policy, l) && OwnersAgree(l, rows)
    requires l.complete && Exact(l, leg, running) && a in LegStep(policy, l, rows, leg).nodes
    requires a == leg.destination ==> leg.source in l.nodes && (a in l.nodes || Has(running, a) == 0)
    ensures (forall w: World, moved: nat, total: nat :: Likely(l, running, leg, w, moved, total)
               ==> Holds(WorldLeg(w, leg, moved), a) <= n)
            <==> LegStep(policy, l, rows, leg).nodes[a].upper <= n
  {
    var r := LegStep(policy, l, rows, leg);
    StepCompletes(policy, l, rows, leg);
    GreatIsOk(policy, l, leg, running);
    var great, moved := GreatWorld(l, running), 0;
    if !MovesNothing(leg) {
      moved := GreatReaches(policy, l, rows, leg, running, a);
    }
    var all := Total(great.attributed, Units) + great.sold;
    assert Likely(l, running, leg, great, moved, all) by { hide GreatWorld, LegStep, WorldLeg; }
    assert Holds(WorldLeg(great, leg, moved), a) == r.nodes[a].upper;
    hide GreatWorld, LegStep, WorldLeg, Feasible, WorldOk, LedgerOk, OwnersAgree;
    forall w: World, moved: nat, total: nat | Likely(l, running, leg, w, moved, total)
      ensures Holds(WorldLeg(w, leg, moved), a) <= r.nodes[a].upper
    {
      UpperStays(policy, l, rows, leg, running, a, w, moved, total);
    }
  }

  lemma UpperStays(policy: Policy, l: Ledger, rows: map<Account, Row>, leg: Leg, running: Balances, a: Account,
                   w: World, moved: nat, total: nat)
    requires RowsOk(rows) && LegInRows(rows, leg) && AllComplete(rows) && LedgerOk(policy, l) && OwnersAgree(l, rows)
    requires Exact(l, leg, running) && LegStep(policy, l, rows, leg).complete
    requires a in LegStep(policy, l, rows, leg).nodes && Likely(l, running, leg, w, moved, total)
    requires a == leg.destination ==> leg.source in l.nodes && (a in l.nodes || Has(running, a) == 0)
    ensures Holds(WorldLeg(w, leg, moved), a) <= LegStep(policy, l, rows, leg).nodes[a].upper
  {
    assert Holds(w, a) <= Has(w.balance, a);
    if !MovesNothing(leg) {
      LegNodes(policy, l, rows, leg);
      hide LegStep, LedgerOk, OwnersAgree, RowsOk, IsService, WorldLeg, WorldOk;
      WorldLegHolds(w, leg, moved, a);
    }
  }

  // ---- the report ----

  /**
   The upper bound reported for an account is reached in some world that the evidence allows; on a
   complete ledger, up to the slack between the account's own bounds.
   */
  lemma HeldUpperIsNear(policy: Policy, l: Ledger, confirmed: Confirmed, total: nat, a: Account)
    requires LedgerOk(policy, l) && Claimed(l) <= total && a in l.nodes
    ensures exists w: World ::
              && Sound(l, w, total)
              && (a in confirmed && confirmed[a].Some? ==> Has(w.balance, a) == l.nodes[a].balance)
              && HeldUpper(l, confirmed, total, a) - (if l.complete then l.nodes[a].upper - l.nodes[a].lower else 0)
                 <= Holds(w, a) <= HeldUpper(l, confirmed, total, a)
  {
    NodeIsOk(policy, l, a);
    if !l.complete { NoLowers(policy, l); }
    var n := l.nodes[a];
    var known := l.complete || (a in confirmed && confirmed[a].Some?);
    var room: nat := total - Claimed(l) + n.lower;
    var most := if known then Min(room, n.balance) else room;
    hide Claimed, LedgerOk, HeldUpper;
    var w := RaisedWorld(policy, l, total, a, most, if known then n.balance else room);
    assert HeldUpper(l, confirmed, total, a) - (if l.complete then n.upper - n.lower else 0) <= most
           <= HeldUpper(l, confirmed, total, a) by {
      if l.complete { NearComplete(l, confirmed, total, a); }
      else { NearIncomplete(l, confirmed, total, a); }
    }
  }

  lemma NearComplete(l: Ledger, confirmed: Confirmed, total: nat, a: Account)
    requires a in l.nodes && l.complete && l.nodes[a].lower <= l.nodes[a].upper <= l.nodes[a].balance
    requires Claimed(l) <= total
    ensures var n := l.nodes[a];
            var most := Min(total - Claimed(l) + n.lower, n.balance);
            HeldUpper(l, confirmed, total, a) - (n.upper - n.lower) <= most <= HeldUpper(l, confirmed, total, a)
  {
    hide Claimed;
  }

  lemma NearIncomplete(l: Ledger, confirmed: Confirmed, total: nat, a: Account)
    requires a in l.nodes && !l.complete && Claimed(l) == l.soldLower <= total && l.nodes[a].lower == 0
    ensures var most := total - l.soldLower;
            HeldUpper(l, confirmed, total, a)
            == if a in confirmed && confirmed[a].Some? then Min(most, l.nodes[a].balance) else most
  {
    hide Claimed;
  }

  function RaisedUnits(l: Ledger, a: Account, most: nat): map<Account, nat> {
    map b | b in l.nodes :: if b == a then most else l.nodes[b].lower
  }

  function RaisedBalances(l: Ledger, a: Account, balance: nat): Balances {
    map b | b in l.nodes :: if b == a then balance else l.nodes[b].balance
  }

  lemma RaisedAt(policy: Policy, l: Ledger, a: Account, most: nat, balance: nat, b: Account)
    requires LedgerOk(policy, l) && a in l.nodes && l.nodes[a].lower <= most <= balance
    ensures var w := World(RaisedBalances(l, a, balance), RaisedUnits(l, a, most), l.soldLower);
            && Holds(w, b) <= Has(w.balance, b)
            && (b in l.nodes ==>
                  && l.nodes[b].lower <= Holds(w, b)
                  && Has(w.balance, b) == if b == a then balance else l.nodes[b].balance)
  {
    if b in l.nodes { NodeIsOk(policy, l, b); }
  }

  lemma AsSound(l: Ledger, w: World, total: nat)
    requires Total(w.attributed, Units) + w.sold <= total && l.soldLower <= w.sold
    requires forall b :: Holds(w, b) <= Has(w.balance, b)
    requires forall b :: b in l.nodes ==> l.nodes[b].lower <= Holds(w, b)
    requires l.complete ==> forall b :: b in l.nodes ==> l.nodes[b].balance == Has(w.balance, b)
    ensures Sound(l, w, total)
  {
    hide Holds, Has;
  }

  lemma RaisedWorld(policy: Policy, l: Ledger, total: nat, a: Account, most: nat, balance: nat) returns (w: World)
    requires LedgerOk(policy, l) && a in l.nodes && l.nodes[a].lower <= most <= balance
    requires Claimed(l) - l.nodes[a].lower + most <= total
    requires l.complete ==> balance == l.nodes[a].balance
    ensures Sound(l, w, total) && Has(w.balance, a) == balance && Holds(w, a) == most
  {
    w := World(RaisedBalances(l, a, balance), RaisedUnits(l, a, most), l.soldLower);
    RaisedFits(l, w, a, most);
    assert Holds(w, a) == most;
    hide Total, RaisedBalances, RaisedUnits, LedgerOk, Sound, Holds, Has;
    forall b ensures Holds(w, b) <= Has(w.balance, b) {
      RaisedAt(policy, l, a, most, balance, b);
    }
    forall b | b in l.nodes
      ensures l.nodes[b].lower <= Holds(w, b)
              && Has(w.balance, b) == if b == a then balance else l.nodes[b].balance
    {
      RaisedAt(policy, l, a, most, balance, b);
    }
    AsSound(l, w, total);
  }

  lemma NoLowers(policy: Policy, l: Ledger)
    requires LedgerOk(policy, l) && !l.complete
    ensures Claimed(l) == l.soldLower && forall a :: a in l.nodes ==> l.nodes[a].lower == 0
  {
    ZeroTotal(l.nodes);
  }

  lemma RaisedFits(l: Ledger, w: World, a: Account, most: nat)
    requires a in l.nodes && l.nodes[a].lower <= most
    requires w.attributed == map b | b in l.nodes :: if b == a then most else l.nodes[b].lower
    ensures Total(w.attributed, Units) == Total(l.nodes, LowerOf) - l.nodes[a].lower + most
  {
    hide Total;
    var raised := l.nodes[a := l.nodes[a].(lower := most)];
    TotalPut(l.nodes, LowerOf, a, raised[a]);
    assert l.nodes[a := l.nodes[a]] == l.nodes;
    TotalDominated(w.attributed, Units, raised, LowerOf);
    TotalDominated(raised, LowerOf, w.attributed, Units);
  }

  /** Holdings between lower bound and balance, and at the lower bound outside one group. */
  ghost predicate Fits(nodes: map<Account, Node>, owners: set<Owner>, inside: bool, held: map<Account, nat>) {
    && held.Keys == nodes.Keys
    && forall a :: a in nodes ==>
         && nodes[a].lower <= held[a] <= nodes[a].balance
         && ((nodes[a].owner in owners) != inside ==> held[a] == nodes[a].lower)
  }

  lemma FitsOn(nodes: map<Account, Node>, owners: set<Owner>, inside: bool, held: map<Account, nat>, a: Account,
               now: nat)
    requires a in nodes && Fits(nodes - {a}, owners, inside, held)
    requires nodes[a].lower <= now <= nodes[a].balance
    requires (nodes[a].owner in owners) != inside ==> now == nodes[a].lower
    ensures Fits(nodes, owners, inside, held[a := now])
    ensures Total(held[a := now], Units) == Total(held, Units) + now
  {
    HoldsPut(held, a, now);
    hide Total;
  }

  /** Raising the holdings of one group, up to its balances, by exactly `extra` units. */
  lemma {:induction false} Raise(nodes: map<Account, Node>, owners: set<Owner>, inside: bool, extra: nat)
    returns (held: map<Account, nat>)
    requires forall a :: a in nodes ==> nodes[a].lower <= nodes[a].balance
    requires Total(nodes, Part(owners, inside, LowerOf)) + extra <= Total(nodes, Part(owners, inside, BalanceOf))
    ensures Fits(nodes, owners, inside, held) && Total(held, Units) == Total(nodes, LowerOf) + extra
    decreases |nodes|
  {
    hide Total;
    if nodes == map[] {
      NothingTotal();
      NothingHeld();
      held := map[];
    } else {
      var a :| a in nodes;
      var n, rest := nodes[a], nodes - {a};
      PickGroup(nodes, owners, inside, a);
      PartOrdered(rest, owners, inside);
      hide Part, Fits;
      var here: nat := if (n.owner in owners) == inside then Min(extra, n.balance - n.lower) else 0;
      var others := Raise(rest, owners, inside, extra - here);
      var now: nat := n.lower + here;
      FitsOn(nodes, owners, inside, others, a, now);
      held := others[a := now];
    }
  }

  lemma PickGroup(nodes: map<Account, Node>, owners: set<Owner>, inside: bool, a: Account)
    requires a in nodes
    ensures var n, rest, here := nodes[a], nodes - {a}, (nodes[a].owner in owners) == inside;
            && Total(nodes, LowerOf) == Total(rest, LowerOf) + n.lower
            && Total(nodes, Part(owners, inside, LowerOf))
               == Total(rest, Part(owners, inside, LowerOf)) + (if here then n.lower else 0)
            && Total(nodes, Part(owners, inside, BalanceOf))
               == Total(rest, Part(owners, inside, BalanceOf)) + if here then n.balance else 0
  {
    hide Total;
    TotalPick(nodes, LowerOf, a);
    TotalPick(nodes, Part(owners, inside, LowerOf), a);
    TotalPick(nodes, Part(owners, inside, BalanceOf), a);
  }

  lemma PartOrdered(nodes: map<Account, Node>, owners: set<Owner>, inside: bool)
    requires forall a :: a in nodes ==> nodes[a].lower <= nodes[a].balance
    ensures Total(nodes, Part(owners, inside, LowerOf)) <= Total(nodes, Part(owners, inside, BalanceOf))
  {
    hide Total;
    TotalDominated(nodes, Part(owners, inside, LowerOf), nodes, Part(owners, inside, BalanceOf));
  }

  ghost function GroupHolds(l: Ledger, w: World, owners: set<Owner>, inside: bool): nat {
    Total(Held(l.nodes, w, owners, inside), Units)
  }

  ghost function GroupBalance(l: Ledger, owners: set<Owner>, inside: bool): nat {
    Total(l.nodes, Part(owners, inside, BalanceOf))
  }

  /** What the sales and the guarantees of all other accounts leave for a group. */
  ghost function GroupLeft(l: Ledger, total: nat, owners: set<Owner>, inside: bool): int {
    total - l.soldLower - Total(l.nodes, Part(owners, !inside, LowerOf))
  }

  /** On a complete ledger some world that the evidence allows lets a group hold all that fits. */
  lemma GroupReaches(policy: Policy, l: Ledger, total: nat, owners: set<Owner>, inside: bool)
    returns (w: World)
    requires LedgerOk(policy, l) && Claimed(l) <= total && l.complete
    ensures Sound(l, w, total)
    ensures GroupHolds(l, w, owners, inside)
            == Min(GroupBalance(l, owners, inside), GroupLeft(l, total, owners, inside))
  {
    hide Total, Part, Held;
    forall a | a in l.nodes ensures l.nodes[a].lower <= l.nodes[a].balance {
      NodeIsOk(policy, l, a);
    }
    PartsAddUp(l.nodes, owners, LowerOf);
    PartOrdered(l.nodes, owners, inside);
    var room := Min(GroupBalance(l, owners, inside), GroupLeft(l, total, owners, inside));
    var extra := room - Total(l.nodes, Part(owners, inside, LowerOf));
    var held := Raise(l.nodes, owners, inside, extra);
    var running: Balances := map a | a in l.nodes :: l.nodes[a].balance;
    w := World(running, held, l.soldLower);
    MixedTotal(l.nodes, w, owners, inside);
    assert Mixed(l.nodes, w, owners, inside) == held;
    hide LedgerOk, Mixed;
  }

  /** The reported bound of a complete ledger without its redundant part. */
  lemma GroupUpperIs(policy: Policy, l: Ledger, total: nat, owners: set<Owner>, inside: bool)
    requires LedgerOk(policy, l) && l.complete
    ensures var left := GroupLeft(l, total, owners, inside);
            GroupUpper(l, total, owners, inside) == if inside then Min(left, GroupBalance(l, owners, inside)) else left
  {
    LowersBelowUppers(policy, l, owners, inside);
    PartsAddUp(l.nodes, owners, LowerOf);
    hide Total, Part, LedgerOk;
  }

  lemma LowersBelowUppers(policy: Policy, l: Ledger, owners: set<Owner>, inside: bool)
    requires LedgerOk(policy, l)
    ensures Total(l.nodes, Part(owners, inside, LowerOf)) <= Total(l.nodes, Part(owners, inside, UpperOf))
  {
    hide Total;
    forall a | a in l.nodes ensures l.nodes[a].lower <= l.nodes[a].upper {
      NodeIsOk(policy, l, a);
    }
    TotalDominated(l.nodes, Part(owners, inside, LowerOf), l.nodes, Part(owners, inside, UpperOf));
  }

  lemma HeldFits(l: Ledger, w: World, total: nat, owners: set<Owner>, inside: bool)
    requires Sound(l, w, total) && l.complete
    ensures GroupHolds(l, w, owners, inside) <= GroupBalance(l, owners, inside)
  {
    hide Total;
    TotalDominated(Held(l.nodes, w, owners, inside), Units, l.nodes, Part(owners, inside, BalanceOf));
  }

  lemma GroupReached(policy: Policy, l: Ledger, total: nat, owners: set<Owner>, inside: bool) returns (w: World)
    requires LedgerOk(policy, l) && Claimed(l) <= total && l.complete
    ensures Sound(l, w, total)
    ensures inside || GroupUpper(l, total, owners, inside) <= GroupBalance(l, owners, inside)
            ==> GroupHolds(l, w, owners, inside) == GroupUpper(l, total, owners, inside)
    ensures inside ==> GroupUpper(l, total, owners, inside) <= GroupBalance(l, owners, inside)
  {
    w := GroupReaches(policy, l, total, owners, inside);
    GroupUpperIs(policy, l, total, owners, inside);
    hide GroupHolds, GroupBalance, GroupLeft, LedgerOk, GroupUpper, Sound, Claimed;
  }

  /**
   The bound reported for the original owners' accounts together is reached, and so is the bound
   of all others exactly when their balances allow it.
   */
  lemma GroupUpperIsBest(policy: Policy, l: Ledger, total: nat, owners: set<Owner>, inside: bool)
    requires LedgerOk(policy, l) && Claimed(l) <= total && l.complete
    ensures (exists w: World ::
               Sound(l, w, total) && GroupHolds(l, w, owners, inside) == GroupUpper(l, total, owners, inside))
            <==> inside || GroupUpper(l, total, owners, inside) <= GroupBalance(l, owners, inside)
  {
    var w := GroupReached(policy, l, total, owners, inside);
    hide GroupHolds, GroupBalance, GroupUpper, Sound, Claimed, LedgerOk;
    forall v: World | Sound(l, v, total)
      ensures GroupHolds(l, v, owners, inside) <= GroupBalance(l, owners, inside)
    {
      HeldFits(l, v, total, owners, inside);
    }
  }
}
