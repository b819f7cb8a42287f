/** From one decoded transaction to a batch. */
module PositionParser {
  // A transaction is `Parsed` only when every token account has both snapshots, every transfer is
  // understood and the snapshots add up over the transfers, in total and in order; soundness of
  // the replay rests on exactly that.

  import opened Wrappers
  import opened PositionLedger
  import opened PositionSoundness

  datatype Identity = Identity(owner: Owner, mint: Address, decimals: nat)
  datatype Snapshot = Snapshot(identity: Identity, amount: nat)

  /** Snapshots by account; an account listed twice on one side is `None`. */
  type Side = map<Account, Option<Snapshot>>

  /** A token instruction in execution order; `Opaque` is any that is not a plain transfer. */
  datatype Step = Transfer(outer: nat, source: Account, destination: Account, amount: nat, mint: Option<Address>,
                           decimals: Option<nat>)
                | Opaque

  datatype Witness = Witness(outer: nat, owner: Owner, inputAccount: Account, inputVault: Account, inputAmount: nat,
                             outputMint: Address, outputAccount: Account, outputVault: Account, outputAmount: nat)

  datatype Line = Line(identity: Identity, before: Option<nat>, after: Option<nat>, complete: bool)

  /** A transfer of any mint, with the outer instruction it runs under. */
  datatype Move = Move(outer: nat, mint: Address, leg: Leg)

  function Lookup(side: Side, a: Account): Option<Snapshot> {
    if a in side then side[a] else None
  }

  function AnIdentity(before: Option<Snapshot>, after: Option<Snapshot>): Option<Identity> {
    if before.Some? then Some(before.value.identity) else if after.Some? then Some(after.value.identity) else None
  }

  function Amount(s: Option<Snapshot>): Option<nat> {
    if s.Some? then Some(s.value.amount) else None
  }

  /** The accounts with a known identity, and whether both snapshots agree on it. */
  function Lines(before: Side, after: Side): map<Account, Line> {
    map a | a in before.Keys + after.Keys && AnIdentity(Lookup(before, a), Lookup(after, a)).Some? ::
      var b, c := Lookup(before, a), Lookup(after, a);
      Line(AnIdentity(b, c).value, Amount(b), Amount(c), b.Some? && c.Some? && b.value.identity == c.value.identity)
  }

  predicate Understood(lines: map<Account, Line>, step: Step) {
    && step.Transfer? && step.source in lines && step.destination in lines
    && var s, d := lines[step.source].identity, lines[step.destination].identity;
       && s.mint == d.mint && s.decimals == d.decimals
       && (step.mint.Some? ==> step.mint.value == s.mint)
       && (step.decimals.Some? ==> step.decimals.value == s.decimals)
  }

  function MoveOf(lines: map<Account, Line>, step: Step): Move
    requires Understood(lines, step)
  {
    var s, d := lines[step.source].identity, lines[step.destination].identity;
    Move(step.outer, s.mint, Leg(step.source, s.owner, step.destination, d.owner, step.amount, false))
  }

  predicate MoveOk(lines: map<Account, Line>, m: Move) {
    && m.leg.source in lines && m.leg.destination in lines
    && m.leg.sourceOwner == lines[m.leg.source].identity.owner
       && m.leg.destinationOwner == lines[m.leg.destination].identity.owner
    && m.mint == lines[m.leg.source].identity.mint == lines[m.leg.destination].identity.mint
  }

  // ---- net effect of the transfers ----

  function Effect(leg: Leg, a: Account): int {
    (if leg.destination == a then leg.amount else 0) - (if leg.source == a then leg.amount else 0)
  }

  function Net(moves: seq<Move>, a: Account): int {
    if moves == [] then 0 else Net(moves[..|moves| - 1], a) + Effect(moves[|moves| - 1].leg, a)
  }

  function LegsOf(moves: seq<Move>, mint: Address): (r: seq<Leg>)
    ensures forall leg :: leg in r ==> exists m :: m in moves && m.leg == leg && m.mint == mint
  {
    if moves == [] then []
    else
      var k := |moves| - 1;
      LegsOf(moves[..k], mint) + (if moves[k].mint == mint then [moves[k].leg] else [])
  }

  lemma {:induction false} MoveBalancesSplit(b: Balances, legs: seq<Leg>, leg: Leg)
    ensures MoveBalances(b, legs + [leg]) == MoveBalance(MoveBalances(b, legs), leg)
    decreases |legs|
  {
    if legs == [] {
      assert [leg][1..] == [];
      assert MoveBalances(MoveBalance(b, leg), []) == MoveBalance(b, leg);
    } else {
      assert (legs + [leg])[1..] == legs[1..] + [leg];
      MoveBalancesSplit(MoveBalance(b, legs[0]), legs[1..], leg);
    }
  }

  /** Transfers of other mints do not touch an account of this mint. */
  lemma {:induction false} NetIsBalance(lines: map<Account, Line>, moves: seq<Move>, mint: Address, b: Balances,
                                        a: Account)
    requires a in lines && lines[a].identity.mint == mint && forall m :: m in moves ==> MoveOk(lines, m)
    ensures Has(MoveBalances(b, LegsOf(moves, mint)), a) == Has(b, a) + Net(moves, a)
    decreases |moves|
  {
    if moves != [] {
      var k := |moves| - 1;
      var last := moves[k];
      assert last in moves;
      NetIsBalance(lines, moves[..k], mint, b, a);
      if last.mint == mint {
        MoveBalancesSplit(b, LegsOf(moves[..k], mint), last.leg);
      } else {
        assert LegsOf(moves, mint) == LegsOf(moves[..k], mint);
      }
    }
  }

  // ---- the passes over accounts and transfers ----

  /** Accounts whose snapshots do not differ by the net transfers. */
  method Unreconciled(lines: map<Account, Line>, moves: seq<Move>) returns (wrong: set<Account>)
    ensures wrong == Mismatched(lines, moves)
  {
    var deltas: map<Account, int> := map[];
    for i := 0 to |moves|
      invariant forall a :: Has(deltas, a) == Net(moves[..i], a)
    {
      var leg := moves[i].leg;
      assert moves[..i + 1][..i] == moves[..i];
      deltas := deltas[leg.source := Has(deltas, leg.source) - leg.amount];
      deltas := deltas[leg.destination := Has(deltas, leg.destination) + leg.amount];
    }
    assert moves[..|moves|] == moves;
    wrong := set a | a in lines && lines[a].complete && lines[a].before.Some? && lines[a].after.Some?
                     && lines[a].before.value + Has(deltas, a) != lines[a].after.value;
  }

  /** What an account holds just before transfer `k`, self-transfers included. */
  function Running(lines: map<Account, Line>, moves: seq<Move>, k: nat, a: Account): int
    requires k <= |moves| && a in lines && lines[a].before.Some?
  {
    lines[a].before.value + Net(moves[..k], a)
  }

  /** Senders that pay out more than they hold in one of the first `n` transfers. */
  function OverdrawnAt(lines: map<Account, Line>, moves: seq<Move>, n: nat): set<Account>
    requires n <= |moves|
  {
    set a, k: nat | k < n && a in lines && lines[a].before.Some? && moves[k].leg.source == a
        && moves[k].leg.destination != a
                    && Running(lines, moves, k, a) < moves[k].leg.amount :: a
  }

  function Mismatched(lines: map<Account, Line>, moves: seq<Move>): set<Account> {
    set a | a in lines && lines[a].complete && lines[a].before.Some? && lines[a].after.Some?
            && lines[a].before.value + Net(moves, a) != lines[a].after.value
  }

  /** Senders that at some point pay out more than they hold. */
  method Overdrawn(lines: map<Account, Line>, moves: seq<Move>) returns (wrong: set<Account>)
    requires forall m :: m in moves ==> MoveOk(lines, m)
    ensures wrong == OverdrawnAt(lines, moves, |moves|)
  {
    wrong := {};
    var running: map<Account, int> := map a | a in lines && lines[a].before.Some? :: lines[a].before.value;
    for i := 0 to |moves|
      invariant running.Keys == set a | a in lines && lines[a].before.Some?
      invariant forall a :: a in running ==> running[a] == Running(lines, moves, i, a)
      invariant wrong == OverdrawnAt(lines, moves, i)
    {
      var leg := moves[i].leg;
      assert moves[i] in moves && moves[..i + 1][..i] == moves[..i];
      if leg.source != leg.destination {
        if leg.source in running && running[leg.source] < leg.amount {
          wrong := wrong + {leg.source};
        }
        if leg.source in running { running := running[leg.source := running[leg.source] - leg.amount]; }
        if leg.destination in running { running := running[leg.destination := running[leg.destination] + leg.amount]; }
      }
    }
  }

  // ---- sales ----

  function InputLegs(moves: seq<Move>, w: Witness): set<nat> {
    set i: nat | i < |moves| && moves[i].outer == w.outer && moves[i].leg.source == w.inputAccount
        && moves[i].leg.destination == w.inputVault
  }

  function Sum(moves: seq<Move>, outer: nat, source: Account, destination: Account): nat {
    if moves == [] then 0
    else
      var k := |moves| - 1;
      Sum(moves[..k], outer, source, destination)
      + if moves[k].outer == outer && moves[k].leg.source == source && moves[k].leg.destination == destination
        then moves[k].leg.amount else 0
  }

  function Change(lines: map<Account, Line>, a: Account): int
    requires a in lines && lines[a].before.Some? && lines[a].after.Some?
  {
    lines[a].after.value - lines[a].before.value
  }

  /** A swap witness holds when four reconciled accounts change by exactly its amounts, over its own legs. */
  predicate SaleHolds(lines: map<Account, Line>, moves: seq<Move>, mint: Address, w: Witness) {
    var names := {w.inputAccount, w.inputVault, w.outputAccount, w.outputVault};
    && w.inputAmount > 0 && w.outputAmount > 0 && w.outputMint != mint && |names| == 4
    && (forall a :: a in names ==> a in lines && lines[a].complete && lines[a].before.Some? && lines[a].after.Some?)
    && lines[w.inputAccount].identity.owner == w.owner == lines[w.outputAccount].identity.owner
    && lines[w.inputVault].identity.owner != w.owner && lines[w.outputVault].identity.owner != w.owner
    && lines[w.inputAccount].identity.mint == mint == lines[w.inputVault].identity.mint
    && lines[w.outputAccount].identity.mint == w.outputMint == lines[w.outputVault].identity.mint
    && Change(lines, w.inputAccount) == 0 - w.inputAmount && Change(lines, w.inputVault) == w.inputAmount
    && Change(lines, w.outputAccount) == w.outputAmount && Change(lines, w.outputVault) == 0 - w.outputAmount
    && Sum(moves, w.outer, w.inputAccount, w.inputVault) == w.inputAmount
    && Sum(moves, w.outer, w.outputVault, w.outputAccount) == w.outputAmount
  }

  function Marked(moves: seq<Move>, sold: set<nat>): (r: seq<Move>)
    ensures |r| == |moves|
    ensures forall i :: 0 <= i < |r| ==> r[i] == moves[i].(leg := moves[i].leg.(verifiedSale := i in sold))
  {
    seq(|moves|, i requires 0 <= i < |moves| => moves[i].(leg := moves[i].leg.(verifiedSale := i in sold)))
  }

  lemma {:induction false} MarkedNet(moves: seq<Move>, marked: seq<Move>, a: Account)
    requires |marked| == |moves|
    requires forall i ::
             0 <= i < |moves|
             ==> marked[i].leg.(verifiedSale := false) == moves[i].leg.(verifiedSale := false)
    ensures Net(marked, a) == Net(moves, a)
    decreases |moves|
  {
    if moves != [] {
      var k := |moves| - 1;
      MarkedNet(moves[..k], marked[..k], a);
      assert marked[k].leg.(verifiedSale := false) == moves[k].leg.(verifiedSale := false);
    }
  }

  function RowsOf(lines: map<Account, Line>, mint: Address): map<Account, Row> {
    map a | a in lines && lines[a].identity.mint == mint ::
      Row(lines[a].identity.owner, lines[a].before, lines[a].after, lines[a].complete)
  }

  // ---- the whole parse ----

  function MovesOf(lines: map<Account, Line>, steps: seq<Step>): (r: seq<Move>)
    ensures forall m :: m in r ==> MoveOk(lines, m)
  {
    if steps == [] then []
    else
      var k := |steps| - 1;
      MovesOf(lines, steps[..k])
      + if Understood(lines, steps[k]) && steps[k].amount > 0 then [MoveOf(lines, steps[k])] else []
  }

  predicate AllUnderstood(lines: map<Account, Line>, steps: seq<Step>) {
    forall i :: 0 <= i < |steps| ==> Understood(lines, steps[i])
  }

  /** One instruction that is not understood leaves every account of the transaction incomplete. */
  function Checked(lines: map<Account, Line>, moves: seq<Move>, spoiled: bool): map<Account, Line> {
    map a | a in lines ::
      lines[a].(complete := lines[a].complete && !spoiled && a !in Mismatched(lines, moves)
                && a !in OverdrawnAt(lines, moves, |moves|))
  }

  function Sold(lines: map<Account, Line>, moves: seq<Move>, mint: Address, witnesses: seq<Witness>): set<nat> {
    set j: nat, w | w in witnesses && SaleHolds(lines, moves, mint, w) && j in InputLegs(moves, w) :: j
  }

  predicate Resolved(before: Side, after: Side) {
    forall a :: a in before.Keys + after.Keys ==> a in Lines(before, after) && Lines(before, after)[a].complete
  }

  /** The batch of one mint, and which of its transfers a swap witness proves to be sales. */
  method Parse(mint: Address, before: Side, after: Side, steps: seq<Step>, structural: bool, witnesses: seq<Witness>)
    returns (batch: Batch)
    ensures BatchSafe(batch)
    ensures var lines := Lines(before, after);
            var moves, spoiled := MovesOf(lines, steps), structural || !AllUnderstood(lines, steps);
            var checked := Checked(lines, moves, spoiled);
            && batch.rows == RowsOf(checked, mint)
            && batch.legs == LegsOf(Marked(moves, Sold(checked, moves, mint, witnesses)), mint)
            && (batch.status == Parsed <==>
                  && !spoiled && Resolved(before, after) && Mismatched(lines, moves) == {}
                     && OverdrawnAt(lines, moves, |moves|) == {}
                  && forall w :: w in witnesses ==> SaleHolds(checked, moves, mint, w))
            && batch.status in {Parsed, Partial}
  {
    var lines := Lines(before, after);
    var understood, moves := Collect(lines, steps);
    var unreconciled := Unreconciled(lines, moves);
    var overdrawn := Overdrawn(lines, moves);
    var spoiled := structural || !understood;
    hide Sold, SaleHolds, InputLegs, MovesOf, Mismatched, OverdrawnAt, Understood, Running;
    var checked := map a | a in lines ::
      lines[a].(complete := lines[a].complete && !spoiled && a !in unreconciled && a !in overdrawn);
    assert checked == Checked(lines, moves, spoiled);
    var sold, proved := ClaimSales(checked, moves, mint, witnesses);
    var marked := Marked(moves, sold);
    var clean := !spoiled && Resolved(before, after) && unreconciled == {} && overdrawn == {} && proved;
    batch := Batch(if clean then Parsed else Partial, RowsOf(checked, mint), LegsOf(marked, mint));
    MarkedOk(lines, checked, moves, marked, sold);
    if clean { CleanAddsUp(before, after, moves, checked); }
    LinesFull(before, after);
    hide Lines, LegsOf, RowsOf, Net, MoveOk;
    ParsedIsSafe(lines, checked, moves, marked, mint, batch);
  }

  method Collect(lines: map<Account, Line>, steps: seq<Step>) returns (understood: bool, moves: seq<Move>)
    ensures understood <==> AllUnderstood(lines, steps)
    ensures moves == MovesOf(lines, steps)
  {
    understood, moves := true, [];
    for i := 0 to |steps|
      invariant understood <==> forall k :: 0 <= k < i ==> Understood(lines, steps[k])
      invariant moves == MovesOf(lines, steps[..i])
    {
      assert steps[..i + 1][..i] == steps[..i];
      if !Understood(lines, steps[i]) {
        understood := false;
      } else if steps[i].amount > 0 {
        moves := moves + [MoveOf(lines, steps[i])];
      }
    }
    assert steps[..|steps|] == steps;
  }

  lemma LinesFull(before: Side, after: Side)
    ensures forall a :: a in Lines(before, after) && Lines(before, after)[a].complete
              ==> Lines(before, after)[a].before.Some? && Lines(before, after)[a].after.Some?
  {}

  lemma MarkedOk(lines: map<Account, Line>, checked: map<Account, Line>, moves: seq<Move>, marked: seq<Move>,
                 sold: set<nat>)
    requires checked.Keys == lines.Keys && forall a :: a in lines ==> checked[a].identity == lines[a].identity
    requires (forall m :: m in moves ==> MoveOk(lines, m)) && marked == Marked(moves, sold)
    ensures forall m :: m in marked ==> MoveOk(checked, m)
  {
    forall m | m in marked ensures MoveOk(checked, m) {
      var i :| 0 <= i < |marked| && marked[i] == m;
      assert moves[i] in moves;
    }
  }

  lemma CleanAddsUp(before: Side, after: Side, moves: seq<Move>, checked: map<Account, Line>)
    requires Resolved(before, after) && checked == Checked(Lines(before, after), moves, false)
    requires Mismatched(Lines(before, after), moves) == {} && OverdrawnAt(Lines(before, after), moves, |moves|) == {}
    ensures forall a :: a in checked ==>
              && checked[a].complete && checked[a].before.Some? && checked[a].after.Some?
              && checked[a].before.value + Net(moves, a) == checked[a].after.value
  {
    var lines := Lines(before, after);
    forall a | a in lines
      ensures lines[a].complete && lines[a].before.value + Net(moves, a) == lines[a].after.value
    {
      assert a !in Mismatched(lines, moves);
    }
  }

  method ClaimSales(lines: map<Account, Line>, moves: seq<Move>, mint: Address, witnesses: seq<Witness>)
    returns (sold: set<nat>, proved: bool)
    ensures sold == Sold(lines, moves, mint, witnesses)
    ensures proved <==> forall w :: w in witnesses ==> SaleHolds(lines, moves, mint, w)
  {
    sold, proved := {}, true;
    for i := 0 to |witnesses|
      invariant sold == Sold(lines, moves, mint, witnesses[..i])
      invariant proved <==> forall k :: 0 <= k < i ==> SaleHolds(lines, moves, mint, witnesses[k])
    {
      assert witnesses[..i + 1] == witnesses[..i] + [witnesses[i]];
      hide SaleHolds, InputLegs;
      if SaleHolds(lines, moves, mint, witnesses[i]) {
        sold := sold + InputLegs(moves, witnesses[i]);
      } else {
        proved := false;
      }
    }
    assert witnesses[..|witnesses|] == witnesses;
  }

  lemma ParsedIsSafe(lines: map<Account, Line>, checked: map<Account, Line>, moves: seq<Move>, marked: seq<Move>,
                     mint: Address, batch: Batch)
    requires checked.Keys == lines.Keys
    requires forall a :: a in lines ==> checked[a].(complete := true) == lines[a].(complete := true)
    requires forall a :: a in checked && checked[a].complete ==> checked[a].before.Some? && checked[a].after.Some?
    requires |marked| == |moves| && forall i ::
             0 <= i < |moves|
             ==> marked[i].leg.(verifiedSale := false) == moves[i].leg.(verifiedSale := false)
    requires forall m :: m in marked ==> MoveOk(checked, m)
    requires batch.rows == RowsOf(checked, mint) && batch.legs == LegsOf(marked, mint)
    requires batch.status == Parsed ==> forall a :: a in checked ==>
               checked[a].complete && checked[a].before.value + Net(moves, a) == checked[a].after.value
    ensures BatchSafe(batch)
  {
    forall leg | leg in batch.legs ensures LegInRows(batch.rows, leg) {
      var m :| m in marked && m.leg == leg && m.mint == mint;
    }
    if batch.status == Parsed {
      forall a | a in batch.rows
        ensures batch.rows[a].after.value == Has(MoveBalances(Before(batch.rows), batch.legs), a)
      {
        NetIsBalance(checked, marked, mint, Before(batch.rows), a);
        MarkedNet(moves, marked, a);
      }
    }
  }
}
