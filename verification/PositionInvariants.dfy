/** What every step of the replay keeps: ordered bounds, conservation, gaps. */
module PositionInvariants {
  import opened Wrappers
  import opened PositionLedger
  import opened MapTotals

  ghost predicate NodeOk(policy: Policy, a: Account, n: Node) {
    n.lower <= n.upper <= n.balance && !IsService(policy, a, n.owner)
  }

  ghost predicate LedgerOk(policy: Policy, l: Ledger) {
    && (forall a :: a in l.nodes ==> NodeOk(policy, a, l.nodes[a]))
    && (!l.complete ==> forall a :: a in l.nodes ==> l.nodes[a].lower == 0)
  }

  ghost const LowerOf: Node -> nat := (n: Node) => n.lower

  /** Units claimed as certain: held by tracked accounts, or sold. */
  ghost function Claimed(l: Ledger): nat {
    Total(l.nodes, LowerOf) + l.soldLower
  }

  /** The relation between a ledger and any later one. */
  ghost predicate Evolves(l: Ledger, r: Ledger) {
    && Claimed(r) <= Claimed(l)
    && l.soldLower <= r.soldLower
    && (!l.complete ==> !r.complete && r.soldLower == l.soldLower)
    && l.issues <= r.issues
  }

  lemma ZeroTotal(m: map<Account, Node>)
    requires forall a :: a in m ==> m[a].lower == 0
    ensures Total(m, LowerOf) == 0
  {
    TotalDominated(m, LowerOf, map[], LowerOf);
  }

  lemma GapKeeps(policy: Policy, l: Ledger, issue: Issue)
    requires LedgerOk(policy, l)
    ensures LedgerOk(policy, Gap(l, issue)) && Evolves(l, Gap(l, issue))
  {
    hide Total;
    ZeroTotal(Gap(l, issue).nodes);
  }

  /** A debit pays the guaranteed share out of the sender's own lower bound. */
  lemma DebitKeeps(policy: Policy, l: Ledger, leg: Leg, valid: bool)
    requires LedgerOk(policy, l)
    ensures var (r, lower, upper) := Debit(l, leg, valid);
            && LedgerOk(policy, r) && Evolves(l, r)
            && lower <= upper <= leg.amount
            && Claimed(r) + lower <= Claimed(l)
            && (!r.complete ==> lower == 0)
            && r.soldLower == l.soldLower
  {
    hide Total;
    if TracksSender(l, leg) {
      var (r, lower, _) := Debit(l, leg, valid);
      if leg.amount > l.nodes[leg.source].balance {
        ZeroTotal(r.nodes);
      } else {
        TotalPut(l.nodes, LowerOf, leg.source, r.nodes[leg.source]);
      }
    }
  }

  lemma CreditKeeps(policy: Policy, l: Ledger, leg: Leg, valid: bool, lower: nat, upper: nat)
    requires LedgerOk(policy, l) && lower <= upper <= leg.amount
    requires !l.complete ==> lower == 0
    ensures var r := Credit(l, leg, valid, lower, upper);
            && LedgerOk(policy, r) && Claimed(r) <= Claimed(l) + lower
            && r.complete == l.complete && r.soldLower == l.soldLower && r.issues == l.issues
  {
    hide Total;
    var r := Credit(l, leg, valid, lower, upper);
    if leg.destination in l.nodes {
      TotalPut(l.nodes, LowerOf, leg.destination, r.nodes[leg.destination]);
      assert l.nodes[leg.destination := l.nodes[leg.destination]] == l.nodes;
    }
  }

  lemma DiscoverKeeps(policy: Policy, l: Ledger, rows: map<Account, Row>, leg: Leg)
    requires LedgerOk(policy, l) && LegInRows(rows, leg) && leg.source in l.nodes && leg.destination !in l.nodes
    requires rows[leg.destination].before.Some? && !IsService(policy, leg.destination, leg.destinationOwner)
    ensures var r := Discover(policy, l, rows, leg);
            LedgerOk(policy, r) && Claimed(r) == Claimed(l) && l.issues <= r.issues && r.complete == l.complete
                && r.soldLower == l.soldLower
  {
    hide Total;
    var r := Discover(policy, l, rows, leg);
    if leg.destination in r.nodes {
      TotalPut(l.nodes, LowerOf, leg.destination, r.nodes[leg.destination]);
    }
  }

  lemma LegKeeps(policy: Policy, l: Ledger, rows: map<Account, Row>, leg: Leg)
    requires RowsOk(rows) && LegInRows(rows, leg) && LedgerOk(policy, l)
    ensures LedgerOk(policy, LegStep(policy, l, rows, leg)) && Evolves(l, LegStep(policy, l, rows, leg))
  {
    hide Total;
    if !MovesNothing(leg) {
      var valid := Valid(rows, leg);
      DebitKeeps(policy, l, leg, valid);
      hide Debit, Discover, Credit;
      var (debited, lower, upper) := Debit(l, leg, valid);
      if !(leg.verifiedSale && valid) && !IsService(policy, leg.destination, leg.destinationOwner) {
        if valid && leg.destination !in debited.nodes && leg.source in debited.nodes && upper > 0 {
          DiscoverKeeps(policy, debited, rows, leg);
          CreditKeeps(policy, Discover(policy, debited, rows, leg), leg, valid, lower, upper);
        } else {
          CreditKeeps(policy, debited, leg, valid, lower, upper);
        }
      }
    }
  }

  lemma {:induction false} LegsKeep(policy: Policy, l: Ledger, rows: map<Account, Row>, legs: seq<Leg>)
    requires RowsOk(rows) && (forall leg :: leg in legs ==> LegInRows(rows, leg)) && LedgerOk(policy, l)
    ensures LedgerOk(policy, Legs(policy, l, rows, legs)) && Evolves(l, Legs(policy, l, rows, legs))
    decreases |legs|
  {
    hide Total;
    if legs != [] {
      LegKeeps(policy, l, rows, legs[0]);
      LegsKeep(policy, LegStep(policy, l, rows, legs[0]), rows, legs[1..]);
    }
  }

  lemma GapIsRevealed(l: Ledger, rows: map<Account, Row>, read: Reading, a: Account)
    requires a in l.nodes && a in rows
    ensures Read(read, l.nodes[a], rows[a]).1.Some? ==>
              Read(read, l.nodes[a], rows[a]).1.value in Revealed(l, rows, read)
  {}

  lemma ReadKeeps(policy: Policy, l: Ledger, rows: map<Account, Row>, read: Reading)
    requires LedgerOk(policy, l)
    ensures LedgerOk(policy, ReadRows(l, rows, read)) && Evolves(l, ReadRows(l, rows, read))
  {
    hide Total;
    var r := ReadRows(l, rows, read);
    if Revealed(l, rows, read) == {} {
      forall a | a in l.nodes && a in rows
        ensures r.nodes[a] == l.nodes[a]
      {
        GapIsRevealed(l, rows, read, a);
        assert NodeOk(policy, a, l.nodes[a]);
      }
      assert r.nodes == l.nodes;
    } else {
      ZeroTotal(r.nodes);
    }
  }

  lemma AdmitKeeps(policy: Policy, l: Ledger, b: Batch)
    requires LedgerOk(policy, l)
    ensures LedgerOk(policy, Admit(l, b)) && Evolves(l, Admit(l, b))
    ensures Admit(l, b).nodes.Keys == l.nodes.Keys
  {
    hide Total;
    GapKeeps(policy, l, PartialTransaction);
    var l1 := if b.status == Partial then Gap(l, PartialTransaction) else l;
    GapKeeps(policy, l1, IncompleteAccounts);
  }

  lemma BatchKeeps(policy: Policy, l: Ledger, b: Batch)
    requires BatchOk(b) && LedgerOk(policy, l)
    ensures LedgerOk(policy, BatchStep(policy, l, b)) && Evolves(l, BatchStep(policy, l, b))
  {
    hide Total;
    if b.status == Unavailable {
      GapKeeps(policy, l, UnavailableTransaction);
    } else if b.status != Failed {
      AdmitKeeps(policy, l, b);
      var ready := ReadRows(Admit(l, b), b.rows, Opening);
      ReadKeeps(policy, Admit(l, b), b.rows, Opening);
      LegsKeep(policy, ready, b.rows, b.legs);
      ReadKeeps(policy, Legs(policy, ready, b.rows, b.legs), b.rows, Closing);
    }
  }

  /** A transaction that was not parsed in full, and did not fail, is a gap. */
  lemma NotParsedGaps(policy: Policy, l: Ledger, b: Batch)
    requires BatchOk(b) && LedgerOk(policy, l) && (b.status == Partial || b.status == Unavailable)
    ensures !BatchStep(policy, l, b).complete
  {
    hide Total;
    if b.status == Partial {
      var ready := ReadRows(Admit(l, b), b.rows, Opening);
      AdmitKeeps(policy, l, b);
      ReadKeeps(policy, Admit(l, b), b.rows, Opening);
      LegsKeep(policy, ready, b.rows, b.legs);
      ReadKeeps(policy, Legs(policy, ready, b.rows, b.legs), b.rows, Closing);
    }
  }

  lemma {:induction false} BatchesKeep(policy: Policy, l: Ledger, bs: seq<Batch>)
    requires (forall b :: b in bs ==> BatchOk(b)) && LedgerOk(policy, l)
    ensures LedgerOk(policy, Batches(policy, l, bs)) && Evolves(l, Batches(policy, l, bs))
    decreases |bs|
  {
    hide Total;
    if bs != [] {
      BatchKeeps(policy, l, bs[0]);
      BatchesKeep(policy, BatchStep(policy, l, bs[0]), bs[1..]);
    }
  }

  lemma {:induction false} ConfirmKeeps(policy: Policy, l: Ledger, seen: Confirmed, rows: seq<ClosingRow>)
    requires LedgerOk(policy, l)
    ensures LedgerOk(policy, ConfirmAll(l, seen, rows).0) && Evolves(l, ConfirmAll(l, seen, rows).0)
    decreases |rows|
  {
    hide Total;
    if rows != [] {
      GapKeeps(policy, l, ClosingScope);
      GapKeeps(policy, l, ClosingAmount);
      GapKeeps(policy, l, ConflictingClosing);
      var (l1, seen1) := Confirm(l, seen, rows[0]);
      ConfirmKeeps(policy, l1, seen1, rows[1..]);
    }
  }

  lemma SettleKeeps(policy: Policy, l: Ledger, confirmed: Confirmed)
    requires LedgerOk(policy, l)
    ensures LedgerOk(policy, Settle(l, confirmed)) && Evolves(l, Settle(l, confirmed))
  {
    hide Total;
    ReadKeeps(policy, l, ConfirmedRows(confirmed), Settling);
  }

  lemma {:induction false} SeedNodesKeep(policy: Policy, seeds: seq<Seed>)
    requires SeedsOk(policy, seeds)
    ensures forall a :: a in SeedNodes(seeds) ==> NodeOk(policy, a, SeedNodes(seeds)[a])
    ensures forall a :: a in SeedNodes(seeds) ==> exists i :: 0 <= i < |seeds| && seeds[i].account == a
    ensures Total(SeedNodes(seeds), LowerOf) <= Bought(seeds)
  {
    hide Total;
    if seeds == [] {
      ZeroTotal(SeedNodes(seeds));
    } else {
      var k := |seeds| - 1;
      SeedNodesKeep(policy, seeds[..k]);
      var s := seeds[k];
      assert SeedOk(policy, s);
      TotalPut(SeedNodes(seeds[..k]), LowerOf, s.account, SeedNodes(seeds)[s.account]);
      forall a | a in SeedNodes(seeds)
        ensures exists i :: 0 <= i < |seeds| && seeds[i].account == a
      {
        if a == s.account { assert seeds[k].account == a; }
        else {
          var i :| 0 <= i < k && seeds[..k][i].account == a;
          assert seeds[i].account == a;
        }
      }
    }
  }

  lemma {:induction false} BoughtPrefix(seeds: seq<Seed>, k: nat)
    requires k <= |seeds|
    ensures Bought(seeds[..k]) <= Bought(seeds)
    decreases |seeds|
  {
    if k == |seeds| {
      assert seeds[..k] == seeds;
    } else {
      BoughtPrefix(seeds[..|seeds| - 1], k);
      assert seeds[..|seeds| - 1][..k] == seeds[..k];
    }
  }

  lemma StartKeeps(policy: Policy, seeds: seq<Seed>, historyComplete: bool)
    requires SeedsOk(policy, seeds)
    ensures var l := Start(policy, seeds, historyComplete);
            LedgerOk(policy, l) && Claimed(l) <= Bought(seeds) && l.soldLower == 0
  {
    hide Total;
    var k := Min(|seeds|, policy.maxAccounts);
    SeedNodesKeep(policy, seeds[..k]);
    BoughtPrefix(seeds, k);
    ZeroTotal(ZeroLowers(SeedNodes(seeds[..k])));
    assert ZeroLowers(ZeroLowers(SeedNodes(seeds[..k]))) == ZeroLowers(SeedNodes(seeds[..k]));
  }

  lemma BeginKeeps(policy: Policy, seeds: seq<Seed>, historyComplete: bool, gaps: set<Issue>)
    requires SeedsOk(policy, seeds)
    ensures var l := Begin(policy, seeds, historyComplete, gaps);
            LedgerOk(policy, l) && Claimed(l) <= Bought(seeds) && l.soldLower == 0
  {
    hide Total;
    StartKeeps(policy, seeds, historyComplete);
    hide Start;
    if gaps != {} { ZeroTotal(Begin(policy, seeds, historyComplete, gaps).nodes); }
  }
}
