/** A two-run property: what a replay claims as certain never influences what it tracks. */
module PositionTwins {
  // Two replays of the same transactions that start alike up to lower bounds and completeness track
  // the same accounts with the same balances, upper bounds and limits hit, whatever either claims.

  import opened Wrappers
  import opened PositionLedger
  import opened PositionOrder

  const Limits: set<Issue> := {AccountLimit, DepthLimit, EventLimit}

  ghost predicate TwinNodes(m: map<Account, Node>, n: map<Account, Node>) {
    m.Keys == n.Keys && forall a :: a in m ==> m[a].(lower := 0) == n[a].(lower := 0)
  }

  ghost predicate Twins(l: Ledger, k: Ledger) {
    && TwinNodes(l.nodes, k.nodes)
    && l.soldUpper == k.soldUpper && l.observedSale == k.observedSale
    && l.issues * Limits == k.issues * Limits
  }

  lemma GapTwins(l: Ledger, k: Ledger, i: Issue, j: Issue)
    requires Twins(l, k) && i !in Limits && j !in Limits
    ensures Twins(Gap(l, i), k) && Twins(l, Gap(k, j)) && Twins(Gap(l, i), Gap(k, j))
  {
    assert (l.issues + {i}) * Limits == l.issues * Limits;
    assert (k.issues + {j}) * Limits == k.issues * Limits;
  }

  lemma TwinPut(m: map<Account, Node>, n: map<Account, Node>, a: Account, x: Node, y: Node)
    requires TwinNodes(m, n) && x.(lower := 0) == y.(lower := 0)
    ensures TwinNodes(m[a := x], n[a := y])
  {}

  lemma DebitTwins(l: Ledger, k: Ledger, leg: Leg, valid: bool)
    requires Twins(l, k)
    ensures var (l1, _, u1) := Debit(l, leg, valid);
            var (k1, _, u2) := Debit(k, leg, valid);
            Twins(l1, k1) && u1 == u2
  {
    if TracksSender(l, leg) {
      var s := leg.source;
      assert l.nodes[s].(lower := 0) == k.nodes[s].(lower := 0);
      if leg.amount > l.nodes[s].balance {
        GapTwins(l, k, UnreconciledBalance, UnreconciledBalance);

        var g, h := Gap(l, UnreconciledBalance), Gap(k, UnreconciledBalance);
        assert s in g.nodes && s in h.nodes && g.nodes[s].(lower := 0) == h.nodes[s].(lower := 0);
        TwinPut(g.nodes, h.nodes, s, g.nodes[s].(upper := 0), h.nodes[s].(upper := 0));
        assert Debit(l, leg, valid).0 == g.(nodes := g.nodes[s := g.nodes[s].(upper := 0)]);
      } else {
        var l1, k1 := Debit(l, leg, valid).0, Debit(k, leg, valid).0;
        TwinPut(l.nodes, k.nodes, s, l1.nodes[s], k1.nodes[s]);
      }
    } else {
      assert !TracksSender(k, leg);
    }
  }

  lemma DiscoverTwins(policy: Policy, l: Ledger, k: Ledger, rows: map<Account, Row>, leg: Leg)
    requires Twins(l, k) && leg.source in l.nodes && leg.destination in rows && rows[leg.destination].before.Some?
    ensures Twins(Discover(policy, l, rows, leg), Discover(policy, k, rows, leg))
  {
    assert l.nodes[leg.source].(lower := 0) == k.nodes[leg.source].(lower := 0);
    assert |l.nodes| == |l.nodes.Keys| == |k.nodes|;
    var n := Node(leg.destinationOwner, rows[leg.destination].before.value, 0, 0, l.nodes[leg.source].depth + 1);
    TwinPut(l.nodes, k.nodes, leg.destination, n, n);
    assert forall i: Issue :: (l.issues + {i}) * Limits == l.issues * Limits + {i} * Limits;
    assert forall i: Issue :: (k.issues + {i}) * Limits == k.issues * Limits + {i} * Limits;
  }

  lemma CreditTwins(l: Ledger, k: Ledger, leg: Leg, valid: bool, lower: nat, other: nat, upper: nat)
    requires Twins(l, k)
    ensures Twins(Credit(l, leg, valid, lower, upper), Credit(k, leg, valid, other, upper))
  {
    if leg.destination in l.nodes {
      assert l.nodes[leg.destination].(lower := 0) == k.nodes[leg.destination].(lower := 0);
      TwinPut(l.nodes, k.nodes, leg.destination, Credit(l, leg, valid, lower, upper).nodes[leg.destination],
              Credit(k, leg, valid, other, upper).nodes[leg.destination]);
    }
  }

  lemma LegTwins(policy: Policy, l: Ledger, k: Ledger, rows: map<Account, Row>, leg: Leg)
    requires Twins(l, k) && RowsOk(rows) && LegInRows(rows, leg)
    ensures Twins(LegStep(policy, l, rows, leg), LegStep(policy, k, rows, leg))
  {
    if !MovesNothing(leg) {
      var valid := Valid(rows, leg);
      DebitTwins(l, k, leg, valid);
      var (l1, a, upper) := Debit(l, leg, valid);
      var (k1, b, _) := Debit(k, leg, valid);
      hide Debit, Discover, Credit;
      if !(leg.verifiedSale && valid) && !IsService(policy, leg.destination, leg.destinationOwner) {
        if valid && leg.destination !in l1.nodes && leg.source in l1.nodes && upper > 0 {
          DiscoverTwins(policy, l1, k1, rows, leg);
          CreditTwins(Discover(policy, l1, rows, leg), Discover(policy, k1, rows, leg), leg, valid, a, b, upper);
        } else {
          CreditTwins(l1, k1, leg, valid, a, b, upper);
        }
      }
    }
  }

  lemma {:induction false} LegsTwins(policy: Policy, l: Ledger, k: Ledger, rows: map<Account, Row>, legs: seq<Leg>)
    requires Twins(l, k) && RowsOk(rows) && forall leg :: leg in legs ==> LegInRows(rows, leg)
    ensures Twins(Legs(policy, l, rows, legs), Legs(policy, k, rows, legs))
    decreases |legs|
  {
    hide Twins;
    if legs != [] {
      LegTwins(policy, l, k, rows, legs[0]);
      LegsTwins(policy, LegStep(policy, l, rows, legs[0]), LegStep(policy, k, rows, legs[0]), rows, legs[1..]);
    }
  }

  lemma ReadTwin(n: Node, m: Node, row: Row, read: Reading)
    requires n.(lower := 0) == m.(lower := 0)
    ensures var (x, i), (y, j) := Read(read, n, row), Read(read, m, row);
            x.(lower := 0) == y.(lower := 0) && i == j && (i.Some? ==> i.value !in Limits)
  {}

  lemma ReadAt(l: Ledger, rows: map<Account, Row>, read: Reading, a: Account)
    requires a in l.nodes
    ensures var n := if a in rows then Read(read, l.nodes[a], rows[a]).0 else l.nodes[a];
            ReadRows(l, rows, read).nodes[a].(lower := 0) == n.(lower := 0)
  {
    hide Read;
  }

  lemma ReadTwins(l: Ledger, k: Ledger, rows: map<Account, Row>, read: Reading)
    requires Twins(l, k)
    ensures Twins(ReadRows(l, rows, read), ReadRows(k, rows, read))
  {
    var r, s := ReadRows(l, rows, read), ReadRows(k, rows, read);
    NoLimitRevealed(l, rows, read);
    NoLimitRevealed(k, rows, read);
    hide Revealed, Read;
    OutsideLimits(l.issues, Revealed(l, rows, read), Limits);
    OutsideLimits(k.issues, Revealed(k, rows, read), Limits);
    assert r.issues * Limits == l.issues * Limits && s.issues * Limits == k.issues * Limits;
    assert r.soldUpper == s.soldUpper && r.observedSale == s.observedSale;
    hide ReadRows;
    forall a | a in r.nodes ensures r.nodes[a].(lower := 0) == s.nodes[a].(lower := 0) {
      ReadAt(l, rows, read, a);
      ReadAt(k, rows, read, a);
      if a in rows { ReadTwin(l.nodes[a], k.nodes[a], rows[a], read); }
    }
  }

  lemma OutsideLimits(issues: set<Issue>, more: set<Issue>, limits: set<Issue>)
    requires more * limits == {}
    ensures (issues + more) * limits == issues * limits
  {
    assert forall i :: i in more ==> i !in limits by {
      forall i | i in more ensures i !in limits {
        assert i in limits ==> i in more * limits;
      }
    }
  }

  lemma NoLimitRevealed(l: Ledger, rows: map<Account, Row>, read: Reading)
    ensures Revealed(l, rows, read) * Limits == {}
  {}

  lemma AdmitTwins(l: Ledger, k: Ledger, b: Batch)
    requires Twins(l, k)
    ensures Twins(Admit(l, b), Admit(k, b))
  {
    GapTwins(l, k, PartialTransaction, PartialTransaction);
    GapTwins(l, k, IncompleteAccounts, IncompleteAccounts);
    GapTwins(Gap(l, PartialTransaction), Gap(k, PartialTransaction), IncompleteAccounts, IncompleteAccounts);
  }

  lemma {:induction false} BatchesTwins(policy: Policy, l: Ledger, k: Ledger, bs: seq<Batch>)
    requires Twins(l, k) && forall b :: b in bs ==> BatchOk(b)
    ensures Twins(Batches(policy, l, bs), Batches(policy, k, bs))
    decreases |bs|
  {
    if bs != [] {
      var b := bs[0];
      assert BatchOk(b);
      GapTwins(l, k, UnavailableTransaction, UnavailableTransaction);
      AdmitTwins(l, k, b);
      hide Twins, Gap, Admit, ReadRows;
      ReadTwins(Admit(l, b), Admit(k, b), b.rows, Opening);
      var l1, k1 := ReadRows(Admit(l, b), b.rows, Opening), ReadRows(Admit(k, b), b.rows, Opening);
      LegsTwins(policy, l1, k1, b.rows, b.legs);
      ReadTwins(Legs(policy, l1, b.rows, b.legs), Legs(policy, k1, b.rows, b.legs), b.rows, Closing);
      BatchesTwins(policy, BatchStep(policy, l, b), BatchStep(policy, k, b), bs[1..]);
    }
  }

  lemma WithGapsTwins(l: Ledger, k: Ledger, gaps: set<Issue>)
    requires Twins(l, k)
    ensures Twins(WithGaps(l, gaps), WithGaps(k, gaps))
  {
    assert forall x: set<Issue> :: (x + gaps) * Limits == x * Limits + gaps * Limits;
  }

  lemma StartTwins(policy: Policy, seeds: seq<Seed>, others: seq<Seed>, complete: bool, other: bool)
    requires |seeds| == |others|
    requires forall i ::
             0 <= i < |seeds|
             ==> seeds[i].(boundaryVerified := false) == others[i].(boundaryVerified := false)
    ensures Twins(Start(policy, seeds, complete), Start(policy, others, other))
  {
    var k := Min(|seeds|, policy.maxAccounts);
    SeedNodesSame(seeds[..k], others[..k]);
    StartShape(policy, seeds, complete);
    StartShape(policy, others, other);
    hide Start, SeedNodes;
  }

  /** Nodes, uppers and limits of a start come from the seeds alone. */
  lemma StartShape(policy: Policy, seeds: seq<Seed>, complete: bool)
    ensures var l, nodes := Start(policy, seeds, complete), SeedNodes(seeds[..Min(|seeds|, policy.maxAccounts)]);
            && TwinNodes(l.nodes, nodes) && l.soldUpper == 0 && l.observedSale == 0
            && l.issues * Limits == if |seeds| > policy.maxAccounts then {AccountLimit} else {}
  {
    hide SeedNodes;
  }

  lemma {:induction false} SeedNodesSame(seeds: seq<Seed>, others: seq<Seed>)
    requires |seeds| == |others|
    requires forall i ::
             0 <= i < |seeds|
             ==> seeds[i].(boundaryVerified := false) == others[i].(boundaryVerified := false)
    ensures SeedNodes(seeds) == SeedNodes(others)
  {
    if seeds != [] {
      var k := |seeds| - 1;
      SeedNodesSame(seeds[..k], others[..k]);
      assert seeds[k].(boundaryVerified := false) == others[k].(boundaryVerified := false);
    }
  }

  /** Tracked accounts, balances, upper bounds and limits do not depend on what is asserted. */
  lemma ReplayIgnoresCompleteness(policy: Policy, h: Horizon, seeds: seq<Seed>, others: seq<Seed>, complete: bool,
                                  other: bool, raw: seq<RawBatch>)
    requires BodiesOk(raw) && |seeds| == |others|
    requires forall i ::
             0 <= i < |seeds|
             ==> seeds[i].(boundaryVerified := false) == others[i].(boundaryVerified := false)
    ensures Twins(Replayed(policy, h, seeds, complete, raw), Replayed(policy, h, others, other, raw))
  {
    PreparedOk(h, raw);
    var (bs, gaps) := Prepared(h, raw);
    StartTwins(policy, seeds, others, complete, other);
    WithGapsTwins(Start(policy, seeds, complete), Start(policy, others, other), gaps);
    hide Twins, Prepared, Start, WithGaps;
    BatchesTwins(policy, WithGaps(Start(policy, seeds, complete), gaps), WithGaps(Start(policy, others, other), gaps),
                 bs);
  }
}
