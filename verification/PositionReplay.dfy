/** The replay as the source runs it: node by node and leg by leg, on state updated in place. */
module PositionReplay {
  import opened Wrappers
  import opened PositionLedger
  import opened PositionOrder

  class Replay {
    const policy: Policy
    var nodes: map<Account, Node>
    var soldLower: nat
    var soldUpper: nat
    var observedSale: nat
    var complete: bool
    var issues: set<Issue>

    function State(): Ledger
      reads this
    {
      Ledger(nodes, soldLower, soldUpper, observedSale, complete, issues)
    }

    /** Seeds enter one by one; those beyond the account limit are dropped, and that is a gap. */
    constructor (policy: Policy, seeds: seq<Seed>, historyComplete: bool)
      ensures this.policy == policy
      ensures State() == Start(policy, seeds, historyComplete)
    {
      this.policy := policy;
      soldLower, soldUpper, observedSale := 0, 0, 0;
      nodes, complete, issues := map[], historyComplete, {};
      new;
      var kept := Min(|seeds|, policy.maxAccounts);
      EnterSeeds(seeds[..kept]);
      var verified := AllVerified(seeds);
      hide SeedNodes, ZeroLowers;
      if kept < |seeds| {
        issues, complete := issues + {AccountLimit}, false;
      }
      if !complete { Gap(IncompleteHistory); }
      if !verified { Gap(ReceiptBoundaryUnverified); }
    }

    method EnterSeeds(seeds: seq<Seed>)
      requires nodes == map[]
      modifies this`nodes
      ensures nodes == SeedNodes(seeds)
    {
      for i := 0 to |seeds|
        invariant nodes == SeedNodes(seeds[..i])
      {
        var s := seeds[i];
        assert seeds[..i + 1][..i] == seeds[..i];
        nodes := nodes[s.account := Node(s.owner, s.balance, s.lower, s.upper, 0)];
      }
      assert seeds[..|seeds|] == seeds;
    }

    static method AllVerified(seeds: seq<Seed>) returns (verified: bool)
      ensures verified <==> forall s :: s in seeds ==> s.boundaryVerified
    {
      verified := true;
      for i := 0 to |seeds|
        invariant verified <==> forall k :: 0 <= k < i ==> seeds[k].boundaryVerified
      {
        verified := verified && seeds[i].boundaryVerified;
      }
    }

    method Gap(issue: Issue)
      modifies this
      ensures State() == PositionLedger.Gap(old(State()), issue)
    {
      issues, complete := issues + {issue}, false;
      var todo := nodes.Keys;
      while todo != {}
        invariant todo <= nodes.Keys == old(nodes).Keys
        invariant forall a :: a in nodes ==> nodes[a] == if a in todo then old(nodes)[a] else old(nodes)[a].(lower := 0)
        invariant State() == old(State()).(nodes := nodes, issues := issues, complete := false)
        invariant issues == old(issues) + {issue}
        decreases |todo|
      {
        var a :| a in todo;
        nodes, todo := nodes[a := nodes[a].(lower := 0)], todo - {a};
      }
      assert nodes == ZeroLowers(old(nodes));
    }

    method RecordGaps(gaps: set<Issue>)
      modifies this
      ensures State() == WithGaps(old(State()), gaps)
    {
      var todo := gaps;
      assert gaps - todo == {};
      while todo != {}
        invariant todo <= gaps
        invariant State() == WithGaps(old(State()), gaps - todo)
        decreases |todo|
      {
        var issue :| issue in todo;
        assert gaps - (todo - {issue}) == (gaps - todo) + {issue};
        Gap(issue);
        todo := todo - {issue};
      }
      assert gaps - todo == gaps;
    }

    method DebitSender(leg: Leg, valid: bool) returns (lower: nat, upper: nat)
      modifies this
      ensures (State(), lower, upper) == Debit(old(State()), leg, valid)
    {
      lower, upper := 0, 0;
      if leg.source in nodes && leg.sourceOwner == nodes[leg.source].owner {
        var n := nodes[leg.source];
        if leg.amount > n.balance {
          Gap(UnreconciledBalance);
          nodes := nodes[leg.source := nodes[leg.source].(upper := 0)];
        } else {
          lower := if valid then Guaranteed(leg.amount, n.balance, n.lower) else 0;
          upper := Min(leg.amount, n.upper);
          nodes := nodes[leg.source := n.(balance := n.balance - leg.amount, lower := Max(0, n.lower - leg.amount),
                                          upper := Min(n.upper, n.balance - leg.amount))];
        }
      }
    }

    method DiscoverRecipient(rows: map<Account, Row>, leg: Leg)
      requires leg.source in nodes && leg.destination in rows && rows[leg.destination].before.Some?
      modifies this
      ensures State() == Discover(policy, old(State()), rows, leg)
    {
      var depth := nodes[leg.source].depth + 1;
      if |nodes| >= policy.maxAccounts {
        issues := issues + {AccountLimit};
      } else if depth > policy.maxDepth {
        issues := issues + {DepthLimit};
      } else {
        nodes := nodes[leg.destination := Node(leg.destinationOwner, rows[leg.destination].before.value, 0, 0, depth)];
      }
    }

    method CreditRecipient(leg: Leg, valid: bool, lower: nat, upper: nat)
      modifies this
      ensures State() == Credit(old(State()), leg, valid, lower, upper)
    {
      if leg.destination in nodes && nodes[leg.destination].owner == leg.destinationOwner {
        var n := nodes[leg.destination];
        nodes := nodes[leg.destination := n.(balance := n.balance + leg.amount,
                                             lower := n.lower + (if valid then lower else 0),
                                             upper := n.upper + (if valid then upper else 0))];
      }
    }

    method ApplyLeg(rows: map<Account, Row>, leg: Leg)
      requires RowsOk(rows) && LegInRows(rows, leg)
      modifies this
      ensures State() == LegStep(policy, old(State()), rows, leg)
    {
      hide Debit, Discover, Credit;
      if MovesNothing(leg) { return; }
      var valid := Valid(rows, leg);
      var lower, upper := DebitSender(leg, valid);
      if leg.verifiedSale && valid {
        observedSale, soldLower, soldUpper := observedSale + leg.amount, soldLower + lower, soldUpper + upper;
      } else if !IsService(policy, leg.destination, leg.destinationOwner) {
        if valid && leg.destination !in nodes && leg.source in nodes && upper > 0 {
          DiscoverRecipient(rows, leg);
        }
        CreditRecipient(leg, valid, lower, upper);
      }
    }

    method ReadRow(a: Account, row: Row, read: Reading)
      requires a in nodes
      modifies this
      ensures State() == ReadOne(old(State()), a, row, read)
    {
      var (n, issue) := Read(read, nodes[a], row);
      if issue.Some? {
        Gap(issue.value);
      }
      nodes := nodes[a := n.(lower := nodes[a].lower)];
    }

    /** One pass over the tracked rows: a gap found at one account clears bounds already read. */
    method ReadRows(rows: map<Account, Row>, read: Reading)
      modifies this
      ensures State() == PositionLedger.ReadRows(old(State()), rows, read)
    {
      var todo := rows.Keys;
      ghost var l := State();
      PartwayNone(l, rows, read);
      PartwayAll(l, rows, read);
      hide Partway, ReadOne, PositionLedger.ReadRows;
      assert rows.Keys - todo == {};
      while todo != {}
        invariant todo <= rows.Keys
        invariant State() == Partway(l, rows, rows.Keys - todo, read)
        decreases |todo|
      {
        var a :| a in todo;
        assert rows.Keys - (todo - {a}) == (rows.Keys - todo) + {a};
        PartwayStep(l, rows, rows.Keys - todo, read, a);
        todo := todo - {a};
        if a in nodes {
          ReadRow(a, rows[a], read);
        }
      }
      assert rows.Keys - todo == rows.Keys;
    }

    method ApplyBatch(b: Batch)
      requires BatchOk(b)
      modifies this
      ensures State() == BatchStep(policy, old(State()), b)
    {
      if b.status == Failed { return; }
      if b.status == Unavailable {
        Gap(UnavailableTransaction);
        return;
      }
      if b.status == Partial { Gap(PartialTransaction); }
      if !AllComplete(b.rows) { Gap(IncompleteAccounts); }
      assert State() == Admit(old(State()), b);
      ReadRows(b.rows, Opening);
      ghost var ready := State();
      for i := 0 to |b.legs|
        invariant Legs(policy, State(), b.rows, b.legs[i..]) == Legs(policy, ready, b.rows, b.legs)
      {
        assert b.legs[i..][0] == b.legs[i] && b.legs[i..][1..] == b.legs[i + 1..];
        ApplyLeg(b.rows, b.legs[i]);
      }
      ReadRows(b.rows, Closing);
    }

    method ApplyAll(bs: seq<Batch>)
      requires forall b :: b in bs ==> BatchOk(b)
      modifies this
      ensures State() == Batches(policy, old(State()), bs)
    {
      for i := 0 to |bs|
        invariant Batches(policy, State(), bs[i..]) == Batches(policy, old(State()), bs)
      {
        assert bs[i..][0] == bs[i] && bs[i..][1..] == bs[i + 1..];
        ApplyBatch(bs[i]);
      }
    }

    method ConfirmClosings(closings: seq<ClosingRow>) returns (confirmed: Confirmed)
      modifies this
      ensures (State(), confirmed) == ConfirmAll(old(State()), map[], closings)
      ensures confirmed.Keys <= nodes.Keys
    {
      confirmed := map[];
      for i := 0 to |closings|
        invariant ConfirmAll(State(), confirmed, closings[i..]) == ConfirmAll(old(State()), map[], closings)
        invariant confirmed.Keys <= nodes.Keys
      {
        var row := closings[i];
        assert closings[i..][0] == row && closings[i..][1..] == closings[i + 1..];
        ghost var step := Confirm(State(), confirmed, row);
        if !row.inScope || row.account !in nodes || row.owner != nodes[row.account].owner {
          Gap(ClosingScope);
        } else if row.amount.None? {
          Gap(ClosingAmount);
        } else if row.account !in confirmed {
          confirmed := confirmed[row.account := row.amount];
        } else if confirmed[row.account] != row.amount {
          Gap(ConflictingClosing);
          confirmed := confirmed[row.account := None];
        }
        assert (State(), confirmed) == step;
      }
    }

    method Settle(confirmed: Confirmed)
      modifies this
      ensures State() == PositionLedger.Settle(old(State()), confirmed)
    {
      ReadRows(ConfirmedRows(confirmed), Settling);
    }
  }

  // ---- a pass over rows, part of the way ----

  function Found(l: Ledger, rows: map<Account, Row>, done: set<Account>, read: Reading): set<Issue> {
    set a | a in l.nodes && a in rows && a in done
        && Read(read, l.nodes[a], rows[a]).1.Some? :: Read(read, l.nodes[a], rows[a]).1.value
  }

  function SeenNodes(l: Ledger, rows: map<Account, Row>, done: set<Account>, read: Reading,
                     gap: bool): (r: map<Account, Node>)
    ensures r.Keys == l.nodes.Keys
  {
    map a | a in l.nodes ::
      var n := if a in rows && a in done then Read(read, l.nodes[a], rows[a]).0 else l.nodes[a];
      if gap then n.(lower := 0) else n
  }

  /** The ledger after reading the rows of `done` only. */
  function Partway(l: Ledger, rows: map<Account, Row>, done: set<Account>, read: Reading): Ledger {
    var gaps := Found(l, rows, done, read);
    l.(nodes := SeenNodes(l, rows, done, read, gaps != {}), complete := l.complete && gaps == {},
       issues := l.issues + gaps)
  }

  function ReadOne(l: Ledger, a: Account, row: Row, read: Reading): Ledger
    requires a in l.nodes
  {
    var (n, issue) := Read(read, l.nodes[a], row);
    var g := if issue.Some? then PositionLedger.Gap(l, issue.value) else l;
    g.(nodes := g.nodes[a := n.(lower := g.nodes[a].lower)])
  }

  lemma FoundStep(l: Ledger, rows: map<Account, Row>, done: set<Account>, read: Reading, a: Account)
    requires a in rows && a !in done
    ensures var more := if a in l.nodes && Read(read, l.nodes[a], rows[a]).1.Some?
            then {Read(read, l.nodes[a], rows[a]).1.value} else {};
            Found(l, rows, done + {a}, read) == Found(l, rows, done, read) + more
  {}

  lemma SeenElsewhere(l: Ledger, rows: map<Account, Row>, done: set<Account>, read: Reading, a: Account, b: Account,
                      gap: bool, later: bool)
    requires b in l.nodes && b != a && (gap ==> later)
    ensures SeenNodes(l, rows, done + {a}, read, later)[b]
            == if later then SeenNodes(l, rows, done, read, gap)[b].(lower := 0)
                else SeenNodes(l, rows, done, read, gap)[b]
  {}

  lemma SeenHere(l: Ledger, rows: map<Account, Row>, done: set<Account>, read: Reading, a: Account, gap: bool,
                 later: bool)
    requires a in rows && a !in done && a in l.nodes && (gap ==> later)
    ensures var seen := SeenNodes(l, rows, done, read, gap)[a];
            && Read(read, seen, rows[a]).1 == Read(read, l.nodes[a], rows[a]).1
            && SeenNodes(l, rows, done + {a}, read, later)[a]
               == if later then Read(read, seen, rows[a]).0.(lower := 0) else Read(read, seen, rows[a]).0
  {
    assert Read(read, l.nodes[a].(lower := 0), rows[a])
           == (Read(read, l.nodes[a], rows[a]).0.(lower := 0), Read(read, l.nodes[a], rows[a]).1);
  }

  lemma ReadOneAt(l: Ledger, a: Account, row: Row, read: Reading, b: Account)
    requires a in l.nodes && b in l.nodes
    ensures var (n, issue) := Read(read, l.nodes[a], row);
            var m := if b == a then n else l.nodes[b];
            ReadOne(l, a, row, read).nodes[b] == if issue.Some? then m.(lower := 0) else m
  {}

  /** One account after one more row, against the step that reads the row. */
  lemma PartwayNode(l: Ledger, rows: map<Account, Row>, done: set<Account>, read: Reading, a: Account, b: Account)
    requires a in rows && a !in done && a in l.nodes && b in l.nodes
    ensures Partway(l, rows, done + {a}, read).nodes[b]
            == ReadOne(Partway(l, rows, done, read), a, rows[a], read).nodes[b]
  {
    hide Read, ReadOne;
    var p, r := Partway(l, rows, done, read), Partway(l, rows, done + {a}, read);
    var gap, later := Found(l, rows, done, read) != {}, Found(l, rows, done + {a}, read) != {};
    assert p.nodes == SeenNodes(l, rows, done, read, gap) && r.nodes == SeenNodes(l, rows, done + {a}, read, later);
    FoundStep(l, rows, done, read, a);
    assert later <==> gap || Read(read, l.nodes[a], rows[a]).1.Some?;
    hide Partway, SeenNodes, Found;
    SeenHere(l, rows, done, read, a, gap, later);
    ReadOneAt(p, a, rows[a], read, b);
    ReadKeepsLower(read, p.nodes[a], rows[a]);
    if gap { SeenLowers(l, rows, done, read, b); }
    if b != a { SeenElsewhere(l, rows, done, read, a, b, gap, later); }
  }

  lemma ReadKeepsLower(read: Reading, n: Node, row: Row)
    ensures Read(read, n, row).0.lower == n.lower
  {}

  lemma SeenLowers(l: Ledger, rows: map<Account, Row>, done: set<Account>, read: Reading, b: Account)
    requires b in l.nodes
    ensures SeenNodes(l, rows, done, read, true)[b].lower == 0
  {}

  /** Apart from the nodes, one more row does what the step does. */
  lemma PartwayFlags(l: Ledger, rows: map<Account, Row>, done: set<Account>, read: Reading, a: Account)
    requires a in rows && a !in done && a in l.nodes
    ensures var q, r := ReadOne(Partway(l, rows, done, read), a, rows[a], read), Partway(l, rows, done + {a}, read);
            q.nodes.Keys == r.nodes.Keys && q == r.(nodes := q.nodes)
  {
    hide Read, SeenNodes;
    FoundStep(l, rows, done, read, a);
    SeenHere(l, rows, done, read, a, Found(l, rows, done, read) != {}, true);
    hide Found;
  }

  /** A row of an untracked account changes nothing. */
  lemma PartwaySkips(l: Ledger, rows: map<Account, Row>, done: set<Account>, read: Reading, a: Account)
    requires a in rows && a !in done && a !in l.nodes
    ensures Partway(l, rows, done + {a}, read) == Partway(l, rows, done, read)
  {
    hide Read;
    FoundStep(l, rows, done, read, a);
    hide Found;
    var gap := Found(l, rows, done, read) != {};
    assert SeenNodes(l, rows, done + {a}, read, gap) == SeenNodes(l, rows, done, read, gap);
  }

  lemma PartwayStep(l: Ledger, rows: map<Account, Row>, done: set<Account>, read: Reading, a: Account)
    requires a in rows && a !in done
    ensures var p, r := Partway(l, rows, done, read), Partway(l, rows, done + {a}, read);
            p.nodes.Keys == l.nodes.Keys && r == if a in p.nodes then ReadOne(p, a, rows[a], read) else p
  {
    var p, r := Partway(l, rows, done, read), Partway(l, rows, done + {a}, read);
    assert p.nodes.Keys == l.nodes.Keys && r.nodes.Keys == l.nodes.Keys;
    hide Partway, ReadOne;
    if a in l.nodes {
      var q := ReadOne(p, a, rows[a], read);
      PartwayFlags(l, rows, done, read, a);
      forall b | b in l.nodes ensures r.nodes[b] == q.nodes[b] {
        PartwayNode(l, rows, done, read, a, b);
      }
      assert q.nodes == r.nodes;
    } else {
      PartwaySkips(l, rows, done, read, a);
    }
  }

  lemma PartwayNone(l: Ledger, rows: map<Account, Row>, read: Reading)
    ensures Partway(l, rows, {}, read) == l
  {
    assert Found(l, rows, {}, read) == {};
    assert SeenNodes(l, rows, {}, read, false) == l.nodes;
  }

  lemma PartwayAll(l: Ledger, rows: map<Account, Row>, read: Reading)
    ensures Partway(l, rows, rows.Keys, read) == PositionLedger.ReadRows(l, rows, read)
  {
    assert Found(l, rows, rows.Keys, read) == Revealed(l, rows, read);
    assert SeenNodes(l, rows, rows.Keys, read, Revealed(l, rows, read) != {})
           == PositionLedger.ReadRows(l, rows, read).nodes;
  }

  /** Arrange, start, record what could not be arranged as gaps, and replay the rest. */
  method Run(policy: Policy, h: Horizon, seeds: seq<Seed>, historyComplete: bool, raw: seq<RawBatch>)
    returns (r: Replay)
    requires BodiesOk(raw)
    ensures fresh(r) && r.policy == policy
    ensures r.State() == Replayed(policy, h, seeds, historyComplete, raw)
  {
    PreparedOk(h, raw);
    r := new Replay(policy, seeds, historyComplete);
    var bs, gaps := [], {TransactionLimit};
    if |raw| <= h.maxTransactions {
      var ordered;
      ordered, gaps := Arrange(h, raw);
      OrderUnique(ordered, Arranged(h, Members(raw)), Retained(Eligible(h, Members(raw))));
      bs := Bodies(ordered);
      if Events(bs) > h.maxEvents {
        bs, gaps := [], gaps + {EventLimit};
      }
    }
    r.RecordGaps(gaps);
    r.ApplyAll(bs);
  }
}
