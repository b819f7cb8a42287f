/** The reported bounds of a finished analysis, in every world. */
module PositionBounds {
  import opened Wrappers
  import opened PositionLedger
  import opened PositionInvariants
  import opened PositionSoundness
  import opened MapTotals

  /** The purchase units no guaranteed claim accounts for. */
  ghost function Unknown(l: Ledger, total: nat): int {
    total - Claimed(l)
  }

  /** The reported upper bound of one tracked account. */
  ghost function HeldUpper(l: Ledger, confirmed: Confirmed, total: nat, a: Account): int
    requires a in l.nodes
  {
    var remaining := total - l.soldLower;
    if l.complete || (a in confirmed && confirmed[a].Some?) then
      Min(if l.complete then l.nodes[a].upper + Unknown(l, total) else remaining, l.nodes[a].balance)
    else remaining
  }

  /** The subtraction that the source guards with an exception never goes negative. */
  lemma AnalysisConserves(policy: Policy, seeds: seq<Seed>, historyComplete: bool, gaps: set<Issue>, bs: seq<Batch>,
                          closings: seq<ClosingRow>)
    requires SeedsOk(policy, seeds) && forall b :: b in bs ==> BatchOk(b)
    ensures var l := Analyze(policy, seeds, historyComplete, gaps, bs, closings).0;
            LedgerOk(policy, l) && Unknown(l, Bought(seeds)) >= 0
  {
    hide Total;
    BeginKeeps(policy, seeds, historyComplete, gaps);
    var l0 := Begin(policy, seeds, historyComplete, gaps);
    BatchesKeep(policy, l0, bs);
    ConfirmKeeps(policy, Batches(policy, l0, bs), map[], closings);
    var (l1, confirmed) := ConfirmAll(Batches(policy, l0, bs), map[], closings);
    SettleKeeps(policy, l1, confirmed);
  }

  // ---- the ends of the run ----

  /** The seeds are frozen evidence: exact balances, and at least the retained lower bounds. */
  ghost predicate SeedsTrue(seeds: seq<Seed>, w: World) {
    forall s :: s in seeds ==> Has(w.balance, s.account) == s.balance && s.lower <= Holds(w, s.account)
  }

  /** A closing balance that the analysis accepts is exact evidence at the horizon. */
  ghost predicate ClosingsTrue(l: Ledger, closings: seq<ClosingRow>, end: World) {
    forall row :: row in closings && row.inScope && row.account in l.nodes && row.amount.Some?
      ==> Has(end.balance, row.account) == row.amount.value
  }

  lemma {:induction false} SeedNodesTrue(seeds: seq<Seed>, w: World)
    requires SeedsTrue(seeds, w)
    ensures forall a :: a in SeedNodes(seeds) ==>
              SeedNodes(seeds)[a].lower <= Holds(w, a) && SeedNodes(seeds)[a].balance == Has(w.balance, a)
  {
    if seeds != [] {
      SeedNodesTrue(seeds[..|seeds| - 1], w);
      assert seeds[|seeds| - 1] in seeds;
    }
  }

  lemma StartSound(policy: Policy, seeds: seq<Seed>, historyComplete: bool, gaps: set<Issue>, w: World)
    requires SeedsTrue(seeds, w) && WorldOk(w, Bought(seeds))
    ensures Sound(Begin(policy, seeds, historyComplete, gaps), w, Bought(seeds))
  {
    SeedNodesTrue(seeds[..Min(|seeds|, policy.maxAccounts)], w);
  }

  lemma {:induction false} ConfirmSound(l: Ledger, seen: Confirmed, closings: seq<ClosingRow>, end: World, total: nat)
    requires Sound(l, end, total) && ClosingsTrue(l, closings, end)
    requires forall a :: a in seen && seen[a].Some? ==> seen[a].value == Has(end.balance, a)
    ensures var (r, confirmed) := ConfirmAll(l, seen, closings);
            && Sound(r, end, total)
            && (forall a :: a in confirmed && confirmed[a].Some? ==> confirmed[a].value == Has(end.balance, a))
    decreases |closings|
  {
    hide WorldOk;
    if closings != [] {
      var (r, next) := Confirm(l, seen, closings[0]);
      assert closings[0] in closings;
      ConfirmSound(r, next, closings[1..], end, total);
    }
  }

  /** Whatever else is attributed, one account's units fit beside the others' lower bounds. */
  lemma HoldingFits(l: Ledger, w: World, total: nat, a: Account)
    requires WorldOk(w, total) && Bounded(l, w) && a in l.nodes
    ensures Holds(w, a) <= Unknown(l, total) + l.nodes[a].lower
    ensures Holds(w, a) <= total - l.soldLower
  {
    hide Total;
    var raised := l.nodes[a := l.nodes[a].(lower := Holds(w, a))];
    TotalPut(l.nodes, LowerOf, a, raised[a]);
    TotalDominated(raised, LowerOf, w.attributed, Units);
    assert l.nodes[a := l.nodes[a]] == l.nodes;
  }

  // ---- the two groups of accounts ----

  ghost const UpperOf: Node -> nat := (n: Node) => n.upper

  ghost const BalanceOf: Node -> nat := (n: Node) => n.balance

  /** A measure restricted to the accounts of the original owners, or to all others. */
  ghost function Part(owners: set<Owner>, inside: bool, f: Node -> nat): Node -> nat {
    (n: Node) => if (n.owner in owners) == inside then f(n) else 0
  }

  /** What one of the two groups of tracked accounts really holds, account by account. */
  ghost function Held(nodes: map<Account, Node>, w: World, owners: set<Owner>, inside: bool): map<Account, nat> {
    map a | a in nodes :: if (nodes[a].owner in owners) == inside then Holds(w, a) else 0
  }

  /** The reported upper bound of one group; only the originals are also held to their balances. */
  ghost function GroupUpper(l: Ledger, total: nat, owners: set<Owner>, inside: bool): int {
    var remaining := total - l.soldLower;
    if !l.complete then remaining
    else
      var bound := Min(remaining - Total(l.nodes, Part(owners, !inside, LowerOf)),
                       Unknown(l, total) + Total(l.nodes, Part(owners, inside, UpperOf)));
      if inside then Min(bound, Total(l.nodes, Part(owners, inside, BalanceOf))) else bound
  }

  /** One group's holdings beside the other group's lower bounds. */
  ghost function Mixed(nodes: map<Account, Node>, w: World, owners: set<Owner>, inside: bool): map<Account, nat> {
    map a | a in nodes :: if (nodes[a].owner in owners) == inside then Holds(w, a) else nodes[a].lower
  }

  lemma {:induction false} MixedTotal(nodes: map<Account, Node>, w: World, owners: set<Owner>, inside: bool)
    ensures Total(Mixed(nodes, w, owners, inside), Units)
            == Total(Held(nodes, w, owners, inside), Units) + Total(nodes, Part(owners, !inside, LowerOf))
    decreases |nodes|
  {
    hide Total, Holds;
    if nodes == map[] {
      NothingTotal();
      NothingHeld();
    } else {
      var a :| a in nodes;
      var rest := nodes - {a};
      MixedWithout(nodes, w, owners, inside, a);
      TotalPick(Mixed(nodes, w, owners, inside), Units, a);
      TotalPick(Held(nodes, w, owners, inside), Units, a);
      TotalPick(nodes, Part(owners, !inside, LowerOf), a);
      MixedTotal(rest, w, owners, inside);
      hide Mixed, Held;
    }
  }

  lemma MixedWithout(nodes: map<Account, Node>, w: World, owners: set<Owner>, inside: bool, a: Account)
    requires a in nodes
    ensures Mixed(nodes, w, owners, inside) - {a} == Mixed(nodes - {a}, w, owners, inside)
    ensures Held(nodes, w, owners, inside) - {a} == Held(nodes - {a}, w, owners, inside)
    ensures a in Mixed(nodes, w, owners, inside) && a in Held(nodes, w, owners, inside)
    ensures Mixed(nodes, w, owners, inside)[a]
            == Held(nodes, w, owners, inside)[a] + if (nodes[a].owner in owners) == inside then 0 else nodes[a].lower
  {
    hide Holds;
  }

  lemma {:induction false} PartsAddUp(nodes: map<Account, Node>, owners: set<Owner>, f: Node -> nat)
    ensures Total(nodes, Part(owners, true, f)) + Total(nodes, Part(owners, false, f)) == Total(nodes, f)
    decreases |nodes|
  {
    hide Total;
    if nodes == map[] {
      NothingTotal();
    } else {
      var a :| a in nodes;
      TotalPick(nodes, Part(owners, true, f), a);
      TotalPick(nodes, Part(owners, false, f), a);
      TotalPick(nodes, f, a);
      PartsAddUp(nodes - {a}, owners, f);
    }
  }

  ghost predicate GroupTrue(l: Ledger, w: World, total: nat, owners: set<Owner>, inside: bool) {
    Total(l.nodes, Part(owners, inside, LowerOf)) <= Total(Held(l.nodes, w, owners, inside), Units)
    <= GroupUpper(l, total, owners, inside)
  }

  /** Each group of tracked accounts really holds at most its reported upper bound, in every world. */
  lemma GroupsBounded(policy: Policy, l: Ledger, w: World, total: nat, owners: set<Owner>, inside: bool)
    requires LedgerOk(policy, l) && Sound(l, w, total)
    ensures GroupTrue(l, w, total, owners, inside)
  {
    hide Total, Held, Part;
    MixedTotal(l.nodes, w, owners, inside);
    MixedFits(l, w, total, owners, inside);
    PartsAddUp(l.nodes, owners, LowerOf);
    GroupsOrdered(policy, l, w, total, owners, inside);
    hide LedgerOk, Sound, Bounded, Mixed;
  }

  lemma MixedFits(l: Ledger, w: World, total: nat, owners: set<Owner>, inside: bool)
    requires Sound(l, w, total)
    ensures Total(Mixed(l.nodes, w, owners, inside), Units) <= total - w.sold <= total - l.soldLower
  {
    hide Total;
    TotalDominated(Mixed(l.nodes, w, owners, inside), Units, w.attributed, Units);
  }

  lemma GroupsOrdered(policy: Policy, l: Ledger, w: World, total: nat, owners: set<Owner>, inside: bool)
    requires LedgerOk(policy, l) && Sound(l, w, total)
    ensures var held := Total(Held(l.nodes, w, owners, inside), Units);
            && Total(l.nodes, Part(owners, inside, LowerOf)) <= held
            && Total(l.nodes, Part(owners, inside, LowerOf)) <= Total(l.nodes, Part(owners, inside, UpperOf))
            && (l.complete ==> held <= Total(l.nodes, Part(owners, inside, BalanceOf)))
  {
    hide Total;
    var held := Held(l.nodes, w, owners, inside);
    TotalDominated(l.nodes, Part(owners, inside, LowerOf), held, Units);
    TotalDominated(l.nodes, Part(owners, inside, LowerOf), l.nodes, Part(owners, inside, UpperOf));
    if l.complete {
      TotalDominated(held, Units, l.nodes, Part(owners, inside, BalanceOf));
    }
  }

  // ---- the report ----

  /**
   The report is true: at least the guaranteed sales took place, each tracked account holds
   between its bounds, and so do the original owners' accounts together and all others together.
   */
  ghost predicate ReportTrue(l: Ledger, confirmed: Confirmed, end: World, total: nat) {
    && l.soldLower <= end.sold
    && (forall a :: a in l.nodes ==>
          l.nodes[a].lower <= Holds(end, a) <= HeldUpper(l, confirmed, total, a))
    && forall owners: set<Owner>, inside: bool :: GroupTrue(l, end, total, owners, inside)
  }

  lemma SettledBounds(policy: Policy, l: Ledger, confirmed: Confirmed, end: World, total: nat)
    requires LedgerOk(policy, l) && Sound(l, end, total)
    requires forall a :: a in confirmed && confirmed[a].Some? ==> confirmed[a].value == Has(end.balance, a)
    ensures Sound(Settle(l, confirmed), end, total) && ReportTrue(Settle(l, confirmed), confirmed, end, total)
  {
    hide Total, GroupTrue;
    SettleKeeps(policy, l, confirmed);
    var r := Settle(l, confirmed);
    SettledSound(l, confirmed, end, total);
    forall owners: set<Owner>, inside: bool ensures GroupTrue(r, end, total, owners, inside) {
      GroupsBounded(policy, r, end, total, owners, inside);
    }
    hide Settle, WorldOk;
    forall a | a in r.nodes
      ensures r.nodes[a].lower <= Holds(end, a) <= HeldUpper(r, confirmed, total, a)
    {
      SettledHolding(policy, l, confirmed, end, total, a);
    }
  }

  lemma SettledSound(l: Ledger, confirmed: Confirmed, end: World, total: nat)
    requires Sound(l, end, total)
    requires forall a :: a in confirmed && confirmed[a].Some? ==> confirmed[a].value == Has(end.balance, a)
    ensures Sound(Settle(l, confirmed), end, total)
  {
    hide WorldOk, Has, Holds;
    var r, rows := Settle(l, confirmed), ConfirmedRows(confirmed);
    forall a | a in l.nodes
      ensures r.nodes[a].lower <= l.nodes[a].lower
      ensures r.nodes[a].balance == if a in rows then confirmed[a].value else l.nodes[a].balance
    {
    }
    hide Settle, ConfirmedRows;
  }

  lemma SettledHolding(policy: Policy, l: Ledger, confirmed: Confirmed, end: World, total: nat, a: Account)
    requires LedgerOk(policy, l) && Sound(l, end, total) && a in l.nodes
    requires forall a :: a in confirmed && confirmed[a].Some? ==> confirmed[a].value == Has(end.balance, a)
    ensures var r := Settle(l, confirmed);
            r.nodes[a].lower <= Holds(end, a) <= HeldUpper(r, confirmed, total, a)
  {
    hide Total;
    SettleKeeps(policy, l, confirmed);
    SettledSound(l, confirmed, end, total);
    HoldingFits(Settle(l, confirmed), end, total, a);
    assert Holds(end, a) <= Has(end.balance, a);
  }

  /**
   Main result: in every world that explains the observations, everything reported is true: the
   bounds of each tracked account and of the two groups, and the sales.
   */
  lemma AnalysisSound(policy: Policy, seeds: seq<Seed>, historyComplete: bool, gaps: set<Issue>, w: World,
                      epochs: seq<Epoch>, closings: seq<ClosingRow>, end: World)
    requires SeedsOk(policy, seeds) && SeedsTrue(seeds, w) && WorldOk(w, Bought(seeds))
    requires forall e :: e in epochs ==> BatchOk(e.batch) && BatchSafe(e.batch)
    requires Explains(policy, Begin(policy, seeds, historyComplete, gaps), w, epochs, end, Bought(seeds))
    requires AllClaimsCovered(policy, Begin(policy, seeds, historyComplete, gaps), Observed(epochs))
    requires ClosingsTrue(Batches(policy, Begin(policy, seeds, historyComplete, gaps), Observed(epochs)), closings, end)
    ensures var (l, confirmed) := Analyze(policy, seeds, historyComplete, gaps, Observed(epochs), closings);
            ReportTrue(l, confirmed, end, Bought(seeds))
  {
    hide Total;
    var total, l0, bs := Bought(seeds), Begin(policy, seeds, historyComplete, gaps), Observed(epochs);
    BeginKeeps(policy, seeds, historyComplete, gaps);
    StartSound(policy, seeds, historyComplete, gaps, w);
    ReplaySound(policy, l0, w, epochs, end, total);
    BatchesKeep(policy, l0, bs);
    ConfirmSound(Batches(policy, l0, bs), map[], closings, end, total);
    ConfirmKeeps(policy, Batches(policy, l0, bs), map[], closings);
    var (l1, confirmed) := ConfirmAll(Batches(policy, l0, bs), map[], closings);
    hide LedgerOk, Sound, Settle, ReportTrue, Explains, WorldOk;
    SettledBounds(policy, l1, confirmed, end, total);
  }

  /** A run that ends complete needs no condition on its transactions at all. */
  lemma CompleteAnalysisSound(policy: Policy, seeds: seq<Seed>, gaps: set<Issue>, w: World, epochs: seq<Epoch>,
                              closings: seq<ClosingRow>, end: World)
    requires SeedsOk(policy, seeds) && SeedsTrue(seeds, w) && WorldOk(w, Bought(seeds))
    requires forall e :: e in epochs ==> BatchOk(e.batch) && BatchSafe(e.batch)
    requires Explains(policy, Begin(policy, seeds, true, gaps), w, epochs, end, Bought(seeds))
    requires ClosingsTrue(Batches(policy, Begin(policy, seeds, true, gaps), Observed(epochs)), closings, end)
    requires Analyze(policy, seeds, true, gaps, Observed(epochs), closings).0.complete
    ensures var (l, confirmed) := Analyze(policy, seeds, true, gaps, Observed(epochs), closings);
            ReportTrue(l, confirmed, end, Bought(seeds))
  {
    hide Total;
    var l0, bs := Begin(policy, seeds, true, gaps), Observed(epochs);
    BeginKeeps(policy, seeds, true, gaps);
    BatchesKeep(policy, l0, bs);
    ConfirmKeeps(policy, Batches(policy, l0, bs), map[], closings);
    CompleteRunCovered(policy, l0, bs);
    AnalysisSound(policy, seeds, true, gaps, w, epochs, closings, end);
  }

  /** The guaranteed units split by original owners and others; with `unknown` they add up. */
  method Summarize(l: Ledger, originals: set<Owner>, total: nat)
    returns (original: nat, transferred: nat, unknown: int, upperOriginal: int, upperTransferred: int)
    ensures original == Total(l.nodes, Part(originals, true, LowerOf))
    ensures original + transferred == Total(l.nodes, LowerOf)
    ensures unknown == Unknown(l, total) && original + transferred + l.soldLower + unknown == total
    ensures upperOriginal == GroupUpper(l, total, originals, true)
    ensures upperTransferred == GroupUpper(l, total, originals, false)
  {
    hide Total, Part;
    original, transferred := 0, 0;
    var balances, uppers, otherUppers := 0, 0, 0;
    var rest := l.nodes;
    while rest.Keys != {}
      invariant forall a :: a in rest ==> a in l.nodes && rest[a] == l.nodes[a]
      invariant original + Total(rest, Part(originals, true, LowerOf)) == Total(l.nodes, Part(originals, true, LowerOf))
      invariant transferred + Total(rest, Part(originals, false, LowerOf))
                == Total(l.nodes, Part(originals, false, LowerOf))
      invariant balances + Total(rest, Part(originals, true, BalanceOf))
                == Total(l.nodes, Part(originals, true, BalanceOf))
      invariant uppers + Total(rest, Part(originals, true, UpperOf)) == Total(l.nodes, Part(originals, true, UpperOf))
      invariant otherUppers + Total(rest, Part(originals, false, UpperOf))
                == Total(l.nodes, Part(originals, false, UpperOf))
      decreases |rest|
    {
      var a :| a in rest.Keys;
      var n := rest[a];
      PickPart(rest, originals, a);
      if n.owner in originals {
        original, balances, uppers := original + n.lower, balances + n.balance, uppers + n.upper;
      } else {
        transferred, otherUppers := transferred + n.lower, otherUppers + n.upper;
      }
      rest := rest - {a};
    }
    assert rest == map[];
    NothingTotal();
    PartsAddUp(l.nodes, originals, LowerOf);
    unknown := total - original - transferred - l.soldLower;
    var remaining := total - l.soldLower;
    upperOriginal := if l.complete then Min(Min(remaining - transferred, unknown + uppers), balances) else remaining;
    upperTransferred := if l.complete then Min(remaining - original, unknown + otherUppers) else remaining;
  }

  lemma PickPart(nodes: map<Account, Node>, owners: set<Owner>, a: Account)
    requires a in nodes
    ensures var inside, rest := nodes[a].owner in owners, nodes - {a};
            && (forall side :: Total(nodes, Part(owners, side, LowerOf))
                               == Total(rest, Part(owners, side, LowerOf)) + if side == inside then nodes[a].lower
                                   else 0)
            && (forall side :: Total(nodes, Part(owners, side, UpperOf))
                               == Total(rest, Part(owners, side, UpperOf)) + if side == inside then nodes[a].upper
                                   else 0)
            && (forall side :: Total(nodes, Part(owners, side, BalanceOf))
                               == Total(rest, Part(owners, side, BalanceOf)) + if side == inside then nodes[a].balance
                                   else 0)
  {
    hide Total;
    forall side: bool
      ensures var inside, rest := nodes[a].owner in owners, nodes - {a};
              && Total(nodes, Part(owners, side, LowerOf))
                 == Total(rest, Part(owners, side, LowerOf)) + (if side == inside then nodes[a].lower else 0)
              && Total(nodes, Part(owners, side, UpperOf))
                 == Total(rest, Part(owners, side, UpperOf)) + (if side == inside then nodes[a].upper else 0)
              && Total(nodes, Part(owners, side, BalanceOf)) == Total(rest, Part(owners, side, BalanceOf)) + if side
                 == inside then nodes[a].balance else 0
    {
      TotalPick(nodes, Part(owners, side, LowerOf), a);
      TotalPick(nodes, Part(owners, side, UpperOf), a);
      TotalPick(nodes, Part(owners, side, BalanceOf), a);
    }
  }

  lemma NothingTotal()
    ensures forall f: Node -> nat :: Total<Account, Node>(map[], f) == 0
  {}

  lemma NothingHeld()
    ensures forall f: nat -> nat :: Total<Account, nat>(map[], f) == 0
  {}
}
