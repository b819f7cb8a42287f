/** The state of one frozen position and what each observation does to it. */
module PositionLedger {
  // The specification that the imperative replay in PositionReplay.dfy follows step for step.
  //
  // Token units are fungible. A node keeps the recorded balance of one token account, a guaranteed
  // lower bound on the units of the frozen purchase it still holds, and an upper bound. `complete`
  // falls, together with every lower bound, at the first gap.

  import opened Wrappers

  // Addresses are only ever compared, so their spelling is left out.
  datatype Address = Address(id: nat)
  type Account = Address
  type Owner = Address

  datatype Node = Node(owner: Owner, balance: nat, lower: nat, upper: nat, depth: nat)

  /** One token account of the position's mint in one transaction. */
  datatype Row = Row(owner: Owner, before: Option<nat>, after: Option<nat>, complete: bool)

  datatype Leg = Leg(source: Account, sourceOwner: Owner, destination: Account,
                     destinationOwner: Owner, amount: nat, verifiedSale: bool)

  datatype Status = Parsed | Partial | Failed | Unavailable

  datatype Batch = Batch(status: Status, rows: map<Account, Row>, legs: seq<Leg>)

  datatype Policy = Policy(serviceAccounts: set<Account>, serviceOwners: set<Owner>,
                           maxAccounts: nat, maxDepth: nat)

  datatype Issue =
    | IncompleteHistory | ReceiptBoundaryUnverified | AccountLimit | DepthLimit | EventLimit
    | TransactionLimit | UnavailableTransaction | PartialTransaction | IncompleteAccounts
    | OwnerChanged | MissingPreBalance | LedgerGap | UnreconciledBalance
    | InvalidScope | MissingSignature | ConflictingDuplicate | OutsideHorizon | MissingOrder | AmbiguousOrder
    | ClosingScope | ClosingAmount | ConflictingClosing | ClosingMismatch

  datatype Ledger = Ledger(nodes: map<Account, Node>, soldLower: nat, soldUpper: nat,
                           observedSale: nat, complete: bool, issues: set<Issue>)

  /** The units of an outgoing amount that must be attributed: what the rest cannot cover. */
  function Guaranteed(amount: nat, balance: int, lower: int): nat {
    Max(0, amount - (balance - lower))
  }

  function ZeroLowers(nodes: map<Account, Node>): map<Account, Node> {
    map a | a in nodes :: nodes[a].(lower := 0)
  }

  function Gap(l: Ledger, issue: Issue): Ledger {
    l.(nodes := ZeroLowers(l.nodes), complete := false, issues := l.issues + {issue})
  }

  // ---- one transfer leg ----

  predicate MovesNothing(leg: Leg) {
    leg.source == leg.destination || leg.amount == 0
  }

  predicate Valid(rows: map<Account, Row>, leg: Leg)
    requires leg.source in rows && leg.destination in rows
  {
    rows[leg.source].complete && rows[leg.destination].complete
  }

  predicate IsService(policy: Policy, account: Account, owner: Owner) {
    account in policy.serviceAccounts || owner in policy.serviceOwners
  }

  predicate TracksSender(l: Ledger, leg: Leg) {
    leg.source in l.nodes && leg.sourceOwner == l.nodes[leg.source].owner
  }

  /** What leaves the sender, with the attributed lower and upper share of the leg. */
  function Debit(l: Ledger, leg: Leg, valid: bool): (r: (Ledger, nat, nat))
    ensures r.0.nodes.Keys == l.nodes.Keys
  {
    if !TracksSender(l, leg) then (l, 0, 0)
    else
      var n := l.nodes[leg.source];
      if leg.amount > n.balance then
        var g := Gap(l, UnreconciledBalance);
        (g.(nodes := g.nodes[leg.source := g.nodes[leg.source].(upper := 0)]), 0, 0)
      else
        var left := n.(balance := n.balance - leg.amount,
                       lower := Max(0, n.lower - leg.amount),
                       upper := Min(n.upper, n.balance - leg.amount));
        (l.(nodes := l.nodes[leg.source := left]),
         if valid then Guaranteed(leg.amount, n.balance, n.lower) else 0,
         Min(leg.amount, n.upper))
  }

  /** An untracked destination of possibly attributed units becomes a node, within the limits. */
  function Discover(policy: Policy, l: Ledger, rows: map<Account, Row>, leg: Leg): (r: Ledger)
    requires leg.source in l.nodes && leg.destination in rows
    requires rows[leg.destination].before.Some?
    ensures l.nodes.Keys <= r.nodes.Keys <= l.nodes.Keys + {leg.destination}
  {
    var depth := l.nodes[leg.source].depth + 1;
    if |l.nodes| >= policy.maxAccounts then l.(issues := l.issues + {AccountLimit})
    else if depth > policy.maxDepth then l.(issues := l.issues + {DepthLimit})
    else l.(nodes := l.nodes[leg.destination :=
                Node(leg.destinationOwner, rows[leg.destination].before.value, 0, 0, depth)])
  }

  function Credit(l: Ledger, leg: Leg, valid: bool, lower: nat, upper: nat): (r: Ledger)
    ensures r.nodes.Keys == l.nodes.Keys
  {
    if leg.destination in l.nodes && l.nodes[leg.destination].owner == leg.destinationOwner then
      var n := l.nodes[leg.destination];
      l.(nodes := l.nodes[leg.destination :=
                    n.(balance := n.balance + leg.amount,
                       lower := n.lower + (if valid then lower else 0),
                       upper := n.upper + (if valid then upper else 0))])
    else l
  }

  predicate LegInRows(rows: map<Account, Row>, leg: Leg) {
    && leg.source in rows && leg.destination in rows
    && leg.sourceOwner == rows[leg.source].owner
    && leg.destinationOwner == rows[leg.destination].owner
  }

  predicate RowsOk(rows: map<Account, Row>) {
    forall a :: a in rows && rows[a].complete ==> rows[a].before.Some? && rows[a].after.Some?
  }

  function LegStep(policy: Policy, l: Ledger, rows: map<Account, Row>, leg: Leg): (r: Ledger)
    requires RowsOk(rows) && LegInRows(rows, leg)
    ensures l.nodes.Keys <= r.nodes.Keys
  {
    if MovesNothing(leg) then l
    else
      var valid := Valid(rows, leg);
      var (debited, lower, upper) := Debit(l, leg, valid);
      var sale := leg.verifiedSale && valid;
      if sale then
        debited.(observedSale := debited.observedSale + leg.amount,
                 soldLower := debited.soldLower + lower,
                 soldUpper := debited.soldUpper + upper)
      else if IsService(policy, leg.destination, leg.destinationOwner) then debited
      else
        var found := if valid && leg.destination !in debited.nodes && leg.source in debited.nodes && upper > 0
                     then Discover(policy, debited, rows, leg) else debited;
        Credit(found, leg, valid, lower, upper)
  }

  function Legs(policy: Policy, l: Ledger, rows: map<Account, Row>, legs: seq<Leg>): (r: Ledger)
    requires RowsOk(rows) && forall leg :: leg in legs ==> LegInRows(rows, leg)
    ensures l.nodes.Keys <= r.nodes.Keys
    decreases |legs|
  {
    if legs == [] then l
    else Legs(policy, LegStep(policy, l, rows, legs[0]), rows, legs[1..])
  }

  // ---- the balance snapshots around a transaction ----

  /** When a node is compared with a row: before the legs, after them, or at the horizon. */
  datatype Reading = Opening | Closing | Settling

  /** A node read against its row: the node as corrected, and the gap the row reveals. */
  function Read(read: Reading, n: Node, row: Row): (Node, Option<Issue>) {
    match read
    case Opening =>
      if row.owner != n.owner then (n.(upper := 0), Some(OwnerChanged))
      else if row.before.None? then (n, Some(MissingPreBalance))
      else if row.before.value != n.balance then
        (n.(balance := row.before.value, upper := Min(n.upper, row.before.value)), Some(LedgerGap))
      else (n, None)
    case Closing =>
      if row.after.None? then (n, None)
      else if row.after.value != n.balance then
        (n.(balance := row.after.value, upper := Min(n.upper, row.after.value)), Some(LedgerGap))
      else (n, None)
    case Settling =>
      if row.after.None? then (n, None)
      else
        (n.(balance := row.after.value, upper := Min(n.upper, row.after.value)),
         if row.after.value != n.balance then Some(ClosingMismatch) else None)
  }

  function Revealed(l: Ledger, rows: map<Account, Row>, read: Reading): set<Issue> {
    set a | a in l.nodes && a in rows
        && Read(read, l.nodes[a], rows[a]).1.Some? :: Read(read, l.nodes[a], rows[a]).1.value
  }

  /** All tracked rows read at once: any gap among them clears every lower bound. */
  function ReadRows(l: Ledger, rows: map<Account, Row>, read: Reading): (r: Ledger)
    ensures r.nodes.Keys == l.nodes.Keys
  {
    var gaps := Revealed(l, rows, read);
    var seen := map a | a in l.nodes :: if a in rows then Read(read, l.nodes[a], rows[a]).0 else l.nodes[a];
    if gaps == {} then l.(nodes := seen)
    else l.(nodes := ZeroLowers(seen), complete := false, issues := l.issues + gaps)
  }

  // ---- one transaction ----

  predicate AllComplete(rows: map<Account, Row>) {
    forall a :: a in rows ==> rows[a].complete
  }

  /** What the transaction parser guarantees of every batch it returns. */
  predicate BatchOk(b: Batch) {
    && RowsOk(b.rows)
    && (forall leg :: leg in b.legs ==> LegInRows(b.rows, leg))
    && (b.status == Parsed ==> AllComplete(b.rows))
  }

  function Admit(l: Ledger, b: Batch): Ledger {
    var l1 := if b.status == Partial then Gap(l, PartialTransaction) else l;
    if AllComplete(b.rows) then l1 else Gap(l1, IncompleteAccounts)
  }

  function BatchStep(policy: Policy, l: Ledger, b: Batch): (r: Ledger)
    requires BatchOk(b)
    ensures l.nodes.Keys <= r.nodes.Keys
  {
    match b.status
    case Failed => l
    case Unavailable => Gap(l, UnavailableTransaction)
    case _ =>
      ReadRows(Legs(policy, ReadRows(Admit(l, b), b.rows, Opening), b.rows, b.legs), b.rows, Closing)
  }

  function Batches(policy: Policy, l: Ledger, bs: seq<Batch>): (r: Ledger)
    requires forall b :: b in bs ==> BatchOk(b)
    ensures l.nodes.Keys <= r.nodes.Keys
    decreases |bs|
  {
    if bs == [] then l else Batches(policy, BatchStep(policy, l, bs[0]), bs[1..])
  }

  // ---- seeds and closing balances ----

  datatype Seed = Seed(account: Account, owner: Owner, bought: nat, balance: nat,
                       lower: nat, upper: nat, boundaryVerified: bool)

  predicate SeedOk(policy: Policy, seed: Seed) {
    && seed.lower <= seed.upper <= Min(seed.balance, seed.bought)
    && !IsService(policy, seed.account, seed.owner)
  }

  predicate SeedsOk(policy: Policy, seeds: seq<Seed>) {
    && (forall i :: 0 <= i < |seeds| ==> SeedOk(policy, seeds[i]))
    && (forall i, j :: 0 <= i < j < |seeds| ==> seeds[i].account != seeds[j].account)
  }

  function Bought(seeds: seq<Seed>): nat {
    if seeds == [] then 0 else Bought(seeds[..|seeds| - 1]) + seeds[|seeds| - 1].bought
  }

  function SeedNodes(seeds: seq<Seed>): map<Account, Node> {
    if seeds == [] then map[]
    else
      var s := seeds[|seeds| - 1];
      SeedNodes(seeds[..|seeds| - 1])[s.account := Node(s.owner, s.balance, s.lower, s.upper, 0)]
  }

  /** The ledger before the first transaction; the purchase total keeps the dropped seeds too. */
  function Start(policy: Policy, seeds: seq<Seed>, historyComplete: bool): Ledger {
    var kept := seeds[..Min(|seeds|, policy.maxAccounts)];
    var l0 := Ledger(SeedNodes(kept), 0, 0, 0, historyComplete, {});
    var l1 := if |kept| < |seeds| then l0.(complete := false, issues := {AccountLimit}) else l0;
    var l2 := if l1.complete then l1 else Gap(l1, IncompleteHistory);
    if forall s :: s in seeds ==> s.boundaryVerified then l2 else Gap(l2, ReceiptBoundaryUnverified)
  }

  function WithGaps(l: Ledger, gaps: set<Issue>): Ledger {
    if gaps == {} then l else l.(nodes := ZeroLowers(l.nodes), complete := false, issues := l.issues + gaps)
  }

  /** The start of a replay; transactions that could not be ordered are gaps from the outset. */
  function Begin(policy: Policy, seeds: seq<Seed>, historyComplete: bool, gaps: set<Issue>): Ledger {
    WithGaps(Start(policy, seeds, historyComplete), gaps)
  }

  /** A reported balance at the horizon; `amount` is absent when it is not a raw amount. */
  datatype ClosingRow = ClosingRow(account: Account, owner: Owner, inScope: bool, amount: Option<nat>)

  /** Confirmed closing balances; a conflicting pair leaves `None` behind for good. */
  type Confirmed = map<Account, Option<nat>>

  function Confirm(l: Ledger, seen: Confirmed, row: ClosingRow): (Ledger, Confirmed) {
    if !row.inScope || row.account !in l.nodes || row.owner != l.nodes[row.account].owner then
      (Gap(l, ClosingScope), seen)
    else if row.amount.None? then (Gap(l, ClosingAmount), seen)
    else if row.account !in seen then (l, seen[row.account := row.amount])
    else if seen[row.account] != row.amount then
      (Gap(l, ConflictingClosing), seen[row.account := None])
    else (l, seen)
  }

  function ConfirmAll(l: Ledger, seen: Confirmed, rows: seq<ClosingRow>): (r: (Ledger, Confirmed))
    ensures r.0.nodes.Keys == l.nodes.Keys
    decreases |rows|
  {
    if rows == [] then (l, seen)
    else var (l1, seen1) := Confirm(l, seen, rows[0]); ConfirmAll(l1, seen1, rows[1..])
  }

  /** The accounts with one confirmed balance. */
  function Given(confirmed: Confirmed): set<Account> {
    set a | a in confirmed && confirmed[a].Some?
  }

  function GivenAmount(confirmed: Confirmed, a: Account): nat {
    if a in confirmed && confirmed[a].Some? then confirmed[a].value else 0
  }

  /** A confirmed balance as a row of its own; its owner was compared when it was confirmed. */
  function ConfirmedRows(confirmed: Confirmed): map<Account, Row> {
    map a | a in Given(confirmed) :: Row(a, None, Some(GivenAmount(confirmed, a)), true)
  }

  function Settle(l: Ledger, confirmed: Confirmed): (r: Ledger)
    ensures r.nodes.Keys == l.nodes.Keys
  {
    ReadRows(l, ConfirmedRows(confirmed), Settling)
  }

  // ---- the whole analysis ----

  function Analyze(policy: Policy, seeds: seq<Seed>, historyComplete: bool, gaps: set<Issue>, bs: seq<Batch>,
                   closings: seq<ClosingRow>): (Ledger, Confirmed)
    requires forall b :: b in bs ==> BatchOk(b)
  {
    var (l, confirmed) := ConfirmAll(Batches(policy, Begin(policy, seeds, historyComplete, gaps), bs), map[], closings);
    (Settle(l, confirmed), confirmed)
  }
}
