/** The bounded history resolver: a worklist of accounts around the replay. */
module PositionResolver {
  // Each account is fetched page by page, every new page may make the replay track further accounts,
  // and those join the worklist until nothing new is tracked or the budget is gone.

  import opened Wrappers
  import opened PositionLedger
  import opened PositionOrder
  import opened PositionPages
  import opened PositionReplay
  import opened PositionTwins
  import opened MapTotals

  // ---- the worklist ----

  /** What fetching an account has established, with the pages that were taken. */
  ghost predicate Settles(fetch: Fetch, horizon: Horizon, receipts: set<Account>, a: Account, history: History,
                          trail: seq<Request>, collected: map<Signature, Stored>) {
    && (forall s :: Showed(fetch, a, trail, s) ==> s in collected)
    && (history.providerComplete ==>
          && WellRead(fetch, receipts, a, trail, collected) && Tolerable(history.issues)
          && (a in receipts ==> history.boundary == Some(true)))
    && (WellRead(fetch, receipts, a, trail, collected) && NewInWindow(horizon, map[], collected)
        ==> history.providerComplete)
    && (history.exhausted <==> WalkedOut(fetch, a, trail))
  }

  /** The reading of an account stops at its end, at a page that cannot be taken, or with the budget. */
  ghost predicate Stopped(fetch: Fetch, limits: Budget, a: Account, trail: seq<Request>, calls: nat, records: nat) {
    || WalkedOut(fetch, a, trail) || Stuck(fetch, a, trail)
    || calls >= limits.pages || records >= limits.transactions
  }

  lemma StoppedWhen(fetch: Fetch, limits: Budget, a: Account, trail: seq<Request>, calls: nat, records: nat)
    requires WalkedOut(fetch, a, trail) || Stuck(fetch, a, trail) || calls >= limits.pages
             || records >= limits.transactions
    ensures Stopped(fetch, limits, a, trail, calls, records)
  {
    hide WalkedOut, Stuck;
  }

  lemma SettlesNow(fetch: Fetch, horizon: Horizon, receipts: set<Account>, a: Account, history: History,
                   trail: seq<Request>, g0: Gathered, g: Gathered)
    requires TrailGathered(fetch, a, trail, g0, g)
    requires history.exhausted <==> WalkedOut(fetch, a, trail)
    requires history.providerComplete ==>
               && history.exhausted && Tolerable(history.issues) && WellRead(fetch, receipts, a, trail, g.collected)
               && (a in receipts ==> history.boundary == Some(true))
    requires (history.exhausted && WellRead(fetch, receipts, a, trail, g.collected)
              && NewInWindow(horizon, g0.collected, g.collected)) ==> history.providerComplete
    ensures Settles(fetch, horizon, receipts, a, history, trail, g.collected)
  {
    hide Showed, WalkedOut, Tolerable;
    assert WellRead(fetch, receipts, a, trail, g.collected) ==> WalkedOut(fetch, a, trail);
    hide WellRead, FromPage;
  }

  ghost predicate Worklist(fetch: Fetch, horizon: Horizon, receipts: set<Account>, histories: map<Account, History>,
                           trails: map<Account, seq<Request>>, collected: map<Signature, Stored>,
                           queue: seq<Account>)
  {
    && Distinct(queue) && Elements(queue) <= histories.Keys && trails.Keys == histories.Keys - Elements(queue)
    && (forall a :: a in trails ==> Settles(fetch, horizon, receipts, a, histories[a], trails[a], collected))
  }

  lemma WorklistNone(fetch: Fetch, horizon: Horizon, receipts: set<Account>, collected: map<Signature, Stored>)
    ensures Worklist(fetch, horizon, receipts, map[], map[], collected, [])
  {
    hide Settles;
  }

  lemma HeadOff(queue: seq<Account>)
    requires Distinct(queue) && queue != []
    ensures Distinct(queue[1..]) && Elements(queue[1..]) == Elements(queue) - {queue[0]} && queue[0] in Elements(queue)
  {}

  lemma Joined(s: seq<Account>, t: seq<Account>)
    requires Distinct(s) && Distinct(t) && Elements(s) !! Elements(t)
    ensures Distinct(s + t) && Elements(s + t) == Elements(s) + Elements(t)
  {
    forall i, j | 0 <= i < j < |s + t| ensures (s + t)[i] != (s + t)[j] {
      if i < |s| <= j { assert s[i] in Elements(s) && t[j - |s|] in Elements(t); }
    }
  }

  lemma WorklistHead(fetch: Fetch, horizon: Horizon, receipts: set<Account>, h: map<Account, History>,
                     t: map<Account, seq<Request>>, c: map<Signature, Stored>, queue: seq<Account>)
    requires Worklist(fetch, horizon, receipts, h, t, c, queue) && queue != []
    ensures queue[0] in h && queue[0] !in t && t.Keys <= h.Keys
  {
    hide Settles;
    HeadOff(queue);
  }

  /** What an account's pages established is not undone by further pages. */
  lemma SettlesStill(fetch: Fetch, horizon: Horizon, receipts: set<Account>, a: Account, history: History,
                     trail: seq<Request>, older: map<Signature, Stored>, newer: map<Signature, Stored>)
    requires Settles(fetch, horizon, receipts, a, history, trail, older) && Extends(fetch, older, newer)
    ensures Settles(fetch, horizon, receipts, a, history, trail, newer)
  {
    hide WellRead, WalkedOut, Showed;
    WellReadStays(fetch, receipts, a, trail, older, newer);
  }

  /** Fetching the head of the queue settles it and unsettles nothing. */
  lemma WorklistFetched(fetch: Fetch, horizon: Horizon, receipts: set<Account>, queue: seq<Account>,
                        h0: map<Account, History>, t0: map<Account, seq<Request>>, c0: map<Signature, Stored>,
                        h: map<Account, History>, t: map<Account, seq<Request>>, c: map<Signature, Stored>)
    requires Worklist(fetch, horizon, receipts, h0, t0, c0, queue) && queue != [] && Extends(fetch, c0, c)
    requires h.Keys == h0.Keys && forall b :: b in h && b != queue[0] ==> h[b] == h0[b]
    requires queue[0] in h && queue[0] in t && t == t0[queue[0] := t[queue[0]]]
    requires Settles(fetch, horizon, receipts, queue[0], h[queue[0]], t[queue[0]], c)
    ensures Worklist(fetch, horizon, receipts, h, t, c, queue[1..])
  {
    HeadOff(queue);
    hide Elements, Distinct, Settles;
    forall b | b in t ensures Settles(fetch, horizon, receipts, b, h[b], t[b], c) {
      if b != queue[0] {
        assert Settles(fetch, horizon, receipts, b, h0[b], t0[b], c0);
        SettlesStill(fetch, horizon, receipts, b, h0[b], t0[b], c0, c);
      }
    }
  }

  lemma WorklistJoined(fetch: Fetch, horizon: Horizon, queue: seq<Account>, h: map<Account, History>,
                       t: map<Account, seq<Request>>, c: map<Signature, Stored>, receipts: set<Account>,
                       added: seq<Account>)
    requires Worklist(fetch, horizon, receipts, h, t, c, queue) && Distinct(added) && Elements(added) !! h.Keys
    ensures Worklist(fetch, horizon, receipts, h + Unread(receipts, Elements(added)), t, c, queue + added)
  {
    hide Settles;
    Joined(queue, added);
    hide Elements, Distinct;
  }

  // ---- all accounts together ----

  ghost predicate SomeShowed(fetch: Fetch, trails: map<Account, seq<Request>>, s: Signature) {
    exists a :: a in trails && Showed(fetch, a, trails[a], s)
  }

  ghost predicate SomeContradicted(fetch: Fetch, trails: map<Account, seq<Request>>, s: Signature, raw: RawTx) {
    exists a :: a in trails && Contradicted(fetch, a, trails[a], s, raw)
  }

  ghost predicate SomeClosed(fetch: Fetch, trails: map<Account, seq<Request>>, row: ClosingRow) {
    exists a :: a in trails && Closed(fetch, a, trails[a], row)
  }

  /** Exactly what the pages of the trails show is stored, disputed or closed. */
  ghost predicate AllGathered(fetch: Fetch, trails: map<Account, seq<Request>>, g: Gathered) {
    && (forall s :: s in g.collected <==> SomeShowed(fetch, trails, s))
    && (forall s :: s in g.conflicts
                    <==> s in g.collected && SomeContradicted(fetch, trails, s, g.collected[s].raw))
    && (forall row :: row in g.closings <==> SomeClosed(fetch, trails, row))
  }

  lemma AllGatheredNone(fetch: Fetch)
    ensures AllGathered(fetch, map[], Gathered(map[], {}, []))
  {}

  lemma SomeOn(fetch: Fetch, trails: map<Account, seq<Request>>, a: Account, trail: seq<Request>, s: Signature,
               raw: RawTx, row: ClosingRow)
    requires a !in trails
    ensures var more := trails[a := trail];
            && (SomeShowed(fetch, more, s) <==> SomeShowed(fetch, trails, s) || Showed(fetch, a, trail, s))
            && (SomeContradicted(fetch, more, s, raw)
                <==> SomeContradicted(fetch, trails, s, raw) || Contradicted(fetch, a, trail, s, raw))
            && (SomeClosed(fetch, more, row) <==> SomeClosed(fetch, trails, row) || Closed(fetch, a, trail, row))
  {
    hide Showed, Contradicted, Closed;
    var more := trails[a := trail];
    assert a in more && more[a] == trail;
    if SomeShowed(fetch, trails, s) {
      var b :| b in trails && Showed(fetch, b, trails[b], s);
      assert b in more && more[b] == trails[b];
    }
    if SomeContradicted(fetch, trails, s, raw) {
      var b :| b in trails && Contradicted(fetch, b, trails[b], s, raw);
      assert b in more && more[b] == trails[b];
    }
    if SomeClosed(fetch, trails, row) {
      var b :| b in trails && Closed(fetch, b, trails[b], row);
      assert b in more && more[b] == trails[b];
    }
  }

  lemma SomeContradictedShowed(fetch: Fetch, trails: map<Account, seq<Request>>, s: Signature, raw: RawTx)
    requires SomeContradicted(fetch, trails, s, raw)
    ensures SomeShowed(fetch, trails, s)
  {
    hide Showed, Contradicted;
    var a :| a in trails && Contradicted(fetch, a, trails[a], s, raw);
    ShowedOn(fetch, a, trails[a], Request(None, 0), s, raw, ClosingRow(a, a, true, None));
  }

  lemma AllGatheredOn(fetch: Fetch, trails: map<Account, seq<Request>>, a: Account, trail: seq<Request>,
                      g0: Gathered, g: Gathered)
    requires AllGathered(fetch, trails, g0) && a !in trails && TrailGathered(fetch, a, trail, g0, g)
    ensures AllGathered(fetch, trails[a := trail], g)
  {
    hide SomeShowed, SomeContradicted, SomeClosed, Showed, Contradicted, Closed, FromPage;
    var more, none := trails[a := trail], ClosingRow(a, a, true, None);
    forall s ensures s in g.collected <==> SomeShowed(fetch, more, s) {
      SomeOn(fetch, trails, a, trail, s, "", none);
    }
    forall s
      ensures s in g.conflicts <==> s in g.collected && SomeContradicted(fetch, more, s, g.collected[s].raw)
    {
      if s in g.collected {
        SomeOn(fetch, trails, a, trail, s, g.collected[s].raw, none);
        if SomeContradicted(fetch, trails, s, g.collected[s].raw) {
          SomeContradictedShowed(fetch, trails, s, g.collected[s].raw);
        }
      }
    }
    forall row ensures row in g.closings <==> SomeClosed(fetch, more, row) {
      SomeOn(fetch, trails, a, trail, "", "", row);
    }
  }

  /** Every page request, a failed last one included, and every row, summed over the accounts. */
  ghost function Requests(trails: map<Account, seq<Request>>): map<Account, nat> {
    map a | a in trails :: if a in trails then |trails[a]| + 1 else 0
  }

  ghost function Delivered(fetch: Fetch, trails: map<Account, seq<Request>>): map<Account, nat> {
    map a | a in trails :: if a in trails then RowsIn(fetch, a, trails[a]) else 0
  }

  /** No more is counted against the budget than was asked for and delivered. */
  ghost predicate Counted(fetch: Fetch, trails: map<Account, seq<Request>>, calls: nat, records: nat) {
    calls <= Total(Requests(trails), Units) && records == Total(Delivered(fetch, trails), Units)
  }

  lemma CountedNone(fetch: Fetch)
    ensures Counted(fetch, map[], 0, 0)
  {
    NothingCounted(Requests(map[]));
    NothingCounted(Delivered(fetch, map[]));
  }

  lemma NothingCounted(m: map<Account, nat>)
    requires m.Keys == {}
    ensures Total(m, Units) == 0
  {
    assert |m| == |m.Keys|;
  }

  lemma CountedOn(fetch: Fetch, trails: map<Account, seq<Request>>, a: Account, trail: seq<Request>, calls0: nat,
                  records0: nat, calls: nat, records: nat)
    requires Counted(fetch, trails, calls0, records0) && a !in trails
    requires calls <= calls0 + |trail| + 1 && records == records0 + RowsIn(fetch, a, trail)
    ensures Counted(fetch, trails[a := trail], calls, records)
  {
    hide Total;
    var more := trails[a := trail];
    var asked: nat, delivered: nat := |trail| + 1, RowsIn(fetch, a, trail);
    assert Requests(more) == Requests(trails)[a := asked];
    assert Delivered(fetch, more) == Delivered(fetch, trails)[a := delivered] by { hide RowsIn; }
    TotalPut(Requests(trails), Units, a, asked);
    TotalPut(Delivered(fetch, trails), Units, a, delivered);
  }

  function Withdrawn(b: RawBatch): RawBatch {
    b.(body := Batch(Unavailable, b.body.rows, []))
  }

  predicate CollectedOk(order: seq<Signature>, collected: map<Signature, Stored>) {
    && (forall i :: 0 <= i < |order| ==> order[i] in collected)
    && (forall s :: s in collected ==> s in order && BatchOk(collected[s].batch.body))
  }

  /** The transactions in order of arrival, withdrawn ones without their transfers. */
  function BatchesOf(order: seq<Signature>, collected: map<Signature, Stored>,
                     conflicts: set<Signature>): (r: seq<RawBatch>)
    requires CollectedOk(order, collected)
    ensures BodiesOk(r)
  {
    seq(|order|, i requires 0 <= i < |order| =>
      if order[i] in conflicts then Withdrawn(collected[order[i]].batch) else collected[order[i]].batch)
  }

  lemma StoreOne(order: seq<Signature>, collected: map<Signature, Stored>, s: Signature, stored: Stored)
    requires CollectedOk(order, collected) && s !in collected && BatchOk(stored.batch.body)
    ensures CollectedOk(order + [s], collected[s := stored])
  {
    hide BatchOk;
  }

  /** The fields that keep account of the pages. */
  datatype Books = Books(histories: map<Account, History>, haul: Gathered, calls: nat, records: nat,
                         issues: set<HistoryIssue>)

  /** The books agree with the pages of the trails, and so do issues and budget. */
  ghost predicate Bookkept(fetch: Fetch, horizon: Horizon, limits: Budget, trails: map<Account, seq<Request>>,
                           k: Books) {
    && AllGathered(fetch, trails, k.haul) && Counted(fetch, trails, k.calls, k.records)
    && (forall s :: s in k.haul.collected ==> FromPage(fetch, s, k.haul.collected[s]))
    && AllStopped(fetch, limits, trails, k.calls, k.records) && IssuesKept(horizon, trails, k)
  }

  /** Every trail ends where it does for a reason. */
  ghost predicate AllStopped(fetch: Fetch, limits: Budget, trails: map<Account, seq<Request>>, calls: nat,
                             records: nat) {
    forall a :: a in trails ==>
      Stopped(fetch, limits, a, trails[a], calls, records) && FullSized(limits, trails[a], records)
  }

  ghost predicate IssuesKept(horizon: Horizon, trails: map<Account, seq<Request>>, k: Books) {
    && trails.Keys <= k.histories.Keys
    && (Tolerable(k.issues)
        <==> NewInWindow(horizon, map[], k.haul.collected)
             && forall a :: a in trails ==> a in k.histories && Tolerable(k.histories[a].issues))
  }

  lemma AllStoppedOn(fetch: Fetch, limits: Budget, trails: map<Account, seq<Request>>, a: Account,
                     trail: seq<Request>, calls0: nat, records0: nat, calls: nat, records: nat)
    requires AllStopped(fetch, limits, trails, calls0, records0) && calls0 <= calls && records0 <= records
    requires Stopped(fetch, limits, a, trail, calls, records) && FullSized(limits, trail, records)
    ensures AllStopped(fetch, limits, trails[a := trail], calls, records)
  {
    hide Stopped, FullSized;
    forall b | b in trails
      ensures Stopped(fetch, limits, b, trails[b], calls, records) && FullSized(limits, trails[b], records)
    {
      StoppedStill(fetch, limits, b, trails[b], calls0, records0, calls, records);
      FullSizedStill(limits, trails[b], records0, records);
    }
  }

  /** Issues are those of the accounts, and a stored transaction outside the window is one of them. */
  lemma IssuesKeptOn(fetch: Fetch, horizon: Horizon, trails: map<Account, seq<Request>>, a: Account,
                     trail: seq<Request>, k0: Books, k: Books)
    requires IssuesKept(horizon, trails, k0) && a !in trails
    requires k.histories.Keys == k0.histories.Keys && a in k.histories
    requires forall b :: b in k.histories && b != a ==> k.histories[b] == k0.histories[b]
    requires Extends(fetch, k0.haul.collected, k.haul.collected)
    requires k.issues == k0.issues + k.histories[a].issues
    requires Tolerable(k.histories[a].issues) ==> NewInWindow(horizon, k0.haul.collected, k.haul.collected)
    ensures IssuesKept(horizon, trails[a := trail], k)
  {
    TolerableUnion(k0.issues, k.histories[a].issues);
    NewInWindowSplit(fetch, horizon, k0.haul.collected, k.haul.collected);
    hide Tolerable, NewInWindow, Extends;
    if Tolerable(k.issues) {
      forall b | b in trails[a := trail] ensures b in k.histories && Tolerable(k.histories[b].issues) {
        if b != a { assert b in trails; }
      }
    } else if NewInWindow(horizon, map[], k.haul.collected) && !Tolerable(k0.issues) {
      var b :| b in trails && !(b in k0.histories && Tolerable(k0.histories[b].issues));
      assert b in trails[a := trail] && !(b in k.histories && Tolerable(k.histories[b].issues));
    }
  }

  lemma NewInWindowSplit(fetch: Fetch, horizon: Horizon, older: map<Signature, Stored>, newer: map<Signature, Stored>)
    requires Extends(fetch, older, newer)
    ensures NewInWindow(horizon, map[], newer)
            <==> NewInWindow(horizon, map[], older) && NewInWindow(horizon, older, newer)
  {}

  lemma BookkeptNone(fetch: Fetch, horizon: Horizon, limits: Budget, histories: map<Account, History>)
    ensures Bookkept(fetch, horizon, limits, map[], Books(histories, Gathered(map[], {}, []), 0, 0, {}))
  {
    AllGatheredNone(fetch);
    CountedNone(fetch);
    TolerableNone();
    hide AllGathered, Counted, Tolerable;
  }

  /** Histories that are only opened change nothing. */
  lemma BookkeptOpened(fetch: Fetch, horizon: Horizon, limits: Budget, trails: map<Account, seq<Request>>, k: Books,
                       histories: map<Account, History>)
    requires Bookkept(fetch, horizon, limits, trails, k)
    requires forall a :: a in trails ==> a in histories && a in k.histories && histories[a] == k.histories[a]
    ensures Bookkept(fetch, horizon, limits, trails, k.(histories := histories))
  {
    hide AllGathered, Counted, Tolerable, AllStopped, FromPage, NewInWindow;
  }

  lemma FromPagesStill(fetch: Fetch, older: map<Signature, Stored>, newer: map<Signature, Stored>)
    requires Extends(fetch, older, newer) && forall s :: s in older ==> FromPage(fetch, s, older[s])
    ensures forall s :: s in newer ==> FromPage(fetch, s, newer[s])
  {
    hide FromPage;
  }

  lemma BookkeptOn(fetch: Fetch, horizon: Horizon, limits: Budget, trails: map<Account, seq<Request>>, a: Account,
                   trail: seq<Request>, k0: Books, k: Books)
    requires Bookkept(fetch, horizon, limits, trails, k0) && a !in trails
    requires k.histories.Keys == k0.histories.Keys && a in k.histories
    requires forall b :: b in k.histories && b != a ==> k.histories[b] == k0.histories[b]
    requires TrailGathered(fetch, a, trail, k0.haul, k.haul)
    requires k.issues == k0.issues + k.histories[a].issues && k0.calls <= k.calls
    requires Tolerable(k.histories[a].issues) ==> NewInWindow(horizon, k0.haul.collected, k.haul.collected)
    requires k.calls <= k0.calls + |trail| + 1 && k.records == k0.records + RowsIn(fetch, a, trail)
    requires Stopped(fetch, limits, a, trail, k.calls, k.records) && FullSized(limits, trail, k.records)
    ensures Bookkept(fetch, horizon, limits, trails[a := trail], k)
    ensures Extends(fetch, k0.haul.collected, k.haul.collected) && k0.haul.conflicts <= k.haul.conflicts
  {
    GatheredGrows(fetch, a, trail, k0.haul, k.haul);
    FromPagesStill(fetch, k0.haul.collected, k.haul.collected);
    hide AllGathered, Counted, Tolerable, Stopped, FullSized, FromPage, NewInWindow, TrailGathered, RowsIn, Extends,
         AllStopped;
    AllGatheredOn(fetch, trails, a, trail, k0.haul, k.haul);
    CountedOn(fetch, trails, a, trail, k0.calls, k0.records, k.calls, k.records);
    AllStoppedOn(fetch, limits, trails, a, trail, k0.calls, k0.records, k.calls, k.records);
    hide IssuesKept;
    IssuesKeptOn(fetch, horizon, trails, a, trail, k0, k);
  }

  class Resolver {
    const policy: Policy
    const horizon: Horizon
    const seeds: seq<Seed>
    const receipts: set<Account>
    const limits: Budget
    const fetch: Fetch

    var histories: map<Account, History>
    var queue: seq<Account>
    var order: seq<Signature>
    var collected: map<Signature, Stored>
    var conflicts: set<Signature>
    var records: nat
    var calls: nat
    var issues: set<HistoryIssue>
    var limitHit: bool
    var closings: seq<ClosingRow>

    ghost var trails: map<Account, seq<Request>>

    constructor (policy: Policy, horizon: Horizon, seeds: seq<Seed>, receipts: set<Account>, limits: Budget,
                 fetch: Fetch)
      ensures this.policy == policy && this.horizon == horizon && this.seeds == seeds
      ensures this.receipts == receipts && this.limits == limits && this.fetch == fetch
      ensures histories == map[] && queue == [] && order == [] && collected == map[] && conflicts == {}
      ensures records == 0 && calls == 0 && issues == {} && !limitHit && closings == [] && trails == map[]
    {
      this.policy, this.horizon, this.seeds, this.receipts, this.limits, this.fetch :=
        policy, horizon, seeds, receipts, limits, fetch;
      histories, queue, order, collected, conflicts := map[], [], [], map[], {};
      records, calls, issues, limitHit, closings, trails := 0, 0, {}, false, [], map[];
    }

    // ---- state ----

    predicate Collected()
      reads this`order, this`collected
    {
      CollectedOk(order, collected)
    }

    function Current(): (r: seq<RawBatch>)
      reads this`order, this`collected, this`conflicts
      requires Collected()
      ensures BodiesOk(r)
    {
      BatchesOf(order, collected, conflicts)
    }

    /** The provisional replay: no completeness is ever asserted while discovering. */
    ghost function Provisional(): Ledger
      reads this`order, this`collected, this`conflicts
      requires Collected()
    {
      Replayed(policy, horizon, seeds, false, Current())
    }

    function Haul(): Gathered
      reads this`collected, this`conflicts, this`closings
    {
      Gathered(collected, conflicts, closings)
    }

    /** Everything the provisional replay tracks is known; what left the queue is settled. */
    ghost predicate Inv()
      reads this
    {
      && Collected() && calls <= limits.pages
      && Provisional().nodes.Keys <= histories.Keys
      && (limitHit ==> HitLimit(policy, horizon, seeds, order, collected, conflicts))
      && (!limitHit ==> Provisional().issues * Limits == {})
      && Worklist(fetch, horizon, receipts, histories, trails, collected, queue)
      && Bookkept(fetch, horizon, limits, trails, Records())
    }

    function Records(): Books
      reads this`histories, this`collected, this`conflicts, this`closings, this`calls, this`records, this`issues
    {
      Books(histories, Haul(), calls, records, issues)
    }

    // ---- one transaction row ----

    /** The first body of a signature is kept; another body withdraws the transaction. */
    method TakeRow(row: FetchedRow, slotOk: bool) returns (found: set<HistoryIssue>)
      requires Collected() && BatchOk(row.batch.body) && RowsFrom(fetch, [row])
      requires slotOk == InWindow(horizon, row.batch)
      modifies this`order, this`collected, this`conflicts
      ensures Collected() && RowsGathered(fetch, [row], old(Haul()), Haul()) && old(order) <= order
      ensures Tolerable(found) <==> Taken(row, collected) && NewInWindow(horizon, old(collected), collected)
    {
      found := {};
      hide CollectedOk, RowsGathered, NewInWindow, FromPage, Tolerable, With, InWindow;
      TolerableNone();
      if row.signature.None? {
        RowUnsigned(fetch, horizon, row, Haul());
        return With({}, true, BadRow);
      }
      var s := row.signature.value;
      assert row in [row];
      found := With(found, !row.mentionsAccount, BadRow);
      if s in collected {
        RowCompared(fetch, horizon, row, s, Haul());
        if collected[s].raw != row.raw {
          conflicts, found := conflicts + {s}, With(found, true, ConflictingRow);
        }
        found := With(found, collected[s].batch.body.status !in {Parsed, Failed}, Interpretation);
        return;
      }
      RowStored(fetch, horizon, row, s, Haul());
      StoreOne(order, collected, s, Stored(row.raw, row.batch));
      order, collected := order + [s], collected[s := Stored(row.raw, row.batch)];
      found := With(found, row.decoderIssue || row.batch.body.status !in {Parsed, Failed}, Interpretation);
      found := With(found, !slotOk, OutsideWindow);
    }

    method TakeRows(rows: seq<FetchedRow>) returns (found: set<HistoryIssue>)
      requires Collected() && RowsFrom(fetch, rows) && forall row :: row in rows ==> BatchOk(row.batch.body)
      modifies this`order, this`collected, this`conflicts
      ensures Collected() && RowsGathered(fetch, rows, old(Haul()), Haul()) && old(order) <= order
      ensures Tolerable(found) <==> AllTaken(rows, collected) && NewInWindow(horizon, old(collected), collected)
    {
      found := {};
      ghost var start := Haul();
      RowsGatheredNone(fetch, start);
      assert rows[..0] == [];
      hide CollectedOk, FromPage, RowsGathered, AllTaken, Tolerable, BatchOk, NewInWindow, InWindow;
      TakenNone(rows, collected, horizon);
      TolerableNone();
      for i := 0 to |rows|
        invariant Collected() && RowsGathered(fetch, rows[..i], start, Haul()) && old(order) <= order
        invariant Tolerable(found)
                  <==> AllTaken(rows[..i], collected) && NewInWindow(horizon, start.collected, collected)
      {
        var b := rows[i].batch;
        assert rows[i] in rows && RowsFrom(fetch, [rows[i]]);
        ghost var before := Haul();
        var more := TakeRow(rows[i], b.slot.Some? && horizon.start < b.slot.value <= horizon.end);
        TolerableUnion(found, more);
        found := found + more;
        assert rows[..i + 1] == rows[..i] + [rows[i]];
        TakenMore(fetch, horizon, rows[..i], rows[i], start, before, Haul());
        RowsGatheredOn(fetch, rows[..i], rows[i], start, before, Haul());
      }
      assert rows[..|rows|] == rows;
    }

    // ---- one page ----

    /** What a page says about itself: its provider, its defects, and the boundary of a receipt seed. */
    method ReadCoverage(a: Account, page: Page, found0: set<HistoryIssue>, provider0: Option<Provider>,
                        boundary0: Option<bool>)
      returns (found: set<HistoryIssue>, provider: Option<Provider>, boundary: Option<bool>)
      requires page.Page?
      ensures provider == if provider0.Some? then provider0 else page.provider
      ensures Tolerable(found0) ==>
                boundary == if a in receipts && page.boundary.Some? then page.boundary else boundary0
      ensures Tolerable(found)
              <==> Tolerable(found0) && page.provider.Some? && provider == page.provider && !page.flawed
                   && (a in receipts ==> page.boundary != Some(false))
    {
      TolerableHasNot(found0, BoundaryUnverified);
      hide Tolerable;
      found, provider, boundary := found0, provider0, boundary0;
      if page.provider.None? {
        found := With(found, true, NoProvider);
      } else if provider.None? {
        provider := page.provider;
      } else if provider != page.provider {
        found := With(found, true, ProviderChanged);
      }
      found := With(found, page.flawed, CoverageFlaw);
      if a in receipts && page.boundary.Some? {
        boundary := Some(page.boundary.value && BoundaryUnverified !in found);
        found := With(found, !page.boundary.value, BoundaryUnverified);
      }
    }

    /** What a readable page proves and adds; a bad cursor ends it before its rows are taken. */
    method TakePage(a: Account, page: Page, limit: nat, found0: set<HistoryIssue>, provider0: Option<Provider>,
                    boundary0: Option<bool>)
      returns (found: set<HistoryIssue>, provider: Option<Provider>, boundary: Option<bool>)
      requires Collected() && PageOk(page) && page.Page? && |page.rows| <= limit && RowsFrom(fetch, page.rows)
      modifies this`order, this`collected, this`conflicts, this`records, this`closings
      ensures Collected() && old(order) <= order
      ensures page.next == Invalid ==>
                Haul() == old(Haul()) && order == old(order) && records == old(records) && !Tolerable(found)
      ensures page.next != Invalid ==>
                PageGathered(fetch, a, page, old(Haul()), Haul()) && records == old(records) + |page.rows|
      ensures provider == if provider0.Some? then provider0 else page.provider
      ensures Tolerable(found0) ==>
                boundary == if a in receipts && page.boundary.Some? then page.boundary else boundary0
      ensures Tolerable(found)
              <==> Tolerable(found0) && GoodPage(receipts, a, page, limit, provider, collected)
                   && NewInWindow(horizon, old(collected), collected)
                   && (page.next == Done && a in receipts ==> boundary == Some(true))
    {
      hide Tolerable, With, NewInWindow, AllTaken, RowsGathered, RowsFrom, FromPage, CollectedOk, BatchOk;
      found, provider, boundary := ReadCoverage(a, page, found0, provider0, boundary0);
      if page.next == Invalid {
        found := With(found, true, BadCursor);
        return;
      }
      found := With(found, page.next.More? && page.claimsComplete, PrematureComplete);
      ghost var start := Haul();
      if page.closing.Some? {
        if page.closing.value.account == a {
          closings := closings + [page.closing.value];
        } else {
          found := With(found, true, CoverageFlaw);
        }
      }
      records := records + |page.rows|;
      ghost var closed := Haul();
      var more := TakeRows(page.rows);
      assert closed == start.(closings := closings);
      TolerableUnion(found, more);
      found := found + more;
      found := With(found, page.next == Done && !page.claimsComplete, NotComplete);
      found := With(found, page.next == Done && a in receipts && boundary != Some(true), BoundaryUnverified);
      if AllTaken(page.rows, collected) {
        TakenAreSigned(page.rows, collected);
      }
    }

    // ---- one account ----

    /** Without an issue so far exactly when all pages are good and what they added is in the window. */
    ghost predicate Reading(a: Account, trail: seq<Request>, found: set<HistoryIssue>, provider: Option<Provider>,
                            boundary: Option<bool>, start: Gathered)
      reads this`collected
    {
      && ProviderOf(fetch, a, trail, provider)
      && (Tolerable(found)
          <==> GoodPages(fetch, receipts, a, trail, provider, collected)
               && NewInWindow(horizon, start.collected, collected))
      && (a in receipts && Tolerable(found) ==>
            boundary.Some? && (boundary == Some(true) <==> BoundaryShown(fetch, a, trail)))
    }

    /** What the pages of a trail have left behind. */
    ghost predicate Along(a: Account, trail: seq<Request>, start: Gathered, records0: nat)
      reads this`order, this`collected, this`conflicts, this`closings, this`records
    {
      && Collected() && TrailGathered(fetch, a, trail, start, Haul()) && FullSized(limits, trail, records)
      && records == records0 + RowsIn(fetch, a, trail)
    }

    /** The reading of a history after the pages of `trail`, with `cursor` to ask for next. */
    ghost predicate Underway(a: Account, trail: seq<Request>, cursor: Option<Cursor>, seen: set<Option<Cursor>>,
                             found: set<HistoryIssue>, provider: Option<Provider>, boundary: Option<bool>,
                             start: Gathered, records0: nat)
      reads this`order, this`collected, this`conflicts, this`closings, this`records
    {
      && Along(a, trail, start, records0) && Reading(a, trail, found, provider, boundary, start)
      && Walked(fetch, a, trail, cursor) && AllAsked(seen, trail, cursor)
    }

    lemma UnderwayIs(a: Account, trail: seq<Request>, cursor: Option<Cursor>, seen: set<Option<Cursor>>,
                     found: set<HistoryIssue>, provider: Option<Provider>, boundary: Option<bool>, start: Gathered,
                     records0: nat)
      requires Underway(a, trail, cursor, seen, found, provider, boundary, start, records0)
      ensures Along(a, trail, start, records0) && !WalkedOut(fetch, a, trail)
    {
      WalkedIsNotOut(fetch, a, trail, cursor);
    }

    lemma AlongIs(a: Account, trail: seq<Request>, start: Gathered, records0: nat)
      requires Along(a, trail, start, records0)
      ensures Collected() && TrailGathered(fetch, a, trail, start, Haul()) && FullSized(limits, trail, records)
      ensures records == records0 + RowsIn(fetch, a, trail)
    {}

    /** One more request; `Invalid` stands for a page that cannot be taken or repeats a cursor. */
    method TakeNext(a: Account, cursor: Option<Cursor>, seen: set<Option<Cursor>>, found0: set<HistoryIssue>,
                    provider0: Option<Provider>, boundary0: Option<bool>, ghost trail: seq<Request>,
                    ghost start: Gathered, ghost records0: nat)
      returns (next: Next, found: set<HistoryIssue>, provider: Option<Provider>, boundary: Option<bool>,
               ghost more: seq<Request>)
      requires FetchOk(fetch) && limits.pageSize > 0 && calls < limits.pages && records < limits.transactions
      requires Underway(a, trail, cursor, seen, found0, provider0, boundary0, start, records0)
      modifies this`order, this`collected, this`conflicts, this`records, this`calls, this`closings
      ensures old(order) <= order && calls == old(calls) + 1 && old(records) <= records
      ensures Along(a, more, start, records0) && |trail| <= |more| <= |trail| + 1
      ensures next != Invalid ==> |more| == |trail| + 1
      ensures next == Invalid ==> !Tolerable(found) && Stuck(fetch, a, more) && !WalkedOut(fetch, a, more)
      ensures next.More? ==>
                Underway(a, more, Some(next.cursor), seen + {Some(next.cursor)}, found, provider, boundary, start,
                         records0)
      ensures next == Done ==>
                && WalkedOut(fetch, a, more)
                && (Tolerable(found)
                    <==> WellRead(fetch, receipts, a, more, collected)
                         && NewInWindow(horizon, start.collected, collected))
                && (Tolerable(found) && a in receipts ==> boundary == Some(true))
    {
      hide CleanPage, CollectedOk, RowsFrom, TrailGathered, PageGathered, GoodPages, GoodPage, NewInWindow, ProviderOf,
           BoundaryShown, Tolerable, With, Walked, WalkedOut, WellRead, Stuck, RowsIn, AllAsked, Asked;
      var limit := Min(limits.pageSize, limits.transactions - records);
      var request := Request(cursor, limit);
      next, found, provider, boundary, more := Invalid, found0, provider0, boundary0, trail;
      calls := calls + 1;
      WalkedIsNotOut(fetch, a, trail, cursor);
      var page := fetch(a, cursor, limit);
      if page.Unreadable? || |page.rows| > limit {
        found := With(found, true, if page.Unreadable? then FetchError else OversizedPage);
        Blocks(fetch, a, trail, cursor, limit);
        return;
      }
      assert PageOk(page);
      ghost var before := Haul();
      PageRowsFrom(fetch, a, cursor, limit);
      found, provider, boundary := TakePage(a, page, limit, found, provider, boundary);
      if page.next == Invalid {
        Blocks(fetch, a, trail, cursor, limit);
        return;
      }
      next, more := page.next, trail + [request];
      assert Ask(fetch, a, request) == page;
      GoodStep(fetch, horizon, receipts, a, trail, request, provider0, start, before, Haul());
      WalkedOn(fetch, a, trail, cursor, limit);
      TrailGatheredOn(fetch, a, trail, request, start, before, Haul());
      RowsInOn(fetch, a, trail, request);
      BoundaryOn(fetch, a, trail, request);
      FullSizedOn(limits, trail, request, old(records), records);
      GoodShowsNoFalse(receipts, a, page, limit, provider, collected);
      if next == Done {
        Finishes(fetch, horizon, receipts, a, more, provider, boundary, start.collected, collected);
      } else {
        AllAskedOn(seen, trail, request, Some(next.cursor));
        WalkedIsNotOut(fetch, a, more, Some(next.cursor));
        if Some(next.cursor) in seen {
          found := With(found, true, CursorCycle);
          Cycles(fetch, a, more, Some(next.cursor));
          next := Invalid;
        }
      }
    }

    /** Page after page until the end, a page that cannot be taken, or the end of the budget. */
    method ReadHistory(a: Account) returns (history: History, ghost trail: seq<Request>)
      requires FetchOk(fetch) && Collected() && calls <= limits.pages && limits.pageSize > 0
      modifies this`order, this`collected, this`conflicts, this`records, this`calls, this`closings
      ensures Collected() && old(order) <= order
      ensures old(calls) <= calls <= limits.pages && old(records) <= records
      ensures calls == old(calls) ==> order == old(order) && collected == old(collected) && conflicts == old(conflicts)
      ensures TrailGathered(fetch, a, trail, old(Haul()), Haul())
      ensures Settles(fetch, horizon, receipts, a, history, trail, collected)
      ensures Tolerable(history.issues) ==> NewInWindow(horizon, old(collected), collected)
      ensures calls <= old(calls) + |trail| + 1 && records == old(records) + RowsIn(fetch, a, trail)
      ensures Stopped(fetch, limits, a, trail, calls, records)
      ensures FullSized(limits, trail, records)
    {
      var found: set<HistoryIssue> := {};
      var provider: Option<Provider> := None;
      var boundary := if a in receipts then Some(false) else None;
      var cursor: Option<Cursor>, seen: set<Option<Cursor>> := None, {None};
      var pages, exhausted, complete := 0, false, false;
      ghost var start := Haul();
      trail := [];
      TrailGatheredNone(fetch, a, start);
      TolerableNone();
      NothingRead(fetch, horizon, receipts, a, collected);
      hide Walked, ProviderOf, GoodPages, BoundaryShown;
      assert Underway(a, trail, cursor, seen, found, provider, boundary, start, records);
      hide *;
      while true
        invariant old(order) <= order && old(records) <= records && calls == old(calls) + |trail| <= limits.pages
        invariant calls == old(calls) ==>
                    order == old(order) && collected == old(collected) && conflicts == old(conflicts)
        invariant Underway(a, trail, cursor, seen, found, provider, boundary, start, old(records))
        invariant !complete && !exhausted
        decreases limits.pages - calls
      {
        if calls >= limits.pages || records >= limits.transactions {
          UnderwayIs(a, trail, cursor, seen, found, provider, boundary, start, old(records));
          found := With(found, true, if calls >= limits.pages then PageBudget else TransactionBudget);
          break;
        }
        var next;
        pages := pages + 1;
        next, found, provider, boundary, trail :=
          TakeNext(a, cursor, seen, found, provider, boundary, trail, start, old(records));
        if next == Invalid { break; }
        if next == Done {
          exhausted, complete := true, Tolerable(found);
          break;
        }
        cursor := Some(next.cursor);
        seen := seen + {cursor};
      }
      assert Stopped(fetch, limits, a, trail, calls, records) by {
        StoppedWhen(fetch, limits, a, trail, calls, records);
      }
      history := History(provider, pages, boundary, found, exhausted, complete);
      AlongIs(a, trail, start, old(records));
      SettlesNow(fetch, horizon, receipts, a, history, trail, start, Haul());
    }

    method FetchAccount(a: Account)
      requires FetchOk(fetch) && Collected() && calls <= limits.pages && a in histories && limits.pageSize > 0
      modifies this`histories, this`order, this`collected, this`conflicts, this`records, this`calls,
               this`issues, this`closings, this`trails
      ensures Collected() && old(order) <= order
      ensures old(calls) <= calls <= limits.pages && old(records) <= records
      ensures calls == old(calls) ==> order == old(order) && collected == old(collected) && conflicts == old(conflicts)
      ensures histories.Keys == old(histories).Keys
      ensures forall b :: b in histories && b != a ==> histories[b] == old(histories)[b]
      ensures a in trails && trails == old(trails)[a := trails[a]]
      ensures TrailGathered(fetch, a, trails[a], old(Haul()), Haul())
      ensures Settles(fetch, horizon, receipts, a, histories[a], trails[a], collected)
      ensures issues == old(issues) + histories[a].issues
      ensures Tolerable(histories[a].issues) ==> NewInWindow(horizon, old(collected), collected)
      ensures calls <= old(calls) + |trails[a]| + 1 && records == old(records) + RowsIn(fetch, a, trails[a])
      ensures Stopped(fetch, limits, a, trails[a], calls, records)
      ensures FullSized(limits, trails[a], records)
    {
      hide Tolerable, Stopped, CollectedOk, TrailGathered, Settles, NewInWindow, RowsIn, FullSized, FetchOk;
      var history;
      ghost var trail;
      history, trail := ReadHistory(a);
      histories, issues, trails := histories[a := history], issues + history.issues, trails[a := trail];
    }

    // ---- the worklist ----

    /** The accounts join the queue in order of depth and address. */
    method Enqueue(accounts: set<Account>, nodes: map<Account, Node>) returns (ghost added: seq<Account>)
      requires accounts !! histories.Keys && accounts <= nodes.Keys
      modifies this`histories, this`queue
      ensures queue == old(queue) + added && Sorted(nodes, added) && Elements(added) == accounts
      ensures histories == old(histories) + Unread(receipts, accounts)
    {
      var sorted := InDepthOrder(nodes, accounts);
      assert Elements(sorted[..0]) == {};
      hide Elements, Sorted, Unread, Unopened;
      ghost var before := histories;
      UnreadNone(before, receipts);
      for i := 0 to |sorted|
        invariant queue == old(queue) + sorted[..i]
        invariant histories == before + Unread(receipts, Elements(sorted[..i]))
      {
        PrefixOnTop(sorted, i);
        UnreadOnTop(before, receipts, Elements(sorted[..i]), sorted[i]);
        histories := histories[sorted[i] := Unopened(receipts, sorted[i])];
        queue := queue + [sorted[i]];
      }
      added := sorted;
      assert sorted[..|sorted|] == sorted;
    }

    /** Provisionally tracked accounts without a history join the queue, the nearest to the seeds first. */
    method Discover() returns (ghost added: seq<Account>)
      requires Collected()
      modifies this`histories, this`queue, this`limitHit
      ensures queue == old(queue) + added && Distinct(added)
      ensures Elements(added) == Provisional().nodes.Keys - old(histories).Keys
      ensures Sorted(Provisional().nodes, added)
      ensures histories == old(histories) + Unread(receipts, Elements(added))
      ensures limitHit <==> old(limitHit) || Provisional().issues * Limits != {}
    {
      hide Replayed, CollectedOk, BatchesOf, Elements, Distinct, Sorted, Unread;
      var summary := Run(policy, horizon, seeds, false, Current());
      assert summary.State() == Provisional();
      limitHit := limitHit || summary.issues * Limits != {};
      var nodes := summary.State().nodes;
      added := Enqueue(nodes.Keys - histories.Keys, nodes);
      SortedIsDistinct(nodes, added);
    }

    /** The head of the queue is fetched and leaves it. */
    method FetchHead()
      requires FetchOk(fetch) && Inv() && queue != [] && limits.pageSize > 0
      modifies this`histories, this`order, this`collected, this`conflicts, this`records, this`calls,
               this`issues, this`closings, this`trails, this`queue
      ensures queue == old(queue)[1..] && Worklist(fetch, horizon, receipts, histories, trails, collected, queue)
      ensures Collected() && old(calls) <= calls <= limits.pages
      ensures Bookkept(fetch, horizon, limits, trails, Records()) && trails.Keys <= histories.Keys
      ensures old(order) <= order && Extends(fetch, old(collected), collected) && old(conflicts) <= conflicts
      ensures histories.Keys == old(histories).Keys
      ensures calls == old(calls) ==> Provisional() == old(Provisional())
    {
      hide Replayed, CollectedOk, BatchesOf, FetchOk, Settles, Worklist, Tolerable, Distinct, TrailGathered, Bookkept,
           Stopped, NewInWindow, FullSized, RowsIn, Extends, Unread, Elements, HitLimit;
      var a := queue[0];
      queue := queue[1..];
      WorklistHead(fetch, horizon, receipts, histories, trails, collected, old(queue));
      FetchAccount(a);
      BookkeptOn(fetch, horizon, limits, old(trails), a, trails[a], old(Records()), Records());
      WorklistFetched(fetch, horizon, receipts, old(queue), old(histories), old(trails), old(collected), histories,
                      trails, collected);
    }

    method Step()
      requires FetchOk(fetch) && Inv() && queue != [] && limits.pageSize > 0
      modifies this
      ensures Inv() && old(calls) <= calls
      ensures calls == old(calls) ==> |queue| < |old(queue)|
    {
      hide Replayed, CollectedOk, BatchesOf, FetchOk, Worklist, Distinct, Extends, Bookkept, HitLimit;
      FetchHead();
      if limitHit {
        HitLimitStill(fetch, policy, horizon, seeds, old(order), old(collected), old(conflicts), order, collected,
                      conflicts);
      }
      ghost var known, rest := histories, queue;
      ghost var added := Discover();
      WorklistJoined(fetch, horizon, rest, known, trails, collected, receipts, added);
      UnreadElsewhere(known, receipts, Elements(added), trails.Keys);
      BookkeptOpened(fetch, horizon, limits, trails, Records().(histories := known), histories);
      LimitHitNow(policy, horizon, seeds, order, collected, conflicts);
      if added != [] { assert added[0] in Elements(added); }
    }

    method Resolve()
      requires FetchOk(fetch) && histories == map[] && queue == [] && calls == 0 && records == 0 && Collected()
      requires trails == map[] && Haul() == Gathered(map[], {}, []) && issues == {} && !limitHit && limits.pageSize > 0
      modifies this
      ensures Inv() && queue == []
    {
      hide Replayed, Bookkept, HitLimit, Worklist, CollectedOk, BatchesOf, FetchOk, Sorted;
      ghost var first := Discover();
      BookkeptNone(fetch, horizon, limits, histories);
      WorklistNone(fetch, horizon, receipts, collected);
      WorklistJoined(fetch, horizon, [], map[], trails, collected, receipts, first);
      assert histories == map[] + Unread(receipts, Elements(first));
      LimitHitNow(policy, horizon, seeds, order, collected, conflicts);
      while queue != []
        invariant Inv()
        decreases limits.pages - calls, |queue|
      {
        Step();
      }
    }
  }

  lemma GatheredGrows(fetch: Fetch, a: Account, trail: seq<Request>, g0: Gathered, g: Gathered)
    requires TrailGathered(fetch, a, trail, g0, g)
    ensures Extends(fetch, g0.collected, g.collected) && g0.conflicts <= g.conflicts
  {}

  lemma UnreadElsewhere(histories: map<Account, History>, receipts: set<Account>, accounts: set<Account>,
                        others: set<Account>)
    requires accounts !! histories.Keys && others <= histories.Keys
    ensures forall a :: a in others ==> (histories + Unread(receipts, accounts))[a] == histories[a]
  {}

  lemma StoppedStill(fetch: Fetch, limits: Budget, a: Account, trail: seq<Request>, calls0: nat, records0: nat,
                     calls: nat, records: nat)
    requires Stopped(fetch, limits, a, trail, calls0, records0) && calls0 <= calls && records0 <= records
    ensures Stopped(fetch, limits, a, trail, calls, records)
  {
    hide WalkedOut, Stuck;
  }

  // ---- tracking limits ----

  /** A provisional replay of what had been gathered at some point ran into a tracking limit. */
  ghost predicate HitLimit(policy: Policy, horizon: Horizon, seeds: seq<Seed>, order: seq<Signature>,
                           collected: map<Signature, Stored>, conflicts: set<Signature>) {
    exists o, c, x ::
      LimitIn(policy, horizon, seeds, o, c, x) && o <= order && x <= conflicts
      && forall s :: s in c ==> s in collected && c[s] == collected[s]
  }

  ghost predicate LimitIn(policy: Policy, horizon: Horizon, seeds: seq<Seed>, order: seq<Signature>,
                          collected: map<Signature, Stored>, conflicts: set<Signature>) {
    CollectedOk(order, collected)
    && Replayed(policy, horizon, seeds, false, BatchesOf(order, collected, conflicts)).issues * Limits != {}
  }

  lemma LimitHitNow(policy: Policy, horizon: Horizon, seeds: seq<Seed>, order: seq<Signature>,
                    collected: map<Signature, Stored>, conflicts: set<Signature>)
    requires CollectedOk(order, collected)
    ensures Replayed(policy, horizon, seeds, false, BatchesOf(order, collected, conflicts)).issues * Limits != {}
            ==> HitLimit(policy, horizon, seeds, order, collected, conflicts)
  {
    hide Replayed, BatchesOf, CollectedOk;
    assert Replayed(policy, horizon, seeds, false, BatchesOf(order, collected, conflicts)).issues * Limits != {}
           ==> LimitIn(policy, horizon, seeds, order, collected, conflicts);
    hide LimitIn;
  }

  lemma HitLimitStill(fetch: Fetch, policy: Policy, horizon: Horizon, seeds: seq<Seed>, o0: seq<Signature>,
                      c0: map<Signature, Stored>, x0: set<Signature>, o: seq<Signature>, c: map<Signature, Stored>,
                      x: set<Signature>)
    requires HitLimit(policy, horizon, seeds, o0, c0, x0) && o0 <= o && Extends(fetch, c0, c) && x0 <= x
    ensures HitLimit(policy, horizon, seeds, o, c, x)
  {
    hide LimitIn, FromPage;
    var o1, c1, x1 :|
      LimitIn(policy, horizon, seeds, o1, c1, x1) && o1 <= o0 && x1 <= x0
      && forall s :: s in c1 ==> s in c0 && c1[s] == c0[s];
    assert o1 <= o;
  }

  ghost predicate Distinct(s: seq<Account>) {
    forall i, j :: 0 <= i < j < |s| ==> s[i] != s[j]
  }

  function Unopened(receipts: set<Account>, a: Account): History {
    History(None, 0, if a in receipts then Some(false) else None, {}, false, false)
  }

  function Unread(receipts: set<Account>, accounts: set<Account>): map<Account, History> {
    map a | a in accounts :: Unopened(receipts, a)
  }

  lemma UnreadOnTop(histories: map<Account, History>, receipts: set<Account>, accounts: set<Account>, a: Account)
    ensures histories + Unread(receipts, accounts + {a})
            == (histories + Unread(receipts, accounts))[a := Unopened(receipts, a)]
  {}

  lemma UnreadNone(histories: map<Account, History>, receipts: set<Account>)
    ensures histories + Unread(receipts, {}) == histories
  {}

  lemma PrefixOnTop(s: seq<Account>, i: nat)
    requires i < |s|
    ensures s[..i + 1] == s[..i] + [s[i]] && Elements(s[..i + 1]) == Elements(s[..i]) + {s[i]}
  {}

  lemma ElementsOnTop(s: seq<Account>, a: Account)
    ensures Elements(s + [a]) == Elements(s) + {a}
  {}

  predicate Sooner(nodes: map<Account, Node>, a: Account, b: Account)
    requires a in nodes && b in nodes
  {
    nodes[a].depth < nodes[b].depth || (nodes[a].depth == nodes[b].depth && a.id < b.id)
  }

  ghost predicate Sorted(nodes: map<Account, Node>, s: seq<Account>) {
    (forall i :: 0 <= i < |s| ==> s[i] in nodes) && forall i, j :: 0 <= i < j < |s| ==> Sooner(nodes, s[i], s[j])
  }

  ghost predicate AllSooner(nodes: map<Account, Node>, s: seq<Account>, rest: set<Account>) {
    forall a, b :: a in s && b in rest ==> a in nodes && b in nodes && Sooner(nodes, a, b)
  }

  lemma SortedIsDistinct(nodes: map<Account, Node>, s: seq<Account>)
    requires Sorted(nodes, s)
    ensures Distinct(s)
  {
    forall i, j | 0 <= i < j < |s| ensures s[i] != s[j] {
      assert Sooner(nodes, s[i], s[j]);
    }
  }

  method InDepthOrder(nodes: map<Account, Node>, accounts: set<Account>) returns (s: seq<Account>)
    requires accounts <= nodes.Keys
    ensures Sorted(nodes, s) && Elements(s) == accounts
  {
    var todo := accounts;
    s := [];
    assert Elements([]) == {} && Sorted(nodes, []) && AllSooner(nodes, [], todo);
    hide Elements, Sorted, AllSooner, Soonest;
    while todo != {}
      invariant todo <= accounts && Elements(s) == accounts - todo
      invariant Sorted(nodes, s) && AllSooner(nodes, s, todo)
      decreases |todo|
    {
      SoonestExists(nodes, todo);
      var a :| a in todo && Soonest(nodes, todo, a);
      SortedOnTop(nodes, s, a, todo);
      ElementsOnTop(s, a);
      assert accounts - (todo - {a}) == accounts - todo + {a};
      todo := todo - {a};
      s := s + [a];
    }
  }

  lemma SortedOnTop(nodes: map<Account, Node>, s: seq<Account>, a: Account, rest: set<Account>)
    requires Sorted(nodes, s) && AllSooner(nodes, s, rest) && a in rest && rest <= nodes.Keys
    requires Soonest(nodes, rest, a)
    ensures Sorted(nodes, s + [a]) && AllSooner(nodes, s + [a], rest - {a})
  {
    hide Sooner;
  }

  predicate Soonest(nodes: map<Account, Node>, accounts: set<Account>, a: Account)
    requires a in nodes && accounts <= nodes.Keys
  {
    forall b :: b in accounts && b != a ==> Sooner(nodes, a, b)
  }

  lemma {:induction false} SoonestExists(nodes: map<Account, Node>, accounts: set<Account>)
    requires accounts != {} && accounts <= nodes.Keys
    ensures exists a :: a in accounts && Soonest(nodes, accounts, a)
    decreases |accounts|
  {
    var x :| x in accounts;
    var rest := accounts - {x};
    var a := x;
    if rest != {} {
      SoonestExists(nodes, rest);
      var y :| y in rest && Soonest(nodes, rest, y);
      assert x.id != y.id;
      a := if Sooner(nodes, x, y) then x else y;
    }
    forall b | b in accounts && b != a ensures Sooner(nodes, a, b) {
      assert b == x || b in rest;
    }
    assert Soonest(nodes, accounts, a);
  }

  function Elements(s: seq<Account>): set<Account> {
    set a | a in s
  }

  // ---- the whole resolution ----

  datatype Resolution = Resolution(ledger: Ledger, confirmed: Confirmed, coverageComplete: bool, seeds: seq<Seed>,
                                   order: seq<Signature>, collected: map<Signature, Stored>, conflicts: set<Signature>,
                                   closings: seq<ClosingRow>)

  ghost predicate FullyRead(fetch: Fetch, a: Account, collected: map<Signature, Stored>) {
    exists trail, p :: FullHistory(fetch, a, trail, p) && Received(fetch, a, trail, collected)
  }

  /** Receipt seeds count as bounded only when everything is complete and their own boundary is proved. */
  function ReplaySeeds(seeds: seq<Seed>, receipts: set<Account>, proved: set<Account>): (r: seq<Seed>)
    ensures |r| == |seeds|
    ensures forall i :: 0 <= i < |r| ==> r[i].(boundaryVerified := false) == seeds[i].(boundaryVerified := false)
  {
    seq(|seeds|, i requires 0 <= i < |seeds| =>
      if seeds[i].account in receipts then seeds[i].(boundaryVerified := seeds[i].account in proved) else seeds[i])
  }

  /** The ledger and the confirmed balances after the closing rows. */
  function Settled(l: Ledger, closings: seq<ClosingRow>): (r: (Ledger, Confirmed))
    ensures r.0.nodes.Keys == l.nodes.Keys
  {
    var (confirmedLedger, confirmed) := ConfirmAll(l, map[], closings);
    (Settle(confirmedLedger, confirmed), confirmed)
  }

  /**
   What a resolution is: the final replay and settlement of the stored transactions, all taken
   from pages. When coverage is declared complete, every tracked account was read in full and
   no tracking limit was hit.
   */
  ghost predicate Resolved(policy: Policy, horizon: Horizon, seeds: seq<Seed>, fetch: Fetch, r: Resolution) {
    && CollectedOk(r.order, r.collected) && Extends(fetch, map[], r.collected)
    && |r.seeds| == |seeds|
    && (forall i ::
          0 <= i < |seeds| ==> r.seeds[i].(boundaryVerified := false) == seeds[i].(boundaryVerified := false))
    && (r.ledger, r.confirmed)
       == Settled(Replayed(policy, horizon, r.seeds, r.coverageComplete, BatchesOf(r.order, r.collected, r.conflicts)),
                  r.closings)
    && (r.coverageComplete ==>
          && (forall a :: a in r.ledger.nodes ==> FullyRead(fetch, a, r.collected))
          && r.ledger.issues * {AccountLimit, DepthLimit, EventLimit} == {})
  }

  /** Every fetched account is well read, and every stored transaction lies in the window. */
  ghost predicate NothingMissing(fetch: Fetch, horizon: Horizon, receipts: set<Account>,
                                 trails: map<Account, seq<Request>>, collected: map<Signature, Stored>) {
    && trails != map[] && NewInWindow(horizon, map[], collected)
    && forall a :: a in trails ==> WellRead(fetch, receipts, a, trails[a], collected)
  }

  /** An account's pages end where they do for a reason. */
  ghost predicate Justified(fetch: Fetch, limits: Budget, trails: map<Account, seq<Request>>) {
    exists calls, records ::
      Counted(fetch, trails, calls, records)
      && AllStopped(fetch, limits, trails, calls, records)
  }

  /**
   The pages behind a resolution, account by account. Exactly what they show is used; coverage is
   declared complete when nothing is missing, unless a tracking limit was hit, and only then; and
   a receipt seed counts as bounded only with it.
   */
  ghost predicate Examined(policy: Policy, horizon: Horizon, seeds: seq<Seed>, receipts: set<Account>,
                           limits: Budget, fetch: Fetch, r: Resolution, trails: map<Account, seq<Request>>)
    requires |r.seeds| == |seeds|
  {
    && r.ledger.nodes.Keys <= trails.Keys
    && AllGathered(fetch, trails, Gathered(r.collected, r.conflicts, r.closings))
    && Justified(fetch, limits, trails)
    && (r.coverageComplete ==> NothingMissing(fetch, horizon, receipts, trails, r.collected))
    && (NothingMissing(fetch, horizon, receipts, trails, r.collected)
        ==> r.coverageComplete || HitLimit(policy, horizon, seeds, r.order, r.collected, r.conflicts))
    && (forall i :: 0 <= i < |seeds| ==>
          (r.seeds[i].boundaryVerified
           <==> if seeds[i].account in receipts then r.coverageComplete && seeds[i].account in trails
                else seeds[i].boundaryVerified))
  }

  /**
   The worklist is a fixpoint: the final replay tracks nothing that was not fetched, although
   it is the only one that may assert completeness. When coverage is declared complete, every
   tracked account was read in full from one provider and no tracking limit was hit.
   */
  method ResolvePosition(policy: Policy, horizon: Horizon, seeds: seq<Seed>, receipts: set<Account>, limits: Budget,
                         fetch: Fetch)
    returns (outcome: Option<Resolution>, ghost trails: map<Account, seq<Request>>)
    requires FetchOk(fetch)
    ensures outcome.None? <==>
              seeds == [] || !SeedsOk(policy, seeds) || horizon.end < horizon.start || limits.pageSize == 0
    ensures outcome.Some? ==> Resolved(policy, horizon, seeds, fetch, outcome.value)
    ensures outcome.Some? ==> Examined(policy, horizon, seeds, receipts, limits, fetch, outcome.value, trails)
  {
    trails := map[];
    if seeds == [] || !SeedsOk(policy, seeds) || horizon.end < horizon.start || limits.pageSize == 0 {
      return None, map[];
    }
    var books, order, limitHit;
    books, order, limitHit, trails := Explore(policy, horizon, seeds, receipts, limits, fetch);
    var histories, collected, conflicts := books.histories, books.haul.collected, books.haul.conflicts;
    var coverageComplete := histories != map[] && Tolerable(books.issues) && !limitHit
                            && forall a :: a in histories ==> histories[a].providerComplete;
    var proved := set a | a in histories && coverageComplete && histories[a].boundary == Some(true);
    hide Replayed, Worklist, Tolerable, FullyRead, Twins, Settled, Extends, SeedsOk, CollectedOk, BatchesOf, Resolved,
         AllGathered, Bookkept, HitLimit, NothingMissing, Justified, Examined;
    var final := ReplaySeeds(seeds, receipts, proved);
    SeedFlags(seeds, receipts, proved, final);
    hide ReplaySeeds;
    var raw := BatchesOf(order, collected, conflicts);
    ReplayIgnoresCompleteness(policy, horizon, seeds, final, false, coverageComplete, raw);
    TwinsAgree(Replayed(policy, horizon, seeds, false, raw), Replayed(policy, horizon, final, coverageComplete, raw));
    var ledger, confirmed := FinalReplay(policy, horizon, final, coverageComplete, raw, books.haul.closings);
    outcome := Some(Resolution(ledger, confirmed, coverageComplete, final, order, collected, conflicts,
                               books.haul.closings));
    BooksTell(fetch, horizon, limits, trails, books);
    ReadAndCovered(fetch, horizon, receipts, histories, trails, collected, books.issues);
    Concluding(policy, horizon, seeds, fetch, outcome.value);
    Examining(policy, horizon, seeds, receipts, limits, fetch, outcome.value, trails, proved);
  }

  /** The worklist run to its end, from nothing. */
  method Explore(policy: Policy, horizon: Horizon, seeds: seq<Seed>, receipts: set<Account>, limits: Budget,
                 fetch: Fetch)
    returns (books: Books, order: seq<Signature>, limitHit: bool, ghost trails: map<Account, seq<Request>>)
    requires FetchOk(fetch) && limits.pageSize > 0
    ensures CollectedOk(order, books.haul.collected) && Bookkept(fetch, horizon, limits, trails, books)
    ensures Worklist(fetch, horizon, receipts, books.histories, trails, books.haul.collected, [])
    ensures var provisional := Replayed(policy, horizon, seeds, false,
                                        BatchesOf(order, books.haul.collected, books.haul.conflicts));
            && provisional.nodes.Keys <= books.histories.Keys
            && (!limitHit ==> provisional.issues * Limits == {})
    ensures limitHit ==> HitLimit(policy, horizon, seeds, order, books.haul.collected, books.haul.conflicts)
  {
    hide Replayed, Worklist, Bookkept, HitLimit, BatchesOf, FetchOk;
    var resolver := new Resolver(policy, horizon, seeds, receipts, limits, fetch);
    assert CollectedOk([], map[]);
    hide CollectedOk;
    resolver.Resolve();
    books, order, limitHit, trails := resolver.Records(), resolver.order, resolver.limitHit, resolver.trails;
  }

  /** What the books say at the end. */
  lemma BooksTell(fetch: Fetch, horizon: Horizon, limits: Budget, trails: map<Account, seq<Request>>, k: Books)
    requires Bookkept(fetch, horizon, limits, trails, k)
    ensures Extends(fetch, map[], k.haul.collected) && AllGathered(fetch, trails, k.haul)
    ensures Justified(fetch, limits, trails)
    ensures Tolerable(k.issues)
            <==> NewInWindow(horizon, map[], k.haul.collected)
                 && forall a :: a in trails ==> a in k.histories && Tolerable(k.histories[a].issues)
  {
    hide AllGathered, Counted, Tolerable, AllStopped, FromPage, NewInWindow;
  }

  lemma SeedFlags(seeds: seq<Seed>, receipts: set<Account>, proved: set<Account>, final: seq<Seed>)
    requires final == ReplaySeeds(seeds, receipts, proved)
    ensures |final| == |seeds|
    ensures forall i ::
              0 <= i < |seeds| ==> final[i].(boundaryVerified := false) == seeds[i].(boundaryVerified := false)
    ensures forall i :: 0 <= i < |seeds| ==>
              final[i].boundaryVerified
              == if seeds[i].account in receipts then seeds[i].account in proved else seeds[i].boundaryVerified
  {}

  lemma Examining(policy: Policy, horizon: Horizon, seeds: seq<Seed>, receipts: set<Account>, limits: Budget,
                  fetch: Fetch, r: Resolution, trails: map<Account, seq<Request>>, proved: set<Account>)
    requires |r.seeds| == |seeds| && r.ledger.nodes.Keys <= trails.Keys
    requires AllGathered(fetch, trails, Gathered(r.collected, r.conflicts, r.closings))
    requires Justified(fetch, limits, trails)
    requires r.coverageComplete ==> NothingMissing(fetch, horizon, receipts, trails, r.collected)
    requires NothingMissing(fetch, horizon, receipts, trails, r.collected)
             ==> r.coverageComplete || HitLimit(policy, horizon, seeds, r.order, r.collected, r.conflicts)
    requires forall i :: 0 <= i < |seeds| ==>
               r.seeds[i].boundaryVerified
               == if seeds[i].account in receipts then seeds[i].account in proved else seeds[i].boundaryVerified
    requires forall a :: a in receipts ==> (a in proved <==> r.coverageComplete && a in trails)
    ensures Examined(policy, horizon, seeds, receipts, limits, fetch, r, trails)
  {
    hide AllGathered, Justified, NothingMissing, HitLimit;
  }

  /** With the worklist empty: what is complete was read in full, and what is well read is complete. */
  lemma ReadAndCovered(fetch: Fetch, horizon: Horizon, receipts: set<Account>, histories: map<Account, History>,
                       trails: map<Account, seq<Request>>, collected: map<Signature, Stored>,
                       issues: set<HistoryIssue>)
    requires Worklist(fetch, horizon, receipts, histories, trails, collected, [])
    requires Tolerable(issues)
             <==> NewInWindow(horizon, map[], collected)
                  && forall a :: a in trails ==> a in histories && Tolerable(histories[a].issues)
    ensures trails.Keys == histories.Keys
    ensures var covered := histories != map[] && Tolerable(issues)
                           && forall a :: a in histories ==> histories[a].providerComplete;
            && (covered <==> NothingMissing(fetch, horizon, receipts, trails, collected))
            && (covered ==> forall a :: a in histories ==> FullyRead(fetch, a, collected))
            && (covered ==> forall a :: a in histories && a in receipts ==> histories[a].boundary == Some(true))
  {
    hide Tolerable, NewInWindow, FullyRead, WellRead;
    assert Elements([]) == {};
    assert histories != map[] <==> trails != map[] by {
      if trails == map[] { assert histories.Keys == {}; }
      if histories == map[] { assert trails.Keys == {}; }
    }
    forall a | a in trails
      ensures Settles(fetch, horizon, receipts, a, histories[a], trails[a], collected)
    {}
    forall a | a in histories && histories[a].providerComplete ensures FullyRead(fetch, a, collected) {
      assert Settles(fetch, horizon, receipts, a, histories[a], trails[a], collected);
      WellReadIsRead(fetch, receipts, a, trails[a], collected);
    }
  }

  lemma WellReadIsRead(fetch: Fetch, receipts: set<Account>, a: Account, trail: seq<Request>,
                       collected: map<Signature, Stored>)
    requires WellRead(fetch, receipts, a, trail, collected)
    ensures FullyRead(fetch, a, collected)
  {
    WellReadIsFull(fetch, receipts, a, trail, collected);
    hide WellRead, FullHistory, Received;
    var p :| FullHistory(fetch, a, trail, p);
  }

  lemma Concluding(policy: Policy, horizon: Horizon, seeds: seq<Seed>, fetch: Fetch, r: Resolution)
    requires CollectedOk(r.order, r.collected) && Extends(fetch, map[], r.collected)
    requires |r.seeds| == |seeds| && forall i ::
             0 <= i < |seeds| ==> r.seeds[i].(boundaryVerified := false) == seeds[i].(boundaryVerified := false)
    requires (r.ledger, r.confirmed)
             == Settled(Replayed(policy, horizon, r.seeds, r.coverageComplete,
                                 BatchesOf(r.order, r.collected, r.conflicts)), r.closings)
    requires r.coverageComplete ==> forall a :: a in r.ledger.nodes ==> FullyRead(fetch, a, r.collected)
    requires r.coverageComplete ==> r.ledger.issues * Limits == {}
    ensures Resolved(policy, horizon, seeds, fetch, r)
  {
    hide CollectedOk, Extends, Settled, Replayed, BatchesOf, FullyRead;
  }

  /** The last replay, then the closings; neither tracks more nor hits a limit after the replay. */
  method FinalReplay(policy: Policy, horizon: Horizon, seeds: seq<Seed>, historyComplete: bool, raw: seq<RawBatch>,
                     closings: seq<ClosingRow>)
    returns (ledger: Ledger, confirmed: Confirmed)
    requires BodiesOk(raw)
    ensures var replayed := Replayed(policy, horizon, seeds, historyComplete, raw);
            && (ledger, confirmed) == Settled(replayed, closings)
            && ledger.nodes.Keys == replayed.nodes.Keys && ledger.issues * Limits == replayed.issues * Limits
  {
    hide Replayed, ConfirmAll, Settle;
    var replay := Run(policy, horizon, seeds, historyComplete, raw);
    ghost var before := replay.State();
    confirmed := replay.ConfirmClosings(closings);
    replay.Settle(confirmed);
    ledger := replay.State();
    ConfirmTwins(before, map[], closings);
    SettleTwins(ConfirmAll(before, map[], closings).0, confirmed);
  }

  lemma TwinsAgree(l: Ledger, k: Ledger)
    requires Twins(l, k)
    ensures l.nodes.Keys == k.nodes.Keys && l.issues * Limits == k.issues * Limits
  {}

  lemma {:induction false} ConfirmTwins(l: Ledger, seen: Confirmed, closings: seq<ClosingRow>)
    ensures var r := ConfirmAll(l, seen, closings).0;
            r.nodes.Keys == l.nodes.Keys && r.issues * Limits == l.issues * Limits
    decreases |closings|
  {
    if closings != [] {
      var (l1, seen1) := Confirm(l, seen, closings[0]);
      ConfirmTwins(l1, seen1, closings[1..]);
    }
  }

  lemma SettleTwins(l: Ledger, confirmed: Confirmed)
    ensures Settle(l, confirmed).issues * Limits == l.issues * Limits && Settle(l, confirmed).nodes.Keys == l.nodes.Keys
  {
    NoLimitRevealed(l, ConfirmedRows(confirmed), Settling);
  }

  // ---- what clean providers achieve ----

  /** What a provider without defects answers, for one truth `content` about every signature. */
  ghost predicate CleanAnswer(page: Page, horizon: Horizon, receipts: set<Account>, a: Account, limit: nat,
                              provider: Provider, content: Signature -> Stored) {
    && CleanPage(page, limit, provider) && page.next != Invalid && (page.next == Done <==> page.claimsComplete)
    && (page.closing.Some? ==> page.closing.value.account == a)
    && (a in receipts ==> page.boundary != Some(false) && (page.next == Done ==> page.boundary == Some(true)))
    && forall row :: row in page.rows ==>
         var truth := content(row.signature.value);
         row.raw == truth.raw && row.batch == truth.batch && InWindow(horizon, row.batch)
  }

  /** One provider per account answers every request cleanly, and its cursors lead to an end. */
  ghost predicate CleanProviders(fetch: Fetch, horizon: Horizon, receipts: set<Account>,
                                 provider: Account -> Provider, content: Signature -> Stored,
                                 rank: (Account, Option<Cursor>) -> nat) {
    forall a, c, n ::
      var page := fetch(a, c, n);
      && CleanAnswer(page, horizon, receipts, a, n, provider(a), content)
      && (page.next.More? ==> rank(a, Some(page.next.cursor)) < rank(a, c))
  }

  lemma {:induction false} RanksFall(fetch: Fetch, horizon: Horizon, receipts: set<Account>,
                                     provider: Account -> Provider, content: Signature -> Stored,
                                     rank: (Account, Option<Cursor>) -> nat, a: Account, trail: seq<Request>,
                                     cursor: Option<Cursor>, i: nat)
    requires CleanProviders(fetch, horizon, receipts, provider, content, rank)
    requires Walked(fetch, a, trail, cursor) && i < |trail|
    ensures rank(a, cursor) < rank(a, trail[i].cursor)
    decreases |trail| - i
  {
    hide CleanAnswer;
    assert Linked(fetch, a, trail, i, cursor);
    if i < |trail| - 1 {
      RanksFall(fetch, horizon, receipts, provider, content, rank, a, trail, cursor, i + 1);
    }
  }

  lemma CleanIsNotStuck(fetch: Fetch, horizon: Horizon, receipts: set<Account>, provider: Account -> Provider,
                        content: Signature -> Stored, rank: (Account, Option<Cursor>) -> nat, a: Account,
                        trail: seq<Request>)
    requires CleanProviders(fetch, horizon, receipts, provider, content, rank)
    ensures !Stuck(fetch, a, trail)
  {
    if Stuck(fetch, a, trail) {
      var cursor, limit: nat :| Walked(fetch, a, trail, cursor) && limit > 0 && Blocked(fetch, a, trail, cursor, limit);
      assert CleanAnswer(fetch(a, cursor, limit), horizon, receipts, a, limit, provider(a), content);
      var i :| 0 <= i < |trail| && trail[i].cursor == cursor;
      RanksFall(fetch, horizon, receipts, provider, content, rank, a, trail, cursor, i);
      assert false;
    }
  }

  /** What clean providers showed and was stored is the truth. */
  lemma CleanIsStored(fetch: Fetch, horizon: Horizon, receipts: set<Account>, provider: Account -> Provider,
                      content: Signature -> Stored, rank: (Account, Option<Cursor>) -> nat,
                      collected: map<Signature, Stored>)
    requires CleanProviders(fetch, horizon, receipts, provider, content, rank) && Extends(fetch, map[], collected)
    ensures forall s :: s in collected ==> collected[s] == content(s) && InWindow(horizon, collected[s].batch)
  {
    forall s | s in collected ensures collected[s] == content(s) && InWindow(horizon, collected[s].batch) {
      assert FromPage(fetch, s, collected[s]);
      var a, c, n, row :| fetch(a, c, n).Page? && row in fetch(a, c, n).rows && row.signature == Some(s)
                          && collected[s] == Stored(row.raw, row.batch);
      assert CleanAnswer(fetch(a, c, n), horizon, receipts, a, n, provider(a), content);
    }
  }

  lemma CleanIsWellRead(fetch: Fetch, horizon: Horizon, receipts: set<Account>, provider: Account -> Provider,
                        content: Signature -> Stored, rank: (Account, Option<Cursor>) -> nat, a: Account,
                        trail: seq<Request>, collected: map<Signature, Stored>)
    requires CleanProviders(fetch, horizon, receipts, provider, content, rank) && WalkedOut(fetch, a, trail)
    requires forall s :: s in collected ==> collected[s] == content(s)
    requires forall s :: Showed(fetch, a, trail, s) ==> s in collected
    ensures WellRead(fetch, receipts, a, trail, collected)
  {
    hide WalkedOut;
    forall i: nat | i < |trail|
      ensures GoodPage(receipts, a, Ask(fetch, a, trail[i]), trail[i].limit, Some(provider(a)), collected)
    {
      var page := Ask(fetch, a, trail[i]);
      assert CleanAnswer(page, horizon, receipts, a, trail[i].limit, provider(a), content);
      forall row | row in page.rows ensures Taken(row, collected) {
        assert Shows(page.rows, row.signature.value) && ShowsOn(page, row.signature.value);
      }
    }
    assert GoodPages(fetch, receipts, a, trail, Some(provider(a)), collected);
    if a in receipts {
      LastIsDone(fetch, a, trail);
      var page := Ask(fetch, a, trail[|trail| - 1]);
      assert CleanAnswer(page, horizon, receipts, a, trail[|trail| - 1].limit, provider(a), content);
      assert ShowsBoundary(page);
    }
  }

  lemma LastIsDone(fetch: Fetch, a: Account, trail: seq<Request>)
    requires WalkedOut(fetch, a, trail)
    ensures |trail| > 0 && Ask(fetch, a, trail[|trail| - 1]).next == Done
  {}

  /** The budget that a resolution was given is more than it was asked and delivered. */
  ghost predicate WithinBudget(fetch: Fetch, limits: Budget, trails: map<Account, seq<Request>>) {
    Total(Requests(trails), Units) < limits.pages && Total(Delivered(fetch, trails), Units) < limits.transactions
  }

  /**
   When coverage is declared: clean providers, a budget that is not used up and no tracking limit
   are enough, so a resolution that gives up early would be noticed.
   */
  lemma CleanIsCovered(policy: Policy, horizon: Horizon, seeds: seq<Seed>, receipts: set<Account>, limits: Budget,
                       fetch: Fetch, r: Resolution, trails: map<Account, seq<Request>>,
                       provider: Account -> Provider, content: Signature -> Stored,
                       rank: (Account, Option<Cursor>) -> nat)
    requires Resolved(policy, horizon, seeds, fetch, r)
    requires Examined(policy, horizon, seeds, receipts, limits, fetch, r, trails)
    requires CleanProviders(fetch, horizon, receipts, provider, content, rank)
    requires trails != map[] && WithinBudget(fetch, limits, trails)
    requires !HitLimit(policy, horizon, seeds, r.order, r.collected, r.conflicts)
    ensures r.coverageComplete
    ensures forall i :: 0 <= i < |seeds| && seeds[i].account in receipts && seeds[i].account in trails
              ==> r.seeds[i].boundaryVerified
  {
    hide Settled, Replayed, BatchesOf, HitLimit, CollectedOk, CleanProviders, FullyRead;
    CleanIsStored(fetch, horizon, receipts, provider, content, rank, r.collected);
    hide Extends;
    var calls, records :| Counted(fetch, trails, calls, records) && AllStopped(fetch, limits, trails, calls, records);
    forall a | a in trails ensures WellRead(fetch, receipts, a, trails[a], r.collected) {
      CleanIsNotStuck(fetch, horizon, receipts, provider, content, rank, a, trails[a]);
      assert Stopped(fetch, limits, a, trails[a], calls, records);
      forall s | Showed(fetch, a, trails[a], s) ensures s in r.collected {
        assert SomeShowed(fetch, trails, s);
      }
      hide WellRead, Stuck, WalkedOut, Showed, AllGathered;
      CleanIsWellRead(fetch, horizon, receipts, provider, content, rank, a, trails[a], r.collected);
    }
    assert NothingMissing(fetch, horizon, receipts, trails, r.collected) by { hide WellRead, InWindow; }
  }
}
