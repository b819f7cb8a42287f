/** The pages of an account's history, and what they establish. */
module PositionPages {
  // A history is read page by page. What a reader may conclude depends only on the pages it took: the
  // trail of its requests says which those were.

  import opened Wrappers
  import opened PositionLedger
  import opened PositionOrder

  type Cursor = string
  type Provider = string
  type RawTx = string

  /** A transaction row with the batch the parser made of it. */
  datatype FetchedRow = FetchedRow(signature: Option<Signature>, raw: RawTx, mentionsAccount: bool,
                                   decoderIssue: bool, batch: RawBatch)

  datatype Next = Done | More(cursor: Cursor) | Invalid

  /** `flawed` collects every coverage defect that only adds an issue. */
  datatype Page =
    | Unreadable
    | Page(rows: seq<FetchedRow>, next: Next, provider: Option<Provider>, flawed: bool,
           claimsComplete: bool, boundary: Option<bool>, closing: Option<ClosingRow>)

  type Fetch = (Account, Option<Cursor>, nat) -> Page

  datatype HistoryIssue =
    | PageBudget | TransactionBudget | FetchError | OversizedPage | NoProvider | ProviderChanged
    | CoverageFlaw | BoundaryUnverified | BadCursor | PrematureComplete | BadRow | ConflictingRow
    | Interpretation | OutsideWindow | NotComplete | CursorCycle

  datatype History = History(provider: Option<Provider>, pages: nat, boundary: Option<bool>,
                             issues: set<HistoryIssue>, exhausted: bool, providerComplete: bool)

  datatype Budget = Budget(pages: nat, transactions: nat, pageSize: nat)

  datatype Stored = Stored(raw: RawTx, batch: RawBatch)

  /** One request of an account's history. */
  datatype Request = Request(cursor: Option<Cursor>, limit: nat)

  function Ask(fetch: Fetch, a: Account, request: Request): Page {
    fetch(a, request.cursor, request.limit)
  }

  ghost predicate FetchOk(fetch: Fetch) {
    forall a, c, n :: PageOk(fetch(a, c, n))
  }

  predicate PageOk(page: Page) {
    page.Page? ==> forall row :: row in page.rows ==> BatchOk(row.batch.body)
  }

  /** Reading problems leave the fetched history itself complete; every other issue does not. */
  predicate Tolerable(issues: set<HistoryIssue>) {
    issues <= {Interpretation}
  }

  function With(issues: set<HistoryIssue>, flag: bool, issue: HistoryIssue): (r: set<HistoryIssue>)
    ensures issues <= r && (flag ==> issue in r)
    ensures Tolerable(r) <==> Tolerable(issues) && (flag ==> issue == Interpretation)
  {
    if flag then issues + {issue} else issues
  }

  lemma TolerableNone()
    ensures Tolerable({})
  {}

  lemma TolerableHasNot(issues: set<HistoryIssue>, issue: HistoryIssue)
    ensures Tolerable(issues) && issue != Interpretation ==> issue !in issues
  {}

  lemma TolerableUnion(x: set<HistoryIssue>, y: set<HistoryIssue>)
    ensures Tolerable(x + y) <==> Tolerable(x) && Tolerable(y)
  {}

  // ---- what a complete history is ----

  ghost predicate CleanPage(page: Page, limit: nat, provider: Provider) {
    && page.Page? && |page.rows| <= limit && page.provider == Some(provider) && !page.flawed
    && forall row :: row in page.rows ==> row.signature.Some? && row.mentionsAccount
  }

  /** A page whose rows are taken: readable, not too long, and with a usable cursor. */
  predicate Takeable(page: Page, limit: nat) {
    page.Page? && |page.rows| <= limit && page.next != Invalid
  }

  /** Page `i` is taken, is not the last, and hands its cursor to the next request. */
  ghost predicate Linked(fetch: Fetch, a: Account, trail: seq<Request>, i: nat, after: Option<Cursor>)
    requires i < |trail|
  {
    var page := Ask(fetch, a, trail[i]);
    && Takeable(page, trail[i].limit) && page.next.More?
    && Some(page.next.cursor) == if i < |trail| - 1 then trail[i + 1].cursor else after
  }

  /** The pages taken so far; `cursor` comes next. */
  ghost predicate Walked(fetch: Fetch, a: Account, trail: seq<Request>, cursor: Option<Cursor>) {
    && (|trail| == 0 ==> cursor == None) && (|trail| > 0 ==> trail[0].cursor == None)
    && (forall i: nat :: i < |trail| ==> Linked(fetch, a, trail, i, cursor))
  }

  /** All pages from the first cursor to the one without a next. */
  ghost predicate WalkedOut(fetch: Fetch, a: Account, trail: seq<Request>) {
    && |trail| > 0 && trail[0].cursor == None
    && (forall i: nat :: i < |trail| - 1 ==> Linked(fetch, a, trail, i, None))
    && Takeable(Ask(fetch, a, trail[|trail| - 1]), trail[|trail| - 1].limit)
    && Ask(fetch, a, trail[|trail| - 1]).next == Done
  }

  /** One provider's clean pages from the first cursor to the end, which alone claims completeness. */
  ghost predicate FullHistory(fetch: Fetch, a: Account, trail: seq<Request>, provider: Provider) {
    WalkedOut(fetch, a, trail) && forall i: nat :: i < |trail| ==> CleanOf(fetch, a, trail[i], provider)
  }

  ghost predicate CleanOf(fetch: Fetch, a: Account, request: Request, provider: Provider) {
    var page := Ask(fetch, a, request);
    CleanPage(page, request.limit, provider) && (page.next == Done <==> page.claimsComplete)
  }

  /** Every transaction of those pages was received as it stands. */
  ghost predicate Received(fetch: Fetch, a: Account, trail: seq<Request>, collected: map<Signature, Stored>) {
    forall i, row :: 0 <= i < |trail| && Ask(fetch, a, trail[i]).Page?
                     && row in Ask(fetch, a, trail[i]).rows && row.signature.Some?
      ==> row.signature.value in collected && collected[row.signature.value].raw == row.raw
  }

  /** Some page showed this transaction under this signature. */
  ghost predicate FromPage(fetch: Fetch, s: Signature, stored: Stored) {
    exists a, c, n, row ::
      fetch(a, c, n).Page? && row in fetch(a, c, n).rows && row.signature == Some(s)
      && stored == Stored(row.raw, row.batch)
  }

  ghost predicate RowsFrom(fetch: Fetch, rows: seq<FetchedRow>) {
    forall row :: row in rows && row.signature.Some?
      ==> FromPage(fetch, row.signature.value, Stored(row.raw, row.batch))
  }

  /** The row names its account and signature, and its content is stored under that signature. */
  ghost predicate Taken(row: FetchedRow, collected: map<Signature, Stored>) {
    && row.signature.Some? && row.mentionsAccount
    && row.signature.value in collected && collected[row.signature.value].raw == row.raw
  }

  ghost predicate AllTaken(rows: seq<FetchedRow>, collected: map<Signature, Stored>) {
    forall row :: row in rows ==> Taken(row, collected)
  }

  lemma TakenNone(rows: seq<FetchedRow>, collected: map<Signature, Stored>, horizon: Horizon)
    ensures AllTaken(rows[..0], collected) && NewInWindow(horizon, collected, collected)
  {}

  lemma TakenAreSigned(rows: seq<FetchedRow>, collected: map<Signature, Stored>)
    requires AllTaken(rows, collected)
    ensures forall row :: row in rows ==> row.signature.Some? && row.mentionsAccount
  {}

  lemma PageRowsFrom(fetch: Fetch, a: Account, c: Option<Cursor>, n: nat)
    requires fetch(a, c, n).Page?
    ensures RowsFrom(fetch, fetch(a, c, n).rows)
  {}

  /** Nothing stored is replaced, and whatever is added comes from a page. */
  ghost predicate Extends(fetch: Fetch, older: map<Signature, Stored>, newer: map<Signature, Stored>) {
    && (forall s :: s in older ==> s in newer && newer[s] == older[s])
    && forall s :: s in newer && s !in older ==> FromPage(fetch, s, newer[s])
  }

  lemma ExtendsOn(fetch: Fetch, a: map<Signature, Stored>, b: map<Signature, Stored>, c: map<Signature, Stored>)
    requires Extends(fetch, a, b) && Extends(fetch, b, c)
    ensures Extends(fetch, a, c)
  {}

  predicate InWindow(horizon: Horizon, b: RawBatch) {
    b.slot.Some? && horizon.start < b.slot.value <= horizon.end
  }

  ghost predicate NewInWindow(horizon: Horizon, older: map<Signature, Stored>, newer: map<Signature, Stored>) {
    forall s :: s in newer && s !in older ==> InWindow(horizon, newer[s].batch)
  }

  lemma NewInWindowOn(fetch: Fetch, horizon: Horizon, a: map<Signature, Stored>, b: map<Signature, Stored>,
                      c: map<Signature, Stored>)
    requires Extends(fetch, a, b) && Extends(fetch, b, c)
    ensures NewInWindow(horizon, a, c) <==> NewInWindow(horizon, a, b) && NewInWindow(horizon, b, c)
  {}

  // ---- what the pages show, and what becomes of it ----

  /** The transactions stored, the signatures in dispute, and the closing rows. */
  datatype Gathered = Gathered(collected: map<Signature, Stored>, conflicts: set<Signature>, closings: seq<ClosingRow>)

  ghost predicate Shows(rows: seq<FetchedRow>, s: Signature) {
    exists row :: row in rows && row.signature == Some(s)
  }

  /** A row shows other content under the signature. */
  ghost predicate Contradicts(rows: seq<FetchedRow>, s: Signature, raw: RawTx) {
    exists row :: row in rows && row.signature == Some(s) && row.raw != raw
  }

  /** Exactly what the rows show is stored, and exactly what they contradict is in dispute. */
  ghost predicate RowsGathered(fetch: Fetch, rows: seq<FetchedRow>, g0: Gathered, g: Gathered) {
    && Extends(fetch, g0.collected, g.collected) && g.closings == g0.closings
    && (forall s :: s in g.collected <==> s in g0.collected || Shows(rows, s))
    && (forall s :: s in g.conflicts
                    <==> s in g0.conflicts || (s in g.collected && Contradicts(rows, s, g.collected[s].raw)))
  }

  /** One more row among rows that were taken before it. */
  lemma TakenMore(fetch: Fetch, horizon: Horizon, rows: seq<FetchedRow>, row: FetchedRow, g0: Gathered, g1: Gathered,
                  g: Gathered)
    requires RowsGathered(fetch, rows, g0, g1) && RowsGathered(fetch, [row], g1, g)
    ensures AllTaken(rows + [row], g.collected) <==> AllTaken(rows, g1.collected) && Taken(row, g.collected)
    ensures NewInWindow(horizon, g0.collected, g.collected)
            <==> NewInWindow(horizon, g0.collected, g1.collected) && NewInWindow(horizon, g1.collected, g.collected)
  {
    NewInWindowOn(fetch, horizon, g0.collected, g1.collected, g.collected);
    hide FromPage, NewInWindow, Contradicts;
    forall x | x in rows ensures Taken(x, g.collected) <==> Taken(x, g1.collected) {
      assert x.signature.Some? ==> Shows(rows, x.signature.value);
    }
    assert forall x :: x in rows + [row] <==> x in rows || x == row;
  }

  lemma RowsGatheredNone(fetch: Fetch, g: Gathered)
    ensures RowsGathered(fetch, [], g, g)
  {}

  /** A row without a signature changes nothing. */
  lemma RowUnsigned(fetch: Fetch, horizon: Horizon, row: FetchedRow, g: Gathered)
    requires row.signature.None?
    ensures RowsGathered(fetch, [row], g, g) && NewInWindow(horizon, g.collected, g.collected)
  {
    hide FromPage, InWindow;
  }

  /** The first row under a signature is stored. */
  lemma RowStored(fetch: Fetch, horizon: Horizon, row: FetchedRow, s: Signature, g: Gathered)
    requires row.signature == Some(s) && s !in g.collected && FromPage(fetch, s, Stored(row.raw, row.batch))
    ensures var more := g.collected[s := Stored(row.raw, row.batch)];
            && RowsGathered(fetch, [row], g, g.(collected := more))
            && (NewInWindow(horizon, g.collected, more) <==> InWindow(horizon, row.batch))
  {
    hide FromPage, InWindow;
    assert row in [row];
    var more := g.collected[s := Stored(row.raw, row.batch)];
    assert s in more && more[s].batch == row.batch;
  }

  /** Any further row under it is compared. */
  lemma RowCompared(fetch: Fetch, horizon: Horizon, row: FetchedRow, s: Signature, g: Gathered)
    requires row.signature == Some(s) && s in g.collected
    ensures var differs := g.collected[s].raw != row.raw;
            RowsGathered(fetch, [row], g, g.(conflicts := if differs then g.conflicts + {s} else g.conflicts))
    ensures NewInWindow(horizon, g.collected, g.collected)
  {
    hide FromPage, InWindow;
    assert row in [row];
  }

  lemma RowsGatheredOn(fetch: Fetch, rows: seq<FetchedRow>, row: FetchedRow, g0: Gathered, g1: Gathered, g: Gathered)
    requires RowsGathered(fetch, rows, g0, g1) && RowsGathered(fetch, [row], g1, g)
    ensures RowsGathered(fetch, rows + [row], g0, g)
  {
    hide FromPage;
    var all := rows + [row];
    forall s ensures Shows(all, s) <==> Shows(rows, s) || Shows([row], s) {
      if Shows(rows, s) {
        var x :| x in rows && x.signature == Some(s);
        assert x in all;
      }
      if Shows([row], s) { assert row in all; }
    }
    forall s, raw ensures Contradicts(all, s, raw) <==> Contradicts(rows, s, raw) || Contradicts([row], s, raw) {
      if Contradicts(rows, s, raw) {
        var x :| x in rows && x.signature == Some(s) && x.raw != raw;
        assert x in all;
      }
      if Contradicts([row], s, raw) { assert row in all; }
    }
    forall s, raw | Contradicts(rows, s, raw) ensures Shows(rows, s) {}
    ExtendsOn(fetch, g0.collected, g1.collected, g.collected);
    hide Shows, Contradicts;
  }

  ghost predicate ShowsOn(page: Page, s: Signature) {
    page.Page? && Shows(page.rows, s)
  }

  ghost predicate ContradictsOn(page: Page, s: Signature, raw: RawTx) {
    page.Page? && Contradicts(page.rows, s, raw)
  }

  predicate ClosesOn(page: Page, a: Account, row: ClosingRow) {
    page.Page? && page.closing == Some(row) && row.account == a
  }

  ghost predicate Showed(fetch: Fetch, a: Account, trail: seq<Request>, s: Signature) {
    exists i :: 0 <= i < |trail| && ShowsOn(Ask(fetch, a, trail[i]), s)
  }

  ghost predicate Contradicted(fetch: Fetch, a: Account, trail: seq<Request>, s: Signature, raw: RawTx) {
    exists i :: 0 <= i < |trail| && ContradictsOn(Ask(fetch, a, trail[i]), s, raw)
  }

  ghost predicate Closed(fetch: Fetch, a: Account, trail: seq<Request>, row: ClosingRow) {
    exists i :: 0 <= i < |trail| && ClosesOn(Ask(fetch, a, trail[i]), a, row)
  }

  /** One page, with the closing row it gives for its own account. */
  ghost predicate PageGathered(fetch: Fetch, a: Account, page: Page, g0: Gathered, g: Gathered)
    requires page.Page?
  {
    && RowsGathered(fetch, page.rows, g0.(closings := g.closings), g)
    && g.closings == g0.closings + if page.closing.Some? && page.closing.value.account == a then [page.closing.value]
                                   else []
  }

  /** All pages of a trail. */
  ghost predicate TrailGathered(fetch: Fetch, a: Account, trail: seq<Request>, g0: Gathered, g: Gathered) {
    && Extends(fetch, g0.collected, g.collected)
    && (forall s :: s in g.collected <==> s in g0.collected || Showed(fetch, a, trail, s))
    && (forall s :: s in g.conflicts
                    <==> s in g0.conflicts
                         || (s in g.collected && Contradicted(fetch, a, trail, s, g.collected[s].raw)))
    && (forall row :: row in g.closings <==> row in g0.closings || Closed(fetch, a, trail, row))
  }

  lemma TrailGatheredNone(fetch: Fetch, a: Account, g: Gathered)
    ensures TrailGathered(fetch, a, [], g, g)
  {}

  lemma ShowedOn(fetch: Fetch, a: Account, trail: seq<Request>, request: Request, s: Signature, raw: RawTx,
                 row: ClosingRow)
    ensures var all, page := trail + [request], Ask(fetch, a, request);
            && (Showed(fetch, a, all, s) <==> Showed(fetch, a, trail, s) || ShowsOn(page, s))
            && (Contradicted(fetch, a, all, s, raw)
                <==> Contradicted(fetch, a, trail, s, raw) || ContradictsOn(page, s, raw))
            && (Closed(fetch, a, all, row) <==> Closed(fetch, a, trail, row) || ClosesOn(page, a, row))
            && (Contradicted(fetch, a, trail, s, raw) ==> Showed(fetch, a, trail, s))
  {
    hide ClosesOn;
    var all := trail + [request];
    assert all[|trail|] == request && forall i :: 0 <= i < |trail| ==> all[i] == trail[i];
    forall i | 0 <= i < |trail| && ContradictsOn(Ask(fetch, a, trail[i]), s, raw)
      ensures ShowsOn(Ask(fetch, a, trail[i]), s)
    {}
    hide ShowsOn, ContradictsOn, Ask;
    if Showed(fetch, a, trail, s) {
      var i :| 0 <= i < |trail| && ShowsOn(Ask(fetch, a, trail[i]), s);
      assert ShowsOn(Ask(fetch, a, all[i]), s);
    }
    if Contradicted(fetch, a, trail, s, raw) {
      var i :| 0 <= i < |trail| && ContradictsOn(Ask(fetch, a, trail[i]), s, raw);
      assert ContradictsOn(Ask(fetch, a, all[i]), s, raw);
    }
    if Closed(fetch, a, trail, row) {
      var i :| 0 <= i < |trail| && ClosesOn(Ask(fetch, a, trail[i]), a, row);
      assert ClosesOn(Ask(fetch, a, all[i]), a, row);
    }
    assert ShowsOn(Ask(fetch, a, request), s) ==> ShowsOn(Ask(fetch, a, all[|trail|]), s);
    assert ContradictsOn(Ask(fetch, a, request), s, raw) ==> ContradictsOn(Ask(fetch, a, all[|trail|]), s, raw);
    assert ClosesOn(Ask(fetch, a, request), a, row) ==> ClosesOn(Ask(fetch, a, all[|trail|]), a, row);
  }

  lemma TrailGatheredOn(fetch: Fetch, a: Account, trail: seq<Request>, request: Request, g0: Gathered, g1: Gathered,
                        g: Gathered)
    requires TrailGathered(fetch, a, trail, g0, g1)
    requires Ask(fetch, a, request).Page? && PageGathered(fetch, a, Ask(fetch, a, request), g1, g)
    ensures TrailGathered(fetch, a, trail + [request], g0, g)
  {
    var page, all := Ask(fetch, a, request), trail + [request];
    ExtendsOn(fetch, g0.collected, g1.collected, g.collected);
    forall s ensures ShowsOn(page, s) == Shows(page.rows, s) {}
    forall s, raw ensures ContradictsOn(page, s, raw) == Contradicts(page.rows, s, raw) {}
    forall row ensures row in g.closings <==> row in g0.closings || Closed(fetch, a, all, row) {
      ShowedOn(fetch, a, trail, request, "", "", row);
    }
    hide Showed, Contradicted, Closed, Shows, Contradicts, ShowsOn, ContradictsOn, ClosesOn, FromPage;
    forall s ensures s in g.collected <==> s in g0.collected || Showed(fetch, a, all, s) {
      ShowedOn(fetch, a, trail, request, s, "", ClosingRow(a, a, true, None));
    }
    forall s
      ensures s in g.conflicts
              <==> s in g0.conflicts || (s in g.collected && Contradicted(fetch, a, all, s, g.collected[s].raw))
    {
      if s in g.collected {
        ShowedOn(fetch, a, trail, request, s, g.collected[s].raw, ClosingRow(a, a, true, None));
      }
    }
  }

  // ---- a well-read account ----

  /** Nothing on the page is an issue. */
  ghost predicate GoodPage(receipts: set<Account>, a: Account, page: Page, limit: nat, provider: Option<Provider>,
                           collected: map<Signature, Stored>) {
    && provider.Some? && CleanPage(page, limit, provider.value)
    && page.next != Invalid && (page.next == Done <==> page.claimsComplete)
    && (page.closing.Some? ==> page.closing.value.account == a)
    && (a in receipts ==> page.boundary != Some(false))
    && AllTaken(page.rows, collected)
  }

  ghost predicate GoodPages(fetch: Fetch, receipts: set<Account>, a: Account, trail: seq<Request>,
                            provider: Option<Provider>, collected: map<Signature, Stored>) {
    forall i: nat :: i < |trail| ==>
      GoodPage(receipts, a, Ask(fetch, a, trail[i]), trail[i].limit, provider, collected)
  }

  predicate ShowsBoundary(page: Page) {
    page.Page? && page.boundary == Some(true)
  }

  /** Some page proves that the seed's receipt is also its slot-end state. */
  ghost predicate BoundaryShown(fetch: Fetch, a: Account, trail: seq<Request>) {
    exists i :: 0 <= i < |trail| && ShowsBoundary(Ask(fetch, a, trail[i]))
  }

  /**
   Pages from one provider to the end, none with an issue; a receipt account's boundary is proved
   on one of them and disputed on none.
   */
  ghost predicate WellRead(fetch: Fetch, receipts: set<Account>, a: Account, trail: seq<Request>,
                           collected: map<Signature, Stored>) {
    && WalkedOut(fetch, a, trail)
    && (exists p :: GoodPages(fetch, receipts, a, trail, Some(p), collected))
    && (a in receipts ==> BoundaryShown(fetch, a, trail))
  }

  lemma WellReadIsFull(fetch: Fetch, receipts: set<Account>, a: Account, trail: seq<Request>,
                       collected: map<Signature, Stored>)
    requires WellRead(fetch, receipts, a, trail, collected)
    ensures exists p :: FullHistory(fetch, a, trail, p)
    ensures Received(fetch, a, trail, collected)
  {
    var p :| GoodPages(fetch, receipts, a, trail, Some(p), collected);
    hide WalkedOut;
    forall i: nat | i < |trail| ensures CleanOf(fetch, a, trail[i], p) {
      assert GoodPage(receipts, a, Ask(fetch, a, trail[i]), trail[i].limit, Some(p), collected);
    }
    assert FullHistory(fetch, a, trail, p);
  }

  lemma GoodPagesOn(fetch: Fetch, receipts: set<Account>, a: Account, trail: seq<Request>, request: Request,
                    provider: Option<Provider>, collected: map<Signature, Stored>)
    ensures GoodPages(fetch, receipts, a, trail + [request], provider, collected)
            <==> GoodPages(fetch, receipts, a, trail, provider, collected)
                 && GoodPage(receipts, a, Ask(fetch, a, request), request.limit, provider, collected)
  {
    hide GoodPage, Ask;
    var all := trail + [request];
    assert all[|trail|] == request && forall i :: 0 <= i < |trail| ==> all[i] == trail[i];
  }

  /** What was stored when a page was taken stays stored, so the page stays good or stays bad. */
  lemma GoodPagesStay(fetch: Fetch, receipts: set<Account>, a: Account, trail: seq<Request>,
                      provider: Option<Provider>, older: map<Signature, Stored>, newer: map<Signature, Stored>)
    requires Extends(fetch, older, newer) && forall s :: Showed(fetch, a, trail, s) ==> s in older
    ensures GoodPages(fetch, receipts, a, trail, provider, older)
            <==> GoodPages(fetch, receipts, a, trail, provider, newer)
  {
    hide FromPage;
    forall i: nat | i < |trail|
      ensures GoodPage(receipts, a, Ask(fetch, a, trail[i]), trail[i].limit, provider, older)
              <==> GoodPage(receipts, a, Ask(fetch, a, trail[i]), trail[i].limit, provider, newer)
    {
      var page := Ask(fetch, a, trail[i]);
      if page.Page? {
        forall row | row in page.rows ensures Taken(row, older) <==> Taken(row, newer) {
          if row.signature.Some? {
            assert Shows(page.rows, row.signature.value) && ShowsOn(page, row.signature.value);
          }
        }
      }
    }
    hide GoodPage;
  }

  lemma WellReadStays(fetch: Fetch, receipts: set<Account>, a: Account, trail: seq<Request>,
                      older: map<Signature, Stored>, newer: map<Signature, Stored>)
    requires Extends(fetch, older, newer) && forall s :: Showed(fetch, a, trail, s) ==> s in older
    ensures WellRead(fetch, receipts, a, trail, older) <==> WellRead(fetch, receipts, a, trail, newer)
  {
    forall p
      ensures GoodPages(fetch, receipts, a, trail, Some(p), older)
              <==> GoodPages(fetch, receipts, a, trail, Some(p), newer)
    {
      GoodPagesStay(fetch, receipts, a, trail, Some(p), older, newer);
    }
    hide GoodPages, WalkedOut, Extends;
  }

  lemma WalkedOn(fetch: Fetch, a: Account, trail: seq<Request>, cursor: Option<Cursor>, limit: nat)
    requires Walked(fetch, a, trail, cursor) && Takeable(fetch(a, cursor, limit), limit)
    ensures var next, all := fetch(a, cursor, limit).next, trail + [Request(cursor, limit)];
            && (next.More? ==> Walked(fetch, a, all, Some(next.cursor)))
            && (next == Done ==> WalkedOut(fetch, a, all))
  {
    var all, next := trail + [Request(cursor, limit)], fetch(a, cursor, limit).next;
    assert all[|trail|] == Request(cursor, limit) && Ask(fetch, a, all[|trail|]) == fetch(a, cursor, limit);
    var after := if next.More? then Some(next.cursor) else None;
    forall i: nat | i < |trail| ensures Linked(fetch, a, all, i, after) {
      assert all[i] == trail[i] && Linked(fetch, a, trail, i, cursor);
      if i < |trail| - 1 { assert all[i + 1] == trail[i + 1]; }
    }
    if next.More? {
      assert Linked(fetch, a, all, |trail|, after);
    }
  }

  /** Pages that ask for more are not all of them. */
  lemma WalkedIsNotOut(fetch: Fetch, a: Account, trail: seq<Request>, cursor: Option<Cursor>)
    requires Walked(fetch, a, trail, cursor)
    ensures !WalkedOut(fetch, a, trail)
  {
    if |trail| > 0 {
      assert Linked(fetch, a, trail, |trail| - 1, cursor);
    }
  }

  lemma BoundaryOn(fetch: Fetch, a: Account, trail: seq<Request>, request: Request)
    ensures BoundaryShown(fetch, a, trail + [request])
            <==> BoundaryShown(fetch, a, trail) || ShowsBoundary(Ask(fetch, a, request))
  {
    hide ShowsBoundary, Ask;
    var all := trail + [request];
    assert all[|trail|] == request && forall i :: 0 <= i < |trail| ==> all[i] == trail[i];
    if BoundaryShown(fetch, a, trail) {
      var i :| 0 <= i < |trail| && ShowsBoundary(Ask(fetch, a, trail[i]));
      assert ShowsBoundary(Ask(fetch, a, all[i]));
    }
    assert ShowsBoundary(Ask(fetch, a, request)) ==> ShowsBoundary(Ask(fetch, a, all[|trail|]));
  }

  // ---- reading on ----

  /** The provider that the reader remembers is one that a page named, if any did. */
  ghost predicate ProviderOf(fetch: Fetch, a: Account, trail: seq<Request>, provider: Option<Provider>) {
    if provider.None? then forall i: nat :: i < |trail| ==> Named(Ask(fetch, a, trail[i])).None?
    else exists i: nat :: i < |trail| && Named(Ask(fetch, a, trail[i])) == provider
  }

  function Named(page: Page): Option<Provider> {
    if page.Page? then page.provider else None
  }

  lemma ProviderOn(fetch: Fetch, a: Account, trail: seq<Request>, request: Request, provider: Option<Provider>)
    requires ProviderOf(fetch, a, trail, provider)
    ensures ProviderOf(fetch, a, trail + [request],
                       if provider.Some? then provider else Named(Ask(fetch, a, request)))
  {
    hide Named, Ask;
    var all := trail + [request];
    assert all[|trail|] == request && forall i :: 0 <= i < |trail| ==> all[i] == trail[i];
    if provider.Some? {
      var i: nat :| i < |trail| && Named(Ask(fetch, a, trail[i])) == provider;
      assert Named(Ask(fetch, a, all[i])) == provider;
    } else if Named(Ask(fetch, a, request)).Some? {
      assert Named(Ask(fetch, a, all[|trail|])) == Named(Ask(fetch, a, request));
    }
  }

  /** Pages that are good for some provider are good for the one remembered. */
  lemma OnlyProvider(fetch: Fetch, receipts: set<Account>, a: Account, trail: seq<Request>, p: Provider,
                     provider: Option<Provider>, collected: map<Signature, Stored>)
    requires GoodPages(fetch, receipts, a, trail, Some(p), collected) && trail != []
    requires ProviderOf(fetch, a, trail, provider)
    ensures provider == Some(p)
  {
    forall i: nat | i < |trail| ensures Named(Ask(fetch, a, trail[i])) == Some(p) {
      assert GoodPage(receipts, a, Ask(fetch, a, trail[i]), trail[i].limit, Some(p), collected);
    }
    hide Named, Ask, GoodPages;
    assert Named(Ask(fetch, a, trail[0])).Some?;
  }

  /** Pages read so far are good exactly when the earlier ones were and the last one is. */
  lemma GoodStep(fetch: Fetch, horizon: Horizon, receipts: set<Account>, a: Account, trail: seq<Request>,
                 request: Request, provider: Option<Provider>, g0: Gathered, g1: Gathered, g: Gathered)
    requires ProviderOf(fetch, a, trail, provider) && TrailGathered(fetch, a, trail, g0, g1)
    requires Ask(fetch, a, request).Page? && PageGathered(fetch, a, Ask(fetch, a, request), g1, g)
    ensures var page := Ask(fetch, a, request);
            var named := if provider.Some? then provider else page.provider;
            && ProviderOf(fetch, a, trail + [request], named)
            && (GoodPages(fetch, receipts, a, trail + [request], named, g.collected)
                <==> GoodPages(fetch, receipts, a, trail, provider, g1.collected)
                     && GoodPage(receipts, a, page, request.limit, named, g.collected))
            && (NewInWindow(horizon, g0.collected, g.collected)
                <==> NewInWindow(horizon, g0.collected, g1.collected)
                     && NewInWindow(horizon, g1.collected, g.collected))
  {
    var page := Ask(fetch, a, request);
    var named := if provider.Some? then provider else page.provider;
    ProviderOn(fetch, a, trail, request, provider);
    assert Named(page) == page.provider;
    NewInWindowOn(fetch, horizon, g0.collected, g1.collected, g.collected);
    GoodPagesOn(fetch, receipts, a, trail, request, named, g.collected);
    GoodPagesStay(fetch, receipts, a, trail, named, g1.collected, g.collected);
    hide NewInWindow, Extends;
    if trail != [] && provider.None? {
      NoneNamed(fetch, receipts, a, trail, named, g1.collected);
    } else if trail == [] {
      assert GoodPages(fetch, receipts, a, trail, provider, g1.collected);
      assert GoodPages(fetch, receipts, a, trail, named, g1.collected);
    }
  }

  lemma NoneNamed(fetch: Fetch, receipts: set<Account>, a: Account, trail: seq<Request>, named: Option<Provider>,
                  collected: map<Signature, Stored>)
    requires ProviderOf(fetch, a, trail, None) && trail != []
    ensures !GoodPages(fetch, receipts, a, trail, named, collected)
    ensures !GoodPages(fetch, receipts, a, trail, None, collected)
  {
    assert Named(Ask(fetch, a, trail[0])).None?;
    assert !GoodPage(receipts, a, Ask(fetch, a, trail[0]), trail[0].limit, named, collected);
    assert !GoodPage(receipts, a, Ask(fetch, a, trail[0]), trail[0].limit, None, collected);
  }

  /** At the last page: without an issue exactly when the account is well read. */
  lemma Finishes(fetch: Fetch, horizon: Horizon, receipts: set<Account>, a: Account, trail: seq<Request>,
                 provider: Option<Provider>, boundary: Option<bool>, older: map<Signature, Stored>,
                 collected: map<Signature, Stored>)
    requires WalkedOut(fetch, a, trail) && ProviderOf(fetch, a, trail, provider)
    requires a in receipts && GoodPages(fetch, receipts, a, trail, provider, collected)
             && NewInWindow(horizon, older, collected)
             ==> (boundary == Some(true) <==> BoundaryShown(fetch, a, trail))
    ensures WellRead(fetch, receipts, a, trail, collected) && NewInWindow(horizon, older, collected)
            <==> GoodPages(fetch, receipts, a, trail, provider, collected) && NewInWindow(horizon, older, collected)
                 && (a in receipts ==> boundary == Some(true))
  {
    hide GoodPage, BoundaryShown, NewInWindow;
    assert trail != [];
    if WellRead(fetch, receipts, a, trail, collected) {
      var p :| GoodPages(fetch, receipts, a, trail, Some(p), collected);
      OnlyProvider(fetch, receipts, a, trail, p, provider, collected);
    }
    if GoodPages(fetch, receipts, a, trail, provider, collected) {
      assert provider.Some? by {
        if provider.None? { NoneNamed(fetch, receipts, a, trail, None, collected); }
      }
    }
  }

  predicate Asked(trail: seq<Request>, cursor: Option<Cursor>) {
    exists i :: 0 <= i < |trail| && trail[i].cursor == cursor
  }

  lemma AskedOn(trail: seq<Request>, request: Request)
    ensures forall c :: Asked(trail, c) ==> Asked(trail + [request], c)
    ensures Asked(trail + [request], request.cursor)
  {
    var all := trail + [request];
    assert all[|trail|] == request;
    forall c | Asked(trail, c) ensures Asked(all, c) {
      var i :| 0 <= i < |trail| && trail[i].cursor == c;
      assert all[i].cursor == c;
    }
  }

  /** Every cursor seen so far was asked for, or comes next. */
  ghost predicate AllAsked(seen: set<Option<Cursor>>, trail: seq<Request>, cursor: Option<Cursor>) {
    forall c :: c in seen ==> c == cursor || Asked(trail, c)
  }

  lemma AllAskedOn(seen: set<Option<Cursor>>, trail: seq<Request>, request: Request, next: Option<Cursor>)
    requires AllAsked(seen, trail, request.cursor)
    ensures next in seen ==> Asked(trail + [request], next)
    ensures AllAsked(seen + {next}, trail + [request], next)
  {
    AskedOn(trail, request);
    hide Asked;
  }

  lemma Blocks(fetch: Fetch, a: Account, trail: seq<Request>, cursor: Option<Cursor>, limit: nat)
    requires Walked(fetch, a, trail, cursor) && limit > 0 && !Takeable(fetch(a, cursor, limit), limit)
    ensures Stuck(fetch, a, trail)
  {
    assert Blocked(fetch, a, trail, cursor, limit);
  }

  lemma Cycles(fetch: Fetch, a: Account, trail: seq<Request>, cursor: Option<Cursor>)
    requires Walked(fetch, a, trail, cursor) && Asked(trail, cursor)
    ensures Stuck(fetch, a, trail)
  {
    assert Blocked(fetch, a, trail, cursor, 1);
  }

  lemma NothingRead(fetch: Fetch, horizon: Horizon, receipts: set<Account>, a: Account,
                    collected: map<Signature, Stored>)
    ensures Walked(fetch, a, [], None) && ProviderOf(fetch, a, [], None) && !BoundaryShown(fetch, a, [])
    ensures GoodPages(fetch, receipts, a, [], None, collected) && NewInWindow(horizon, collected, collected)
  {}

  /** A request asks for less than a whole page only when the budget has no room for one. */
  predicate FullSized(limits: Budget, trail: seq<Request>, records: nat) {
    forall i :: 0 <= i < |trail| ==>
      0 < trail[i].limit <= limits.pageSize
      && (trail[i].limit < limits.pageSize ==> records + limits.pageSize > limits.transactions)
  }

  lemma FullSizedOn(limits: Budget, trail: seq<Request>, request: Request, records0: nat, records: nat)
    requires FullSized(limits, trail, records0) && records0 <= records && records0 < limits.transactions
    requires limits.pageSize > 0 && request.limit == Min(limits.pageSize, limits.transactions - records0)
    ensures FullSized(limits, trail + [request], records)
  {}

  lemma GoodShowsNoFalse(receipts: set<Account>, a: Account, page: Page, limit: nat, provider: Option<Provider>,
                         collected: map<Signature, Stored>)
    requires page.Page?
    ensures GoodPage(receipts, a, page, limit, provider, collected) && a in receipts && page.boundary.Some?
            ==> page.boundary == Some(true)
  {
    if page.boundary.Some? {
      assert page.boundary == Some(page.boundary.value) && (!page.boundary.value ==> page.boundary == Some(false));
    }
  }

  lemma FullSizedStill(limits: Budget, trail: seq<Request>, records0: nat, records: nat)
    requires FullSized(limits, trail, records0) && records0 <= records
    ensures FullSized(limits, trail, records)
  {}

  // ---- why the reading of an account may stop ----

  /** The next page cannot be taken, or its cursor was used before. */
  ghost predicate Stuck(fetch: Fetch, a: Account, trail: seq<Request>) {
    exists cursor, limit: nat :: Walked(fetch, a, trail, cursor) && limit > 0 && Blocked(fetch, a, trail, cursor, limit)
  }

  ghost predicate Blocked(fetch: Fetch, a: Account, trail: seq<Request>, cursor: Option<Cursor>, limit: nat) {
    !Takeable(fetch(a, cursor, limit), limit) || exists i :: 0 <= i < |trail| && trail[i].cursor == cursor
  }

  /** The rows that the pages of a trail delivered. */
  function RowsIn(fetch: Fetch, a: Account, trail: seq<Request>): nat {
    if trail == [] then 0
    else
      var page := Ask(fetch, a, trail[|trail| - 1]);
      RowsIn(fetch, a, trail[..|trail| - 1]) + if page.Page? then |page.rows| else 0
  }

  lemma RowsInOn(fetch: Fetch, a: Account, trail: seq<Request>, request: Request)
    ensures var page := Ask(fetch, a, request);
            RowsIn(fetch, a, trail + [request]) == RowsIn(fetch, a, trail) + if page.Page? then |page.rows| else 0
  {
    assert (trail + [request])[..|trail|] == trail;
  }
}
