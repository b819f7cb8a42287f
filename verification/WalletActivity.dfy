/** Resumable wallet history over frozen windows. */
module WalletActivity {
  // `advance_wallet_history` (`wallet_activity.py`) takes one page per pass; a window stays frozen
  // until a full pass without issues completes it.

  import opened Wrappers

  datatype Key = Key(signature: nat, index: nat)

  datatype Event = Event(key: Key, body: nat)

  datatype Issue = OutsideWindow | ConflictingDecimals | Receipt(name: string)

  /** What decoding a transaction yields. */
  datatype Facts = Facts(events: seq<Event>, issues: set<Issue>, decimals: Option<nat>)

  datatype Tx = Tx(id: nat, at: Option<int>, facts: Facts)

  datatype Provider = Provider(id: nat)

  /** A position in one provider's listing; nobody else can read it. */
  datatype Cursor = Cursor(provider: Provider, position: nat)

  datatype Query = Query(from: int, to: int, cursor: Option<Cursor>, provider: Option<Provider>, issues: set<Issue>)

  datatype Response = Failure | Page(used: Provider, txs: seq<Tx>, next: Option<Cursor>)

  const ERRORS_BEFORE_RESTART := 3

  predicate Within(tx: Tx, from: int, to: int) {
    tx.at.Some? && from <= tx.at.value <= to
  }

  // ---- what providers list ----

  /** The full listing of each provider for a window, in its own order. */
  type Listing = (Provider, int, int) -> seq<Tx>

  /** No listing of a window misses a transaction of the wallet. */
  ghost predicate Full(listing: Listing, archive: set<Tx>) {
    forall p: Provider, from: int, to: int, tx :: tx in archive && Within(tx, from, to) ==> tx in listing(p, from, to)
  }

  function Position(query: Query): nat {
    if query.cursor.Some? then query.cursor.value.position else 0
  }

  /** A page continues the listing where the cursor points, and says truly whether more follows. */
  ghost predicate HonestPage(listing: Listing, query: Query, r: Response) {
    r.Page? && (query.cursor.Some? ==> r.used == query.cursor.value.provider) ==>
      var all, k := listing(r.used, query.from, query.to), Position(query);
      && k + |r.txs| <= |all| && r.txs == all[k..k + |r.txs|]
      && r.next == if k + |r.txs| == |all| then None else Some(Cursor(r.used, k + |r.txs|))
  }

  // ---- one page ----

  datatype Evidence = Evidence(events: map<Key, Event>, decimals: Option<nat>, issues: set<Issue>)

  /** One event: a different event under the same key, or one too many, spoils the page. */
  function Store(events: map<Key, Event>, e: Event, maxEvents: nat): Option<map<Key, Event>> {
    if e.key in events && events[e.key] != e then None
    else if e.key !in events && |events| >= maxEvents then None
    else Some(events[e.key := e])
  }

  function StoreAll(events: map<Key, Event>, es: seq<Event>, maxEvents: nat): Option<map<Key, Event>> {
    if es == [] then Some(events)
    else
      match StoreAll(events, es[..|es| - 1], maxEvents)
      case None => None
      case Some(before) => Store(before, es[|es| - 1], maxEvents)
  }

  function IssuesOf(v: Evidence, facts: Facts): set<Issue> {
    facts.issues + if facts.decimals.Some? && v.decimals.Some? && v.decimals != facts.decimals
        then {ConflictingDecimals} else {}
  }

  function ReadTx(v: Evidence, query: Query, tx: Tx, maxEvents: nat): Option<Evidence> {
    if !Within(tx, query.from, query.to) then Some(v.(issues := v.issues + {OutsideWindow}))
    else
      match StoreAll(v.events, tx.facts.events, maxEvents)
      case None => None
      case Some(events) =>
        Some(Evidence(events, if tx.facts.decimals.Some? then tx.facts.decimals else v.decimals,
                      v.issues + IssuesOf(v, tx.facts)))
  }

  function ReadTxs(v: Evidence, query: Query, txs: seq<Tx>, maxEvents: nat): Option<Evidence> {
    if txs == [] then Some(v)
    else
      match ReadTxs(v, query, txs[..|txs| - 1], maxEvents)
      case None => None
      case Some(before) => ReadTx(before, query, txs[|txs| - 1], maxEvents)
  }

  // ---- what a page establishes ----

  ghost predicate Grows(before: map<Key, Event>, after: map<Key, Event>) {
    forall k :: k in before ==> k in after && after[k] == before[k]
  }

  ghost predicate Stored(events: map<Key, Event>, tx: Tx) {
    forall e :: e in tx.facts.events ==> e.key in events && events[e.key] == e
  }

  /** A transaction has been read: its events are stored, or an issue remembers that it was not. */
  ghost predicate IsRead(v: Evidence, query: Query, tx: Tx) {
    if Within(tx, query.from, query.to) then Stored(v.events, tx) && tx.facts.issues <= v.issues
    else OutsideWindow in v.issues
  }

  lemma {:induction false} StoreAllGrows(events: map<Key, Event>, es: seq<Event>, maxEvents: nat)
    requires StoreAll(events, es, maxEvents).Some?
    ensures var after := StoreAll(events, es, maxEvents).value;
            Grows(events, after) && forall e :: e in es ==> e.key in after && after[e.key] == e
    decreases |es|
  {
    if es != [] {
      StoreAllGrows(events, es[..|es| - 1], maxEvents);
      assert forall e :: e in es ==> e in es[..|es| - 1] || e == es[|es| - 1];
    }
  }

  lemma StillRead(v: Evidence, w: Evidence, query: Query, tx: Tx)
    requires IsRead(v, query, tx) && Grows(v.events, w.events) && v.issues <= w.issues
    ensures IsRead(w, query, tx)
  {}

  lemma ReadTxReads(v: Evidence, query: Query, tx: Tx, maxEvents: nat)
    requires ReadTx(v, query, tx, maxEvents).Some?
    ensures var w := ReadTx(v, query, tx, maxEvents).value;
            IsRead(w, query, tx) && Grows(v.events, w.events) && v.issues <= w.issues
  {
    if Within(tx, query.from, query.to) {
      StoreAllGrows(v.events, tx.facts.events, maxEvents);
    }
  }

  lemma {:induction false} ReadTxsRead(v: Evidence, query: Query, txs: seq<Tx>, maxEvents: nat)
    requires ReadTxs(v, query, txs, maxEvents).Some?
    ensures var w := ReadTxs(v, query, txs, maxEvents).value;
            Grows(v.events, w.events) && v.issues <= w.issues && forall tx :: tx in txs ==> IsRead(w, query, tx)
    decreases |txs|
  {
    hide IsRead, ReadTx;
    if txs != [] {
      var rest, last := txs[..|txs| - 1], txs[|txs| - 1];
      ReadTxsRead(v, query, rest, maxEvents);
      var u := ReadTxs(v, query, rest, maxEvents).value;
      ReadTxReads(u, query, last, maxEvents);
      var w := ReadTx(u, query, last, maxEvents).value;
      forall tx | tx in txs ensures IsRead(w, query, tx) {
        if tx in rest {
          StillRead(u, w, query, tx);
        } else {
          assert tx == last;
        }
      }
    }
  }

  // ---- the audit of one owner ----

  /** Every transaction of the wallet from `first` up to `through` is stored and free of issues. */
  ghost predicate Complete(archive: set<Tx>, events: map<Key, Event>, first: int, through: Option<int>) {
    through.Some? ==> forall tx :: tx in archive && Within(tx, first, through.value) ==>
        Stored(events, tx)
        && tx.facts.issues == {}
  }

  /** Everything before the cursor has been read in this pass, from one provider. */
  ghost predicate Progress(listing: Listing, v: Evidence, query: Query) {
    && (query.cursor.Some? ==> query.provider == Some(query.cursor.value.provider))
    && (query.cursor.Some? ==>
          var all := listing(query.cursor.value.provider, query.from, query.to);
          Position(query) <= |all| && forall i :: 0 <= i < Position(query) ==> IsRead(v, query, all[i]))
  }

  function Start(first: int, through: Option<int>): int {
    if through.Some? && through.value + 1 > first then through.value + 1 else first
  }

  /** After three errors in a row the same window is read from its start, by any provider. */
  function AfterError(q: Query, errors: nat): Query {
    if errors >= ERRORS_BEFORE_RESTART then q.(cursor := None, provider := None) else q
  }

  class Audit {
    const first: int
    const limit: nat
    const maxEvents: nat
    var query: Option<Query>
    var events: map<Key, Event>
    var decimals: Option<nat>
    var completeThrough: Option<int>
    var consecutiveErrors: nat

    ghost predicate Valid(listing: Listing, archive: set<Tx>)
      reads this
    {
      && Complete(archive, events, first, completeThrough)
      && (query.Some? ==>
            && query.value.from == Start(first, completeThrough) <= query.value.to
            && Progress(listing, Evidence(events, decimals, query.value.issues), query.value))
    }

    constructor (first: int, limit: nat, maxEvents: nat)
      ensures this.first == first && this.limit == limit && this.maxEvents == maxEvents
      ensures query == None && events == map[] && decimals == None && completeThrough == None
      ensures forall listing: Listing, archive: set<Tx> :: Valid(listing, archive)
    {
      this.first, this.limit, this.maxEvents := first, limit, maxEvents;
      query, events, decimals, completeThrough, consecutiveErrors := None, map[], None, None, 0;
    }

    /** The window to read: the one that is open, or else everything since the checkpoint. */
    function Opened(end: int): Option<Query>
      reads this
    {
      var start := Start(first, completeThrough);
      if query.Some? then query else if start > end then None else Some(Query(start, end, None, None, {}))
    }

    /** Opens the next window, frozen from then on; false when there is nothing to read yet. */
    method Open(end: int, ghost listing: Listing, ghost archive: set<Tx>) returns (ok: bool)
      requires Valid(listing, archive)
      modifies this`query
      ensures Valid(listing, archive) && ok == query.Some? && query == old(Opened(end))
    {
      hide Complete;
      if query.None? {
        var start := Start(first, completeThrough);
        if start > end {
          return false;
        }
        query := Some(Query(start, end, None, None, {}));
      }
      return true;
    }

    /** A failed page changes no evidence; after three in a row the window is read from its start. */
    method Fail(ghost listing: Listing, ghost archive: set<Tx>)
      requires Valid(listing, archive) && query.Some?
      modifies this`query, this`consecutiveErrors
      ensures Valid(listing, archive)
      ensures consecutiveErrors == old(consecutiveErrors) + 1
      ensures query == Some(AfterError(old(query).value, consecutiveErrors))
    {
      hide Complete, IsRead;
      consecutiveErrors := consecutiveErrors + 1;
      if consecutiveErrors >= ERRORS_BEFORE_RESTART {
        query := Some(query.value.(cursor := None, provider := None));
      }
    }

    /** What a page shows, if it is accepted: it passes the checks and none of its events is refused. */
    function Read(q: Query, r: Response): Option<Evidence>
      reads this
    {
      if Usable(q, r) then ReadTxs(Evidence(events, decimals, q.issues), q, r.txs, maxEvents) else None
    }

    /** The checks made before a page is read. */
    predicate Usable(q: Query, r: Response)
      reads this
    {
      && r.Page? && (q.provider.Some? ==> r.used == q.provider.value) && |r.txs| <= limit
      && (r.next.Some? ==> r.next != q.cursor)
    }

    /** What a page that answers `q` leaves: a page to read next, the window to read again, or a checkpoint. */
    predicate Left(q: Query, r: Response, w: Evidence, through: Option<int>)
      requires r.Page?
      reads this
    {
      && Evidence(events, decimals, w.issues) == w && consecutiveErrors == 0
      && (r.next.Some? ==>
            query == Some(Query(q.from, q.to, r.next, Some(r.used), w.issues)) && completeThrough == through)
      && (r.next.None? && w.issues != {} ==>
            query == Some(Query(q.from, q.to, None, Some(r.used), {})) && completeThrough == through)
      && (r.next.None? && w.issues == {} ==> query == None && completeThrough == Some(q.to))
    }

    /** One pass: at most one page, which either is read whole or changes no evidence. */
    method Advance(available: bool, end: int, reply: Query -> Response, ghost listing: Listing, ghost archive: set<Tx>)
      returns (ok: bool)
      requires Valid(listing, archive) && Full(listing, archive)
      requires forall q: Query :: HonestPage(listing, q, reply(q))
      modifies this
      ensures Valid(listing, archive)
      ensures Grows(old(events), events) && (!ok ==> events == old(events) && decimals == old(decimals))
      ensures old(completeThrough).Some? ==>
                completeThrough.Some? && completeThrough.value >= old(completeThrough).value
      ensures completeThrough != old(completeThrough) ==> ok && query.None?
      ensures !available || end < first || old(Opened(end)).None? ==> !ok && query == old(query)
      ensures available && first <= end && old(Opened(end)).Some? ==>
                var q := old(Opened(end)).value;
                var w := old(Read(q, reply(q)));
                && (ok <==> w.Some?)
                && if ok then Left(q, reply(q), w.value, old(completeThrough))
                   else
                     && consecutiveErrors == old(consecutiveErrors) + 1
                     && query == Some(AfterError(q, consecutiveErrors))
    {
      hide Complete, Progress, Full, HonestPage, Grows;
      assert Grows(events, events) by { GrowsSelf(events); }
      if end < first || !available {
        return false;
      }
      var started := Open(end, listing, archive);
      if !started {
        return false;
      }
      var q := query.value;
      var r := reply(q);
      if !Usable(q, r) {
        Fail(listing, archive);
        return false;
      }
      var v := Evidence(events, decimals, q.issues);
      var read := ReadPage(v, q, r.txs);
      if read.None? {
        Fail(listing, archive);
        return false;
      }
      var w := read.value;
      ReadTxsRead(v, q, r.txs, maxEvents);
      assert HonestPage(listing, q, r);
      PageProgress(listing, v, q, r, w);
      CompleteGrows(archive, events, w.events, first, completeThrough);
      events, decimals, consecutiveErrors := w.events, w.decimals, 0;
      if r.next.Some? {
        query := Some(Query(q.from, q.to, r.next, Some(r.used), w.issues));
        SameProgress(listing, w, query.value);
      } else if w.issues != {} {
        query := Some(Query(q.from, q.to, None, Some(r.used), {}));
        FreshProgress(listing, Evidence(events, decimals, {}), query.value);
      } else {
        WindowComplete(listing, archive, w, q, r, first, completeThrough);
        completeThrough, query := Some(q.to), None;
      }
      return true;
    }

    method ReadPage(v: Evidence, q: Query, txs: seq<Tx>) returns (read: Option<Evidence>)
      ensures read == ReadTxs(v, q, txs, maxEvents)
    {
      var w := v;
      for i := 0 to |txs|
        invariant ReadTxs(v, q, txs[..i], maxEvents) == Some(w)
      {
        assert txs[..i + 1][..i] == txs[..i];
        var next := ReadTx(w, q, txs[i], maxEvents);
        if next.None? {
          PageFails(v, q, txs, i + 1, maxEvents);
          return None;
        }
        w := next.value;
      }
      assert txs[..|txs|] == txs;
      return Some(w);
    }
  }

  lemma {:induction false} PageFails(v: Evidence, q: Query, txs: seq<Tx>, n: nat, maxEvents: nat)
    requires n <= |txs| && ReadTxs(v, q, txs[..n], maxEvents) == None
    ensures ReadTxs(v, q, txs, maxEvents) == None
    decreases |txs|
  {
    if n < |txs| {
      assert txs[..|txs| - 1][..n] == txs[..n];
      PageFails(v, q, txs[..|txs| - 1], n, maxEvents);
    } else {
      assert txs[..n] == txs;
    }
  }

  lemma GrowsSelf(events: map<Key, Event>)
    ensures Grows(events, events)
  {}

  /** After an honest page everything up to its end has been read. */
  lemma PageProgress(listing: Listing, v: Evidence, q: Query, r: Response, w: Evidence)
    requires Progress(listing, v, q) && HonestPage(listing, q, r) && r.Page?
    requires (q.provider.Some? ==> r.used == q.provider.value)
    requires Grows(v.events, w.events) && v.issues <= w.issues && forall tx :: tx in r.txs ==> IsRead(w, q, tx)
    ensures var all, n := listing(r.used, q.from, q.to), Position(q) + |r.txs|;
            && n <= |all| && (forall i :: 0 <= i < n ==> IsRead(w, q, all[i]))
            && r.next == if n == |all| then None else Some(Cursor(r.used, n))
  {
    hide IsRead, Grows;
    var all, k := listing(r.used, q.from, q.to), Position(q);
    forall i | 0 <= i < k + |r.txs| ensures IsRead(w, q, all[i]) {
      if i < k {
        StillRead(v, w, q, all[i]);
      } else {
        assert all[i] == r.txs[i - k];
        assert all[i] in r.txs;
      }
    }
  }

  lemma SameProgress(listing: Listing, w: Evidence, q: Query)
    requires q.cursor.Some? && q.provider == Some(q.cursor.value.provider)
    requires var all := listing(q.cursor.value.provider, q.from, q.to);
             Position(q) <= |all| && forall i :: 0 <= i < Position(q) ==> IsRead(w, q, all[i])
    ensures Progress(listing, w, q)
  {}

  lemma FreshProgress(listing: Listing, w: Evidence, q: Query)
    requires q.cursor.None?
    ensures Progress(listing, w, q)
  {}

  lemma CompleteGrows(archive: set<Tx>, before: map<Key, Event>, after: map<Key, Event>, first: int,
                      through: Option<int>)
    requires Complete(archive, before, first, through) && Grows(before, after)
    ensures Complete(archive, after, first, through)
  {}

  /** A pass that ends without issues has stored every transaction of its window. */
  lemma WindowComplete(listing: Listing, archive: set<Tx>, w: Evidence, q: Query, r: Response, first: int,
                       through: Option<int>)
    requires r.Page? && Full(listing, archive) && Complete(archive, w.events, first, through)
    requires q.from == Start(first, through) && w.issues == {}
    requires forall tx :: tx in listing(r.used, q.from, q.to) ==> IsRead(w, q, tx)
    ensures Complete(archive, w.events, first, Some(q.to))
  {
    forall tx | tx in archive && Within(tx, first, q.to) ensures Stored(w.events, tx) && tx.facts.issues == {} {
      if Within(tx, q.from, q.to) {
        assert tx in listing(r.used, q.from, q.to);
      }
    }
  }

  // ---- a window that nothing spoils ----

  /** A window of one provider, with everything it holds. */
  datatype Window = Window(from: int, to: int, provider: Provider, txs: seq<Tx>, table: map<Key, Event>, decimals: nat)

  /** The transactions fall into the window, have no issues, and agree on their events and on the decimals. */
  ghost predicate Clean(w: Window, txs: seq<Tx>, maxEvents: nat) {
    && |w.table| <= maxEvents
    && forall tx :: tx in txs ==>
         && Within(tx, w.from, w.to) && tx.facts.issues == {} && Stored(w.table, tx)
         && (tx.facts.decimals.Some? ==> tx.facts.decimals == Some(w.decimals))
  }

  /** The window is asked for and, wherever its cursor points, answered with a page that fits and gets further. */
  ghost predicate Served(w: Window, pass: Pass, limit: nat) {
    && pass.available && pass.end == w.to
    && forall q: Query :: Asks(w, q) ==>
         var r := pass.reply(q);
         r.Page? && r.used == w.provider && |r.txs| <= limit && (r.next.Some? ==> r.txs != [])
  }

  ghost predicate Asks(w: Window, q: Query) {
    && q.from == w.from && q.to == w.to && Position(q) <= |w.txs|
    && (q.cursor.Some? ==> q.cursor.value.provider == w.provider)
    && (q.provider.Some? ==> q.provider.value == w.provider)
  }

  /** Nothing read so far contradicts the window. */
  ghost predicate Fits(w: Window, v: Evidence) {
    Grows(v.events, w.table) && v.issues == {} && (v.decimals.Some? ==> v.decimals == Some(w.decimals))
  }

  lemma {:induction false} CleanStored(w: Window, events: map<Key, Event>, es: seq<Event>, maxEvents: nat)
    requires Grows(events, w.table) && |w.table| <= maxEvents
    requires forall e :: e in es ==> e.key in w.table && w.table[e.key] == e
    ensures StoreAll(events, es, maxEvents).Some? && Grows(StoreAll(events, es, maxEvents).value, w.table)
    decreases |es|
  {
    if es != [] {
      var last := es[|es| - 1];
      CleanStored(w, events, es[..|es| - 1], maxEvents);
      var before := StoreAll(events, es[..|es| - 1], maxEvents).value;
      assert last in es && w.table[last.key] == last;
      if last.key !in before {
        FewerKeys(before, w.table, last.key);
      }
    }
  }

  lemma FewerKeys(events: map<Key, Event>, table: map<Key, Event>, k: Key)
    requires Grows(events, table) && k in table && k !in events
    ensures |events| < |table|
  {
    assert events.Keys <= table.Keys - {k};
    Subset(events.Keys, table.Keys - {k});
  }

  lemma {:induction false} Subset(a: set<Key>, b: set<Key>)
    requires a <= b
    ensures |a| <= |b|
    decreases |a|
  {
    if k :| k in a {
      Subset(a - {k}, b - {k});
    }
  }

  /** Every page of a clean window is read without an issue. */
  lemma {:induction false} CleanPage(w: Window, v: Evidence, q: Query, txs: seq<Tx>, maxEvents: nat)
    requires Clean(w, txs, maxEvents) && Fits(w, v) && q.from == w.from && q.to == w.to
    ensures ReadTxs(v, q, txs, maxEvents).Some? && Fits(w, ReadTxs(v, q, txs, maxEvents).value)
    decreases |txs|
  {
    if txs != [] {
      var rest, last := txs[..|txs| - 1], txs[|txs| - 1];
      assert last in txs && Stored(w.table, last);
      CleanPage(w, v, q, rest, maxEvents);
      CleanStored(w, ReadTxs(v, q, rest, maxEvents).value.events, last.facts.events, maxEvents);
    }
  }

  /** A page of a clean window is read without an issue, and one that is not the last gets further. */
  lemma ServedPage(w: Window, listing: Listing, q: Query, v: Evidence, r: Response, maxEvents: nat)
    requires Clean(w, w.txs, maxEvents) && w.txs == listing(w.provider, w.from, w.to)
    requires Asks(w, q) && q.issues == {} && v.issues == {} && Fits(w, v)
    requires HonestPage(listing, q, r) && r.Page? && r.used == w.provider && (r.next.Some? ==> r.txs != [])
    ensures ReadTxs(v, q, r.txs, maxEvents).Some? && Fits(w, ReadTxs(v, q, r.txs, maxEvents).value)
    ensures r.next.Some? ==>
              var next := Query(q.from, q.to, r.next, Some(r.used), {});
              r.next != q.cursor && Asks(w, next) && Position(next) > Position(q)
  {
    assert Clean(w, r.txs, maxEvents) by {
      forall tx | tx in r.txs ensures tx in w.txs {
        var i :| 0 <= i < |r.txs| && r.txs[i] == tx;
        assert w.txs[Position(q) + i] == tx;
      }
    }
    CleanPage(w, v, q, r.txs, maxEvents);
  }

  /** After `n` passes over a clean window: complete, or at least `n` transactions read, without an issue. */
  ghost predicate Underway(w: Window, query: Option<Query>, v: Evidence, through: Option<int>, n: nat) {
    if through == Some(w.to) then query.None?
    else
      && through.None? && Fits(w, v)
      && (query.None? ==> n == 0)
      && (query.Some? ==> Asks(w, query.value) && query.value.issues == {} && Position(query.value) >= n)
  }

  // ---- a run ----

  /** One scheduled pass and how the providers answer it. */
  datatype Pass = Pass(available: bool, end: int, reply: Query -> Response)

  /** The passes serve a clean window, and there are more of them than it has transactions. */
  ghost predicate Finishes(w: Window, passes: seq<Pass>, listing: Listing, first: int, limit: nat, maxEvents: nat) {
    && w.from == first <= w.to && w.txs == listing(w.provider, w.from, w.to) && Clean(w, w.txs, maxEvents)
    && |passes| > |w.txs| && forall i :: 0 <= i < |passes| ==> Served(w, passes[i], limit)
  }

  /**
   Over any passes everything up to `complete_through` is stored; and passes that keep serving a
   clean window complete it to its end, whichever window it is.
   */
  method Run(first: int, limit: nat, maxEvents: nat, passes: seq<Pass>, ghost listing: Listing, ghost archive: set<Tx>,
             ghost window: Window)
    returns (events: map<Key, Event>, through: Option<int>)
    requires Full(listing, archive)
    requires forall i :: 0 <= i < |passes| ==> forall q: Query :: HonestPage(listing, q, passes[i].reply(q))
    ensures Complete(archive, events, first, through)
    ensures Finishes(window, passes, listing, first, limit, maxEvents) ==> through == Some(window.to)
  {
    hide Complete, Full, HonestPage;
    var audit := new Audit(first, limit, maxEvents);
    ghost var calm := Finishes(window, passes, listing, first, limit, maxEvents);
    for i := 0 to |passes|
      invariant audit.Valid(listing, archive) && fresh(audit)
      invariant audit.first == first && audit.limit == limit && audit.maxEvents == maxEvents
      invariant calm ==>
                  Underway(window, audit.query, Evidence(audit.events, audit.decimals, {}), audit.completeThrough, i)
    {
      ghost var asked, v := audit.Opened(passes[i].end), Evidence(audit.events, audit.decimals, {});
      if calm && asked.Some? {
        assert Served(window, passes[i], limit) && Asks(window, asked.value);
        assert HonestPage(listing, asked.value, passes[i].reply(asked.value));
        ServedPage(window, listing, asked.value, v, passes[i].reply(asked.value), maxEvents);
      }
      var _ := audit.Advance(passes[i].available, passes[i].end, passes[i].reply, listing, archive);
    }
    return audit.events, audit.completeThrough;
  }
}
