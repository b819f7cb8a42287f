/** Batched re-reading of known token accounts. */
module BalanceBatch {
  // An owner is primed (`prime_known_balances` in `balance_batch.py`) only when every known account was
  // read again and none lost anything.

  import opened Wrappers

  datatype Owner = Owner(id: nat)

  datatype Pubkey = Pubkey(id: nat)

  datatype Known = Known(pubkey: Pubkey, program: nat, amount: nat)

  /** The last complete enumeration of an owner's accounts, as re-read since. */
  datatype Entry = Entry(accounts: seq<Known>, slot: nat, checkedSlot: nat, enumeratedAt: int, decimals: Option<nat>,
                         total: nat, checkedAt: int, needsEnumeration: bool)

  /** An account as the chain reports it, already checked for its mint. */
  datatype Account = Account(owner: Owner, program: nat, amount: nat, decimals: nat)

  datatype Batch = Batch(slot: nat, rows: seq<Option<Account>>)

  /** The answer to one request: addresses and the least slot that will do. */
  type Rpc = (seq<Pubkey>, nat) -> Option<Batch>

  datatype Config = Config(enabled: bool, maxOwners: nat, maxAccounts: nat, interval: int)

  const GROUP := 100

  function Sum(accounts: seq<Known>): nat {
    if accounts == [] then 0 else Sum(accounts[..|accounts| - 1]) + accounts[|accounts| - 1].amount
  }

  function MinimumSlot(e: Entry): nat {
    Max(e.slot, e.checkedSlot)
  }

  predicate DistinctKeys(accounts: seq<Known>) {
    forall i, j :: 0 <= i < j < |accounts| ==> accounts[i].pubkey != accounts[j].pubkey
  }

  /** An inventory a batch may stand for, with `used` accounts already in the request. */
  predicate Eligible(e: Entry, now: int, config: Config, used: nat) {
    && !e.needsEnumeration && 0 <= now - e.enumeratedAt < config.interval
    && e.accounts != [] && used + |e.accounts| <= config.maxAccounts && DistinctKeys(e.accounts)
    && e.decimals.Some? && e.decimals.value <= 255 && Sum(e.accounts) == e.total
  }

  // ---- selecting owners ----

  predicate NoRepeats(owners: seq<Owner>) {
    forall i, j :: 0 <= i < j < |owners| ==> owners[i] != owners[j]
  }

  /** The owners in order of their first mention. */
  function Firsts(owners: seq<Owner>): seq<Owner> {
    if owners == [] then []
    else
      var before, o := Firsts(owners[..|owners| - 1]), owners[|owners| - 1];
      if o in before then before else before + [o]
  }

  lemma FirstsMore(owners: seq<Owner>, i: nat)
    requires i < |owners|
    ensures owners[..i + 1] == owners[..i] + [owners[i]]
    ensures var before, o := Firsts(owners[..i]), owners[i];
            Firsts(owners[..i + 1]) == if o in before then before else before + [o]
  {
    assert owners[..i + 1][..i] == owners[..i];
  }

  /** Every owner once. */
  lemma {:induction false} FirstsHold(owners: seq<Owner>)
    ensures NoRepeats(Firsts(owners)) && forall o :: o in Firsts(owners) <==> o in owners
    decreases |owners|
  {
    if owners != [] {
      var n := |owners| - 1;
      FirstsHold(owners[..n]);
      assert owners == owners[..n] + [owners[n]];
    }
  }

  /** Owners keep the order of their first mention: more owners only add to the end. */
  lemma {:induction false} FirstsExtend(owners: seq<Owner>, n: nat)
    requires n <= |owners|
    ensures Firsts(owners[..n]) <= Firsts(owners)
    decreases |owners|
  {
    if n < |owners| {
      FirstsExtend(owners[..|owners| - 1], n);
      assert owners[..|owners| - 1][..n] == owners[..n];
    } else {
      assert owners[..n] == owners;
    }
  }

  lemma EitherPart(selected: seq<Owner>, overflow: seq<Owner>, o: Owner)
    ensures o in selected + overflow <==> o in selected || o in overflow
    ensures selected + (overflow + [o]) == selected + overflow + [o]
    ensures overflow == [] ==> selected + [o] + overflow == selected + overflow + [o]
  {}

  method Select(owners: seq<Owner>, maxOwners: nat) returns (selected: seq<Owner>, overflow: seq<Owner>)
    ensures selected + overflow == Firsts(owners)
    ensures NoRepeats(selected + overflow) && |selected| <= maxOwners
    ensures forall o :: o in selected + overflow <==> o in owners
    ensures overflow != [] ==> |selected| == maxOwners
  {
    FirstsHold(owners);
    selected, overflow := [], [];
    assert Firsts([]) == [];
    hide Firsts, NoRepeats;
    for i := 0 to |owners|
      invariant selected + overflow == Firsts(owners[..i]) && |selected| <= maxOwners
      invariant overflow != [] ==> |selected| == maxOwners
    {
      var o := owners[i];
      FirstsMore(owners, i);
      EitherPart(selected, overflow, o);
      if o in selected || o in overflow {
        continue;
      }
      if |selected| < maxOwners {
        selected := selected + [o];
      } else {
        overflow := overflow + [o];
      }
    }
    assert owners[..|owners|] == owners;
  }

  // ---- the flat list of accounts to read ----

  datatype Item = Item(owner: Owner, k: nat, pubkey: Pubkey, minimum: nat)

  function Count(items: seq<Item>, o: Owner): nat {
    if items == [] then 0 else Count(items[..|items| - 1], o) + if items[|items| - 1].owner == o then 1 else 0
  }

  /** Each owner's accounts appear in order, each with the slot its entry demands. */
  ghost predicate WellListed(items: seq<Item>, entries: map<Owner, Entry>) {
    forall i :: 0 <= i < |items| ==>
      var x := items[i];
      && x.owner in entries && x.k == Count(items[..i], x.owner) < |entries[x.owner].accounts|
      && x.pubkey == entries[x.owner].accounts[x.k].pubkey && x.minimum == MinimumSlot(entries[x.owner])
  }

  lemma ListMore(items: seq<Item>, x: Item, entries: map<Owner, Entry>)
    requires WellListed(items, entries) && x.owner in entries
    requires x.k == Count(items, x.owner) < |entries[x.owner].accounts|
    requires x.pubkey == entries[x.owner].accounts[x.k].pubkey && x.minimum == MinimumSlot(entries[x.owner])
    ensures WellListed(items + [x], entries)
    ensures forall o :: Count(items + [x], o) == Count(items, o) + if x.owner == o then 1 else 0
  {
    var more := items + [x];
    forall i | 0 <= i < |more| ensures more[..i] == if i < |items| then items[..i] else items {}
  }

  method AddOwner(items: seq<Item>, o: Owner, entries: map<Owner, Entry>) returns (more: seq<Item>)
    requires WellListed(items, entries) && o in entries && Count(items, o) == 0
    ensures WellListed(more, entries) && more == items + ItemsFor(o, entries[o])
    ensures forall p :: Count(more, p) == if p == o then |entries[o].accounts| else Count(items, p)
  {
    hide WellListed, Count;
    more := items;
    var e := entries[o];
    for k := 0 to |e.accounts|
      invariant WellListed(more, entries) && more == items + ItemsFor(o, e)[..k]
      invariant forall p :: Count(more, p) == if p == o then k else Count(items, p)
    {
      var x := Item(o, k, e.accounts[k].pubkey, MinimumSlot(e));
      ListMore(more, x, entries);
      more := more + [x];
      assert ItemsFor(o, e)[..k + 1] == ItemsFor(o, e)[..k] + [x];
    }
    assert ItemsFor(o, e)[..|e.accounts|] == ItemsFor(o, e);
  }

  function ItemsFor(o: Owner, e: Entry): seq<Item> {
    seq(|e.accounts|, k requires 0 <= k < |e.accounts| => Item(o, k, e.accounts[k].pubkey, MinimumSlot(e)))
  }

  /** The accounts to read: an owner's inventory joins when it is eligible and still fits. */
  function Flat(selected: seq<Owner>, entries: map<Owner, Entry>, now: int, config: Config): seq<Item> {
    if selected == [] then []
    else
      var before, o := Flat(selected[..|selected| - 1], entries, now, config), selected[|selected| - 1];
      if o in entries && Eligible(entries[o], now, config, |before|) then before + ItemsFor(o, entries[o]) else before
  }

  /** A usable inventory is read, unless the request is too full for it. */
  lemma {:induction false} LeftOutDoesNotFit(selected: seq<Owner>, entries: map<Owner, Entry>, now: int, config: Config,
                                             o: Owner)
    requires o in selected && o in entries && Eligible(entries[o], now, config, 0)
    ensures (forall x :: x in ItemsFor(o, entries[o]) ==> x in Flat(selected, entries, now, config))
            || |Flat(selected, entries, now, config)| + |entries[o].accounts| > config.maxAccounts
    decreases |selected|
  {
    hide Eligible;
    var rest, last := selected[..|selected| - 1], selected[|selected| - 1];
    if last == o {
      EligibleIfFits(entries[o], now, config, |Flat(rest, entries, now, config)|);
    } else {
      assert o in rest;
      LeftOutDoesNotFit(rest, entries, now, config, o);
    }
  }

  lemma EligibleIfFits(e: Entry, now: int, config: Config, used: nat)
    requires Eligible(e, now, config, 0)
    ensures Eligible(e, now, config, used) <==> used + |e.accounts| <= config.maxAccounts
  {}

  ghost predicate Chosen(entries: map<Owner, Entry>, now: int, config: Config, o: Owner) {
    o in entries && exists used: nat :: Eligible(entries[o], now, config, used)
  }

  method Flatten(selected: seq<Owner>, entries: map<Owner, Entry>, now: int, config: Config)
    returns (items: seq<Item>, eligible: set<Owner>)
    requires NoRepeats(selected)
    ensures items == Flat(selected, entries, now, config)
    ensures WellListed(items, entries) && |items| <= config.maxAccounts
    ensures forall o :: o in eligible ==>
              && o in selected
              && o in entries
              && Chosen(entries, now, config, o)
              && Count(items, o) == |entries[o].accounts| > 0
    ensures forall o :: o !in eligible ==> Count(items, o) == 0
  {
    hide WellListed, Count, Eligible;
    items, eligible := [], {};
    NothingListed(entries);
    for i := 0 to |selected|
      invariant items == Flat(selected[..i], entries, now, config)
      invariant WellListed(items, entries) && |items| <= config.maxAccounts
      invariant forall o :: o in eligible ==>
                  && o in selected[..i]
                  && o in entries
                  && Chosen(entries, now, config, o)
                  && Count(items, o) == |entries[o].accounts| > 0
      invariant forall o :: o !in eligible ==> Count(items, o) == 0
    {
      var o := selected[i];
      assert o !in selected[..i] && selected[..i + 1][..i] == selected[..i];
      if o in entries && Eligible(entries[o], now, config, |items|) {
        FitsRequest(entries[o], now, config, |items|);
        items := AddOwner(items, o, entries);
        eligible := eligible + {o};
      }
    }
    assert selected[..|selected|] == selected;
  }

  lemma NothingListed(entries: map<Owner, Entry>)
    ensures WellListed([], entries) && forall o :: Count([], o) == 0
  {}

  lemma FitsRequest(e: Entry, now: int, config: Config, used: nat)
    requires Eligible(e, now, config, used)
    ensures used + |e.accounts| <= config.maxAccounts && |e.accounts| > 0
  {}

  // ---- reading ----

  datatype Read = Read(raw: nat, slot: nat)

  /** Some request asked for this account at a slot no older than before, and this is its answer. */
  ghost predicate Answered(rpc: Rpc, o: Owner, e: Entry, k: nat, read: Read)
    requires k < |e.accounts|
  {
    exists addresses: seq<Pubkey>, minimum: nat, j: nat :: AnsweredBy(rpc, o, e, k, read, addresses, minimum, j)
  }

  ghost predicate AnsweredBy(rpc: Rpc, o: Owner, e: Entry, k: nat, read: Read, addresses: seq<Pubkey>, minimum: nat,
                             j: nat)
    requires k < |e.accounts|
  {
    && MinimumSlot(e) <= minimum && j < |addresses| && addresses[j] == e.accounts[k].pubkey
    && match rpc(addresses, minimum)
       case None => false
       case Some(batch) =>
         && minimum <= batch.slot == read.slot && |batch.rows| == |addresses|
         && batch.rows[j] == Some(Account(o, e.accounts[k].program, read.raw, if e.decimals.Some? then e.decimals.value
                                          else 0))
  }

  /** The account was read again and has not lost anything. */
  ghost predicate GoodRead(rpc: Rpc, o: Owner, e: Entry, k: nat, read: Read)
    requires k < |e.accounts|
  {
    Answered(rpc, o, e, k, read) && e.accounts[k].amount <= read.raw && MinimumSlot(e) <= read.slot
  }

  function ReadingsOf(results: map<Owner, seq<Read>>, o: Owner): seq<Read> {
    if o in results then results[o] else []
  }

  /** The first `n` accounts of an owner have been read. */
  ghost predicate OwnerRead(rpc: Rpc, o: Owner, e: Entry, n: nat, readings: seq<Read>) {
    |readings| == n <= |e.accounts| && forall k :: 0 <= k < |readings| ==> GoodRead(rpc, o, e, k, readings[k])
  }

  /** After the first `n` items: owners still valid have all their accounts so far read. */
  ghost predicate ReadSoFar(rpc: Rpc, entries: map<Owner, Entry>, items: seq<Item>, n: nat,
                            results: map<Owner, seq<Read>>, invalid: set<Owner>)
    requires n <= |items|
  {
    forall o :: o in entries && o !in invalid
        ==> OwnerRead(rpc, o, entries[o], Count(items[..n], o), ReadingsOf(results, o))
  }

  predicate Matches(x: Item, e: Entry, row: Option<Account>)
    requires x.k < |e.accounts|
  {
    row.Some? && row.value.owner == x.owner && Some(row.value.decimals) == e.decimals
    && row.value.program == e.accounts[x.k].program && row.value.amount >= e.accounts[x.k].amount
  }

  function Addresses(group: seq<Item>): seq<Pubkey> {
    seq(|group|, i requires 0 <= i < |group| => group[i].pubkey)
  }

  function HighestMinimum(group: seq<Item>): nat {
    if group == [] then 0 else Max(HighestMinimum(group[..|group| - 1]), group[|group| - 1].minimum)
  }

  lemma {:induction false} HighestCovers(group: seq<Item>, i: nat)
    requires i < |group|
    ensures group[i].minimum <= HighestMinimum(group)
    decreases |group|
  {
    if i < |group| - 1 {
      HighestCovers(group[..|group| - 1], i);
    }
  }

  lemma CountStep(items: seq<Item>, n: nat, o: Owner)
    requires n < |items|
    ensures Count(items[..n + 1], o) == Count(items[..n], o) + if items[n].owner == o then 1 else 0
  {
    assert items[..n + 1][..n] == items[..n];
  }

  lemma SkipItem(rpc: Rpc, entries: map<Owner, Entry>, items: seq<Item>, n: nat,
                 results: map<Owner, seq<Read>>, invalid: set<Owner>)
    requires n < |items| && ReadSoFar(rpc, entries, items, n, results, invalid)
    ensures ReadSoFar(rpc, entries, items, n + 1, results, invalid + {items[n].owner})
  {
    hide OwnerRead, Count;
    forall o | o in entries && o !in invalid + {items[n].owner}
      ensures OwnerRead(rpc, o, entries[o], Count(items[..n + 1], o), ReadingsOf(results, o))
    {
      CountStep(items, n, o);
    }
  }

  lemma OneMoreRead(rpc: Rpc, o: Owner, e: Entry, n: nat, readings: seq<Read>, read: Read)
    requires OwnerRead(rpc, o, e, n, readings) && n < |e.accounts| && GoodRead(rpc, o, e, n, read)
    ensures OwnerRead(rpc, o, e, n + 1, readings + [read])
  {
    hide GoodRead;
  }

  lemma TakeItem(rpc: Rpc, entries: map<Owner, Entry>, items: seq<Item>, n: nat,
                 results: map<Owner, seq<Read>>, invalid: set<Owner>, read: Read)
    requires n < |items| && WellListed(items, entries) && ReadSoFar(rpc, entries, items, n, results, invalid)
    requires GoodRead(rpc, items[n].owner, entries[items[n].owner], items[n].k, read)
    ensures ReadSoFar(rpc, entries, items, n + 1,
                      results[items[n].owner := ReadingsOf(results, items[n].owner) + [read]], invalid)
  {
    var x := items[n];
    assert x.k == Count(items[..n], x.owner) < |entries[x.owner].accounts|;
    hide GoodRead, WellListed, OwnerRead, Count;
    var more := results[x.owner := ReadingsOf(results, x.owner) + [read]];
    forall o | o in entries && o !in invalid
      ensures OwnerRead(rpc, o, entries[o], Count(items[..n + 1], o), ReadingsOf(more, o))
    {
      CountStep(items, n, o);
      if o == x.owner {
        OneMoreRead(rpc, o, entries[o], x.k, ReadingsOf(results, o), read);
      }
    }
  }

  lemma {:induction false} RowIsGood(rpc: Rpc, entries: map<Owner, Entry>, group: seq<Item>, j: nat, x: Item,
                                     batch: Batch)
    requires j < |group| && group[j] == x && x.owner in entries && x.k < |entries[x.owner].accounts|
    requires x.pubkey == entries[x.owner].accounts[x.k].pubkey && x.minimum == MinimumSlot(entries[x.owner])
    requires rpc(Addresses(group), HighestMinimum(group)) == Some(batch)
    requires HighestMinimum(group) <= batch.slot && |batch.rows| == |group|
    requires Matches(x, entries[x.owner], batch.rows[j])
    ensures GoodRead(rpc, x.owner, entries[x.owner], x.k, Read(batch.rows[j].value.amount, batch.slot))
  {
    HighestCovers(group, j);
    var read := Read(batch.rows[j].value.amount, batch.slot);
    assert AnsweredBy(rpc, x.owner, entries[x.owner], x.k, read, Addresses(group), HighestMinimum(group), j);
  }

  /** The items of the request that item `i` belongs to. */
  function GroupOf(items: seq<Item>, i: nat): seq<Item>
    requires i < |items|
  {
    var start := i - i % GROUP;
    items[start..if |items| < start + GROUP then |items| else start + GROUP]
  }

  predicate Answers(group: seq<Item>, batch: Option<Batch>) {
    batch.Some? && HighestMinimum(group) <= batch.value.slot && |batch.value.rows| == |group|
  }

  /** The request of item `i` was answered in full, and its own row matches what is known. */
  predicate Fine(rpc: Rpc, entries: map<Owner, Entry>, items: seq<Item>, i: nat)
    requires i < |items|
  {
    var x, group := items[i], GroupOf(items, i);
    var batch := rpc(Addresses(group), HighestMinimum(group));
    && x.owner in entries && x.k < |entries[x.owner].accounts|
    && Answers(group, batch) && Matches(x, entries[x.owner], batch.value.rows[i % GROUP])
  }

  /** Exactly the owners with a bad item among the first `n` are invalid. */
  ghost predicate InvalidSoFar(rpc: Rpc, entries: map<Owner, Entry>, items: seq<Item>, n: nat, invalid: set<Owner>)
    requires n <= |items|
  {
    forall o :: o in invalid <==> exists i :: 0 <= i < n && items[i].owner == o && !Fine(rpc, entries, items, i)
  }

  lemma InvalidStep(rpc: Rpc, entries: map<Owner, Entry>, items: seq<Item>, n: nat, invalid: set<Owner>)
    requires n < |items| && InvalidSoFar(rpc, entries, items, n, invalid)
    ensures InvalidSoFar(rpc, entries, items, n + 1, if Fine(rpc, entries, items, n) then invalid
                         else invalid + {items[n].owner})
  {
    hide Fine;
  }

  lemma SameGroup(items: seq<Item>, start: nat, i: nat)
    requires start % GROUP == 0 && start <= i < start + GROUP && i < |items|
    ensures i - i % GROUP == start && i % GROUP == i - start
  {}

  /** One request of at most a hundred accounts. */
  method ReadGroup(rpc: Rpc, entries: map<Owner, Entry>, items: seq<Item>, start: nat, end: nat,
                   results: map<Owner, seq<Read>>, invalid: set<Owner>)
    returns (results': map<Owner, seq<Read>>, invalid': set<Owner>)
    requires start % GROUP == 0 && start <= |items|
    requires end == (if |items| < start + GROUP then |items| else start + GROUP)
    requires WellListed(items, entries) && ReadSoFar(rpc, entries, items, start, results, invalid)
    requires InvalidSoFar(rpc, entries, items, start, invalid)
    ensures ReadSoFar(rpc, entries, items, end, results', invalid') && InvalidSoFar(rpc, entries, items, end, invalid')
  {
    hide ReadSoFar, GoodRead, Count, InvalidSoFar;
    results', invalid' := results, invalid;
    var group := items[start..end];
    var minimum := HighestMinimum(group);
    var batch := rpc(Addresses(group), minimum);
    var answered := Answers(group, batch);
    for i := start to end
      invariant ReadSoFar(rpc, entries, items, i, results', invalid') && InvalidSoFar(rpc, entries, items, i, invalid')
    {
      var x := items[i];
      assert x == group[i - start] && x.owner in entries && x.k < |entries[x.owner].accounts|;
      SameGroup(items, start, i);
      assert GroupOf(items, i) == group;
      InvalidStep(rpc, entries, items, i, invalid');
      if answered && Matches(x, entries[x.owner], batch.value.rows[i - start]) {
        var read := Read(batch.value.rows[i - start].value.amount, batch.value.slot);
        RowIsGood(rpc, entries, group, i - start, x, batch.value);
        TakeItem(rpc, entries, items, i, results', invalid', read);
        results' := results'[x.owner := ReadingsOf(results', x.owner) + [read]];
      } else {
        SkipItem(rpc, entries, items, i, results', invalid');
        invalid' := invalid' + {x.owner};
      }
    }
  }

  method ReadAll(rpc: Rpc, entries: map<Owner, Entry>, items: seq<Item>)
    returns (results: map<Owner, seq<Read>>, invalid: set<Owner>)
    requires WellListed(items, entries)
    ensures ReadSoFar(rpc, entries, items, |items|, results, invalid)
    ensures InvalidSoFar(rpc, entries, items, |items|, invalid)
  {
    hide WellListed, ReadSoFar;
    assert InvalidSoFar(rpc, entries, items, 0, {});
    hide InvalidSoFar;
    results, invalid := map[], {};
    NothingRead(rpc, entries, items);
    var start := 0;
    while start < |items|
      invariant 0 <= start <= |items| && (start % GROUP == 0 || start == |items|)
      invariant ReadSoFar(rpc, entries, items, start, results, invalid)
      invariant InvalidSoFar(rpc, entries, items, start, invalid)
    {
      var end := if |items| < start + GROUP then |items| else start + GROUP;
      results, invalid := ReadGroup(rpc, entries, items, start, end, results, invalid);
      start := end;
    }
  }

  lemma NothingRead(rpc: Rpc, entries: map<Owner, Entry>, items: seq<Item>)
    ensures ReadSoFar(rpc, entries, items, 0, map[], {})
  {}

  // ---- storing ----

  function Updated(accounts: seq<Known>, readings: seq<Read>): seq<Known>
    requires |readings| == |accounts|
  {
    seq(|accounts|, i requires 0 <= i < |accounts| => accounts[i].(amount := readings[i].raw))
  }

  function HighestSlot(readings: seq<Read>): nat {
    if readings == [] then 0 else Max(HighestSlot(readings[..|readings| - 1]), readings[|readings| - 1].slot)
  }

  lemma {:induction false} HighestSlotCovers(readings: seq<Read>, i: nat)
    requires i < |readings|
    ensures readings[i].slot <= HighestSlot(readings)
    decreases |readings|
  {
    if i < |readings| - 1 {
      HighestSlotCovers(readings[..|readings| - 1], i);
    }
  }

  lemma {:induction false} SumGrows(accounts: seq<Known>, readings: seq<Read>)
    requires |readings| == |accounts| && forall k :: 0 <= k < |readings| ==> accounts[k].amount <= readings[k].raw
    ensures Sum(accounts) <= Sum(Updated(accounts, readings))
    decreases |accounts|
  {
    if accounts != [] {
      var n := |accounts| - 1;
      SumGrows(accounts[..n], readings[..n]);
      assert Updated(accounts, readings)[..n] == Updated(accounts[..n], readings[..n]);
    }
  }

  /** The stored total is the sum over the stored accounts. */
  ghost predicate TotalsHold(entries: map<Owner, Entry>) {
    forall o :: o in entries ==> entries[o].total == Sum(entries[o].accounts)
  }

  /** What priming an owner means: every known account read again, none dropped or smaller. */
  ghost predicate Primed(rpc: Rpc, o: Owner, before: Entry, after: Entry, cached: nat) {
    && |after.accounts| == |before.accounts| && after.total == Sum(after.accounts) == cached >= before.total
    && MinimumSlot(before) <= after.checkedSlot && after.slot == before.slot && !after.needsEnumeration
    && after.decimals == before.decimals && after.enumeratedAt == before.enumeratedAt
    && forall k :: 0 <= k < |before.accounts| ==> ReadAgain(rpc, o, before, k, after)
  }

  /** The same account, with an amount that was read for it at a slot the record covers. */
  ghost predicate ReadAgain(rpc: Rpc, o: Owner, before: Entry, k: nat, after: Entry)
    requires k < |before.accounts| == |after.accounts|
  {
    var known := before.accounts[k];
    && after.accounts[k].pubkey == known.pubkey && after.accounts[k].program == known.program
    && exists read ::
         GoodRead(rpc, o, before, k, read) && after.accounts[k].amount == read.raw && read.slot <= after.checkedSlot
  }

  function Restated(e: Entry, readings: seq<Read>, now: int): Entry
    requires |readings| == |e.accounts|
  {
    var accounts := Updated(e.accounts, readings);
    e.(accounts := accounts, total := Sum(accounts), checkedSlot := HighestSlot(readings), checkedAt := now)
  }

  lemma RestatedIsPrimed(rpc: Rpc, o: Owner, e: Entry, readings: seq<Read>, now: int)
    requires |readings| == |e.accounts| > 0 && !e.needsEnumeration && e.total == Sum(e.accounts)
    requires forall k :: 0 <= k < |readings| ==> GoodRead(rpc, o, e, k, readings[k])
    ensures Primed(rpc, o, e, Restated(e, readings, now), Restated(e, readings, now).total)
  {
    SumGrows(e.accounts, readings);
    HighestSlotCovers(readings, 0);
    assert GoodRead(rpc, o, e, 0, readings[0]) && MinimumSlot(e) <= HighestSlot(readings);
    hide Sum, GoodRead, MinimumSlot, HighestSlot;
    forall k | 0 <= k < |e.accounts| ensures ReadAgain(rpc, o, e, k, Restated(e, readings, now)) {
      HighestSlotCovers(readings, k);
    }
  }

  /** Every selected owner is either primed or marked for a full enumeration. */
  ghost predicate Settled(rpc: Rpc, before: map<Owner, Entry>, after: map<Owner, Entry>, cache: map<Owner, nat>,
                          primed: set<Owner>, o: Owner) {
    if o in primed then o in before && o in after && o in cache && Primed(rpc, o, before[o], after[o], cache[o])
    else
        o !in cache && (o in before <==> o in after)
        && (o in before ==> after[o] == before[o].(needsEnumeration := true))
  }

  class Inventory {
    var entries: map<Owner, Entry>
    var cache: map<Owner, nat>

    constructor (entries: map<Owner, Entry>)
      ensures this.entries == entries && cache == map[]
    {
      this.entries, cache := entries, map[];
    }

    /** Stores one owner's result, or marks the owner for enumeration. */
    method Settle(rpc: Rpc, o: Owner, readings: Option<seq<Read>>, now: int)
      requires o !in cache
      requires readings.Some? ==>
                 && o in entries
                 && |readings.value| == |entries[o].accounts| > 0
                 && !entries[o].needsEnumeration
                 && entries[o].total == Sum(entries[o].accounts)
      requires readings.Some? ==>
                 forall k :: 0 <= k < |readings.value| ==> GoodRead(rpc, o, entries[o], k, readings.value[k])
      modifies this
      ensures Settled(rpc, old(entries), entries, cache, if readings.Some? then {o} else {}, o)
      ensures forall p :: p != o ==>
                (p in entries <==> p in old(entries)) && (p in entries ==> entries[p] == old(entries)[p])
      ensures forall p :: p != o ==> (p in cache <==> p in old(cache)) && (p in cache ==> cache[p] == old(cache)[p])
    {
      hide Primed, GoodRead;
      if readings.Some? {
        RestatedIsPrimed(rpc, o, entries[o], readings.value, now);
        var after := Restated(entries[o], readings.value, now);
        entries, cache := entries[o := after], cache[o := after.total];
      } else if o in entries {
        entries := entries[o := entries[o].(needsEnumeration := true)];
      }
    }

    /** Settles the selected owners one by one. */
    method SettleAll(rpc: Rpc, selected: seq<Owner>, eligible: set<Owner>, results: map<Owner, seq<Read>>,
                     invalid: set<Owner>, now: int, config: Config, ghost items: seq<Item>)
      returns (primed: set<Owner>, failed: seq<Owner>)
      requires NoRepeats(selected) && (forall o :: o in selected ==> o !in cache)
      requires ReadSoFar(rpc, entries, items, |items|, results, invalid)
      requires forall o :: o in eligible ==>
                 o in entries && Chosen(entries, now, config, o) && Count(items, o) == |entries[o].accounts| > 0
      modifies this
      ensures NoRepeats(failed) && forall o :: o in selected <==> (o in primed || o in failed)
      ensures forall o :: o in failed ==> o !in primed
      ensures forall o :: o in primed <==> o in selected && o in eligible && o !in invalid
      ensures forall o :: o in selected ==> Settled(rpc, old(entries), entries, cache, primed, o)
      ensures forall o :: o !in selected ==>
                (o in entries <==> o in old(entries)) && (o in entries ==> entries[o] == old(entries)[o])
      ensures forall o :: o !in selected ==>
                (o in cache <==> o in old(cache)) && (o in cache ==> cache[o] == old(cache)[o])
      ensures old(TotalsHold(entries)) ==> TotalsHold(entries)
    {
      hide Settled, ReadSoFar, Chosen, TotalsHold, Count;
      primed, failed := {}, [];
      for i := 0 to |selected|
        invariant NoRepeats(failed) && forall o :: o in selected[..i] <==> (o in primed || o in failed)
        invariant forall o :: o in failed ==> o !in primed
        invariant forall o :: o in primed <==> o in selected[..i] && o in eligible && o !in invalid
        invariant forall o :: o in selected[..i] ==> Settled(rpc, old(entries), entries, cache, primed, o)
        invariant forall o :: o !in selected[..i] ==>
                    (o in entries <==> o in old(entries)) && (o in entries ==> entries[o] == old(entries)[o])
        invariant forall o :: o !in selected[..i] ==>
                    (o in cache <==> o in old(cache)) && (o in cache ==> cache[o] == old(cache)[o])
        invariant old(TotalsHold(entries)) ==> TotalsHold(entries)
      {
        var o := selected[i];
        assert selected[..i + 1] == selected[..i] + [o] && o !in selected[..i];
        var found := None;
        if o in eligible && o !in invalid {
          EligibleReads(rpc, old(entries), items, results, invalid, o, now, config);
          found := Some(results[o]);
        }
        ghost var entries0, cache0, primed0 := entries, cache, primed;
        ghost var done := if found.Some? then {o} else {};
        Settle(rpc, o, found, now);
        SettledTotals(rpc, entries0, entries, cache, done, o);
        primed := if found.Some? then primed + {o} else primed;
        failed := if found.Some? then failed else failed + [o];
        forall p | p in selected[..i + 1] ensures Settled(rpc, old(entries), entries, cache, primed, p) {
          SettledStays(rpc, old(entries), entries0, entries, cache0, cache, primed0, primed, done, o, p);
        }
      }
      assert selected[..|selected|] == selected;
    }

    /**
     `prime_known_balances`. The distinct owners split into those primed and those that need a
     full enumeration. Of the selected ones, exactly those are primed whose accounts were all
     asked for and all answered well; the others are marked. Everything else stays as it was.
     */
    method Prime(rpc: Rpc, owners: seq<Owner>, config: Config, now: int)
      returns (primed: set<Owner>, required: seq<Owner>, ghost selected: seq<Owner>)
      modifies this
      ensures !config.enabled ==>
                entries == old(entries) && cache == old(cache) && primed == {} && required == [] && selected == []
      ensures config.enabled ==> selected == FirstOf(Firsts(owners), config.maxOwners)
      ensures config.enabled ==> NoRepeats(required) && forall o :: o in owners <==> (o in primed || o in required)
      ensures forall o :: o in required ==> o !in primed && o !in cache
      ensures forall o :: o in primed <==>
                o in selected && WellRead(rpc, old(entries), Flat(selected, old(entries), now, config), o)
      ensures forall o :: o in selected ==> Settled(rpc, old(entries), entries, cache, primed, o)
      ensures forall o :: o !in selected ==>
                (o in entries <==> o in old(entries)) && (o in entries ==> entries[o] == old(entries)[o])
      ensures forall o :: o !in owners ==>
                (o in cache <==> o in old(cache)) && (o in cache ==> cache[o] == old(cache)[o])
      ensures old(TotalsHold(entries)) ==> TotalsHold(entries)
    {
      primed, required, selected := {}, [], [];
      if !config.enabled {
        return;
      }
      hide Settled, WellListed, ReadSoFar, Count, Chosen, TotalsHold, Flat, WellRead, InvalidSoFar, Eligible,
           NoRepeats, Firsts, FirstOf;
      var taken, overflow := Select(owners, config.maxOwners);
      selected := taken;
      SplitParts(taken, overflow);
      TakenFirst(owners, taken, overflow, config.maxOwners);
      cache := map o | o in cache && o !in taken && o !in overflow :: cache[o];
      var items, eligible := Flatten(taken, entries, now, config);
      var results, invalid := ReadAll(rpc, entries, items);
      var failed;
      ghost var before := entries;
      primed, failed := SettleAll(rpc, taken, eligible, results, invalid, now, config, items);
      required := overflow + failed;
      JoinDistinct(overflow, failed);
      forall o | o in taken ensures o !in primed ==> o !in cache {
        NotCached(rpc, before, entries, cache, primed, o);
      }
      WellReadIff(rpc, before, items, eligible, invalid);
      assert forall o :: o in required <==> o in overflow || o in failed;
    }
  }

  function FirstOf(owners: seq<Owner>, n: nat): seq<Owner> {
    if |owners| < n then owners else owners[..n]
  }

  lemma TakenFirst(owners: seq<Owner>, taken: seq<Owner>, overflow: seq<Owner>, n: nat)
    requires taken + overflow == Firsts(owners) && |taken| <= n && (overflow != [] ==> |taken| == n)
    ensures taken == FirstOf(Firsts(owners), n)
  {
    assert (taken + overflow)[..|taken|] == taken;
  }

  /** The owner's inventory was asked for, and every one of its accounts was answered well. */
  ghost predicate WellRead(rpc: Rpc, entries: map<Owner, Entry>, items: seq<Item>, o: Owner) {
    && (exists i :: 0 <= i < |items| && items[i].owner == o)
    && forall i :: 0 <= i < |items| && items[i].owner == o ==> Fine(rpc, entries, items, i)
  }

  lemma WellReadIff(rpc: Rpc, entries: map<Owner, Entry>, items: seq<Item>, eligible: set<Owner>, invalid: set<Owner>)
    requires InvalidSoFar(rpc, entries, items, |items|, invalid)
    requires forall o :: o in eligible ==> Count(items, o) > 0
    requires forall o :: o !in eligible ==> Count(items, o) == 0
    ensures forall o :: o in eligible && o !in invalid <==> WellRead(rpc, entries, items, o)
  {
    hide Fine, Count;
    forall o ensures o in eligible && o !in invalid <==> WellRead(rpc, entries, items, o) {
      ListedIff(items, o);
    }
  }

  lemma {:induction false} ListedIff(items: seq<Item>, o: Owner)
    ensures Count(items, o) > 0 <==> exists i :: 0 <= i < |items| && items[i].owner == o
    decreases |items|
  {
    if items != [] {
      var n := |items| - 1;
      ListedIff(items[..n], o);
      if items[n].owner != o && Count(items, o) > 0 {
        var i :| 0 <= i < n && items[..n][i].owner == o;
        assert items[i].owner == o;
      }
      if i :| 0 <= i < |items| && items[i].owner == o {
        if i < n { assert items[..n][i].owner == o; }
      }
    }
  }

  lemma JoinDistinct(a: seq<Owner>, b: seq<Owner>)
    requires NoRepeats(a) && NoRepeats(b) && forall o :: o in a ==> o !in b
    ensures NoRepeats(a + b)
  {
    forall i, j | 0 <= i < j < |a + b| ensures (a + b)[i] != (a + b)[j] {
      if i < |a| <= j {
        assert a[i] in a && (a + b)[j] in b;
      }
    }
  }

  lemma SplitParts(selected: seq<Owner>, overflow: seq<Owner>)
    requires NoRepeats(selected + overflow)
    ensures NoRepeats(selected) && NoRepeats(overflow) && forall o :: o in selected ==> o !in overflow
  {
    var all := selected + overflow;
    assert forall i :: 0 <= i < |selected| ==> all[i] == selected[i];
    forall i, j | 0 <= i < j < |overflow| ensures overflow[i] != overflow[j] {
      assert all[|selected| + i] == overflow[i] && all[|selected| + j] == overflow[j];
    }
    forall o | o in selected ensures o !in overflow {
      var i :| 0 <= i < |selected| && selected[i] == o;
      forall j | 0 <= j < |overflow| ensures overflow[j] != o {
        assert all[|selected| + j] == overflow[j];
      }
    }
  }

  lemma NotCached(rpc: Rpc, before: map<Owner, Entry>, after: map<Owner, Entry>, cache: map<Owner, nat>,
                  primed: set<Owner>, o: Owner)
    ensures Settled(rpc, before, after, cache, primed, o) && o !in primed ==> o !in cache
  {}

  lemma EligibleReads(rpc: Rpc, entries: map<Owner, Entry>, items: seq<Item>, results: map<Owner, seq<Read>>,
                      invalid: set<Owner>, o: Owner, now: int, config: Config)
    requires ReadSoFar(rpc, entries, items, |items|, results, invalid) && o in entries && o !in invalid
    requires Chosen(entries, now, config, o) && Count(items, o) == |entries[o].accounts|
    ensures |entries[o].accounts| > 0 && !entries[o].needsEnumeration && entries[o].total == Sum(entries[o].accounts)
    ensures o in results && |results[o]| == |entries[o].accounts|
    ensures forall k :: 0 <= k < |results[o]| ==> GoodRead(rpc, o, entries[o], k, results[o][k])
  {
    hide GoodRead, Sum, Count;
    assert items[..|items|] == items;
    assert OwnerRead(rpc, o, entries[o], Count(items[..|items|], o), ReadingsOf(results, o));
  }

  lemma SettledTotals(rpc: Rpc, before: map<Owner, Entry>, after: map<Owner, Entry>, cache: map<Owner, nat>,
                      primed: set<Owner>, o: Owner)
    requires Settled(rpc, before, after, cache, primed, o)
    requires forall p :: p != o ==> (p in after <==> p in before) && (p in after ==> after[p] == before[p])
    ensures TotalsHold(before) ==> TotalsHold(after)
  {
    hide GoodRead, Sum;
  }

  lemma SettledStays(rpc: Rpc, before: map<Owner, Entry>, entries0: map<Owner, Entry>, entries: map<Owner, Entry>,
                     cache0: map<Owner, nat>, cache: map<Owner, nat>, primed0: set<Owner>, primed: set<Owner>,
                     done: set<Owner>, o: Owner, p: Owner)
    requires p != o ==> Settled(rpc, before, entries0, cache0, primed0, p)
    requires p != o ==> (p in entries <==> p in entries0) && (p in entries ==> entries[p] == entries0[p])
    requires p != o ==> (p in cache <==> p in cache0) && (p in cache ==> cache[p] == cache0[p])
    requires p != o ==> (p in primed <==> p in primed0)
    requires p == o ==>
               && Settled(rpc, entries0, entries, cache, done, o)
               && (o in entries0 <==> o in before)
               && (o in before ==> entries0[o] == before[o])
    requires o in done <==> o in primed
    ensures Settled(rpc, before, entries, cache, primed, p)
  {
    hide Primed;
  }
}
