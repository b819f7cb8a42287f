/** Monthly units that survive crashes and lost replies. */
module RpcBudget {
  // Reservations and grants of `rpc_budget.py`: units sent through grants in a month never exceed
  // the charges durably recorded for it.

  import opened Wrappers

  datatype Period = Period(year: nat, month: nat)

  /** One month of one provider. */
  datatype Charges = Charges(units: nat, attempts: nat, granted: nat, allocations: nat)

  type Ledger = map<Period, Charges>

  function Charged(ledger: Ledger, p: Period): nat {
    if p in ledger then ledger[p].units else 0
  }

  function EntryFor(ledger: Ledger, p: Period): Charges {
    if p in ledger then ledger[p] else Charges(0, 0, 0, 0)
  }

  function Left(limit: nat, spent: nat): nat {
    if spent < limit then limit - spent else 0
  }

  /** The months successive clock readings fall in. The readings are arbitrary. */
  class Clock {
    const readings: nat -> Period
    var readCount: nat

    constructor (readings: nat -> Period)
      ensures this.readings == readings && readCount == 0
    {
      this.readings := readings;
      readCount := 0;
    }

    method Month() returns (p: Period)
      modifies this
      ensures p == readings(old(readCount)) && readCount == old(readCount) + 1
    {
      p := readings(readCount);
      readCount := readCount + 1;
    }
  }

  /** The clock stays in one month. */
  ghost predicate Steady(clock: Clock, p: Period) {
    forall i: nat :: clock.readings(i) == p
  }

  // ---- the account ----

  /** `MonthlyRpcBudget`: the ledger in memory. */
  class Account {
    var ledger: Ledger
    const limit: nat
    const clock: Clock

    constructor (ledger: Ledger, limit: nat, clock: Clock)
      ensures this.ledger == ledger && this.limit == limit && this.clock == clock
    {
      this.ledger, this.limit, this.clock := ledger, limit, clock;
    }

    method Remaining() returns (left: nat, ghost p: Period)
      modifies clock
      ensures left == Left(limit, Charged(ledger, p)) && p == clock.readings(old(clock.readCount))
    {
      var month := clock.Month();
      p := month;
      left := Left(limit, Charged(ledger, month));
    }

    /** Reserves units of the current month, or leaves the ledger alone. */
    method Reserve(units: nat) returns (ok: bool, ghost p: Period)
      modifies this, clock
      ensures p == clock.readings(old(clock.readCount))
      ensures ok <==> Charged(old(ledger), p) + units <= limit
      ensures ledger == if ok then Reserved(old(ledger), p, units) else old(ledger)
    {
      var month := clock.Month();
      p := month;
      var entry := EntryFor(ledger, month);
      if entry.units + units > limit {
        return false, p;
      }
      ledger := ledger[month := entry.(units := entry.units + units, attempts := entry.attempts + 1)];
      return true, p;
    }

    /** `allocate_run_budget`: charges a whole grant at once. */
    method Allocate(units: nat) returns (ok: bool, p: Period)
      modifies this, clock
      ensures p == clock.readings(old(clock.readCount))
      ensures ok <==> Charged(old(ledger), p) + units <= limit
      ensures ledger == if ok then Allocated(old(ledger), p, units) else old(ledger)
    {
      p := clock.Month();
      var entry := EntryFor(ledger, p);
      if entry.units + units > limit {
        return false, p;
      }
      ledger := ledger[p := entry.(units := entry.units + units, granted := entry.granted + units,
                                   allocations := entry.allocations + 1)];
      return true, p;
    }
  }

  function Reserved(ledger: Ledger, p: Period, units: nat): Ledger {
    var e := EntryFor(ledger, p);
    ledger[p := e.(units := e.units + units, attempts := e.attempts + 1)]
  }

  function Allocated(ledger: Ledger, p: Period, units: nat): Ledger {
    var e := EntryFor(ledger, p);
    ledger[p := e.(units := e.units + units, granted := e.granted + units, allocations := e.allocations + 1)]
  }

  /** Charging only grows the ledger, and only in its month. */
  lemma ChargesGrow(ledger: Ledger, p: Period, units: nat, q: Period)
    ensures Charged(Reserved(ledger, p, units), q) == Charged(ledger, q) + if p == q then units else 0
    ensures Charged(Allocated(ledger, p, units), q) == Charged(ledger, q) + if p == q then units else 0
  {}

  /** What one event charges to the ledger in memory. */
  datatype Charge = NoCharge | Charge(period: Period, units: nat)

  function ChargeFor(charge: Charge, p: Period): nat {
    if charge.Charge? && charge.period == p then charge.units else 0
  }

  function Granted(ledger: Ledger, charge: Charge): Ledger {
    if charge.Charge? then Allocated(ledger, charge.period, charge.units) else ledger
  }

  // ---- grants ----

  /** `PreallocatedRpcBudget`: units of one month that one worker may send. */
  class Grant {
    const period: Period
    const limit: nat
    const clock: Clock
    var used: nat
    var attempts: nat

    constructor (period: Period, limit: nat, clock: Clock)
      ensures this.period == period && this.limit == limit && this.clock == clock && used == 0 && attempts == 0
    {
      this.period, this.limit, this.clock := period, limit, clock;
      used, attempts := 0, 0;
    }

    /** Remaining units; none outside the grant's month. */
    method Remaining() returns (left: nat)
      modifies clock
      ensures left == if clock.readings(old(clock.readCount)) == period then Left(limit, used) else 0
    {
      var month := clock.Month();
      left := if month == period then Left(limit, used) else 0;
    }

    /** By two readings of the clock, the grant's month has come and it has the units. */
    predicate Allowed(units: nat, reading: nat)
      reads this`used
    {
      && clock.readings(reading) == period
      && units <= if clock.readings(reading + 1) == period then Left(limit, used) else 0
    }

    /** Even a request without cost needs the grant's own month. */
    method Allows(units: nat) returns (ok: bool)
      modifies clock
      ensures ok <==> Allowed(units, old(clock.readCount))
    {
      var month := clock.Month();
      if month != period {
        return false;
      }
      var left := Remaining();
      return units <= left;
    }

    method Reserve(units: nat) returns (ok: bool)
      requires used <= limit
      modifies this, clock
      ensures used == old(used) + (if ok then units else 0) && used <= limit
      ensures attempts == old(attempts) + if ok then 1 else 0
      ensures ok <==> old(Allowed(units, clock.readCount))
    {
      ok := Allows(units);
      if ok {
        used, attempts := used + units, attempts + 1;
      }
    }
  }

  // ---- the durable ledger ----

  /** What becomes of one write: a reply may be lost after the write took effect. */
  datatype Outcome = Acknowledged | ReplyLost | NotWritten

  class Storage {
    var saved: Ledger
    const outcomes: nat -> Outcome
    var writes: nat

    constructor (saved: Ledger, outcomes: nat -> Outcome)
      ensures this.saved == saved && this.outcomes == outcomes && writes == 0
    {
      this.saved, this.outcomes := saved, outcomes;
      writes := 0;
    }

    method Commit(ledger: Ledger) returns (accepted: bool)
      modifies this
      ensures writes == old(writes) + 1 && (accepted ==> saved == ledger)
      ensures !accepted ==> saved == ledger || saved == old(saved)
      ensures accepted <==> outcomes(old(writes)) == Acknowledged
      ensures outcomes(old(writes)) == ReplyLost ==> saved == ledger
    {
      var outcome := outcomes(writes);
      writes := writes + 1;
      if outcome != NotWritten {
        saved := ledger;
      }
      accepted := outcome == Acknowledged;
    }
  }

  // ---- what grants add up to ----

  /** Units granted for a month, over all grants ever issued. */
  ghost function Issued(grants: seq<Grant>, p: Period): nat {
    if grants == [] then 0
    else
      var g := grants[|grants| - 1];
      Issued(grants[..|grants| - 1], p) + if g.period == p then g.limit else 0
  }

  ghost function UsedBy(grants: seq<Grant>): map<Grant, nat>
    reads grants
  {
    map g | g in grants :: g.used
  }

  ghost function SumUsed(grants: seq<Grant>, used: map<Grant, nat>, p: Period): nat
    requires forall g :: g in grants ==> g in used
  {
    if grants == [] then 0
    else
      var g := grants[|grants| - 1];
      SumUsed(grants[..|grants| - 1], used, p) + if g.period == p then used[g] else 0
  }

  /** Units sent through those grants. */
  ghost function Sent(grants: seq<Grant>, p: Period): nat
    reads grants
  {
    SumUsed(grants, UsedBy(grants), p)
  }

  lemma {:induction false} SentWithinIssued(grants: seq<Grant>, used: map<Grant, nat>, p: Period)
    requires forall g :: g in grants ==> g in used && used[g] <= g.limit
    ensures SumUsed(grants, used, p) <= Issued(grants, p)
    decreases |grants|
  {
    if grants != [] {
      SentWithinIssued(grants[..|grants| - 1], used, p);
    }
  }

  ghost predicate Distinct(grants: seq<Grant>) {
    forall i, j :: 0 <= i < j < |grants| ==> grants[i] != grants[j]
  }

  lemma NewIsDistinct(grants: seq<Grant>, g: Grant)
    requires Distinct(grants) && g !in grants
    ensures Distinct(grants + [g])
  {}

  /** The units went through one grant and no other. */
  ghost predicate Through(grants: seq<Grant>, was: map<Grant, nat>, used: map<Grant, nat>, g: Grant?, units: nat) {
    forall h :: h in grants ==> h in was && h in used && used[h] == was[h] + if h == g then units else 0
  }

  lemma NothingThrough(grants: seq<Grant>, was: map<Grant, nat>, used: map<Grant, nat>, g: Grant)
    requires forall h :: h in grants ==> h in was && h in used && used[h] == was[h]
    ensures Through(grants, was, used, g, 0)
  {}

  lemma ThroughGrows(grants: seq<Grant>, was: map<Grant, nat>, used: map<Grant, nat>, g: Grant?, units: nat)
    requires Through(grants, was, used, g, units)
    ensures forall h :: h in grants ==> h in was && h in used && used[h] >= was[h]
  {}

  lemma {:induction false} SentKept(grants: seq<Grant>, was: map<Grant, nat>, used: map<Grant, nat>, p: Period)
    requires forall h :: h in grants ==> h in was && h in used && used[h] == was[h]
    ensures SumUsed(grants, used, p) == SumUsed(grants, was, p)
    decreases |grants|
  {
    if grants != [] {
      SentKept(grants[..|grants| - 1], was, used, p);
    }
  }

  /** Units sent through one grant count once, in its month. */
  lemma {:induction false} SentThrough(grants: seq<Grant>, was: map<Grant, nat>, used: map<Grant, nat>, g: Grant,
                                       units: nat, p: Period)
    requires Distinct(grants) && Through(grants, was, used, g, units)
    ensures SumUsed(grants, used, p) == SumUsed(grants, was, p) + if g in grants && g.period == p then units else 0
    decreases |grants|
  {
    if grants != [] {
      var last, rest := grants[|grants| - 1], grants[..|grants| - 1];
      if last == g {
        assert forall h :: h in rest ==> h != g;
        SentKept(rest, was, used, p);
      } else {
        SentThrough(rest, was, used, g, units, p);
      }
    }
  }

  /** A request through chunks goes through their current grant, which may be a new one. */
  lemma SentOn(grants: seq<Grant>, issued: seq<Grant>, was: map<Grant, nat>, used: map<Grant, nat>, g: Grant?,
               units: nat, p: Period)
    requires Distinct(grants) && Through(grants, was, used, g, units) && (forall h :: h in issued ==> h in used)
    requires issued == grants || (g != null && g !in grants && issued == grants + [g] && used[g] == units)
    requires units > 0 ==> g != null && g in issued
    ensures SumUsed(issued, used, p) == SumUsed(grants, was, p) + if g != null && g.period == p then units else 0
  {
    if issued == grants {
      if g != null {
        SentThrough(grants, was, used, g, units, p);
      } else {
        SentKept(grants, was, used, p);
      }
    } else {
      assert issued[..|grants|] == grants;
      SentKept(grants, was, used, p);
    }
  }

  lemma IssuedMore(grants: seq<Grant>, g: Grant, p: Period)
    ensures Issued(grants + [g], p) == Issued(grants, p) + if g.period == p then g.limit else 0
  {
    assert (grants + [g])[..|grants|] == grants;
  }

  /**
   The run invariant, against the ledger the run started from: grants are covered by durable
   charges, durable charges by those in memory, and nothing is granted past the limit.
   */
  ghost predicate Covered(start: Ledger, grants: seq<Grant>, saved: Ledger, memory: Ledger, limit: nat) {
    forall p: Period :: CoveredIn(start, grants, saved, memory, limit, p)
  }

  ghost predicate CoveredIn(start: Ledger, grants: seq<Grant>, saved: Ledger, memory: Ledger, limit: nat, p: Period) {
    && Charged(start, p) + Issued(grants, p) <= Charged(saved, p) <= Charged(memory, p)
    && (Issued(grants, p) > 0 ==> Charged(start, p) + Issued(grants, p) <= limit)
  }

  lemma CoveredAfterCharge(start: Ledger, grants: seq<Grant>, saved: Ledger, memory: Ledger, limit: nat, p: Period,
                           units: nat)
    requires Covered(start, grants, saved, memory, limit)
    ensures Covered(start, grants, saved, Reserved(memory, p, units), limit)
    ensures Covered(start, grants, saved, Allocated(memory, p, units), limit)
    ensures Covered(start, grants, Allocated(memory, p, units), Allocated(memory, p, units), limit)
  {
    forall q: Period
      ensures CoveredIn(start, grants, saved, Reserved(memory, p, units), limit, q)
      ensures CoveredIn(start, grants, saved, Allocated(memory, p, units), limit, q)
      ensures CoveredIn(start, grants, Allocated(memory, p, units), Allocated(memory, p, units), limit, q)
    {
      hide Covered, Reserved, Allocated;
      CoveredAt(start, grants, saved, memory, limit, q);
      ChargesGrow(memory, p, units, q);
    }
  }

  lemma CoveredAt(start: Ledger, grants: seq<Grant>, saved: Ledger, memory: Ledger, limit: nat, p: Period)
    requires Covered(start, grants, saved, memory, limit)
    ensures CoveredIn(start, grants, saved, memory, limit, p)
  {}

  /** A grant is issued once its charge is durable. */
  lemma CoveredAfterGrant(start: Ledger, grants: seq<Grant>, saved: Ledger, memory: Ledger, limit: nat, g: Grant)
    requires Covered(start, grants, saved, memory, limit) && Charged(memory, g.period) + g.limit <= limit
    ensures var charged := Allocated(memory, g.period, g.limit);
            Covered(start, grants + [g], charged, charged, limit)
  {
    var charged := Allocated(memory, g.period, g.limit);
    forall q: Period ensures CoveredIn(start, grants + [g], charged, charged, limit, q) {
      hide Covered, Allocated;
      CoveredAt(start, grants, saved, memory, limit, q);
      ChargesGrow(memory, g.period, g.limit, q);
      IssuedMore(grants, g, q);
    }
  }

  // ---- chunks ----

  /** `DurableChunkBudget`: grants in small chunks, each persisted before it is used. */
  class Chunks {
    const account: Account
    const storage: Storage
    const chunk: nat
    var grant: Grant?
    var used: nat
    var attempts: nat
    var persistenceFailed: bool

    constructor (account: Account, storage: Storage, chunk: nat)
      ensures this.account == account && this.storage == storage && this.chunk == Max(1, chunk)
      ensures grant == null && used == 0 && attempts == 0 && !persistenceFailed
    {
      this.account, this.storage, this.chunk := account, storage, Max(1, chunk);
      grant, used, attempts, persistenceFailed := null, 0, 0, false;
    }

    /** The month holds, the account has the units, and the write will be acknowledged. */
    ghost predicate Renewable(units: nat)
      reads this, account, account.clock, storage
    {
      exists p :: Steady(account.clock, p) && Charged(account.ledger, p) + units <= account.limit
        && storage.outcomes(storage.writes) == Acknowledged
    }

    /** What a renewal charges in a steady month: a chunk, or the request if that is more, as far as units are left. */
    ghost predicate ChunkCharged(units: nat, ledger: Ledger, charge: Charge) {
      && (charge.Charge? ==> charge.units <= Max(chunk, units))
      && forall p :: Steady(account.clock, p) ==>
           var left := Left(account.limit, Charged(ledger, p));
           charge == if units > left || Charged(ledger, p) > account.limit then NoCharge
                     else Charge(p, Min(left, Max(chunk, units)))
    }

    /** Charges a chunk and makes it durable; a lost reply disables the run and keeps the charge. */
    method Renew(units: nat, ghost start: Ledger, ghost grants: seq<Grant>) returns (ok: bool, ghost charge: Charge)
      requires Covered(start, grants, storage.saved, account.ledger, account.limit)
      modifies this`grant, this`persistenceFailed, account, account.clock, storage
      ensures !ok ==> grant == old(grant)
      ensures ok ==> grant != null && fresh(grant) && grant.used == 0 && grant.clock == account.clock
      ensures ok ==> charge == Charge(grant.period, grant.limit)
      ensures old(Renewable(units)) ==> ok && Steady(grant.clock, grant.period) && units <= grant.limit
      ensures Covered(start, if ok then grants + [grant] else grants, storage.saved, account.ledger, account.limit)
      ensures ChunkCharged(units, old(account.ledger), charge) && account.ledger == Granted(old(account.ledger), charge)
      ensures charge.NoCharge? ==>
                !ok && persistenceFailed == old(persistenceFailed) && storage.saved == old(storage.saved)
                && storage.writes == old(storage.writes)
      ensures charge.Charge? ==>
                && storage.writes == old(storage.writes) + 1
                && (ok <==> storage.outcomes(old(storage.writes)) == Acknowledged)
                && persistenceFailed == (old(persistenceFailed) || !ok)
    {
      hide Covered, Allocated;
      charge := NoCharge;
      var left, now;
      ghost var p, q;
      left, p := account.Remaining();
      assert forall r :: Steady(account.clock, r) ==> p == r;
      if units > left {
        return false, charge;
      }
      now, q := account.Remaining();
      var size := Min(now, Max(chunk, units));
      var charged, period := account.Allocate(size);
      assert forall r :: Steady(account.clock, r) ==> q == r && period == r;
      if !charged {
        return false, charge;
      }
      charge := Charge(period, size);
      CoveredAfterCharge(start, grants, old(storage.saved), old(account.ledger), account.limit, period, size);
      var accepted := storage.Commit(account.ledger);
      if !accepted {
        persistenceFailed := true;
        return false, charge;
      }
      grant := new Grant(period, size, account.clock);
      CoveredAfterGrant(start, grants, old(storage.saved), old(account.ledger), account.limit, grant);
      return true, charge;
    }

    /** The grant in use pays for the request. */
    ghost predicate Suffices(units: nat)
      reads this, grant, account, account.clock
    {
      grant != null && grant.Allowed(units, account.clock.readCount)
    }

    /** What a request charges: nothing while the grant in use pays, and a chunk otherwise, written at once. */
    twostate predicate Billed(units: nat, charge: Charge)
      reads this`persistenceFailed, account, storage
    {
      && account.ledger == Granted(old(account.ledger), charge)
      && (charge.Charge? ==> charge.units <= Max(chunk, units))
      && (old(Suffices(units) || persistenceFailed) ==> charge == NoCharge)
      && (!old(Suffices(units) || persistenceFailed) ==> ChunkCharged(units, old(account.ledger), charge))
      && storage.writes == old(storage.writes) + (if charge.Charge? then 1 else 0)
      && (persistenceFailed
          <==> old(persistenceFailed) || (charge.Charge? && storage.outcomes(old(storage.writes)) != Acknowledged))
    }

    /** A grant that suffices: the one in use, or else a new one. */
    method Ready(units: nat, ghost start: Ledger, ghost grants: seq<Grant>)
      returns (ok: bool, ghost issued: seq<Grant>, ghost charge: Charge)
      requires Covered(start, grants, storage.saved, account.ledger, account.limit) && !persistenceFailed
      requires grant != null ==> grant in grants && grant.clock == account.clock && grant.used <= grant.limit
      modifies this`grant, this`persistenceFailed, account, account.clock, storage
      ensures Covered(start, issued, storage.saved, account.ledger, account.limit)
      ensures (issued == grants && grant == old(grant))
              || (ok && issued == grants + [grant] && fresh(grant) && grant.used == 0
                  && charge == Charge(grant.period, grant.limit))
      ensures grant != null ==> grant in issued && grant.clock == account.clock && grant.used <= grant.limit
      ensures ok ==> grant != null && !persistenceFailed
      ensures old(Renewable(units)) ==> ok && Steady(grant.clock, grant.period) && grant.used + units <= grant.limit
      ensures Billed(units, charge) && (old(Suffices(units)) ==> ok)
    {
      hide Covered, Issued;
      issued, ok, charge := grants, false, NoCharge;
      if grant != null {
        ok := grant.Allows(units);
      }
      if !ok {
        ok, charge := Renew(units, start, grants);
        if ok {
          issued := grants + [grant];
        }
      }
    }

    /** Sends the units through the grant in use, if it pays for them. */
    method SendOut(units: nat, ghost grants: seq<Grant>, ghost issued: seq<Grant>) returns (ok: bool)
      requires grant != null && grant.used <= grant.limit && forall g :: g in grants ==> g.used <= g.limit
      requires issued == grants || issued == grants + [grant]
      modifies this`used, this`attempts, grant, grant.clock
      ensures grant.used <= grant.limit && forall g :: g in grants ==> g.used <= g.limit
      ensures Through(grants, old(UsedBy(grants)), UsedBy(issued), grant, if ok then units else 0)
      ensures grant.used == old(grant.used) + if ok then units else 0
      ensures used == old(used) + (if ok then units else 0) && attempts == old(attempts) + if ok then 1 else 0
      ensures ok <==> old(grant.Allowed(units, grant.clock.readCount))
    {
      hide Grant.Allowed;
      ok := grant.Reserve(units);
      if ok {
        used, attempts := used + units, attempts + 1;
      }
    }

    /** Sends `units` through a grant of the current month, renewing it when it does not suffice. */
    method Reserve(units: nat, ghost start: Ledger, ghost grants: seq<Grant>)
      returns (ok: bool, ghost issued: seq<Grant>, ghost charge: Charge)
      requires Covered(start, grants, storage.saved, account.ledger, account.limit)
      requires grant != null ==> grant in grants && grant.clock == account.clock
      requires forall g :: g in grants ==> g.used <= g.limit
      modifies this, account, account.clock, storage, grant
      ensures issued == grants
              || (grant != null && issued == grants + [grant] && fresh(grant) && grant.used == if ok then units else 0)
      ensures Covered(start, issued, storage.saved, account.ledger, account.limit)
      ensures grant != null ==> grant in issued && grant.clock == account.clock
      ensures forall g :: g in issued ==> g.used <= g.limit
      ensures Through(grants, old(UsedBy(grants)), UsedBy(issued), grant, if ok then units else 0)
      ensures used == old(used) + (if ok then units else 0) && attempts == old(attempts) + if ok then 1 else 0
      ensures ok ==> grant != null && grant.used == units + if grant == old(grant) then old(grant.used) else 0
      ensures old(persistenceFailed) ==>
                !ok && persistenceFailed && charge == NoCharge && issued == grants && grant == old(grant)
      ensures !old(persistenceFailed) && old(Renewable(units)) ==> ok
      ensures Billed(units, charge)
    {
      hide Covered, Issued, ChunkCharged, Charged;
      issued, charge := grants, NoCharge;
      if persistenceFailed {
        return false, issued, charge;
      }
      hide Billed, Renewable, Granted, Suffices;
      ok, issued, charge := Ready(units, start, grants);
      if !ok {
        return false, issued, charge;
      }
      assert UsedBy(grants) == old(UsedBy(grants));
      hide UsedBy, Through;
      ok := SendOut(units, grants, issued);
    }
  }

  // ---- the parent process and its workers ----

  /** Everything that can happen in a run. */
  datatype Event =
    | Spend(units: nat)                 // a request of the parent, through its chunks
    | Direct(units: nat)                // a request charged to the ledger in memory only
    | Dispatch(units: nat)              // a grant for a worker, persisted first
    | WorkerSends(worker: nat, units: nat)
    | Crash                             // the process restarts from the durable ledger

  /** What an event sends through a grant, and in which month. */
  datatype Send = Nothing | Send(period: Period, units: nat)

  function UnitsFor(send: Send, p: Period): nat {
    if send.Send? && send.period == p then send.units else 0
  }

  /** Units that the events of a run sent in a month. */
  function SentBy(sends: seq<Send>, p: Period): nat {
    if sends == [] then 0 else SentBy(sends[..|sends| - 1], p) + UnitsFor(sends[|sends| - 1], p)
  }

  lemma NothingSent(p: Period)
    ensures Sent([], p) == SentBy([], p) == 0
  {}

  lemma SentByMore(sends: seq<Send>, send: Send, p: Period)
    ensures SentBy(sends + [send], p) == SentBy(sends, p) + UnitsFor(send, p)
  {
    assert (sends + [send])[..|sends|] == sends;
  }

  /** Only requests of the parent and of workers send anything, and then exactly their units. */
  predicate Answers(event: Event, send: Send) {
    send.Send? ==> (event.Spend? || event.WorkerSends?) && send.units == event.units
  }

  /** What the events of a run charged in a month. */
  function ChargedBy(charges: seq<Charge>, p: Period): nat {
    if charges == [] then 0 else ChargedBy(charges[..|charges| - 1], p) + ChargeFor(charges[|charges| - 1], p)
  }

  lemma ChargedByMore(charges: seq<Charge>, charge: Charge, p: Period)
    ensures ChargedBy(charges + [charge], p) == ChargedBy(charges, p) + ChargeFor(charge, p)
  {
    assert (charges + [charge])[..|charges|] == charges;
  }

  /** The most that an event may charge: a chunk or its own request, whichever is more. */
  function CostOf(event: Event, chunk: nat): nat {
    match event
    case Spend(units) => Max(Max(1, chunk), units)
    case Direct(units) => units
    case Dispatch(units) => units
    case _ => 0
  }

  function CostOfAll(events: seq<Event>, chunk: nat): nat {
    if events == [] then 0 else CostOfAll(events[..|events| - 1], chunk) + CostOf(events[|events| - 1], chunk)
  }

  lemma {:induction false} CostGrows(events: seq<Event>, chunk: nat, k: nat)
    requires k < |events|
    ensures CostOfAll(events[..k + 1], chunk) == CostOfAll(events[..k], chunk) + CostOf(events[k], chunk)
    ensures CostOfAll(events[..k + 1], chunk) <= CostOfAll(events, chunk)
    decreases |events|
  {
    assert events[..k + 1][..k] == events[..k];
    if k + 1 < |events| {
      var rest := events[..|events| - 1];
      CostGrows(rest, chunk, k);
      assert rest[..k + 1] == events[..k + 1] && rest[..k] == events[..k] && rest[k] == events[k];
    } else {
      assert events[..k + 1] == events;
    }
  }

  /** Direct requests and dispatched grants charge what they ask for; only the parent's chunks may charge more. */
  predicate Costs(event: Event, chunk: nat, charge: Charge) {
    && ChargeFor(charge, if charge.Charge? then charge.period else Period(0, 0)) <= CostOf(event, chunk)
    && (charge.Charge? && !event.Spend? ==> charge.units == CostOf(event, chunk))
    && (charge.Charge? ==> event.Spend? || event.Direct? || event.Dispatch?)
  }

  ghost predicate Grew(before: Ledger, after: Ledger, charge: Charge) {
    forall p: Period :: Charged(after, p) == Charged(before, p) + ChargeFor(charge, p)
  }

  lemma GrantedGrew(ledger: Ledger, charge: Charge)
    ensures Grew(ledger, Granted(ledger, charge), charge)
  {}

  /** What grants sent in total grows by exactly what is reported as sent. */
  ghost predicate Accrues(before: seq<Grant>, was: map<Grant, nat>, after: seq<Grant>, used: map<Grant, nat>,
                          send: Send)
    requires (forall g :: g in before ==> g in was) && forall g :: g in after ==> g in used
  {
    forall p: Period :: SumUsed(after, used, p) == SumUsed(before, was, p) + UnitsFor(send, p)
  }

  twostate predicate Reports(before: seq<Grant>, new after: seq<Grant>, send: Send)
    reads before, after
  {
    Accrues(before, old(UsedBy(before)), after, UsedBy(after), send)
  }

  /** Units that went through one grant, which may be a new one, are reported for its month. */
  lemma AllSent(before: seq<Grant>, was: map<Grant, nat>, after: seq<Grant>, used: map<Grant, nat>, g: Grant?,
                units: nat, send: Send)
    requires Distinct(before) && Through(before, was, used, g, units) && (forall h :: h in after ==> h in used)
    requires after == before || (g != null && g !in before && after == before + [g] && used[g] == units)
    requires units > 0 ==> g != null && g in after
    requires UnitsReported(send, g, units)
    ensures (forall h :: h in before ==> h in was) && Accrues(before, was, after, used, send)
  {
    forall p: Period ensures SumUsed(after, used, p) == SumUsed(before, was, p) + UnitsFor(send, p) {
      SentOn(before, after, was, used, g, units, p);
    }
  }

  lemma NothingAccrues(grants: seq<Grant>, used: map<Grant, nat>)
    requires forall g :: g in grants ==> g in used
    ensures Accrues(grants, used, grants, used, Nothing)
  {}

  predicate UnitsReported(send: Send, g: Grant?, units: nat) {
    if send == Nothing then units == 0 else g != null && send == Send(g.period, units)
  }

  /** Grants are only ever added, and only new ones. */
  twostate predicate Extends(before: seq<Grant>, new after: seq<Grant>)
    reads before
  {
    && before <= after && (forall g :: g in after ==> g in before || fresh(g))
    && forall g :: g in before ==> g.used >= old(g.used)
  }

  class Parent {
    var account: Account
    var chunks: Chunks
    const storage: Storage
    const clock: Clock
    const limit: nat
    const chunk: nat
    ghost const start: Ledger
    ghost var grants: seq<Grant>
    var workers: seq<Grant>

    ghost predicate Valid()
      reads this, account, chunks, storage, grants
    {
      && account.clock == clock && account.limit == limit && chunks.account == account && chunks.storage == storage
      && chunks.chunk == Max(1, chunk)
      && Covered(start, grants, storage.saved, account.ledger, limit)
      && (chunks.grant != null ==> chunks.grant in grants && chunks.grant.clock == clock)
      && (forall g :: g in grants ==> g.used <= g.limit && g.clock == clock)
      && (forall g :: g in workers ==> g in grants) && Distinct(grants)
    }

    constructor (saved: Ledger, limit: nat, chunk: nat, readings: nat -> Period, outcomes: nat -> Outcome)
      ensures Valid() && start == saved && storage.saved == saved && this.limit == limit && grants == []
      ensures fresh(account) && fresh(chunks) && fresh(storage) && fresh(clock)
      ensures this.chunk == chunk && account.ledger == saved && !chunks.persistenceFailed
      ensures storage.outcomes == outcomes && clock.readings == readings
    {
      var c := new Clock(readings);
      var a := new Account(saved, limit, c);
      var s := new Storage(saved, outcomes);
      clock, account, storage := c, a, s;
      chunks := new Chunks(a, s, chunk);
      start, grants, workers := saved, [], [];
      this.limit, this.chunk := limit, chunk;
    }

    /** After a crash the ledger is read back; worker grants live on elsewhere. */
    method Restart()
      requires Valid()
      modifies this
      ensures Valid() && fresh(account) && fresh(chunks) && grants == old(grants) && workers == old(workers)
      ensures Reports(old(grants), grants, Nothing)
      ensures account.ledger == storage.saved && !chunks.persistenceFailed
    {
      hide Issued;
      CoveredAfterCrash(start, grants, storage.saved, account.ledger, limit);
      account := new Account(storage.saved, limit, clock);
      chunks := new Chunks(account, storage, chunk);
    }

    method SpendDirect(units: nat) returns (ok: bool, ghost charge: Charge)
      requires Valid()
      modifies account, clock
      ensures Valid() && Reports(grants, grants, Nothing)
      ensures ok <==> Charged(old(account.ledger), clock.readings(old(clock.readCount))) + units <= limit
      ensures charge == if ok then Charge(clock.readings(old(clock.readCount)), units) else NoCharge
      ensures Grew(old(account.ledger), account.ledger, charge)
    {
      hide Covered, Reserved;
      ghost var memory := account.ledger;
      ghost var p;
      ok, p := account.Reserve(units);
      charge := if ok then Charge(p, units) else NoCharge;
      if ok {
        CoveredAfterCharge(start, grants, storage.saved, memory, limit, p, units);
      }
      forall q: Period ensures Charged(account.ledger, q) == Charged(memory, q) + ChargeFor(charge, q) {
        ChargesGrow(memory, p, units, q);
      }
    }

    /** A request goes out unless persistence failed, the write does, or the month has not enough left. */
    ghost predicate CanSpend(units: nat)
      reads this, chunks, chunks.account, chunks.account.clock, chunks.storage
    {
      !chunks.persistenceFailed && chunks.Renewable(units)
    }

    method SpendThroughChunks(units: nat) returns (send: Send, ghost charge: Charge)
      requires Valid()
      modifies this`grants, account, clock, chunks, storage, chunks.grant
      ensures Valid() && Extends(old(grants), grants)
      ensures Reports(old(grants), grants, send) && Answers(Spend(units), send)
      ensures old(CanSpend(units)) ==> send.Send?
      ensures chunks.Billed(units, charge)
    {
      hide Covered, Accrues, Steady, Distinct, Through, Chunks.Billed, Chunks.Renewable;
      ghost var was := UsedBy(grants);
      var ok;
      ghost var issued;
      ok, issued, charge := chunks.Reserve(units, start, grants);
      if issued != grants {
        NewIsDistinct(grants, chunks.grant);
      }
      ThroughGrows(grants, was, UsedBy(issued), chunks.grant, if ok then units else 0);
      send := if ok then Send(chunks.grant.period, units) else Nothing;
      AllSent(grants, was, issued, UsedBy(issued), chunks.grant, if ok then units else 0, send);
      grants := issued;
    }

    /** A grant that was charged and persisted first, unless the limit or the write refuses. */
    method ChargedGrant(units: nat) returns (g: Grant?, ghost charge: Charge)
      requires Valid()
      modifies account, clock, storage
      ensures g == null ==> Covered(start, grants, storage.saved, account.ledger, account.limit)
      ensures g != null ==> fresh(g) && g.limit == units && g.used == 0 && g.clock == clock
      ensures g != null ==> Covered(start, grants + [g], storage.saved, account.ledger, account.limit)
      ensures var p := clock.readings(old(clock.readCount));
              charge == if Charged(old(account.ledger), p) + units <= limit then Charge(p, units) else NoCharge
      ensures account.ledger == Granted(old(account.ledger), charge)
      ensures g != null <==> charge.Charge? && storage.outcomes(old(storage.writes)) == Acknowledged
      ensures g != null ==> g.period == charge.period
    {
      hide Covered, Allocated, Sent;
      ghost var memory, saved := account.ledger, storage.saved;
      var charged, period := account.Allocate(units);
      charge := if charged then Charge(period, units) else NoCharge;
      if !charged {
        return null, charge;
      }
      CoveredAfterCharge(start, grants, saved, memory, limit, period, units);
      var ok := storage.Commit(account.ledger);
      if !ok {
        return null, charge;
      }
      g := new Grant(period, units, clock);
      CoveredAfterGrant(start, grants, saved, memory, limit, g);
    }

    /** A worker's grant is charged and persisted before it is handed over. */
    method DispatchWorker(units: nat) returns (ok: bool, ghost charge: Charge)
      requires Valid()
      modifies this`grants, this`workers, account, clock, storage
      ensures Valid() && Extends(old(grants), grants) && Reports(old(grants), grants, Nothing)
      ensures var p := clock.readings(old(clock.readCount));
              charge == if Charged(old(account.ledger), p) + units <= limit then Charge(p, units) else NoCharge
      ensures account.ledger == Granted(old(account.ledger), charge)
      ensures ok <==> charge.Charge? && storage.outcomes(old(storage.writes)) == Acknowledged
      ensures if ok then
                && |workers| == |old(workers)| + 1 && old(workers) <= workers
                && workers[|old(workers)|].limit == units && workers[|old(workers)|].used == 0
                && workers[|old(workers)|].period == charge.period
              else workers == old(workers) && grants == old(grants)
    {
      hide Covered, Accrues, Distinct, Through, Granted, Charged;
      ghost var was := UsedBy(grants);
      var g;
      g, charge := ChargedGrant(units);
      ok := g != null;
      if ok {
        NewIsDistinct(grants, g);
        NothingThrough(grants, was, UsedBy(grants + [g]), g);
        AllSent(grants, was, grants + [g], UsedBy(grants + [g]), g, 0, Nothing);
        grants, workers := grants + [g], workers + [g];
      } else {
        NothingAccrues(grants, was);
      }
    }

    method WorkerSpend(worker: nat, units: nat) returns (send: Send)
      requires Valid() && worker < |workers|
      modifies workers[worker], clock
      ensures Valid() && workers[worker].used >= old(workers[worker].used)
      ensures Reports(grants, grants, send) && Answers(WorkerSends(worker, units), send)
      ensures send.Send? <==> old(workers[worker].Allowed(units, clock.readCount))
    {
      hide Covered, SumUsed, Steady;
      ghost var was := UsedBy(grants);
      var g := workers[worker];
      var ok := g.Reserve(units);
      send := if ok then Send(g.period, units) else Nothing;
      AllSent(grants, was, grants, UsedBy(grants), g, if ok then units else 0, send);
    }
  }

  lemma CoveredAfterCrash(start: Ledger, grants: seq<Grant>, saved: Ledger, memory: Ledger, limit: nat)
    requires Covered(start, grants, saved, memory, limit)
    ensures Covered(start, grants, saved, saved, limit)
  {
    forall p: Period ensures CoveredIn(start, grants, saved, saved, limit, p) {
      hide Covered;
      CoveredAt(start, grants, saved, memory, limit, p);
      hide Issued;
    }
  }

  /** In every month, what grants sent is charged durably, and charges by grants respect the limit. */
  lemma GrantsAreCharged(start: Ledger, grants: seq<Grant>, saved: Ledger, memory: Ledger, limit: nat, p: Period)
    requires Covered(start, grants, saved, memory, limit) && forall g :: g in grants ==> g.used <= g.limit
    ensures Charged(start, p) + Sent(grants, p) <= Charged(saved, p)
    ensures Sent(grants, p) > 0 ==> Charged(start, p) + Sent(grants, p) <= limit
  {
    CoveredAt(start, grants, saved, memory, limit, p);
    SentWithinIssued(grants, UsedBy(grants), p);
    hide SumUsed, Issued;
  }

  /** One event of a run. */
  method Step(parent: Parent, event: Event) returns (send: Send, ghost charge: Charge)
    requires parent.Valid()
    modifies parent, parent.account, parent.clock, parent.chunks, parent.storage, parent.grants
    ensures parent.Valid() && Extends(old(parent.grants), parent.grants)
    ensures Reports(old(parent.grants), parent.grants, send) && Answers(event, send)
    ensures parent.account == old(parent.account) || fresh(parent.account)
    ensures parent.chunks == old(parent.chunks) || fresh(parent.chunks)
    ensures Costs(event, parent.chunk, charge)
    ensures forall p: Period ::
              Charged(parent.account.ledger, p) <= Charged(old(parent.account.ledger), p) + ChargeFor(charge, p)
    ensures event.Spend? && old(parent.CanSpend(event.units)) ==> send.Send?
    ensures event.WorkerSends? && event.worker < |old(parent.workers)| ==>
              (send.Send? <==> old(parent.workers[event.worker].Allowed(event.units, parent.clock.readCount)))
    ensures parent.chunks.persistenceFailed ==>
              old(parent.chunks.persistenceFailed)
              || parent.storage.outcomes(old(parent.storage.writes)) != Acknowledged
  {
    hide Covered, Sent, Allocated, Steady;
    send, charge := Nothing, NoCharge;
    ghost var memory := parent.account.ledger;
    match event
    case Spend(units) =>
      send, charge := parent.SpendThroughChunks(units);
      GrantedGrew(memory, charge);
    case Direct(units) =>
      var done;
      done, charge := parent.SpendDirect(units);
    case Dispatch(units) =>
      var done;
      done, charge := parent.DispatchWorker(units);
      GrantedGrew(memory, charge);
    case WorkerSends(worker, units) =>
      if worker < |parent.workers| {
        assert parent.workers[worker] in parent.workers;
        send := parent.WorkerSpend(worker, units);
      }
    case Crash =>
      SavedWithin(parent.start, parent.grants, parent.storage.saved, memory, parent.limit);
      parent.Restart();
  }

  lemma SavedWithin(start: Ledger, grants: seq<Grant>, saved: Ledger, memory: Ledger, limit: nat)
    requires Covered(start, grants, saved, memory, limit)
    ensures forall p: Period :: Charged(saved, p) <= Charged(memory, p)
  {
    forall p: Period ensures Charged(saved, p) <= Charged(memory, p) {
      hide Covered, Issued;
      CoveredAt(start, grants, saved, memory, limit, p);
    }
  }

  /** The clock stays in one month, every write is acknowledged, and the month has room for all that may be charged. */
  ghost predicate Smooth(saved: Ledger, limit: nat, chunk: nat, readings: nat -> Period, outcomes: nat -> Outcome,
                         events: seq<Event>) {
    && (forall i: nat :: readings(i) == readings(0)) && (forall i: nat :: outcomes(i) == Acknowledged)
    && Charged(saved, readings(0)) + CostOfAll(events, chunk) <= limit
  }

  /** In a smooth run the parent can pay for whatever comes next. */
  ghost predicate Paying(failed: bool, ledger: Ledger, saved: Ledger, events: seq<Event>, chunk: nat, k: nat,
                         p: Period)
    requires k <= |events|
  {
    !failed && Charged(ledger, p) <= Charged(saved, p) + CostOfAll(events[..k], chunk)
  }

  lemma PayingCanSpend(parent: Parent, saved: Ledger, limit: nat, readings: nat -> Period, outcomes: nat -> Outcome,
                       events: seq<Event>, k: nat)
    requires parent.Valid() && parent.limit == limit && k < |events|
    requires Paying(parent.chunks.persistenceFailed, parent.account.ledger, saved, events, parent.chunk, k, readings(0))
    requires parent.clock.readings == readings && parent.storage.outcomes == outcomes
    requires Smooth(saved, limit, parent.chunk, readings, outcomes, events)
    ensures events[k].Spend? ==> parent.CanSpend(events[k].units)
    ensures parent.storage.outcomes(parent.storage.writes) == Acknowledged
  {
    hide Covered, Sent;
    CostGrows(events, parent.chunk, k);
    hide CostOfAll;
    assert Steady(parent.clock, readings(0));
  }

  lemma PayingOn(ledger0: Ledger, ledger: Ledger, saved: Ledger, events: seq<Event>, chunk: nat, k: nat, p: Period,
                 charge: Charge)
    requires k < |events| && Paying(false, ledger0, saved, events, chunk, k, p) && Costs(events[k], chunk, charge)
    requires Charged(ledger, p) <= Charged(ledger0, p) + ChargeFor(charge, p)
    ensures Paying(false, ledger, saved, events, chunk, k + 1, p)
  {
    CostGrows(events, chunk, k);
    hide CostOfAll, Charged;
  }

  /** What the ledger in memory holds is at most what was there at the start and what was charged since. */
  ghost predicate Accounted(saved: Ledger, ledger: Ledger, charges: seq<Charge>) {
    forall p: Period :: Charged(ledger, p) <= Charged(saved, p) + ChargedBy(charges, p)
  }

  lemma AccountedOn(saved: Ledger, before: Ledger, ledger: Ledger, charges: seq<Charge>, charge: Charge)
    requires Accounted(saved, before, charges)
    requires forall p: Period :: Charged(ledger, p) <= Charged(before, p) + ChargeFor(charge, p)
    ensures Accounted(saved, ledger, charges + [charge])
  {
    hide Charged, ChargedBy, ChargeFor;
    forall p: Period ensures Charged(ledger, p) <= Charged(saved, p) + ChargedBy(charges + [charge], p) {
      ChargedByMore(charges, charge, p);
    }
  }

  /** Event by event: what it sends and charges fits it. */
  predicate Plausible(events: seq<Event>, chunk: nat, sends: seq<Send>, charges: seq<Charge>) {
    && |sends| == |charges| <= |events|
    && forall i :: 0 <= i < |sends| ==> Answers(events[i], sends[i]) && Costs(events[i], chunk, charges[i])
  }

  lemma PlausibleOn(events: seq<Event>, chunk: nat, sends: seq<Send>, charges: seq<Charge>, send: Send, charge: Charge)
    requires Plausible(events, chunk, sends, charges) && |sends| < |events|
    requires Answers(events[|sends|], send) && Costs(events[|sends|], chunk, charge)
    ensures Plausible(events, chunk, sends + [send], charges + [charge])
  {
    hide Answers, Costs;
  }

  predicate AllSpendsSent(events: seq<Event>, sends: seq<Send>) {
    forall i :: 0 <= i < |sends| <= |events| && events[i].Spend? ==> sends[i].Send?
  }

  /**
   Over any run, from any saved ledger, with any clock and any fate of each write: what the
   events report as sent in a month is what grants sent, and never exceeds the charges durably
   recorded for that month, nor the limit. The ledger charges no more than the events may cost, a
   chunk per request of the parent, and in a smooth run no request of the parent is refused.
   */
  method Run(saved: Ledger, limit: nat, chunk: nat, readings: nat -> Period, outcomes: nat -> Outcome,
             events: seq<Event>)
    returns (parent: Parent, sends: seq<Send>, ghost charges: seq<Charge>)
    ensures parent.Valid() && parent.start == saved && parent.limit == limit
    ensures |sends| == |events| && Plausible(events, chunk, sends, charges)
    ensures forall p: Period :: Sent(parent.grants, p) == SentBy(sends, p)
    ensures forall p: Period :: Charged(saved, p) + SentBy(sends, p) <= Charged(parent.storage.saved, p)
    ensures forall p: Period :: SentBy(sends, p) > 0 ==> Charged(saved, p) + SentBy(sends, p) <= limit
    ensures Accounted(saved, parent.storage.saved, charges)
    ensures Smooth(saved, limit, chunk, readings, outcomes, events) ==> AllSpendsSent(events, sends)
  {
    parent := new Parent(saved, limit, chunk, readings, outcomes);
    sends, charges := [], [];
    forall p: Period ensures Sent(parent.grants, p) == SentBy(sends, p) {
      NothingSent(p);
    }
    assert Paying(false, saved, saved, events, chunk, 0, readings(0)) && Accounted(saved, saved, []);
    hide Covered, Sent, Issued, SentBy, UnitsFor, Answers, Costs, Charged, Smooth, Paying, Accounted, Plausible;
    for i := 0 to |events|
      invariant parent.Valid() && parent.start == saved && parent.limit == limit && parent.chunk == chunk
      invariant parent.clock.readings == readings && parent.storage.outcomes == outcomes
      invariant fresh(parent) && fresh(parent.account) && fresh(parent.chunks) && fresh(parent.storage)
      invariant fresh(parent.clock)
      invariant forall g :: g in parent.grants ==> fresh(g)
      invariant |sends| == i && Plausible(events, chunk, sends, charges)
      invariant forall p: Period :: Sent(parent.grants, p) == SentBy(sends, p)
      invariant Accounted(saved, parent.account.ledger, charges)
      invariant Smooth(saved, limit, chunk, readings, outcomes, events) ==>
                  && AllSpendsSent(events, sends)
                  && Paying(parent.chunks.persistenceFailed, parent.account.ledger, saved, events, chunk, i,
                            readings(0))
    {
      forall k | 0 <= k < |parent.grants| ensures fresh(parent.grants[k]) {
        assert parent.grants[k] in parent.grants;
      }
      ghost var ledger, smooth := parent.account.ledger, Smooth(saved, limit, chunk, readings, outcomes, events);
      if smooth {
        PayingCanSpend(parent, saved, limit, readings, outcomes, events, i);
        PayingStays(parent.chunks.persistenceFailed, ledger, saved, events, chunk, i, readings(0));
      }
      var send;
      ghost var charge;
      send, charge := Step(parent, events[i]);
      forall p: Period ensures Sent(parent.grants, p) == SentBy(sends + [send], p) {
        SentByMore(sends, send, p);
      }
      if smooth { PayingOn(ledger, parent.account.ledger, saved, events, chunk, i, readings(0), charge); }
      AccountedOn(saved, ledger, parent.account.ledger, charges, charge);
      PlausibleOn(events, chunk, sends, charges, send, charge);
      sends, charges := sends + [send], charges + [charge];
    }
    Conclusions(parent, saved, limit, sends, charges);
  }

  lemma PayingStays(failed: bool, ledger: Ledger, saved: Ledger, events: seq<Event>, chunk: nat, k: nat, p: Period)
    requires k <= |events| && Paying(failed, ledger, saved, events, chunk, k, p)
    ensures !failed
  {}

  lemma Conclusions(parent: Parent, saved: Ledger, limit: nat, sends: seq<Send>, charges: seq<Charge>)
    requires parent.Valid() && parent.start == saved && parent.limit == limit
    requires forall p: Period :: Sent(parent.grants, p) == SentBy(sends, p)
    requires Accounted(saved, parent.account.ledger, charges)
    ensures forall p: Period :: Charged(saved, p) + SentBy(sends, p) <= Charged(parent.storage.saved, p)
    ensures forall p: Period :: SentBy(sends, p) > 0 ==> Charged(saved, p) + SentBy(sends, p) <= limit
    ensures Accounted(saved, parent.storage.saved, charges)
  {
    hide Covered, Sent, SentBy, Charged, ChargedBy;
    forall p: Period
      ensures Charged(saved, p) + SentBy(sends, p) <= Charged(parent.storage.saved, p)
      ensures SentBy(sends, p) > 0 ==> Charged(saved, p) + SentBy(sends, p) <= limit
    {
      GrantsAreCharged(saved, parent.grants, parent.storage.saved, parent.account.ledger, limit, p);
    }
    SavedWithin(saved, parent.grants, parent.storage.saved, parent.account.ledger, limit);
  }

  // ---- the price of an indexed history page ----

  datatype Detail = Full | Signatures

  /** `native_cost` for a page of indexed history: by page size before, by rows after. */
  function PageCost(detail: Detail, limit: nat, rows: Option<nat>): Option<nat> {
    if limit < 1 || limit > 1000 then None
    else if detail.Signatures? then Some(10)
    else
      var count := if rows.Some? then rows.value else limit;
      Some(Max(10, 10 * ((count + 99) / 100)))
  }

  /**
   What is reserved before a request is the cost of a full page and covers every page it may return;
   a page of full transactions costs ten credits for each hundred begun, but never less than ten.
   */
  lemma ReservationCovers(detail: Detail, limit: nat, rows: nat)
    requires 1 <= limit <= 1000 && rows <= limit
    ensures PageCost(detail, limit, Some(rows)).Some? && PageCost(detail, limit, None).Some?
    ensures PageCost(detail, limit, Some(rows)).value <= PageCost(detail, limit, None).value
    ensures PageCost(detail, limit, None) == PageCost(detail, limit, Some(limit))
    ensures var cost := PageCost(detail, limit, Some(rows)).value;
            if detail.Signatures? || rows == 0 then cost == 10
            else cost % 10 == 0 && 10 * (cost - 10) < rows <= 10 * cost
  {
    assert (rows + 99) / 100 <= (limit + 99) / 100;
  }
}
