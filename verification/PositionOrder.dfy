/** From supplied transactions to the list that is replayed. */
module PositionOrder {
  // Order of arrival and repeated deliveries must not matter: the specification speaks of the set
  // of supplied transactions only, and the loops over the list are proved against it.

  import opened Wrappers
  import opened PositionLedger

  type Signature = string

  datatype Index = Absent | At(position: nat) | Malformed

  datatype RawBatch = RawBatch(inScope: bool, signature: Option<Signature>, slot: Option<nat>, index: Index,
                               body: Batch)

  datatype Horizon = Horizon(start: nat, end: nat, maxTransactions: nat, maxEvents: nat)

  predicate Usable(b: RawBatch) {
    b.inScope && b.signature.Some?
  }

  /** Two different transactions claim one signature. */
  predicate Conflicting(raw: set<RawBatch>, b: RawBatch) {
    exists c :: c in raw && Usable(c) && c.signature == b.signature && c != b
  }

  function Unambiguous(raw: set<RawBatch>): set<RawBatch> {
    set b | b in raw && Usable(b) && !Conflicting(raw, b)
  }

  function PlacementGap(h: Horizon, b: RawBatch): Option<Issue> {
    if b.slot.None? then Some(MissingOrder)
    else if !(h.start < b.slot.value <= h.end) then Some(OutsideHorizon)
    else if b.index == Malformed then Some(MissingOrder)
    else None
  }

  function Eligible(h: Horizon, raw: set<RawBatch>): (r: set<RawBatch>)
    ensures forall b :: b in r ==> b.slot.Some? && b.index != Malformed
  {
    WellPlaced(h, Unambiguous(raw))
  }

  /** Two transactions of one slot whose canonical order is unknown. */
  predicate Clash(c: RawBatch, d: RawBatch) {
    c != d && c.slot == d.slot && (c.index == Absent || c.index == d.index)
  }

  predicate SlotClashes(es: set<RawBatch>, slot: Option<nat>) {
    exists c, d :: c in es && d in es && c.slot == slot && Clash(c, d)
  }

  function Retained(es: set<RawBatch>): set<RawBatch> {
    set b | b in es && !SlotClashes(es, b.slot)
  }

  function Position(b: RawBatch): nat {
    if b.index.At? then b.index.position else 0
  }

  predicate Earlier(a: RawBatch, b: RawBatch) {
    && a.slot.Some? && b.slot.Some?
    && (a.slot.value < b.slot.value || (a.slot == b.slot && Position(a) < Position(b)))
  }

  predicate InOrder(s: seq<RawBatch>) {
    forall i, j :: 0 <= i < j < |s| ==> Earlier(s[i], s[j])
  }

  predicate Holds(s: seq<RawBatch>, es: set<RawBatch>) {
    (forall b :: b in s ==> b in es) && (forall b :: b in es ==> b in s)
  }

  function Gaps(h: Horizon, raw: set<RawBatch>): set<Issue> {
    (if exists b :: b in raw && !b.inScope then {InvalidScope} else {})
    + (if exists b :: b in raw && b.inScope && b.signature.None? then {MissingSignature} else {})
    + (if exists b :: b in raw && Usable(b) && Conflicting(raw, b) then {ConflictingDuplicate} else {})
    + Misplaced(h, Unambiguous(raw))
    + Ambiguity(Eligible(h, raw), Eligible(h, raw))
  }

  // ---- the order is canonical ----

  lemma EarlierTotal(es: set<RawBatch>, a: RawBatch, b: RawBatch)
    requires forall c :: c in es ==> c.slot.Some? && c.index != Malformed
    requires a in Retained(es) && b in Retained(es) && a != b
    ensures Earlier(a, b) || Earlier(b, a)
  {
    if a.slot == b.slot {
      assert !Clash(a, b) && !Clash(b, a);
    }
  }

  lemma HeadIsFirst(s: seq<RawBatch>, es: set<RawBatch>, b: RawBatch)
    requires InOrder(s) && Holds(s, es) && b in es && b != s[0] && |s| > 0
    ensures Earlier(s[0], b)
  {
    var k :| 0 <= k < |s| && s[k] == b;
  }

  lemma TailHolds(s: seq<RawBatch>, es: set<RawBatch>)
    requires InOrder(s) && Holds(s, es) && |s| > 0
    ensures InOrder(s[1..]) && Holds(s[1..], es - {s[0]})
  {
    forall b | b in s[1..]
      ensures b in es - {s[0]}
    {
      var k :| 0 <= k < |s[1..]| && s[1..][k] == b;
      assert Earlier(s[0], s[k + 1]);
    }
  }

  /** One set of transactions has at most one replay order. */
  lemma {:induction false} OrderUnique(s: seq<RawBatch>, t: seq<RawBatch>, es: set<RawBatch>)
    requires InOrder(s) && InOrder(t) && Holds(s, es) && Holds(t, es)
    ensures s == t
    decreases |s|
  {
    assert (s == [] || s[0] in s) && (t == [] || t[0] in t);
    if |s| > 0 {
      assert s[0] in es && t[0] in es;
      if s[0] != t[0] {
        HeadIsFirst(s, es, t[0]);
        HeadIsFirst(t, es, s[0]);
      }
      TailHolds(s, es);
      TailHolds(t, es);
      OrderUnique(s[1..], t[1..], es - {s[0]});
    }
  }

  // ---- the loops ----

  function Members(raw: seq<RawBatch>): (r: set<RawBatch>)
    ensures forall b :: b in r <==> b in raw
  {
    set b | b in raw
  }

  predicate Indexed(raw: set<RawBatch>, unique: map<Signature, RawBatch>, conflicts: set<Signature>) {
    && (forall b :: b in raw && Usable(b) ==> b.signature.value in unique)
    && (forall s :: s in unique ==> unique[s] in raw && Usable(unique[s]) && unique[s].signature == Some(s))
    && conflicts <= unique.Keys
    && (forall s :: s in unique ==> (s in conflicts <==> Conflicting(raw, unique[s])))
  }

  lemma IndexedStep(raw: set<RawBatch>, unique: map<Signature, RawBatch>, conflicts: set<Signature>, b: RawBatch)
    requires Indexed(raw, unique, conflicts)
    ensures !Usable(b) ==> Indexed(raw + {b}, unique, conflicts)
    ensures Usable(b) ==>
              var s := b.signature.value;
              if s in unique && unique[s] != b then Indexed(raw + {b}, unique, conflicts + {s})
              else Indexed(raw + {b}, unique[s := b], conflicts)
  {
    forall s | s in unique
      ensures Conflicting(raw + {b}, unique[s])
              <==> Conflicting(raw, unique[s]) || (Usable(b) && b.signature == Some(s) && b != unique[s])
    {
      if Conflicting(raw, unique[s]) {
        var c :| c in raw && Usable(c) && c.signature == unique[s].signature && c != unique[s];
        assert c in raw + {b};
      }
      if Usable(b) && b.signature == Some(s) && b != unique[s] {
        assert b in raw + {b};
      }
    }
  }

  function DeliveryGaps(raw: set<RawBatch>, conflicts: set<Signature>): set<Issue> {
    (if exists b :: b in raw && !b.inScope then {InvalidScope} else {})
    + (if exists b :: b in raw && b.inScope && b.signature.None? then {MissingSignature} else {})
    + (if conflicts != {} then {ConflictingDuplicate} else {})
  }

  lemma ConflictsAre(raw: set<RawBatch>, unique: map<Signature, RawBatch>, conflicts: set<Signature>)
    requires Indexed(raw, unique, conflicts)
    ensures conflicts != {} <==> exists b :: b in raw && Usable(b) && Conflicting(raw, b)
    ensures forall b ::
              b in Unambiguous(raw)
              <==> (b.signature.Some? && b.signature.value in unique
                    && b.signature.value !in conflicts && unique[b.signature.value] == b)
  {
    if conflicts != {} {
      var s :| s in conflicts;
      assert Conflicting(raw, unique[s]);
    }
    forall b | b in raw && Usable(b)
      ensures Conflicting(raw, b) <==> b.signature.value in conflicts
    {
      var u := unique[b.signature.value];
      if u != b {
        assert u in raw && b in raw;
        assert Conflicting(raw, b) && Conflicting(raw, u);
      }
    }
  }

  /** First delivery per signature, with the signatures that were delivered differently. */
  method Deduplicate(raw: seq<RawBatch>)
    returns (unique: map<Signature, RawBatch>, conflicts: set<Signature>, gaps: set<Issue>)
    ensures Indexed(Members(raw), unique, conflicts)
    ensures gaps == DeliveryGaps(Members(raw), conflicts)
  {
    unique, conflicts, gaps := map[], {}, {};
    for i := 0 to |raw|
      invariant Indexed(Members(raw[..i]), unique, conflicts)
      invariant gaps == DeliveryGaps(Members(raw[..i]), conflicts)
    {
      var b := raw[i];
      IndexedStep(Members(raw[..i]), unique, conflicts, b);
      assert Members(raw[..i + 1]) == Members(raw[..i]) + {b};
      hide Indexed;
      if !b.inScope {
        gaps := gaps + {InvalidScope};
      } else if b.signature.None? {
        gaps := gaps + {MissingSignature};
      } else if b.signature.value in unique && unique[b.signature.value] != b {
        conflicts, gaps := conflicts + {b.signature.value}, gaps + {ConflictingDuplicate};
      } else {
        unique := unique[b.signature.value := b];
      }
    }
    assert raw[..|raw|] == raw;
  }

  function Insert(s: seq<RawBatch>, b: RawBatch): seq<RawBatch> {
    if s == [] || Earlier(b, s[0]) then [b] + s else [s[0]] + Insert(s[1..], b)
  }

  lemma {:induction false} InsertKeepsOrder(s: seq<RawBatch>, es: set<RawBatch>, b: RawBatch)
    requires InOrder(s) && Holds(s, es)
    requires forall c :: c in es ==> Earlier(b, c) || Earlier(c, b)
    ensures InOrder(Insert(s, b)) && Holds(Insert(s, b), es + {b})
    decreases |s|
  {
    if s == [] || Earlier(b, s[0]) {
      assert s == [] || s[0] in s;
      forall j | 0 <= j < |s| ensures Earlier(b, s[j]) {
        assert s[j] in s;
      }
    } else {
      assert s[0] in s;
      TailHolds(s, es);
      InsertKeepsOrder(s[1..], es - {s[0]}, b);
      var r := Insert(s[1..], b);
      forall j | 0 <= j < |r| ensures Earlier(s[0], r[j]) {
        assert r[j] in r;
        if r[j] != b { HeadIsFirst(s, es, r[j]); }
      }
    }
  }

  function Misplaced(h: Horizon, batches: set<RawBatch>): set<Issue> {
    set b | b in batches && PlacementGap(h, b).Some? :: PlacementGap(h, b).value
  }

  function WellPlaced(h: Horizon, batches: set<RawBatch>): set<RawBatch> {
    set b | b in batches && PlacementGap(h, b).None?
  }

  method Place(h: Horizon, batches: set<RawBatch>) returns (placed: set<RawBatch>, gaps: set<Issue>)
    ensures placed == WellPlaced(h, batches) && gaps == Misplaced(h, batches)
  {
    var todo := batches;
    placed, gaps := {}, {};
    while todo != {}
      invariant todo <= batches
      invariant placed == WellPlaced(h, batches - todo)
      invariant gaps == Misplaced(h, batches - todo)
      decreases |todo|
    {
      var b :| b in todo;
      assert batches - (todo - {b}) == (batches - todo) + {b};
      todo := todo - {b};
      if PlacementGap(h, b).Some? {
        gaps := gaps + {PlacementGap(h, b).value};
      } else {
        placed := placed + {b};
      }
    }
    assert batches - todo == batches;
  }

  function Ambiguity(es: set<RawBatch>, among: set<RawBatch>): set<Issue> {
    if exists b :: b in among && SlotClashes(es, b.slot) then {AmbiguousOrder} else {}
  }

  method Order(es: set<RawBatch>) returns (ordered: seq<RawBatch>, gaps: set<Issue>)
    requires forall b :: b in es ==> b.slot.Some? && b.index != Malformed
    ensures InOrder(ordered) && Holds(ordered, Retained(es))
    ensures gaps == Ambiguity(es, es)
  {
    var rest := es;
    ordered, gaps := [], {};
    while rest != {}
      invariant rest <= es
      invariant InOrder(ordered) && Holds(ordered, Retained(es) - rest)
      invariant gaps == Ambiguity(es, es - rest)
      decreases |rest|
    {
      var b :| b in rest;
      assert es - (rest - {b}) == es - rest + {b};
      if SlotClashes(es, b.slot) {
        gaps := {AmbiguousOrder};
        assert Retained(es) - (rest - {b}) == Retained(es) - rest;
      } else {
        assert b in Retained(es);
        forall c | c in Retained(es) - rest ensures Earlier(b, c) || Earlier(c, b) {
          EarlierTotal(es, b, c);
        }
        InsertKeepsOrder(ordered, Retained(es) - rest, b);
        ordered := Insert(ordered, b);
        assert Retained(es) - (rest - {b}) == Retained(es) - rest + {b};
      }
      hide InOrder, Holds;
      rest := rest - {b};
    }
    assert Retained(es) - rest == Retained(es) && es - rest == es;
  }

  lemma UsableAre(raw: set<RawBatch>, unique: map<Signature, RawBatch>, conflicts: set<Signature>,
                  usable: set<RawBatch>)
    requires Indexed(raw, unique, conflicts) && usable == set s | s in unique && s !in conflicts :: unique[s]
    ensures usable == Unambiguous(raw)
    ensures conflicts != {} <==> exists b :: b in raw && Usable(b) && Conflicting(raw, b)
  {
    ConflictsAre(raw, unique, conflicts);
    assert forall s :: s in unique ==> unique[s].signature == Some(s);
    hide Indexed, Unambiguous, Conflicting;
    forall b ensures b in usable <==> b in Unambiguous(raw) {
      if b in Unambiguous(raw) {
        assert unique[b.signature.value] in usable;
      }
    }
  }

  lemma GapsAre(h: Horizon, raw: set<RawBatch>, conflicts: set<Signature>)
    requires conflicts != {} <==> exists b :: b in raw && Usable(b) && Conflicting(raw, b)
    ensures Gaps(h, raw) == DeliveryGaps(raw, conflicts) + Misplaced(h, Unambiguous(raw)) + Ambiguity(Eligible(h, raw),
            Eligible(h, raw))
  {
    hide Conflicting, Misplaced, Ambiguity, Unambiguous, WellPlaced;
  }

  /** Filter, order and drop what cannot be ordered; whatever is dropped leaves a gap. */
  method Arrange(h: Horizon, raw: seq<RawBatch>) returns (ordered: seq<RawBatch>, gaps: set<Issue>)
    ensures InOrder(ordered) && Holds(ordered, Retained(Eligible(h, Members(raw))))
    ensures gaps == Gaps(h, Members(raw))
  {
    hide Indexed, Conflicting, Members, Unambiguous, WellPlaced, Misplaced, Ambiguity, DeliveryGaps, InOrder, Holds,
         Retained, Gaps;
    var unique, conflicts, deliveryGaps := Deduplicate(raw);
    var usable := set s | s in unique && s !in conflicts :: unique[s];
    UsableAre(Members(raw), unique, conflicts, usable);
    GapsAre(h, Members(raw), conflicts);
    var placed, misplaced := Place(h, usable);
    var ambiguous;
    ordered, ambiguous := Order(placed);
    gaps := deliveryGaps + misplaced + ambiguous;
  }

  /** Two lists with the same transactions, in any order and any number of times, replay alike. */
  lemma ArrivalOrderIsIrrelevant(h: Horizon, raw: seq<RawBatch>, other: seq<RawBatch>, s: seq<RawBatch>,
                                 t: seq<RawBatch>)
    requires Members(raw) == Members(other)
    requires InOrder(s) && Holds(s, Retained(Eligible(h, Members(raw))))
    requires InOrder(t) && Holds(t, Retained(Eligible(h, Members(other))))
    ensures s == t && Gaps(h, Members(raw)) == Gaps(h, Members(other))
  {
    OrderUnique(s, t, Retained(Eligible(h, Members(raw))));
  }

  // ---- the canonical replay list as a value ----

  lemma OrderExists(es: set<RawBatch>, part: set<RawBatch>) returns (s: seq<RawBatch>)
    requires forall b :: b in es ==> b.slot.Some? && b.index != Malformed
    requires part <= Retained(es)
    ensures InOrder(s) && Holds(s, part)
    decreases |part|
  {
    if part == {} {
      s := [];
    } else {
      var b :| b in part;
      var t := OrderExists(es, part - {b});
      forall c | c in part - {b} ensures Earlier(b, c) || Earlier(c, b) {
        EarlierTotal(es, b, c);
      }
      InsertKeepsOrder(t, part - {b}, b);
      s := Insert(t, b);
      assert part - {b} + {b} == part;
    }
  }

  ghost function Arranged(h: Horizon, raw: set<RawBatch>): (s: seq<RawBatch>)
    ensures InOrder(s) && Holds(s, Retained(Eligible(h, raw)))
  {
    assert exists s :: InOrder(s) && Holds(s, Retained(Eligible(h, raw))) by {
      var s := OrderExists(Eligible(h, raw), Retained(Eligible(h, raw)));
    }
    var s :| InOrder(s) && Holds(s, Retained(Eligible(h, raw)));
    s
  }

  function Bodies(s: seq<RawBatch>): (r: seq<Batch>)
    ensures |r| == |s| && forall i :: 0 <= i < |r| ==> r[i] == s[i].body
  {
    seq(|s|, i requires 0 <= i < |s| => s[i].body)
  }

  function Events(bs: seq<Batch>): nat {
    if bs == [] then 0 else Events(bs[..|bs| - 1]) + |bs[|bs| - 1].legs|
  }

  /** What is replayed and what is missing, within the hard limits. */
  ghost function Prepared(h: Horizon, raw: seq<RawBatch>): (seq<Batch>, set<Issue>) {
    if |raw| > h.maxTransactions then ([], {TransactionLimit})
    else
      var bs, gaps := Bodies(Arranged(h, Members(raw))), Gaps(h, Members(raw));
      if Events(bs) > h.maxEvents then ([], gaps + {EventLimit}) else (bs, gaps)
  }

  predicate BodiesOk(raw: seq<RawBatch>) {
    forall b :: b in raw ==> BatchOk(b.body)
  }

  lemma PreparedOk(h: Horizon, raw: seq<RawBatch>)
    requires BodiesOk(raw)
    ensures forall b :: b in Prepared(h, raw).0 ==> BatchOk(b)
  {
    var s := Arranged(h, Members(raw));
    forall b | b in Prepared(h, raw).0 ensures BatchOk(b) {
      var i :| 0 <= i < |Prepared(h, raw).0| && Prepared(h, raw).0[i] == b;
      assert s[i] in s && s[i] in raw && s[i].body == b;
    }
  }

  /** The ledger at the horizon, before closing balances. */
  ghost function Replayed(policy: Policy, h: Horizon, seeds: seq<Seed>, historyComplete: bool,
                          raw: seq<RawBatch>): Ledger
    requires BodiesOk(raw)
  {
    PreparedOk(h, raw);
    var (bs, gaps) := Prepared(h, raw);
    Batches(policy, Begin(policy, seeds, historyComplete, gaps), bs)
  }
}
