/** Owners matched to distinct transactions by augmenting paths. */
module Matching {
  // A success grows the matching by one; a failure yields a vertex cover, so the loop that tries
  // every owner once is optimal.

  type Owner = string
  type Transaction = string

  /** Which transactions each owner traded in. */
  type Choices = map<Owner, set<Transaction>>

  /** Transactions assigned to different owners who traded in them. */
  type Assignment = map<Transaction, Owner>

  ghost predicate Injective(m: Assignment) {
    forall s, t :: s in m && t in m && s != t ==> m[s] != m[t]
  }

  ghost predicate Uses(choices: Choices, m: Assignment) {
    forall t :: t in m ==> m[t] in choices && t in choices[m[t]]
  }

  ghost predicate IsMatching(choices: Choices, m: Assignment) {
    Injective(m) && Uses(choices, m)
  }

  function AllTransactions(choices: Choices): set<Transaction> {
    set o, t | o in choices && t in choices[o] :: t
  }

  // ---- weak duality ----

  /** Every trade of `among` has its owner in `owners` or its transaction in `txs`. */
  ghost predicate Covers(choices: Choices, among: set<Owner>, owners: set<Owner>, txs: set<Transaction>) {
    forall o, t :: o in among && o in choices && t in choices[o] ==> o in owners || t in txs
  }

  lemma {:induction false} KeysByOwner(m: Assignment, keys: set<Transaction>, owners: set<Owner>)
    requires Injective(m) && forall t :: t in keys ==> t in m && m[t] in owners
    ensures |keys| <= |owners|
    decreases |keys|
  {
    if keys != {} {
      var t :| t in keys;
      KeysByOwner(m, keys - {t}, owners - {m[t]});
    }
  }

  /** No matching of these owners is larger than a cover. */
  lemma WeakDuality(choices: Choices, among: set<Owner>, m: Assignment, owners: set<Owner>, txs: set<Transaction>)
    requires IsMatching(choices, m) && (forall t :: t in m ==> m[t] in among) && Covers(choices, among, owners, txs)
    ensures |m| <= |owners| + |txs|
  {
    var byTx := set t | t in m && t in txs;
    var byOwner := set t | t in m && t !in txs;
    assert m.Keys == byTx + byOwner;
    KeysByOwner(m, byOwner, owners);
    SubsetSize(byTx, txs);
  }

  lemma {:induction false} SubsetSize<T>(a: set<T>, b: set<T>)
    requires a <= b
    ensures |a| <= |b|
    decreases |a|
  {
    if a != {} {
      var x :| x in a;
      SubsetSize(a - {x}, b - {x});
    }
  }

  // ---- a cover that is as small as the matching ----

  /** The certificate kept while owners are processed. */
  ghost predicate Tight(choices: Choices, done: set<Owner>, m: Assignment, owners: set<Owner>, txs: set<Transaction>) {
    && IsMatching(choices, m) && m.Values <= done
    && Covers(choices, done, owners, txs) && owners <= done && |owners| + |txs| == |m|
  }

  /** Transactions whose owners can reach nothing outside them. */
  ghost predicate Closed(choices: Choices, m: Assignment, seen: set<Transaction>) {
    seen <= m.Keys && forall t, s :: t in seen && m[t] in choices && s in choices[m[t]] ==> s in seen
  }

  /** In a tight cover a matched pair is covered exactly once, and nothing else is in the cover. */
  lemma TightPairs(choices: Choices, done: set<Owner>, m: Assignment, owners: set<Owner>, txs: set<Transaction>)
    requires Tight(choices, done, m, owners, txs)
    ensures txs <= m.Keys && forall t :: t in m ==> (t in txs <==> m[t] !in owners)
    ensures owners <= m.Values
  {
    var byTx := set t | t in m && t in txs;
    var byOwner := set t | t in m && t !in txs;
    assert m.Keys == byTx + byOwner;
    KeysByOwner(m, byOwner, owners);
    SubsetSize(byTx, txs);
    assert |byTx| == |txs| && |byOwner| == |owners|;
    SameSize(byTx, txs);
    OwnersOf(m, byOwner, owners);
    forall t | t in m && m[t] in owners ensures t !in txs {
      var s :| s in byOwner && m[s] == m[t];
      assert s == t;
    }
  }

  lemma SameSize<T>(a: set<T>, b: set<T>)
    requires a <= b && |a| == |b|
    ensures a == b
  {
    assert b == a + (b - a);
  }

  /** An injection between sets of one size is onto. */
  lemma {:induction false} OwnersOf(m: Assignment, keys: set<Transaction>, owners: set<Owner>)
    requires Injective(m) && (forall t :: t in keys ==> t in m && m[t] in owners) && |keys| == |owners|
    ensures forall o :: o in owners ==> exists t :: t in keys && m[t] == o
    decreases |keys|
  {
    if keys == {} {
      assert owners == {};
    } else {
      var t :| t in keys;
      OwnersOf(m, keys - {t}, owners - {m[t]});
      forall o | o in owners ensures exists s :: s in keys && m[s] == o {
        if o != m[t] {
          assert o in owners - {m[t]};
          var s :| s in keys - {t} && m[s] == o;
          assert s in keys;
        }
      }
    }
  }

  function OwnersAt(m: Assignment, keys: set<Transaction>): set<Owner>
    requires keys <= m.Keys
  {
    set t | t in keys :: m[t]
  }

  /** The cover after a failed search covers the owner that failed as well. */
  lemma ShiftedCovers(choices: Choices, done: set<Owner>, m: Assignment, owners: set<Owner>, txs: set<Transaction>,
                      o: Owner, seen: set<Transaction>)
    requires Covers(choices, done, owners, txs)
    requires Closed(choices, m, seen) && (o in choices ==> choices[o] <= seen)
    ensures Covers(choices, done + {o}, owners - OwnersAt(m, seen), txs + seen)
  {
    var reached := OwnersAt(m, seen);
    forall p, t | p in done + {o} && p in choices && t in choices[p]
      ensures p in owners - reached || t in txs + seen
    {
      if p in reached {
        var s :| s in seen && m[s] == p;
      }
    }
  }

  /** It gives up exactly the owners of the transactions it takes on. */
  lemma ShiftedSize(choices: Choices, done: set<Owner>, m: Assignment, owners: set<Owner>, txs: set<Transaction>,
                    seen: set<Transaction>)
    requires Tight(choices, done, m, owners, txs) && seen <= m.Keys
    ensures |owners - OwnersAt(m, seen)| + |txs + seen| == |m|
  {
    TightPairs(choices, done, m, owners, txs);
    hide Covers, Uses;
    var taken, given := seen - txs, owners * OwnersAt(m, seen);
    KeysByOwner(m, taken, given);
    forall p | p in given ensures exists s :: s in taken && m[s] == p {
      var s :| s in seen && m[s] == p;
      assert s in taken;
    }
    OnePerKey(m, taken, given);
    Split(owners, OwnersAt(m, seen));
    assert txs + seen == txs + taken;
  }

  lemma Split<T>(a: set<T>, b: set<T>)
    ensures |a| == |a - b| + |a * b|
  {
    assert a == (a - b) + a * b;
  }

  lemma TightShift(choices: Choices, done: set<Owner>, m: Assignment, owners: set<Owner>, txs: set<Transaction>,
                   o: Owner, owners': set<Owner>, txs': set<Transaction>)
    requires Tight(choices, done, m, owners, txs) && owners' <= owners && |owners'| + |txs'| == |m|
    requires Covers(choices, done + {o}, owners', txs')
    ensures Tight(choices, done + {o}, m, owners', txs')
  {
    hide Covers, IsMatching;
  }

  /** A failed search moves the cover onto the transactions it saw, without growing it. */
  lemma FailureCertifies(choices: Choices, done: set<Owner>, m: Assignment, owners: set<Owner>, txs: set<Transaction>,
                         o: Owner, seen: set<Transaction>)
    requires Tight(choices, done, m, owners, txs)
    requires Closed(choices, m, seen) && (o in choices ==> choices[o] <= seen)
    ensures exists owners', txs' :: Tight(choices, done + {o}, m, owners', txs')
  {
    ShiftedCovers(choices, done, m, owners, txs, o, seen);
    ShiftedSize(choices, done, m, owners, txs, seen);
    TightShift(choices, done, m, owners, txs, o, owners - OwnersAt(m, seen), txs + seen);
    hide Tight;
  }

  lemma {:induction false} OnePerKey(m: Assignment, keys: set<Transaction>, owners: set<Owner>)
    requires Injective(m) && keys <= m.Keys && forall o :: o in owners ==> exists t :: t in keys && m[t] == o
    ensures |owners| <= |keys|
    decreases |owners|
  {
    if owners != {} {
      var o :| o in owners;
      var t :| t in keys && m[t] == o;
      forall p | p in owners - {o} ensures exists s :: s in keys - {t} && m[s] == p {
        var s :| s in keys && m[s] == p;
        assert s in keys - {t};
      }
      OnePerKey(m, keys - {t}, owners - {o});
    }
  }

  // ---- the search ----

  /** What a failed search for `owner` leaves behind in `seen`. */
  ghost predicate Exhausted(choices: Choices, m: Assignment, owner: Owner, before: set<Transaction>,
                            seen: set<Transaction>)
    requires owner in choices
  {
    && before <= seen && seen - before <= m.Keys && choices[owner] <= seen
    && forall t :: t in seen - before ==> m[t] in choices && choices[m[t]] <= seen
  }

  /** One more transaction is assigned, `owner` has gained one, and assignments at `before` stand. */
  ghost predicate Augmented(choices: Choices, prior: Assignment, before: set<Transaction>, owner: Owner,
                            m: Assignment) {
    && Uses(choices, m) && prior.Keys <= m.Keys && |m| == |prior| + 1
    && (forall t :: t in before && t in prior ==> m[t] == prior[t])
    && m.Values <= prior.Values + {owner}
    && InjectiveOff(prior, owner, m)
  }

  /** Distinct owners, once the transactions `owner` held before are set aside. */
  ghost predicate InjectiveOff(prior: Assignment, owner: Owner, m: Assignment) {
    forall s, t :: s in m && t in m && s != t && !Held(prior, owner, s) && !Held(prior, owner, t) ==> m[s] != m[t]
  }

  ghost predicate Held(m: Assignment, owner: Owner, t: Transaction) {
    t in m && m[t] == owner
  }

  lemma PutUses(choices: Choices, m: Assignment, t: Transaction, owner: Owner)
    requires Uses(choices, m) && owner in choices && t in choices[owner]
    ensures Uses(choices, m[t := owner]) && m[t := owner].Values <= m.Values + {owner}
  {}

  lemma PutSize(m: Assignment, t: Transaction, owner: Owner)
    ensures |m[t := owner]| == if t in m then |m| else |m| + 1
  {
    assert m[t := owner].Keys == m.Keys + {t};
  }

  lemma FreeInjective(m: Assignment, t: Transaction, owner: Owner)
    requires Injective(m) && t !in m
    ensures InjectiveOff(m, owner, m[t := owner])
  {}

  lemma OverInjective(m: Assignment, before: set<Transaction>, owner: Owner, t: Transaction, m': Assignment)
    requires t in m && t !in before && m'.Values <= m.Values + {m[t]} && t in m' && m'[t] == m[t]
    requires forall s :: Held(m, owner, s) ==> s in before && s in m' && m'[s] == owner
    requires Injective(m) && InjectiveOff(m, m[t], m')
    ensures InjectiveOff(m, owner, m'[t := owner])
  {
    hide Injective;
    assert !Held(m, owner, t);
    forall s | s in m' && s != t && !Held(m, owner, s) ensures m'[s] != owner && !Held(m, m[t], s) {
      hide InjectiveOff;
      NotOwner(m, owner, t, m', s);
      SoleHolder(m, t, s);
    }
  }

  lemma SoleHolder(m: Assignment, t: Transaction, s: Transaction)
    requires Injective(m) && t in m && s != t
    ensures !Held(m, m[t], s)
  {}

  lemma NotOwner(m: Assignment, owner: Owner, t: Transaction, m': Assignment, s: Transaction)
    requires t in m && m'.Values <= m.Values + {m[t]} && s in m' && s != t && !Held(m, owner, s)
    requires !Held(m, owner, t) && Injective(m) && InjectiveOff(m, m[t], m')
    requires forall x :: Held(m, owner, x) ==> x in m' && m'[x] == owner
    ensures m'[s] != owner
  {
    hide Injective;
    if m'[s] == owner {
      assert owner in m'.Values && owner in m.Values;
      var x :| x in m && m[x] == owner;
      assert Held(m, owner, x);
      SoleHolder(m, t, s);
      SoleHolder(m, t, x);
    }
  }

  lemma TakesFree(choices: Choices, m: Assignment, before: set<Transaction>, owner: Owner, t: Transaction)
    requires IsMatching(choices, m) && owner in choices && t in choices[owner] && t !in before && t !in m
    ensures Augmented(choices, m, before, owner, m[t := owner])
  {
    hide Injective, Uses, InjectiveOff;
    PutUses(choices, m, t, owner);
    PutSize(m, t, owner);
    FreeInjective(m, t, owner);
  }

  lemma TakesOver(choices: Choices, m: Assignment, before: set<Transaction>, owner: Owner, t: Transaction,
                  seen: set<Transaction>, m': Assignment)
    requires IsMatching(choices, m) && owner in choices && t in choices[owner]
    requires t !in before && t in m && t in seen && before <= seen && forall s :: Held(m, owner, s) ==> s in before
    requires Augmented(choices, m, seen, m[t], m')
    ensures Augmented(choices, m, before, owner, m'[t := owner])
  {
    hide Injective, Uses, InjectiveOff;
    PutUses(choices, m', t, owner);
    PutSize(m', t, owner);
    assert m'.Values <= m.Values by { assert m[t] in m.Values; }
    OverInjective(m, before, owner, t, m');
  }

  /** The nested search of the source, with its two shared variables as fields. */
  class Matcher {
    const choices: Choices
    var matched: Assignment
    var seen: set<Transaction>

    constructor (choices: Choices)
      ensures this.choices == choices && matched == map[] && seen == {}
    {
      this.choices := choices;
      matched := map[];
      seen := {};
    }

    /** Gives `owner` a transaction not yet seen, reassigning other owners where that frees one. */
    method Assign(owner: Owner) returns (ok: bool)
      requires owner in choices && IsMatching(choices, matched) && seen <= AllTransactions(choices)
      requires forall t :: Held(matched, owner, t) ==> t in seen
      modifies this`matched, this`seen
      ensures old(seen) <= seen <= AllTransactions(choices)
      ensures ok ==> Augmented(choices, old(matched), old(seen), owner, matched)
      ensures !ok ==> matched == old(matched) && Exhausted(choices, matched, owner, old(seen), seen)
      decreases AllTransactions(choices) - seen
    {
      hide Augmented, IsMatching, InjectiveOff, Held;
      var todo := choices[owner];
      ghost var m, before := matched, seen;
      while todo != {}
        invariant todo <= choices[owner] <= todo + seen
        invariant before <= seen <= AllTransactions(choices)
        invariant matched == m && seen - before <= m.Keys
        invariant forall t :: t in seen - before ==> m[t] in choices && choices[m[t]] <= seen
      {
        var t :| t in todo;
        todo := todo - {t};
        if t !in seen {
          seen := seen + {t};
          if t !in matched {
            TakesFree(choices, m, before, owner, t);
            matched := matched[t := owner];
            return true;
          }
          OwnerChose(choices, m, t);
          OnlyHolder(choices, m, t, seen);
          ghost var reached := seen;
          var moved := Assign(matched[t]);
          if moved {
            TakesOver(choices, m, before, owner, t, reached, matched);
            matched := matched[t := owner];
            return true;
          }
        }
      }
      return false;
    }
  }

  lemma OwnerChose(choices: Choices, m: Assignment, t: Transaction)
    requires IsMatching(choices, m) && t in m
    ensures m[t] in choices && t in choices[m[t]]
  {}

  lemma OnlyHolder(choices: Choices, m: Assignment, t: Transaction, seen: set<Transaction>)
    requires IsMatching(choices, m) && t in m && t in seen
    ensures forall s :: Held(m, m[t], s) ==> s in seen
  {}

  // ---- trying every owner once ----

  ghost predicate HasMatching(choices: Choices, size: nat) {
    exists m :: IsMatching(choices, m) && |m| == size
  }

  ghost predicate IsMaximum(choices: Choices, size: nat) {
    HasMatching(choices, size) && forall m :: IsMatching(choices, m) ==> |m| <= size
  }

  ghost predicate Certified(choices: Choices, done: set<Owner>, m: Assignment) {
    exists owners, txs :: Tight(choices, done, m, owners, txs)
  }

  lemma SuccessCertifies(choices: Choices, done: set<Owner>, m: Assignment, owner: Owner, m': Assignment)
    requires Certified(choices, done, m) && owner !in done && Augmented(choices, m, {}, owner, m')
    ensures Certified(choices, done + {owner}, m')
  {
    var owners, txs :| Tight(choices, done, m, owners, txs);
    GrownIsInjective(choices, done, m, owner, m');
    GrownCover(choices, done, owners, txs, owner);
    hide Uses, Covers, Injective, InjectiveOff;
    assert |owners + {owner}| == |owners| + 1;
    assert Tight(choices, done + {owner}, m', owners + {owner}, txs);
  }

  lemma GrownIsInjective(choices: Choices, done: set<Owner>, m: Assignment, owner: Owner, m': Assignment)
    requires m.Values <= done && owner !in done && InjectiveOff(m, owner, m')
    ensures Injective(m')
  {
    forall s ensures !Held(m, owner, s) {
      if s in m { assert m[s] in m.Values; }
    }
  }

  lemma GrownCover(choices: Choices, done: set<Owner>, owners: set<Owner>, txs: set<Transaction>, owner: Owner)
    requires Covers(choices, done, owners, txs)
    ensures Covers(choices, done + {owner}, owners + {owner}, txs)
  {}

  lemma ExhaustedCertifies(choices: Choices, done: set<Owner>, m: Assignment, owner: Owner, seen: set<Transaction>)
    requires Certified(choices, done, m) && owner in choices && Exhausted(choices, m, owner, {}, seen)
    ensures Certified(choices, done + {owner}, m)
  {
    var owners, txs :| Tight(choices, done, m, owners, txs);
    assert Closed(choices, m, seen) by { assert seen == seen - {}; }
    hide Tight, Closed;
    FailureCertifies(choices, done, m, owners, txs, owner, seen);
  }

  lemma CertifiedIsMaximum(choices: Choices, m: Assignment)
    requires Certified(choices, choices.Keys, m)
    ensures IsMaximum(choices, |m|)
  {
    var owners, txs :| Tight(choices, choices.Keys, m, owners, txs);
    forall n | IsMatching(choices, n) ensures |n| <= |m| {
      WeakDuality(choices, choices.Keys, n, owners, txs);
    }
  }

  lemma CertifiedIsMatching(choices: Choices, done: set<Owner>, m: Assignment)
    requires Certified(choices, done, m)
    ensures IsMatching(choices, m) && m.Values <= done
  {}

  lemma EmptyCertified(choices: Choices)
    ensures Certified(choices, {}, map[])
  {
    assert Tight(choices, {}, map[], {}, {});
  }

  /**
   Tries the owners one by one and stops at three: the count is the size of a maximum matching,
   cut off at three.
   */
  method CountDistinct(choices: Choices) returns (count: nat)
    ensures count <= 3 && HasMatching(choices, count)
    ensures count < 3 ==> IsMaximum(choices, count)
  {
    hide *;
    var matcher := new Matcher(choices);
    var todo := choices.Keys;
    EmptyCertified(choices);
    CertifiedIsMatching(choices, {}, matcher.matched);
    assert choices.Keys - todo == {};
    while todo != {} && |matcher.matched| < 3
      invariant todo <= choices.Keys && |matcher.matched| <= 3
      invariant Certified(choices, choices.Keys - todo, matcher.matched)
      invariant IsMatching(choices, matcher.matched)
      decreases todo
    {
      var owner :| owner in todo;
      ghost var done := choices.Keys - todo;
      todo := todo - {owner};
      assert done + {owner} == choices.Keys - todo;
      CertifiedIsMatching(choices, done, matcher.matched);
      matcher.seen := {};
      ghost var m := matcher.matched;
      HeldByDone(m, done, owner);
      var ok := matcher.Assign(owner);
      if ok {
        SuccessCertifies(choices, done, m, owner, matcher.matched);
        AugmentedSize(choices, m, {}, owner, matcher.matched);
      } else {
        ExhaustedCertifies(choices, done, m, owner, matcher.seen);
      }
      CertifiedIsMatching(choices, done + {owner}, matcher.matched);
    }
    count := |matcher.matched|;
    SizeWitness(choices, matcher.matched);
    if count < 3 {
      assert choices.Keys - todo == choices.Keys;
      CertifiedIsMaximum(choices, matcher.matched);
    }
  }

  lemma HeldByDone(m: Assignment, done: set<Owner>, owner: Owner)
    requires m.Values <= done && owner !in done
    ensures forall t :: !Held(m, owner, t)
  {
    forall t ensures !Held(m, owner, t) {
      if t in m { assert m[t] in m.Values; }
    }
  }

  lemma AugmentedSize(choices: Choices, prior: Assignment, before: set<Transaction>, owner: Owner, m: Assignment)
    requires Augmented(choices, prior, before, owner, m)
    ensures |m| == |prior| + 1
  {}

  lemma SizeWitness(choices: Choices, m: Assignment)
    requires IsMatching(choices, m)
    ensures HasMatching(choices, |m|)
  {}

  /** The result is the smaller of three and the size of a maximum matching, which always exists. */
  lemma CountIsCappedMaximum(choices: Choices, count: nat)
    requires count <= 3 && HasMatching(choices, count) && (count < 3 ==> IsMaximum(choices, count))
    ensures exists size: nat :: IsMaximum(choices, size) && count == if size < 3 then size else 3
  {
    var size := MaximumFrom(choices, count);
    if count < 3 {
      assert IsMaximum(choices, count);
    }
  }

  lemma {:induction false} MaximumFrom(choices: Choices, least: nat) returns (size: nat)
    requires HasMatching(choices, least)
    ensures least <= size && IsMaximum(choices, size)
    decreases |choices| - least
  {
    var m :| IsMatching(choices, m) && |m| == least;
    assert |m| <= |choices| by { WeakDuality(choices, choices.Keys, m, choices.Keys, {}); }
    if IsMaximum(choices, least) {
      size := least;
    } else {
      var n :| IsMatching(choices, n) && |n| > least;
      assert |n| <= |choices| by { WeakDuality(choices, choices.Keys, n, choices.Keys, {}); }
      SizeWitness(choices, n);
      size := MaximumFrom(choices, |n|);
    }
  }
}
