/** The EVM twin of the lineage ledger: known units of mixed balances. */
module EvmPosition {
  // Replays (`position_evidence.py`) move only the guaranteed part of a mixed balance, sound for
  // every way fungible units may have mixed.

  import opened Wrappers
  import opened MapTotals

  datatype Wallet = Wallet(id: nat)

  datatype Node = Node(balance: nat, known: nat)

  /** A transfer of the token; `sale` when its receipt verifies a sale into the pool. */
  datatype Transfer = Transfer(block: nat, tx: nat, index: nat, sender: Wallet, recipient: Wallet, amount: nat,
                               sale: bool)

  datatype Key = Key(tx: nat, index: nat)

  datatype Position = Position(bought: nat, sold: nat, originals: set<Wallet>, nodes: map<Wallet, Node>)

  function KeyOf(t: Transfer): Key {
    Key(t.tx, t.index)
  }

  function KnownOf(n: Node): nat {
    n.known
  }

  // ---- chain order ----

  predicate Before(a: Transfer, b: Transfer) {
    a.block < b.block || (a.block == b.block && a.index < b.index)
  }

  predicate InOrder(ts: seq<Transfer>) {
    forall i, j :: 0 <= i < j < |ts| ==> !Before(ts[j], ts[i])
  }

  /** The transfers of one place in the chain, in the order they are listed. */
  function At(ts: seq<Transfer>, block: nat, index: nat): seq<Transfer> {
    if ts == [] then []
    else
      var t := ts[|ts| - 1];
      At(ts[..|ts| - 1], block, index) + if t.block == block && t.index == index then [t] else []
  }

  function Insert(ts: seq<Transfer>, t: Transfer): seq<Transfer> {
    if ts == [] || !Before(t, ts[|ts| - 1]) then ts + [t] else Insert(ts[..|ts| - 1], t) + [ts[|ts| - 1]]
  }

  /** The transfers sorted by block and index; transfers of one place keep their order. */
  function Chronological(ts: seq<Transfer>): seq<Transfer> {
    if ts == [] then [] else Insert(Chronological(ts[..|ts| - 1]), ts[|ts| - 1])
  }

  lemma {:induction false} InsertMembers(ts: seq<Transfer>, t: Transfer)
    ensures forall s :: s in Insert(ts, t) <==> s in ts || s == t
    decreases |ts|
  {
    if ts != [] && Before(t, ts[|ts| - 1]) {
      var n := |ts| - 1;
      InsertMembers(ts[..n], t);
      assert ts == ts[..n] + [ts[n]];
    }
  }

  lemma {:induction false} InsertInOrder(ts: seq<Transfer>, t: Transfer)
    requires InOrder(ts)
    ensures InOrder(Insert(ts, t))
    decreases |ts|
  {
    if ts != [] && Before(t, ts[|ts| - 1]) {
      var n, last := |ts| - 1, ts[|ts| - 1];
      var rest := Insert(ts[..n], t);
      InsertInOrder(ts[..n], t);
      InsertMembers(ts[..n], t);
      hide Insert;
      forall k | 0 <= k < |rest| ensures !Before(last, rest[k]) {
        assert rest[k] in rest;
      }
    } else {
      InOrderOnTop(ts, t);
    }
  }

  lemma InOrderOnTop(ts: seq<Transfer>, t: Transfer)
    requires InOrder(ts) && (ts != [] ==> !Before(t, ts[|ts| - 1]))
    ensures InOrder(ts + [t])
  {}

  lemma AtOnTop(ts: seq<Transfer>, t: Transfer, block: nat, index: nat)
    ensures At(ts + [t], block, index) == At(ts, block, index) + if t.block == block && t.index == index then [t]
            else []
  {
    assert (ts + [t])[..|ts|] == ts;
  }

  /** Two transfers of different places may be listed either way. */
  lemma AtSwaps(ts: seq<Transfer>, a: Transfer, b: Transfer, block: nat, index: nat)
    requires Before(a, b)
    ensures At(ts + [a] + [b], block, index) == At(ts + [b] + [a], block, index)
  {
    AtOnTop(ts, a, block, index);
    AtOnTop(ts, b, block, index);
    AtOnTop(ts + [a], b, block, index);
    AtOnTop(ts + [b], a, block, index);
    hide At;
    assert !(a.block == block && a.index == index) || !(b.block == block && b.index == index);
  }

  lemma {:induction false} InsertAt(ts: seq<Transfer>, t: Transfer, block: nat, index: nat)
    ensures At(Insert(ts, t), block, index) == At(ts + [t], block, index)
    decreases |ts|
  {
    if ts != [] && Before(t, ts[|ts| - 1]) {
      var n, last := |ts| - 1, ts[|ts| - 1];
      assert Insert(ts, t) == Insert(ts[..n], t) + [last] && ts == ts[..n] + [last];
      AtSwaps(ts[..n], t, last, block, index);
      InsertAt(ts[..n], t, block, index);
      AtOnTop(Insert(ts[..n], t), last, block, index);
      AtOnTop(ts[..n] + [t], last, block, index);
      hide At, Insert, Before;
    }
  }

  /** Sorting orders the transfers and, place by place, loses, adds and swaps none. */
  lemma {:induction false} ChronologicalIsStable(ts: seq<Transfer>, block: nat, index: nat)
    ensures InOrder(Chronological(ts)) && At(Chronological(ts), block, index) == At(ts, block, index)
    decreases |ts|
  {
    if ts != [] {
      var before := Chronological(ts[..|ts| - 1]);
      ChronologicalIsStable(ts[..|ts| - 1], block, index);
      InsertInOrder(before, ts[|ts| - 1]);
      InsertAt(before, ts[|ts| - 1], block, index);
      AtOnTop(before, ts[|ts| - 1], block, index);
    }
  }

  // ---- one transfer ----

  datatype Ledger = Ledger(nodes: map<Wallet, Node>, sold: nat)

  /** The part of a transfer that must be known units, however the balance is mixed. */
  function Guaranteed(l: Ledger, t: Transfer): nat {
    if t.sender !in l.nodes then 0
    else
      var n := l.nodes[t.sender];
      if t.amount + n.known > n.balance then t.amount + n.known - n.balance else 0
  }

  function Sent(l: Ledger, t: Transfer): map<Wallet, Node> {
    if t.sender !in l.nodes then l.nodes
    else
      var n := l.nodes[t.sender];
      l.nodes[t.sender := Node(if n.balance < t.amount then 0 else n.balance - t.amount,
                               if n.known < t.amount then 0 else n.known - t.amount)]
  }

  /** One transfer, or nothing when it does not reconcile. */
  function Move(l: Ledger, t: Transfer): Option<Ledger> {
    if t.sender == t.recipient then Some(l)
    else if t.sender in l.nodes && t.amount > l.nodes[t.sender].balance then None
    else
      var nodes, part := Sent(l, t), Guaranteed(l, t);
      if t.recipient in nodes then
        var n := nodes[t.recipient];
        Some(Ledger(nodes[t.recipient := Node(n.balance + t.amount, n.known + part)], l.sold))
      else Some(Ledger(nodes, l.sold + if t.sale then part else 0))
  }

  /** The transfers in order, repeated keys read once. */
  function Once(ts: seq<Transfer>): seq<Transfer> {
    if ts == [] then []
    else
      var rest, t := Once(ts[..|ts| - 1]), ts[|ts| - 1];
      if exists s :: s in ts[..|ts| - 1] && KeyOf(s) == KeyOf(t) then rest else rest + [t]
  }

  function Moves(l: Ledger, ts: seq<Transfer>): Option<Ledger> {
    if ts == [] then Some(l)
    else
      match Moves(l, ts[..|ts| - 1])
      case None => None
      case Some(before) => Move(before, ts[|ts| - 1])
  }

  function Reconciles(nodes: map<Wallet, Node>, balances: map<Wallet, nat>): bool {
    forall w :: w in nodes ==> w in balances && nodes[w].balance == balances[w]
  }

  ghost function Unattributed(p: Position): int {
    p.bought - Total(p.nodes, KnownOf) - p.sold
  }

  /** `replay_position`, over the nodes a run has decided to track. */
  function Replayed(previous: Position, ts: seq<Transfer>, nodes: map<Wallet, Node>,
                    balances: map<Wallet, nat>): Option<Position> {
    match Moves(Ledger(nodes, previous.sold), Once(ts))
    case None => None
    case Some(l) => if Reconciles(l.nodes, balances) then Some(previous.(sold := l.sold, nodes := l.nodes)) else None
  }

  /** No transfer before this one has its key. */
  ghost predicate IsFirst(ts: seq<Transfer>, i: nat)
    requires i < |ts|
  {
    forall s :: s in ts[..i] ==> KeyOf(s) != KeyOf(ts[i])
  }

  /** The places of the first transfer of each key, and no others, in order. */
  ghost predicate Firsts(ts: seq<Transfer>, at: seq<nat>) {
    && (forall k :: 0 <= k < |at| ==> at[k] < |ts| && IsFirst(ts, at[k]))
    && (forall j, k :: 0 <= j < k < |at| ==> at[j] < at[k])
    && forall i :: 0 <= i < |ts| && IsFirst(ts, i) ==> i in at
  }

  lemma NoFirsts()
    ensures Firsts([], [])
  {}

  lemma FirstsMore(ts: seq<Transfer>, t: Transfer, at: seq<nat>)
    requires Firsts(ts, at)
    ensures Firsts(ts + [t], if exists s :: s in ts && KeyOf(s) == KeyOf(t) then at else at + [|ts|])
  {
    var more := ts + [t];
    assert more[..|ts|] == ts;
    forall i | 0 <= i < |ts| ensures IsFirst(more, i) <==> IsFirst(ts, i) {
      assert more[..i] == ts[..i];
    }
  }

  /** Reading repeated keys once keeps exactly the first transfer of each. */
  lemma {:induction false} OnceIsFirsts(ts: seq<Transfer>) returns (at: seq<nat>)
    ensures Firsts(ts, at) && |Once(ts)| == |at|
    ensures forall k :: 0 <= k < |at| ==> at[k] < |ts| && Once(ts)[k] == ts[at[k]]
    decreases |ts|
  {
    hide Firsts, KeyOf;
    at := [];
    if ts == [] {
      NoFirsts();
    } else {
      var n, rest := |ts| - 1, ts[..|ts| - 1];
      var before := OnceIsFirsts(rest);
      assert ts == rest + [ts[n]];
      FirstsMore(rest, ts[n], before);
      at := if exists s :: s in rest && KeyOf(s) == KeyOf(ts[n]) then before else before + [n];
    }
  }

  // ---- the loop ----

  lemma OnceStep(ts: seq<Transfer>, i: nat)
    requires i < |ts|
    ensures Once(ts[..i + 1])
         == if exists s :: s in ts[..i] && KeyOf(s) == KeyOf(ts[i]) then Once(ts[..i]) else Once(ts[..i]) + [ts[i]]
  {
    assert ts[..i + 1][..i] == ts[..i];
  }

  lemma MovesStep(l: Ledger, ts: seq<Transfer>, t: Transfer)
    ensures Moves(l, ts + [t]) == match Moves(l, ts) case None => None case Some(before) => Move(before, t)
  {
    assert (ts + [t])[..|ts|] == ts;
  }

  lemma SeenStep(ts: seq<Transfer>, i: nat, seen: set<Key>)
    requires i < |ts| && forall k :: k in seen <==> exists s :: s in ts[..i] && KeyOf(s) == k
    ensures forall k :: k in seen + {KeyOf(ts[i])} <==> exists s :: s in ts[..i + 1] && KeyOf(s) == k
  {
    assert ts[..i + 1] == ts[..i] + [ts[i]];
  }

  method Replay(previous: Position, transfers: seq<Transfer>, nodes: map<Wallet, Node>, balances: map<Wallet, nat>)
    returns (r: Option<Position>)
    ensures r == Replayed(previous, Chronological(transfers), nodes, balances)
  {
    var ts := Chronological(transfers);
    hide Chronological;
    hide Move, Reconciles, Once, Moves;
    var state, sold, seen: set<Key> := nodes, previous.sold, {};
    ghost var start := Ledger(nodes, previous.sold);
    assert Moves(start, Once(ts[..0])) == Some(Ledger(state, sold)) by { NothingMoved(start, ts); }
    for i := 0 to |ts|
      invariant Moves(start, Once(ts[..i])) == Some(Ledger(state, sold))
      invariant forall k :: k in seen <==> exists s :: s in ts[..i] && KeyOf(s) == k
    {
      var t := ts[i];
      OnceStep(ts, i);
      SeenStep(ts, i, seen);
      if KeyOf(t) in seen {
        assert seen + {KeyOf(t)} == seen;
        continue;
      }
      seen := seen + {KeyOf(t)};
      MovesStep(start, Once(ts[..i]), t);
      var moved := Apply(Ledger(state, sold), t);
      if moved.None? {
        Stuck(start, ts, i + 1);
        return None;
      }
      state, sold := moved.value.nodes, moved.value.sold;
    }
    assert ts[..|ts|] == ts;
    return if Reconciles(state, balances) then Some(previous.(sold := sold, nodes := state)) else None;
  }

  lemma NothingMoved(l: Ledger, ts: seq<Transfer>)
    ensures Moves(l, Once(ts[..0])) == Some(l)
  {}

  /** One event of the loop, node by node. */
  method Apply(l: Ledger, t: Transfer) returns (r: Option<Ledger>)
    ensures r == Move(l, t)
  {
    if t.sender == t.recipient {
      return Some(l);
    }
    var nodes, sold, guaranteed: nat := l.nodes, l.sold, 0;
    if t.sender in nodes {
      var node := nodes[t.sender];
      if t.amount > node.balance {
        return None;
      }
      guaranteed := if t.amount + node.known > node.balance then t.amount + node.known - node.balance else 0;
      nodes := nodes[t.sender := Node(node.balance - t.amount, if node.known < t.amount then 0
                                      else node.known - t.amount)];
    }
    if t.recipient in nodes {
      var node := nodes[t.recipient];
      nodes := nodes[t.recipient := Node(node.balance + t.amount, node.known + guaranteed)];
    } else if t.sale {
      sold := sold + guaranteed;
    }
    return Some(Ledger(nodes, sold));
  }

  lemma {:induction false} Stuck(l: Ledger, ts: seq<Transfer>, n: nat)
    requires n <= |ts| && Moves(l, Once(ts[..n])) == None
    ensures Moves(l, Once(ts)) == None
    decreases |ts|
  {
    hide Move;
    if n < |ts| {
      var rest := ts[..|ts| - 1];
      assert rest[..n] == ts[..n];
      Stuck(l, rest, n);
      MovesStep(l, Once(rest), ts[|ts| - 1]);
    } else {
      assert ts[..n] == ts;
    }
  }

  // ---- when a replay succeeds ----

  /** What a wallet received less what it sent to others. */
  function Flow(ts: seq<Transfer>, a: Wallet): int {
    if ts == [] then 0
    else
      var t := ts[|ts| - 1];
      Flow(ts[..|ts| - 1], a)
      + (if t.sender == t.recipient then 0
         else (if t.recipient == a then t.amount else 0) - (if t.sender == a then t.amount else 0))
  }

  /** No tracked wallet sends more than it has at that point. */
  ghost predicate NeverOverdrawn(nodes: map<Wallet, Node>, ts: seq<Transfer>) {
    forall k :: 0 <= k < |ts| && ts[k].sender != ts[k].recipient && ts[k].sender in nodes ==>
      ts[k].amount <= nodes[ts[k].sender].balance + Flow(ts[..k], ts[k].sender)
  }

  /** The transfers reconcile exactly when no tracked wallet is overdrawn; it then has what it had and got. */
  lemma {:induction false} MovesIff(l: Ledger, ts: seq<Transfer>)
    ensures Moves(l, ts).Some? <==> NeverOverdrawn(l.nodes, ts)
    ensures Moves(l, ts).Some? ==>
              var r := Moves(l, ts).value;
              r.nodes.Keys == l.nodes.Keys
              && forall a :: a in l.nodes ==> r.nodes[a].balance == l.nodes[a].balance + Flow(ts, a)
    decreases |ts|
  {
    if ts != [] {
      var n, before := |ts| - 1, ts[..|ts| - 1];
      MovesIff(l, before);
      OverdrawnStep(l.nodes, ts);
      hide NeverOverdrawn;
    }
  }

  lemma OverdrawnStep(nodes: map<Wallet, Node>, ts: seq<Transfer>)
    requires ts != []
    ensures var n, t := |ts| - 1, ts[|ts| - 1];
            NeverOverdrawn(nodes, ts) <==>
            NeverOverdrawn(nodes, ts[..n])
            && (t.sender != t.recipient && t.sender in nodes ==>
                  t.amount <= nodes[t.sender].balance + Flow(ts[..n], t.sender))
  {
    var n := |ts| - 1;
    hide Flow;
    assert forall k :: 0 <= k <= n ==> ts[..n][..k] == ts[..k];
    assert forall k :: 0 <= k < n ==> ts[..n][k] == ts[k];
    if NeverOverdrawn(nodes, ts) {
      forall k | 0 <= k < n && ts[..n][k].sender != ts[..n][k].recipient && ts[..n][k].sender in nodes
        ensures ts[..n][k].amount <= nodes[ts[..n][k].sender].balance + Flow(ts[..n][..k], ts[..n][k].sender)
      {
        assert ts[..n][k] == ts[k];
      }
    }
  }

  /** A replay succeeds exactly when nothing is overdrawn and every tracked wallet ends with its observed balance. */
  lemma ReplayIff(previous: Position, ts: seq<Transfer>, nodes: map<Wallet, Node>, balances: map<Wallet, nat>)
    ensures Replayed(previous, ts, nodes, balances).Some? <==>
            NeverOverdrawn(nodes, Once(ts))
            && forall a :: a in nodes ==> a in balances && balances[a] == nodes[a].balance + Flow(Once(ts), a)
  {
    MovesIff(Ledger(nodes, previous.sold), Once(ts));
    hide Moves, Once, NeverOverdrawn, Flow;
  }

  // ---- conservation ----

  ghost predicate NodesOk(nodes: map<Wallet, Node>) {
    forall w :: w in nodes ==> nodes[w].known <= nodes[w].balance
  }

  /** Known units held and sold together. */
  ghost function Claimed(l: Ledger): nat {
    Total(l.nodes, KnownOf) + l.sold
  }

  /** A transfer never creates known units, and never takes back a sale. */
  lemma MoveKeeps(l: Ledger, t: Transfer)
    requires NodesOk(l.nodes) && Move(l, t).Some?
    ensures var r := Move(l, t).value;
            && NodesOk(r.nodes) && r.nodes.Keys == l.nodes.Keys && Claimed(r) <= Claimed(l) && r.sold >= l.sold
  {
    hide Total;
    if t.sender != t.recipient {
      var nodes, r := Sent(l, t), Move(l, t).value;
      if t.sender in l.nodes {
        TotalPut(l.nodes, KnownOf, t.sender, nodes[t.sender]);
      }
      if t.recipient in nodes {
        TotalPut(nodes, KnownOf, t.recipient, r.nodes[t.recipient]);
      }
    }
  }

  lemma {:induction false} MovesKeep(l: Ledger, ts: seq<Transfer>)
    requires NodesOk(l.nodes) && Moves(l, ts).Some?
    ensures var r := Moves(l, ts).value;
            && NodesOk(r.nodes) && r.nodes.Keys == l.nodes.Keys && Claimed(r) <= Claimed(l) && r.sold >= l.sold
    decreases |ts|
  {
    hide NodesOk, Claimed, Move;
    if ts != [] {
      MovesKeep(l, ts[..|ts| - 1]);
      MoveKeeps(Moves(l, ts[..|ts| - 1]).value, ts[|ts| - 1]);
    }
  }

  /** What a position must satisfy for its summary to be possible. */
  ghost predicate Good(p: Position) {
    NodesOk(p.nodes) && Unattributed(p) >= 0
  }

  /** Tracked nodes for the next replay: kept as they were, dropped, or added with nothing known. */
  ghost predicate Continues(p: Position, nodes: map<Wallet, Node>) {
    forall w :: w in nodes ==> (w in p.nodes && nodes[w] == p.nodes[w]) || (w !in p.nodes && nodes[w].known == 0)
  }

  lemma ContinuesKnown(p: Position, nodes: map<Wallet, Node>)
    requires Continues(p, nodes)
    ensures Total(nodes, KnownOf) <= Total(p.nodes, KnownOf)
    ensures NodesOk(p.nodes) ==> NodesOk(nodes)
  {
    TotalDominated(nodes, KnownOf, p.nodes, KnownOf);
  }

  /** A replay keeps the accounting: sales never shrink, and neither does the unknown share. */
  lemma ReplayKeeps(previous: Position, ts: seq<Transfer>, nodes: map<Wallet, Node>, balances: map<Wallet, nat>)
    requires Good(previous) && Continues(previous, nodes) && Replayed(previous, ts, nodes, balances).Some?
    ensures var r := Replayed(previous, ts, nodes, balances).value;
            && Good(r) && r.sold >= previous.sold && Unattributed(r) >= Unattributed(previous)
            && forall w :: w in r.nodes ==> w in balances && r.nodes[w].balance == balances[w]
  {
    hide Moves, Once;
    ContinuesKnown(previous, nodes);
    MovesKeep(Ledger(nodes, previous.sold), Once(ts));
    hide Total, NodesOk;
  }

  // ---- seeds and summary ----

  datatype Bought = Bought(wallet: Wallet, bought: nat, balance: nat, retained: nat)

  function BoughtSum(ws: seq<Bought>): nat {
    if ws == [] then 0 else BoughtSum(ws[..|ws| - 1]) + ws[|ws| - 1].bought
  }

  function SeedNodes(ws: seq<Bought>): map<Wallet, Node> {
    if ws == [] then map[]
    else
      var w := ws[|ws| - 1];
      SeedNodes(ws[..|ws| - 1])[w.wallet := Node(w.balance, w.retained)]
  }

  function Seed(ws: seq<Bought>): Position {
    Position(BoughtSum(ws), 0, set w | w in ws :: w.wallet, SeedNodes(ws))
  }

  /** A wallet's retained lower bound is within what it bought and what it holds. */
  ghost predicate SeedsOk(ws: seq<Bought>) {
    forall i :: 0 <= i < |ws| ==> ws[i].retained <= ws[i].bought && ws[i].retained <= ws[i].balance
  }

  lemma {:induction false} SeedIsGood(ws: seq<Bought>)
    requires SeedsOk(ws)
    ensures Good(Seed(ws))
    decreases |ws|
  {
    hide Total;
    if ws == [] {
      EmptyTotal();
    } else {
      var rest, w := ws[..|ws| - 1], ws[|ws| - 1];
      SeedIsGood(rest);
      TotalPut(SeedNodes(rest), KnownOf, w.wallet, Node(w.balance, w.retained));
    }
  }

  /** Each wallet starts with its balance and its retained bound, as listed last. */
  lemma {:induction false} SeedIsExact(ws: seq<Bought>, i: nat)
    requires i < |ws| && forall j :: i < j < |ws| ==> ws[j].wallet != ws[i].wallet
    ensures ws[i].wallet in Seed(ws).originals && ws[i].wallet in Seed(ws).nodes
    ensures Seed(ws).nodes[ws[i].wallet] == Node(ws[i].balance, ws[i].retained)
    ensures Seed(ws).nodes.Keys == Seed(ws).originals && Seed(ws).sold == 0
    decreases |ws|
  {
    SeedKeys(ws);
    if i < |ws| - 1 {
      SeedIsExact(ws[..|ws| - 1], i);
    }
  }

  lemma {:induction false} SeedKeys(ws: seq<Bought>)
    ensures SeedNodes(ws).Keys == set w | w in ws :: w.wallet
    decreases |ws|
  {
    if ws != [] {
      SeedKeys(ws[..|ws| - 1]);
      assert ws == ws[..|ws| - 1] + [ws[|ws| - 1]];
    }
  }

  lemma EmptyTotal()
    ensures Total<Wallet, Node>(map[], KnownOf) == 0
  {}

  datatype Summary = Summary(original: nat, transferred: nat, sold: nat, unknown: nat)

  function Inside(nodes: map<Wallet, Node>, wallets: set<Wallet>): map<Wallet, Node> {
    map w | w in nodes && w in wallets :: nodes[w]
  }

  function Outside(nodes: map<Wallet, Node>, wallets: set<Wallet>): map<Wallet, Node> {
    map w | w in nodes && w !in wallets :: nodes[w]
  }

  lemma {:induction false} SplitTotal(nodes: map<Wallet, Node>, inside: set<Wallet>)
    ensures Total(Inside(nodes, inside), KnownOf) + Total(Outside(nodes, inside), KnownOf) == Total(nodes, KnownOf)
    decreases |nodes|
  {
    hide Total;
    var a, b := Inside(nodes, inside), Outside(nodes, inside);
    if nodes == map[] {
      assert a == map[] && b == map[];
      EmptyTotal();
    } else {
      var k :| k in nodes;
      var rest := nodes - {k};
      SplitTotal(rest, inside);
      TotalPick(nodes, KnownOf, k);
      if k in inside {
        TotalPick(a, KnownOf, k);
        assert a - {k} == Inside(rest, inside) && b == Outside(rest, inside);
      } else {
        TotalPick(b, KnownOf, k);
        assert b - {k} == Outside(rest, inside) && a == Inside(rest, inside);
      }
    }
  }

  /** `position_summary`: the four shares, or nothing when they exceed what was bought. */
  ghost function Summarized(p: Position): Option<Summary> {
    var original, moved := Total(Inside(p.nodes, p.originals), KnownOf), Total(Outside(p.nodes, p.originals), KnownOf);
    var unknown := p.bought - original - moved - p.sold;
    if unknown < 0 then None else Some(Summary(original, moved, p.sold, unknown))
  }

  /** The summary is possible exactly when the position claims no more than was bought. */
  lemma SummaryPossible(p: Position)
    ensures Summarized(p).Some? <==> Unattributed(p) >= 0
    ensures Summarized(p).Some? ==>
              var s := Summarized(p).value;
              s.original + s.transferred + s.sold + s.unknown == p.bought && s.unknown == Unattributed(p)
  {
    SplitTotal(p.nodes, p.originals);
    hide Total, Inside, Outside;
  }

  // ---- every way the units may have mixed ----

  /** How many purchased units each tracked wallet really holds, and how many were really sold. */
  datatype World = World(units: map<Wallet, nat>, sold: nat)

  /** `x` purchased units may be among those transferred to another: neither part of the balance runs short. */
  ghost predicate Possible(l: Ledger, w: World, t: Transfer, x: nat) {
    && x <= t.amount
    && (t.sender != t.recipient && t.sender in l.nodes && t.sender in w.units ==>
          x <= w.units[t.sender] && t.amount + w.units[t.sender] <= l.nodes[t.sender].balance + x)
  }

  function WorldMove(w: World, t: Transfer, x: nat): World {
    if t.sender == t.recipient then w
    else
      var sent := if t.sender in w.units && x <= w.units[t.sender] then w.units[t.sender := w.units[t.sender] - x]
          else w.units;
      if t.recipient in sent then World(sent[t.recipient := sent[t.recipient] + x], w.sold)
      else World(sent, w.sold + if t.sale then x else 0)
  }

  /** The ledger's claims hold in this world. */
  ghost predicate Sound(l: Ledger, w: World) {
    && w.units.Keys == l.nodes.Keys && l.sold <= w.sold
    && forall a :: a in l.nodes ==> l.nodes[a].known <= w.units[a] <= l.nodes[a].balance
  }

  lemma MoveSound(l: Ledger, w: World, t: Transfer, x: nat)
    requires Sound(l, w) && Move(l, t).Some? && Possible(l, w, t, x)
    ensures Sound(Move(l, t).value, WorldMove(w, t, x))
  {
    if t.sender != t.recipient {
      var nodes := Sent(l, t);
      var sent := if t.sender in w.units && x <= w.units[t.sender] then w.units[t.sender := w.units[t.sender] - x]
          else w.units;
      forall a | a in nodes ensures a in sent && nodes[a].known <= sent[a] <= nodes[a].balance {
        assert a in l.nodes;
      }
    }
  }

  /** A world that the ledger allows, and units that one transfer may move in it. */
  ghost predicate Allowed(l: Ledger, w: World, t: Transfer, x: nat) {
    Sound(l, w) && Possible(l, w, t, x)
  }

  /** Every wallet holds what is known of it and nothing more. */
  function LeastWorld(l: Ledger): World {
    World(map a | a in l.nodes :: l.nodes[a].known, l.sold)
  }

  /** Moving as little as possible, or from `a` as much as possible, shows the known amount of `a`. */
  lemma LeastReaches(l: Ledger, t: Transfer, a: Wallet) returns (x: nat)
    requires NodesOk(l.nodes) && Move(l, t).Some?
    ensures Allowed(l, LeastWorld(l), t, x)
    ensures var w, r := WorldMove(LeastWorld(l), t, x), Move(l, t).value;
            a in l.nodes ==> a in w.units && a in r.nodes && w.units[a] == r.nodes[a].known
  {
    x := if t.sender !in l.nodes then 0
         else if a == t.sender then Min(t.amount, l.nodes[a].known) else Guaranteed(l, t);
  }

  /** After a transfer the known amount of a wallet is the largest that is true in every mixing. */
  lemma KnownIsBest(l: Ledger, t: Transfer, a: Wallet, n: nat)
    requires NodesOk(l.nodes) && Move(l, t).Some? && a in l.nodes
    ensures a in Move(l, t).value.nodes
    ensures (forall w: World, x: nat :: Allowed(l, w, t, x) && a in WorldMove(w, t, x).units ==>
               n <= WorldMove(w, t, x).units[a])
            <==> n <= Move(l, t).value.nodes[a].known
  {
    var r := Move(l, t).value;
    var x := LeastReaches(l, t, a);
    hide Move, WorldMove, Possible, NodesOk, LeastWorld;
    forall w: World, y: nat | Allowed(l, w, t, y) && a in WorldMove(w, t, y).units
      ensures r.nodes[a].known <= WorldMove(w, t, y).units[a]
    {
      MoveSound(l, w, t, y);
    }
  }

  /** And so is what is known to be sold. */
  lemma SoldIsBest(l: Ledger, t: Transfer, n: nat)
    requires NodesOk(l.nodes) && Move(l, t).Some?
    ensures (forall w: World, x: nat :: Allowed(l, w, t, x) ==> n <= WorldMove(w, t, x).sold)
            <==> n <= Move(l, t).value.sold
  {
    var r := Move(l, t).value;
    var x := if t.sender in l.nodes then Guaranteed(l, t) else 0;
    assert Allowed(l, LeastWorld(l), t, x) && WorldMove(LeastWorld(l), t, x).sold == r.sold;
    hide Move, WorldMove, Possible, NodesOk, LeastWorld, Guaranteed;
    forall w: World, y: nat | Allowed(l, w, t, y) ensures r.sold <= WorldMove(w, t, y).sold {
      MoveSound(l, w, t, y);
    }
  }

  /** What some wallets, or all others, really hold. */
  ghost function HeldBy(units: map<Wallet, nat>, wallets: set<Wallet>, inside: bool): nat {
    Total(map a | a in units && (a in wallets <==> inside) :: units[a], Units)
  }

  /** The shares of a summary are true in every world, and reached in the one that holds what is known. */
  lemma SummaryTrue(p: Position, w: World)
    requires Sound(AsLedger(p), w) && Summarized(p).Some?
    ensures var s := Summarized(p).value;
            && s.original <= HeldBy(w.units, p.originals, true) && s.transferred <= HeldBy(w.units, p.originals, false)
            && s.sold <= w.sold
            && (w == LeastWorld(AsLedger(p)) ==>
                  s.original == HeldBy(w.units, p.originals, true)
                  && s.transferred == HeldBy(w.units, p.originals, false) && s.sold == w.sold)
  {
    var original, moved := Inside(p.nodes, p.originals), Outside(p.nodes, p.originals);
    var held := map a | a in w.units && (a in p.originals <==> true) :: w.units[a];
    var others := map a | a in w.units && (a in p.originals <==> false) :: w.units[a];
    hide Total;
    TotalDominated(original, KnownOf, held, Units);
    TotalDominated(moved, KnownOf, others, Units);
    if w == LeastWorld(AsLedger(p)) {
      TotalDominated(held, Units, original, KnownOf);
      TotalDominated(others, Units, moved, KnownOf);
    }
  }

  function WorldMoves(w: World, ts: seq<Transfer>, mixing: seq<nat>): World
    requires |mixing| == |ts|
  {
    if ts == [] then w
    else WorldMove(WorldMoves(w, ts[..|ts| - 1], mixing[..|ts| - 1]), ts[|ts| - 1], mixing[|ts| - 1])
  }

  ghost predicate Mixes(l: Ledger, w: World, ts: seq<Transfer>, mixing: seq<nat>)
    requires |mixing| == |ts|
  {
    ts != [] ==>
      var n := |ts| - 1;
      && Mixes(l, w, ts[..n], mixing[..n])
      && (Moves(l, ts[..n]).Some?
          ==> Possible(Moves(l, ts[..n]).value, WorldMoves(w, ts[..n], mixing[..n]), ts[n], mixing[n]))
  }

  lemma {:induction false} MovesSound(l: Ledger, w: World, ts: seq<Transfer>, mixing: seq<nat>)
    requires |mixing| == |ts| && Sound(l, w) && Moves(l, ts).Some? && Mixes(l, w, ts, mixing)
    ensures Sound(Moves(l, ts).value, WorldMoves(w, ts, mixing))
    decreases |ts|
  {
    hide Sound, Move, WorldMove, Possible;
    if ts != [] {
      var n := |ts| - 1;
      MovesSound(l, w, ts[..n], mixing[..n]);
      MoveSound(Moves(l, ts[..n]).value, WorldMoves(w, ts[..n], mixing[..n]), ts[n], mixing[n]);
    }
  }

  // ---- a run of checkpointed replays ----

  /** One replay: what is tracked, what happened, how units mixed, and what new wallets already held. */
  datatype Round = Round(nodes: map<Wallet, Node>, ts: seq<Transfer>, balances: map<Wallet, nat>, mixing: seq<nat>,
                         found: map<Wallet, nat>)

  /** Tracked wallets keep their units between replays; a new one may hold any. */
  function Entering(w: World, round: Round): World {
    World(map a | a in round.nodes :: if a in w.units then w.units[a] else if a in round.found then round.found[a]
          else 0, w.sold)
  }

  ghost predicate Plausible(p: Position, w: World, round: Round) {
    && Continues(p, round.nodes) && |round.mixing| == |Once(round.ts)|
    && (forall a :: a in round.nodes && a !in w.units && a in round.found ==> round.found[a] <= round.nodes[a].balance)
    && Mixes(Ledger(round.nodes, p.sold), Entering(w, round), Once(round.ts), round.mixing)
  }

  function WorldAfter(w: World, round: Round): World
    requires |round.mixing| == |Once(round.ts)|
  {
    WorldMoves(Entering(w, round), Once(round.ts), round.mixing)
  }

  function AsLedger(p: Position): Ledger {
    Ledger(p.nodes, p.sold)
  }

  lemma RoundSound(p: Position, w: World, round: Round)
    requires Sound(AsLedger(p), w) && Plausible(p, w, round) && Replayed(p, round.ts, round.nodes, round.balances).Some?
    ensures Sound(AsLedger(Replayed(p, round.ts, round.nodes, round.balances).value), WorldAfter(w, round))
  {
    hide Moves, Once, Mixes, WorldMoves;
    var l, w' := Ledger(round.nodes, p.sold), Entering(w, round);
    assert Sound(l, w');
    MovesSound(l, w', Once(round.ts), round.mixing);
  }

  /** Every replay of the run succeeds, and every mixing in it is possible. */
  ghost predicate Happens(p: Position, w: World, rounds: seq<Round>)
    decreases |rounds|
  {
    rounds != [] ==>
      && Plausible(p, w, rounds[0])
      && Replayed(p, rounds[0].ts, rounds[0].nodes, rounds[0].balances).Some?
      && Happens(Replayed(p, rounds[0].ts, rounds[0].nodes, rounds[0].balances).value, WorldAfter(w, rounds[0]),
                 rounds[1..])
  }

  ghost function Final(p: Position, w: World, rounds: seq<Round>): (Position, World)
    requires Happens(p, w, rounds)
    decreases |rounds|
  {
    if rounds == [] then (p, w)
    else Final(Replayed(p, rounds[0].ts, rounds[0].nodes, rounds[0].balances).value, WorldAfter(w, rounds[0]),
               rounds[1..])
  }

  /**
   Over any sequence of checkpointed replays and any mixing of units: known amounts never exceed
   what wallets really hold, sales are really sold and never shrink, the unknown share never
   shrinks, and a summary is always possible.
   */
  lemma {:induction false} RunSound(p: Position, w: World, rounds: seq<Round>)
    requires Good(p) && Sound(AsLedger(p), w) && Happens(p, w, rounds)
    ensures var (q, v) := Final(p, w, rounds);
            && Good(q) && Sound(AsLedger(q), v) && q.sold >= p.sold && Unattributed(q) >= Unattributed(p)
            && Summarized(q).Some?
    decreases |rounds|
  {
    hide Good, Sound, Unattributed, Replayed, WorldAfter, Summarized;
    if rounds == [] {
      GoodSummary(p);
    } else {
      var round := rounds[0];
      ReplayKeeps(p, round.ts, round.nodes, round.balances);
      RoundSound(p, w, round);
      hide Plausible;
      RunSound(Replayed(p, round.ts, round.nodes, round.balances).value, WorldAfter(w, round), rounds[1..]);
    }
  }

  lemma GoodSummary(p: Position)
    requires Good(p)
    ensures Summarized(p).Some?
  {
    SummaryPossible(p);
    hide Total, NodesOk, Summarized;
  }
}
