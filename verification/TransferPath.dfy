/** Whether a pool's whole output reaches one wallet. */
module TransferPath {
  // The ordered proof (`pool_output_reaches` in `robinhood.py`) is tied to the net transfer of every
  // address (`transfer_net`).

  datatype Address = Address(id: nat)

  /** A receipt's log: a transfer of the token, one whose amount cannot be decoded, or anything else. */
  datatype Log = Transfer(sender: Address, recipient: Address, amount: nat) | Malformed | Unrelated

  datatype Result<T> = Ok(value: T) | InvalidTransfer

  // ---- the reference: what an address gains ----

  function Gain(log: Log, a: Address): int {
    match log
    case Transfer(sender, recipient, amount) =>
      (if recipient == a then amount else 0) - if sender == a then amount else 0
    case _ => 0
  }

  /** Net amount transferred to an address by a list of logs. */
  function Net(logs: seq<Log>, a: Address): int {
    if logs == [] then 0 else Net(logs[..|logs| - 1], a) + Gain(logs[|logs| - 1], a)
  }

  ghost predicate WellFormed(logs: seq<Log>) {
    forall i :: 0 <= i < |logs| ==> !logs[i].Malformed?
  }

  predicate Moves(log: Log) {
    log.Transfer? && log.amount > 0
  }

  /** Transfer `k` spends only what its sender has received before it, unless the pool pays. */
  ghost predicate Funded(logs: seq<Log>, k: nat, custody: Address)
    requires k < |logs|
  {
    Moves(logs[k]) ==>
      && logs[k].recipient != custody
      && (logs[k].sender == custody || logs[k].amount <= Net(logs[..k], logs[k].sender))
  }

  /**
   The whole output reaches the wallet: it gains the amount bought, the pool loses it, everyone
   else ends as they began, and nobody passes on more than they have received.
   */
  ghost predicate Reaches(logs: seq<Log>, custody: Address, wallet: Address, bought: nat) {
    && WellFormed(logs) && bought > 0 && wallet != custody
    && (forall k :: 0 <= k < |logs| ==> Funded(logs, k, custody))
    && Net(logs, wallet) == bought && Net(logs, custody) == 0 - bought
    && forall a :: a != wallet && a != custody ==> Net(logs, a) == 0
  }

  // ---- transfer_net ----

  method TransferNet(logs: seq<Log>, wallet: Address) returns (r: Result<int>)
    ensures r == if WellFormed(logs) then Ok(Net(logs, wallet)) else InvalidTransfer
  {
    var net := 0;
    for i := 0 to |logs|
      invariant WellFormed(logs[..i]) && net == Net(logs[..i], wallet)
    {
      assert logs[..i + 1][..i] == logs[..i];
      match logs[i]
      case Malformed =>
        return InvalidTransfer;
      case Unrelated =>
      case Transfer(sender, recipient, amount) =>
        if sender == wallet {
          net := net - amount;
        }
        if recipient == wallet {
          net := net + amount;
        }
    }
    assert logs[..|logs|] == logs;
    return Ok(net);
  }

  // ---- pool_output_reaches ----

  function Balance(balances: map<Address, nat>, a: Address): nat {
    if a in balances then balances[a] else 0
  }

  /** The running balances are the net gains of every address but the pool's. */
  ghost predicate Tracks(logs: seq<Log>, custody: Address, balances: map<Address, nat>, output: int) {
    && (forall a :: a != custody ==> Net(logs, a) == Balance(balances, a))
    && Net(logs, custody) == 0 - output && custody !in balances
    && output >= 0 && (balances != map[] ==> output > 0)
  }

  lemma Unfold(logs: seq<Log>, log: Log, a: Address)
    ensures Net(logs + [log], a) == Net(logs, a) + Gain(log, a)
  {
    assert (logs + [log])[..|logs|] == logs;
  }

  lemma TracksQuiet(logs: seq<Log>, log: Log, custody: Address, balances: map<Address, nat>, output: int)
    requires Tracks(logs, custody, balances, output) && !Moves(log)
    ensures Tracks(logs + [log], custody, balances, output)
  {
    forall a ensures Net(logs + [log], a) == Net(logs, a) {
      Unfold(logs, log, a);
    }
  }

  lemma TracksMove(logs: seq<Log>, log: Log, custody: Address, balances: map<Address, nat>, output: int)
    requires Tracks(logs, custody, balances, output) && Moves(log) && log.recipient != custody
    requires log.sender == custody || log.amount <= Balance(balances, log.sender)
    ensures var paid := if log.sender == custody then balances
            else balances[log.sender := Balance(balances, log.sender) - log.amount];
            Tracks(logs + [log], custody, paid[log.recipient := Balance(paid, log.recipient) + log.amount],
                   if log.sender == custody then output + log.amount else output)
  {
    forall a ensures Net(logs + [log], a) == Net(logs, a) + Gain(log, a) {
      Unfold(logs, log, a);
    }
    hide Net;
    var paid := if log.sender == custody then balances
        else balances[log.sender := Balance(balances, log.sender) - log.amount];
    var after := paid[log.recipient := Balance(paid, log.recipient) + log.amount];
    if log.sender != custody {
      assert log.sender in balances && output > 0;
    }
    forall a | a != custody ensures Net(logs + [log], a) == Balance(after, a) {
      assert Net(logs, a) == Balance(balances, a);
    }
    assert custody !in after;
  }

  /** Once everything is funded, the pool's loss only grows. */
  lemma {:induction false} OutputGrows(logs: seq<Log>, custody: Address, k: nat)
    requires k <= |logs| && forall i :: 0 <= i < |logs| ==> Moves(logs[i]) ==> logs[i].recipient != custody
    ensures Net(logs, custody) <= Net(logs[..k], custody)
    decreases |logs|
  {
    if k < |logs| {
      OutputGrows(logs[..|logs| - 1], custody, k);
      assert logs[..|logs| - 1][..k] == logs[..k];
    } else {
      assert logs[..k] == logs;
    }
  }

  lemma NotFunded(logs: seq<Log>, k: nat, custody: Address, wallet: Address, bought: nat)
    requires k < |logs| && !Funded(logs, k, custody)
    ensures !Reaches(logs, custody, wallet, bought)
  {}

  lemma TooMuch(logs: seq<Log>, k: nat, custody: Address, wallet: Address, bought: nat)
    requires k <= |logs| && Net(logs[..k], custody) < 0 - bought
    ensures !Reaches(logs, custody, wallet, bought)
  {
    if Reaches(logs, custody, wallet, bought) {
      forall i | 0 <= i < |logs| ensures Moves(logs[i]) ==> logs[i].recipient != custody {
        assert Funded(logs, i, custody);
      }
      OutputGrows(logs, custody, k);
    }
  }

  method PoolOutputReaches(logs: seq<Log>, custody: Address, wallet: Address, bought: nat) returns (r: Result<bool>)
    ensures r == Ok(true) <==> Reaches(logs, custody, wallet, bought)
    ensures r == InvalidTransfer ==> !WellFormed(logs)
  {
    hide Reaches, Tracks, Net;
    var balances: map<Address, nat>, output: nat := map[], 0;
    NothingMoved(custody);
    for i := 0 to |logs|
      invariant WellFormed(logs[..i]) && output <= bought
      invariant forall k :: 0 <= k < i ==> Funded(logs, k, custody)
      invariant Tracks(logs[..i], custody, balances, output)
    {
      var log := logs[i];
      assert logs[..i + 1] == logs[..i] + [log];
      if log.Malformed? {
        Undecodable(logs, i, custody, wallet, bought);
        return InvalidTransfer;
      }
      if log.Unrelated? || log.amount == 0 {
        TracksQuiet(logs[..i], log, custody, balances, output);
        continue;
      }
      Reads(logs[..i], custody, balances, output, log.sender);
      ghost var before := balances;
      if log.sender != custody && Balance(balances, log.sender) < log.amount {
        NotFunded(logs, i, custody, wallet, bought);
        return Ok(false);
      }
      var paid := if log.sender == custody then balances
          else balances[log.sender := Balance(balances, log.sender) - log.amount];
      var spent := if log.sender == custody then output + log.amount else output;
      if spent > bought {
        if log.recipient == custody {
          NotFunded(logs, i, custody, wallet, bought);
        } else {
          PoolPaid(logs[..i], log, custody, output, balances);
          TooMuch(logs, i + 1, custody, wallet, bought);
        }
        return Ok(false);
      }
      if log.recipient == custody {
        NotFunded(logs, i, custody, wallet, bought);
        return Ok(false);
      }
      TracksMove(logs[..i], log, custody, balances, output);
      balances, output := paid[log.recipient := Balance(paid, log.recipient) + log.amount], spent;
    }
    assert logs[..|logs|] == logs;
    Settled(logs, custody, wallet, bought, balances, output);
    var settled := output == bought && wallet in balances && balances[wallet] == bought
      && forall a :: a in balances ==> a != wallet ==> balances[a] == 0;
    return Ok(settled);
  }

  lemma NothingMoved(custody: Address)
    ensures Tracks([], custody, map[], 0)
  {}

  lemma Reads(logs: seq<Log>, custody: Address, balances: map<Address, nat>, output: nat, a: Address)
    requires Tracks(logs, custody, balances, output)
    ensures a != custody ==> Net(logs, a) == Balance(balances, a)
  {}

  lemma PoolPaid(logs: seq<Log>, log: Log, custody: Address, output: int, balances: map<Address, nat>)
    requires Tracks(logs, custody, balances, output) && Moves(log) && log.sender == custody && log.recipient != custody
    ensures Net(logs + [log], custody) == 0 - (output + log.amount)
  {
    Unfold(logs, log, custody);
  }

  lemma Undecodable(logs: seq<Log>, i: nat, custody: Address, wallet: Address, bought: nat)
    requires i < |logs| && logs[i].Malformed?
    ensures !WellFormed(logs) && !Reaches(logs, custody, wallet, bought)
  {}

  /** The final test of the source says exactly that the reference holds. */
  lemma Settled(logs: seq<Log>, custody: Address, wallet: Address, bought: nat, balances: map<Address, nat>,
                output: nat)
    requires WellFormed(logs) && Tracks(logs, custody, balances, output)
    requires forall k :: 0 <= k < |logs| ==> Funded(logs, k, custody)
    ensures Reaches(logs, custody, wallet, bought) ==
              (output == bought && wallet in balances && balances[wallet] == bought
               && forall a :: a in balances ==> a != wallet ==> balances[a] == 0)
  {
    hide Net, Funded;
    if wallet in balances {
      assert wallet != custody && balances != map[];
    }
    forall a | a in balances ensures Net(logs, a) == balances[a] {
      assert Net(logs, a) == Balance(balances, a);
    }
    if Reaches(logs, custody, wallet, bought) {
      assert Net(logs, wallet) == Balance(balances, wallet);
    }
  }

  // ---- what an accepted path means ----

  /** At no moment has anyone but the pool passed on more than they had received. */
  lemma {:induction false} NeverOverdrawn(logs: seq<Log>, custody: Address, k: nat, a: Address)
    requires k <= |logs| && a != custody && forall i :: 0 <= i < |logs| ==> Funded(logs, i, custody)
    ensures Net(logs[..k], a) >= 0
    decreases k
  {
    if k > 0 {
      NeverOverdrawn(logs, custody, k - 1, a);
      assert Funded(logs, k - 1, custody);
      assert logs[..k] == logs[..k - 1] + [logs[k - 1]];
      Unfold(logs[..k - 1], logs[k - 1], a);
    }
  }

  /** Accepted: the transfers of the wallet and the pool mirror each other and nobody else gains. */
  method AcceptedTransfers(logs: seq<Log>, custody: Address, wallet: Address, bought: nat, other: Address)
    returns (accepted: bool, gained: int, paid: int, rest: int)
    requires other != wallet && other != custody
    ensures accepted <==> Reaches(logs, custody, wallet, bought)
    ensures accepted ==> gained == bought && paid == 0 - bought && rest == 0
    ensures accepted ==> forall k, a :: 0 <= k <= |logs| && a != custody ==> Net(logs[..k], a) >= 0
  {
    var reached := PoolOutputReaches(logs, custody, wallet, bought);
    gained, paid, rest := 0, 0, 0;
    accepted := reached == Ok(true);
    if accepted {
      var g := TransferNet(logs, wallet);
      var p := TransferNet(logs, custody);
      var o := TransferNet(logs, other);
      gained, paid, rest := g.value, p.value, o.value;
      forall k, a | 0 <= k <= |logs| && a != custody ensures Net(logs[..k], a) >= 0 {
        NeverOverdrawn(logs, custody, k, a);
      }
    }
  }
}
