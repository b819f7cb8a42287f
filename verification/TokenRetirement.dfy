/** Retiring tokens of low market cap. */
module TokenRetirement {
  // A watch record (`token_retirement.py`) is always backed by an unbroken chain of verified low
  // quotes, so a retirement needs a full day of them.

  import opened Wrappers

  datatype Token = Token(id: nat)

  const MCAP_USD := 20000.0
  const BELOW_SECONDS := 86400.0
  const QUOTE_MAX_AGE := 1200.0
  const MAX_GAP := 7200.0
  const MIN_SAMPLES := 13

  /** The market's last word on a token; a missing time reads as zero. */
  datatype Quote = Quote(at: real, cap: Option<real>, stale: bool)

  datatype Watch = Watch(belowSince: real, lastAt: real, cap: real, samples: nat, maxGap: real)

  datatype Action = Action(token: Token, retiredAt: real, watch: Watch)

  /** A quote that was verified when it was read, at `readAt` in the given round of the run. */
  datatype Sample = Sample(token: Token, at: real, cap: real, readAt: real, round: nat)

  predicate Verified(q: Quote, now: real) {
    !q.stale && q.at > 0.0 && q.cap.Some? && q.cap.value > 0.0 && 0.0 <= now - q.at <= QUOTE_MAX_AGE
  }

  // ---- chains ----

  /** Low, verified quotes of one token, each within two hours of the one before. */
  ghost predicate Unbroken(chain: seq<Sample>, token: Token) {
    && (forall i :: 0 <= i < |chain| ==>
          && chain[i].token == token && 0.0 < chain[i].cap < MCAP_USD
          && 0.0 < chain[i].at && 0.0 <= chain[i].readAt - chain[i].at <= QUOTE_MAX_AGE)
    && forall i :: 0 < i < |chain| ==> 0.0 < chain[i].at - chain[i - 1].at <= MAX_GAP
  }

  /** The record describes the chain: its ends, its length and its widest gap. */
  ghost predicate Backs(chain: seq<Sample>, token: Token, w: Watch) {
    && Unbroken(chain, token) && |chain| == w.samples > 0
    && chain[0].at == w.belowSince && chain[|chain| - 1].at == w.lastAt
    && chain[|chain| - 1].cap == w.cap
    && 0.0 <= w.maxGap <= MAX_GAP && forall i :: 0 < i < |chain| ==> chain[i].at - chain[i - 1].at <= w.maxGap
  }

  /** A chain of `n` quotes spans at most `n - 1` of the widest gaps. */
  lemma {:induction false} ChainSpan(chain: seq<Sample>, token: Token)
    requires Unbroken(chain, token) && chain != []
    ensures chain[|chain| - 1].at - chain[0].at <= MAX_GAP * (|chain| - 1) as real
    decreases |chain|
  {
    if |chain| > 1 {
      var rest := chain[..|chain| - 1];
      ChainSpan(rest, token);
      assert chain[|chain| - 1].at - chain[|chain| - 2].at <= MAX_GAP;
      assert (|chain| - 1) as real == (|rest| - 1) as real + 1.0;
    }
  }

  /** So a chain of a day holds thirteen quotes: the test of the sample count never decides. */
  lemma DayNeedsThirteen(chain: seq<Sample>, token: Token, w: Watch)
    requires Backs(chain, token, w) && w.lastAt - w.belowSince >= BELOW_SECONDS
    ensures w.samples >= MIN_SAMPLES
  {
    ChainSpan(chain, token);
    TwelveGaps(|chain| - 1);
  }

  lemma TwelveGaps(n: nat)
    ensures MAX_GAP * n as real >= BELOW_SECONDS ==> n >= 12
  {
    if n < 12 {
      assert n as real <= 11.0;
    }
  }

  // ---- one token in one round ----

  datatype Outcome = Outcome(watch: Option<Watch>, action: Option<Action>)

  function LastAt(w: Option<Watch>): real {
    if w.Some? then w.value.lastAt else 0.0
  }

  function Due(token: Token, w: Watch, now: real): Option<Action> {
    if w.lastAt - w.belowSince >= BELOW_SECONDS && w.samples >= MIN_SAMPLES then Some(Action(token, now, w)) else None
  }

  function Observe(token: Token, w: Option<Watch>, retired: bool, q: Quote, now: real): Outcome {
    if retired then Outcome(None, None)
    else if !Verified(q, now) then Outcome(if now - LastAt(w) > MAX_GAP then None else w, None)
    else if q.at < LastAt(w) then Outcome(w, None)
    else if q.cap.value >= MCAP_USD then Outcome(None, None)
    else if w.Some? && q.at == w.value.lastAt then Outcome(w, Due(token, w.value, now))
    else
      var restarts := w.None? || LastAt(w) == 0.0 || q.at - LastAt(w) > MAX_GAP;
      var gap := if restarts then 0.0 else q.at - w.value.lastAt;
      var base := if restarts then Watch(q.at, q.at, q.cap.value, 0, 0.0) else w.value;
      var next := Watch(base.belowSince, q.at, q.cap.value, base.samples + 1, Larger(base.maxGap, gap));
      Outcome(Some(next), Due(token, next, now))
  }

  /** The chain behind the record after a reading in round `n`. */
  ghost function ChainAfter(token: Token, w: Option<Watch>, chain: seq<Sample>, retired: bool, q: Quote, now: real,
                            n: nat): seq<Sample> {
    if retired || !Verified(q, now) || q.at < LastAt(w) || q.cap.value >= MCAP_USD then chain
    else if w.Some? && q.at == w.value.lastAt then chain
    else if w.None? || q.at - w.value.lastAt > MAX_GAP then [Sample(token, q.at, q.cap.value, now, n)]
    else chain + [Sample(token, q.at, q.cap.value, now, n)]
  }

  /** A first quote, or one after too long a gap, starts a chain of its own. */
  lemma ChainStarts(token: Token, q: Quote, now: real, n: nat)
    requires Verified(q, now) && q.cap.value < MCAP_USD
    ensures Backs([Sample(token, q.at, q.cap.value, now, n)], token, Watch(q.at, q.at, q.cap.value, 1, 0.0))
  {}

  /** A later quote within the gap extends the chain. */
  lemma ChainGrows(token: Token, w: Watch, chain: seq<Sample>, q: Quote, now: real, n: nat)
    requires Backs(chain, token, w) && Verified(q, now) && q.cap.value < MCAP_USD
    requires w.lastAt < q.at <= w.lastAt + MAX_GAP
    ensures Backs(chain + [Sample(token, q.at, q.cap.value, now, n)], token,
                  Watch(w.belowSince, q.at, q.cap.value, w.samples + 1, Larger(w.maxGap, q.at - w.lastAt)))
  {
    var more, gap := chain + [Sample(token, q.at, q.cap.value, now, n)], q.at - w.lastAt;
    forall i | 0 < i < |more|
      ensures 0.0 < more[i].at - more[i - 1].at <= MAX_GAP && more[i].at - more[i - 1].at <= Larger(w.maxGap, gap)
    {
      if i < |chain| {
        assert more[i] == chain[i] && more[i - 1] == chain[i - 1];
      } else {
        assert more[i - 1] == chain[|chain| - 1];
      }
    }
    forall i | 0 <= i < |more|
      ensures more[i].token == token && 0.0 < more[i].cap < MCAP_USD && 0.0 < more[i].at
              && 0.0 <= more[i].readAt - more[i].at <= QUOTE_MAX_AGE
    {
      if i < |chain| {
        assert more[i] == chain[i];
      }
    }
  }

  lemma LastIsPositive(token: Token, w: Watch, chain: seq<Sample>)
    requires Backs(chain, token, w)
    ensures w.lastAt > 0.0
  {
    assert chain[|chain| - 1].at == w.lastAt;
  }

  lemma ObserveKeeps(token: Token, w: Option<Watch>, chain: seq<Sample>, retired: bool, q: Quote, now: real, n: nat)
    requires w.Some? ==> Backs(chain, token, w.value)
    ensures var r := Observe(token, w, retired, q, now);
            && (r.watch.Some? ==> Backs(ChainAfter(token, w, chain, retired, q, now, n), token, r.watch.value))
            && (r.action.Some? ==>
                r.watch == Some(r.action.value.watch) && r.action.value.token == token
                && r.action.value.retiredAt == now)
  {
    hide Backs;
    if w.Some? {
      LastIsPositive(token, w.value, chain);
    }
    if Verified(q, now) && q.at >= LastAt(w) && q.cap.value < MCAP_USD {
      hide Verified;
      ChainStarts(token, q, now, n);
      if w.Some? && w.value.lastAt < q.at <= w.value.lastAt + MAX_GAP {
        ChainGrows(token, w.value, chain, q, now, n);
      }
    }
  }

  /**
   A verified low quote retires the token exactly when the chain it completes spans a day; no
   other reading does.
   */
  lemma RetiresExactly(token: Token, w: Option<Watch>, chain: seq<Sample>, retired: bool, q: Quote, now: real)
    requires w.Some? ==> Backs(chain, token, w.value)
    ensures var r := Observe(token, w, retired, q, now);
            r.action.Some? ==
              (!retired && Verified(q, now) && q.at >= LastAt(w) && q.cap.value < MCAP_USD
               && r.watch.Some? && r.watch.value.lastAt - r.watch.value.belowSince >= BELOW_SECONDS)
  {
    ObserveKeeps(token, w, chain, retired, q, now, 0);
    var r := Observe(token, w, retired, q, now);
    if r.watch.Some? && r.watch.value.lastAt - r.watch.value.belowSince >= BELOW_SECONDS {
      DayNeedsThirteen(ChainAfter(token, w, chain, retired, q, now, 0), token, r.watch.value);
    }
    hide Backs;
  }

  // ---- rounds ----

  /** Market and markers as one round sees them; a marker is in force until reactivation. */
  datatype Round = Round(now: real, tokens: seq<Token>, quotes: map<Token, Quote>, retired: set<Token>)

  function QuoteOf(round: Round, token: Token): Quote {
    if token in round.quotes then round.quotes[token] else Quote(0.0, None, false)
  }

  function ObserveIn(round: Round, token: Token, w: Option<Watch>): Outcome {
    Observe(token, w, token in round.retired, QuoteOf(round, token), round.now)
  }

  /** A token that is listed twice is read twice, which is the same as once. */
  lemma ObserveTwice(round: Round, token: Token, w: Option<Watch>, chain: seq<Sample>)
    requires w.Some? ==> Backs(chain, token, w.value)
    ensures ObserveIn(round, token, ObserveIn(round, token, w).watch) == ObserveIn(round, token, w)
  {
    hide Backs;
    if w.Some? {
      LastIsPositive(token, w.value, chain);
    }
  }

  /** The record of a token after some rounds: rounds that do not list it drop it. */
  function WatchAfter(rounds: seq<Round>, token: Token): Option<Watch> {
    if rounds == [] then None
    else
      var before, round := rounds[..|rounds| - 1], rounds[|rounds| - 1];
      if token in round.tokens then ObserveIn(round, token, WatchAfter(before, token)).watch else None
  }

  ghost function ChainOf(rounds: seq<Round>, token: Token): seq<Sample> {
    if rounds == [] then []
    else
      var before, round := rounds[..|rounds| - 1], rounds[|rounds| - 1];
      ChainAfter(token, WatchAfter(before, token), ChainOf(before, token), token in round.retired,
                 QuoteOf(round, token),
                 round.now, |before|)
  }

  // ---- where a chain comes from ----

  /** A sample is the quote that its round verified. */
  ghost predicate Taken(rounds: seq<Round>, token: Token, s: Sample) {
    && s.round < |rounds|
    && var round := rounds[s.round];
       Verified(QuoteOf(round, token), round.now)
       && s == Sample(token, QuoteOf(round, token).at, QuoteOf(round, token).cap.value, round.now, s.round)
  }

  /** Listed, unretired, and read as high at most by a quote older than one already in the chain. */
  ghost predicate Undisputed(round: Round, n: nat, token: Token, chain: seq<Sample>) {
    && token in round.tokens && token !in round.retired
    && (Verified(QuoteOf(round, token), round.now) && QuoteOf(round, token).cap.value >= MCAP_USD ==>
          exists k :: 0 <= k < |chain| && chain[k].round < n && QuoteOf(round, token).at < chain[k].at)
  }

  /** The samples were taken one round after another, and no round since the first one disputes them. */
  ghost predicate Told(rounds: seq<Round>, token: Token, chain: seq<Sample>) {
    && (forall k :: 0 <= k < |chain| ==> Taken(rounds, token, chain[k]))
    && (forall k :: 0 < k < |chain| ==> chain[k - 1].round < chain[k].round)
    && (chain != [] ==> forall n :: chain[0].round <= n < |rounds| ==> Undisputed(rounds[n], n, token, chain))
  }

  /** One more sample, from a later round, leaves everything told about the earlier rounds. */
  lemma ToldMore(before: seq<Round>, round: Round, token: Token, chain: seq<Sample>, more: seq<Sample>)
    requires Told(before, token, chain)
    requires (more == chain || (chain != [] && |more| == |chain| + 1 && more[..|chain|] == chain))
    requires |more| > |chain| ==> more[|chain|].round == |before| && Taken(before + [round], token, more[|chain|])
    requires Undisputed(round, |before|, token, more)
    ensures Told(before + [round], token, more)
  {
    var rounds := before + [round];
    forall k | 0 <= k < |more| ensures Taken(rounds, token, more[k]) {
      if k < |chain| {
        assert more[k] == chain[k];
        assert rounds[chain[k].round] == before[chain[k].round];
      }
    }
    forall k | 0 < k < |more| ensures more[k - 1].round < more[k].round {
      assert more[k - 1] == chain[k - 1];
      if k < |chain| { assert more[k] == chain[k]; }
    }
    if chain != [] {
      assert more[0] == chain[0];
      forall n | chain[0].round <= n < |rounds| ensures Undisputed(rounds[n], n, token, more) {
        if n < |before| { UndisputedMore(before[n], n, token, chain, more); }
      }
    }
  }

  lemma UndisputedMore(round: Round, n: nat, token: Token, chain: seq<Sample>, more: seq<Sample>)
    requires Undisputed(round, n, token, chain) && |chain| <= |more| && more[..|chain|] == chain
    ensures Undisputed(round, n, token, more)
  {
    if Verified(QuoteOf(round, token), round.now) && QuoteOf(round, token).cap.value >= MCAP_USD {
      var k :| 0 <= k < |chain| && chain[k].round < n && QuoteOf(round, token).at < chain[k].at;
      assert more[k] == chain[k];
    }
  }

  /** A round that keeps the record tells the chain that backs it. */
  lemma ToldStep(before: seq<Round>, round: Round, token: Token, w: Option<Watch>, chain: seq<Sample>)
    requires w.Some? ==> Backs(chain, token, w.value) && Told(before, token, chain)
    requires token in round.tokens && ObserveIn(round, token, w).watch.Some?
    ensures Told(before + [round], token,
                 ChainAfter(token, w, chain, token in round.retired, QuoteOf(round, token), round.now, |before|))
  {
    var q, rounds := QuoteOf(round, token), before + [round];
    var more := ChainAfter(token, w, chain, token in round.retired, q, round.now, |before|);
    var s := if Verified(q, round.now) then Sample(token, q.at, q.cap.value, round.now, |before|)
        else Sample(token, 0.0, 0.0, 0.0, 0);
    if w.Some? && more != [s] {
      assert chain != [] && chain[|chain| - 1].at == w.value.lastAt;
      if Verified(q, round.now) && q.cap.value >= MCAP_USD {
        assert Taken(before, token, chain[|chain| - 1]);
        assert q.at < chain[|chain| - 1].at && more == chain;
      }
      assert Undisputed(round, |before|, token, more);
      ToldMore(before, round, token, chain, more);
    }
  }

  /** The record of a token is backed by quotes that the rounds of the run really read. */
  lemma {:induction false} RecordIsBacked(rounds: seq<Round>, token: Token)
    requires WatchAfter(rounds, token).Some?
    ensures Backs(ChainOf(rounds, token), token, WatchAfter(rounds, token).value)
    ensures Told(rounds, token, ChainOf(rounds, token))
    decreases |rounds|
  {
    var before, round := rounds[..|rounds| - 1], rounds[|rounds| - 1];
    var w, chain := WatchAfter(before, token), ChainOf(before, token);
    if w.Some? {
      RecordIsBacked(before, token);
    }
    assert before + [round] == rounds;
    hide Backs, Told, Observe, ChainAfter;
    ObserveKeeps(token, w, chain, token in round.retired, QuoteOf(round, token), round.now, |before|);
    ToldStep(before, round, token, w, chain);
  }

  // ---- when a record lasts ----

  ghost predicate Reads(round: Round, token: Token) {
    Verified(QuoteOf(round, token), round.now)
  }

  ghost predicate ReadsLow(round: Round, token: Token) {
    Reads(round, token) && QuoteOf(round, token).cap.value < MCAP_USD
  }

  /** The time of the newest quote that was verified in round `first` or later. */
  ghost function Newest(rounds: seq<Round>, token: Token, first: nat): real {
    if |rounds| <= first then 0.0
    else
      var before, round := rounds[..|rounds| - 1], rounds[|rounds| - 1];
      if Reads(round, token) then Larger(Newest(before, token, first), QuoteOf(round, token).at)
      else Newest(before, token, first)
  }

  /**
   A round after a newest quote of time `newest` does not end the watch: an unverified reading comes
   within two hours of that quote, and a verified one is older than it, or low and within two hours.
   */
  ghost predicate Tolerated(round: Round, token: Token, newest: real) {
    && token in round.tokens && token !in round.retired
    && var q := QuoteOf(round, token);
       if Reads(round, token) then q.at < newest || (q.cap.value < MCAP_USD && q.at - newest <= MAX_GAP)
       else round.now - newest <= MAX_GAP
  }

  /** A low reading in round `first`, and nothing since that ends the watch. */
  ghost predicate Lasting(rounds: seq<Round>, token: Token, first: nat) {
    && first < |rounds|
    && token in rounds[first].tokens && token !in rounds[first].retired && ReadsLow(rounds[first], token)
    && forall n :: first < n < |rounds| ==> Tolerated(rounds[n], token, Newest(rounds[..n], token, first))
  }

  lemma LastingMore(before: seq<Round>, round: Round, token: Token, first: nat)
    requires first < |before|
    ensures Lasting(before + [round], token, first) <==>
            Lasting(before, token, first) && Tolerated(round, token, Newest(before, token, first))
    ensures Newest(before + [round], token, first) ==
            if Reads(round, token) then Larger(Newest(before, token, first), QuoteOf(round, token).at)
            else Newest(before, token, first)
  {
    var rounds := before + [round];
    assert forall n :: 0 <= n <= |before| ==> rounds[..n] == before[..n];
    assert before[..|before|] == before;
    hide Tolerated, Newest;
    assert forall n :: 0 <= n < |before| ==> rounds[n] == before[n];
    assert rounds[|before|] == round;
    if Lasting(rounds, token, first) {
      assert Tolerated(rounds[|before|], token, Newest(rounds[..|before|], token, first));
    }
  }

  /** No quote that was verified before round `first` is newer than the one read there. */
  ghost predicate NewestAt(rounds: seq<Round>, token: Token, first: nat) {
    && first < |rounds|
    && forall m :: 0 <= m < first && Reads(rounds[m], token) ==>
         QuoteOf(rounds[m], token).at <= QuoteOf(rounds[first], token).at
  }

  /** A tolerated round keeps a record that is at least as new, and a record that is just as new keeps its start. */
  lemma WatchLasts(round: Round, token: Token, w: Watch, newest: real)
    requires w.lastAt >= newest > 0.0 && Tolerated(round, token, newest)
    ensures var next := ObserveIn(round, token, Some(w)).watch;
            var q := QuoteOf(round, token);
            var now := if Reads(round, token) then Larger(newest, q.at) else newest;
            && next.Some? && next.value.lastAt >= now > 0.0
            && (w.lastAt == newest ==> next.value.lastAt == now && next.value.belowSince == w.belowSince)
  {}

  /** A low reading that is not outdated leaves a record that reaches back at least to it. */
  lemma WatchBegins(round: Round, token: Token, w: Option<Watch>)
    requires token !in round.retired && ReadsLow(round, token)
    requires w.Some? ==> w.value.belowSince <= w.value.lastAt && w.value.lastAt > 0.0
    ensures var next := ObserveIn(round, token, w).watch;
            var at := QuoteOf(round, token).at;
            && next.Some? && next.value.lastAt >= at > 0.0
            && (LastAt(w) <= at ==> next.value.lastAt == at && next.value.belowSince <= at)
  {}

  /** Such rounds leave a record, which reaches back to the first reading if that was the newest one. */
  lemma {:induction false} LastingIsWatched(rounds: seq<Round>, token: Token, first: nat)
    requires Lasting(rounds, token, first)
    ensures WatchAfter(rounds, token).Some?
    ensures WatchAfter(rounds, token).value.lastAt >= Newest(rounds, token, first) > 0.0
    ensures NewestAt(rounds, token, first) ==>
              WatchAfter(rounds, token).value.belowSince <= QuoteOf(rounds[first], token).at
              && WatchAfter(rounds, token).value.lastAt == Newest(rounds, token, first)
    decreases |rounds|
  {
    var before, round := rounds[..|rounds| - 1], rounds[|rounds| - 1];
    assert rounds == before + [round];
    var w := WatchAfter(before, token);
    WatchStep(before, round, token);
    hide WatchAfter, Observe, ObserveIn, Tolerated;
    if first < |before| {
      LastingMore(before, round, token, first);
      LastingIsWatched(before, token, first);
      hide Lasting, Newest;
      assert NewestAt(rounds, token, first) ==> NewestAt(before, token, first);
      WatchLasts(round, token, w.value, Newest(before, token, first));
    } else {
      LastingAlone(before, round, token);
      if w.Some? {
        RecordIsBacked(before, token);
        BackedEnds(before, token, w.value);
        LastIsPositive(token, w.value, ChainOf(before, token));
      }
      hide Backs, Told;
      WatchBegins(round, token, w);
      if NewestAt(rounds, token, first) && w.Some? {
        var m :| 0 <= m < |before| && Reads(before[m], token) && QuoteOf(before[m], token).at == w.value.lastAt;
        assert rounds[m] == before[m];
      }
    }
  }

  lemma BackedEnds(rounds: seq<Round>, token: Token, w: Watch)
    requires Backs(ChainOf(rounds, token), token, w) && Told(rounds, token, ChainOf(rounds, token))
    ensures w.belowSince <= w.lastAt
    ensures exists m :: 0 <= m < |rounds| && Reads(rounds[m], token) && QuoteOf(rounds[m], token).at == w.lastAt
  {
    var chain := ChainOf(rounds, token);
    SpanIsPositive(chain, token);
    var s := chain[|chain| - 1];
    assert Taken(rounds, token, s) && Reads(rounds[s.round], token);
  }

  lemma {:induction false} SpanIsPositive(chain: seq<Sample>, token: Token)
    requires Unbroken(chain, token) && chain != []
    ensures chain[0].at <= chain[|chain| - 1].at
    decreases |chain|
  {
    if |chain| > 1 {
      SpanIsPositive(chain[..|chain| - 1], token);
      assert 0.0 < chain[|chain| - 1].at - chain[|chain| - 2].at;
    }
  }

  /** Every record comes from such rounds, and shows their first and their newest quote. */
  lemma {:induction false} WatchedIsLasting(rounds: seq<Round>, token: Token) returns (first: nat)
    requires WatchAfter(rounds, token).Some?
    ensures Lasting(rounds, token, first)
    ensures WatchAfter(rounds, token).value.lastAt == Newest(rounds, token, first)
    ensures WatchAfter(rounds, token).value.belowSince == QuoteOf(rounds[first], token).at
    decreases |rounds|
  {
    var before, round := rounds[..|rounds| - 1], rounds[|rounds| - 1];
    assert rounds == before + [round];
    var w, next := WatchAfter(before, token), WatchAfter(rounds, token).value;
    first := |before|;
    if w.Some? {
      var earlier := WatchedIsLasting(before, token);
      RecordIsBacked(before, token);
      BackedEnds(before, token, w.value);
      LastIsPositive(token, w.value, ChainOf(before, token));
      hide Backs, Told;
      LastingMore(before, round, token, earlier);
      hide Lasting;
      if Tolerated(round, token, w.value.lastAt) {
        first := earlier;
      } else {
        assert Reads(round, token) && QuoteOf(round, token).at - w.value.lastAt > MAX_GAP;
        LastingAlone(before, round, token);
      }
    } else {
      LastingAlone(before, round, token);
    }
  }

  lemma LastingAlone(before: seq<Round>, round: Round, token: Token)
    requires token in round.tokens && token !in round.retired && ReadsLow(round, token)
    ensures Lasting(before + [round], token, |before|)
    ensures Newest(before + [round], token, |before|) == QuoteOf(round, token).at
  {
    var rounds := before + [round];
    assert rounds[..|before|] == before && rounds[|before|] == round;
    assert Newest(before, token, |before|) == 0.0;
  }

  /** A record exists exactly when some low reading has not been followed by anything that ends the watch. */
  lemma RecordExistsIff(rounds: seq<Round>, token: Token)
    ensures WatchAfter(rounds, token).Some? <==> exists first: nat :: Lasting(rounds, token, first)
  {
    if WatchAfter(rounds, token).Some? {
      var first := WatchedIsLasting(rounds, token);
    }
    if first: nat :| Lasting(rounds, token, first) {
      LastingIsWatched(rounds, token, first);
    }
  }

  // ---- retirements ----

  /**
   Behind the last round's retirement stands a chain of its own quotes: verified, low, read one
   round after another, never more than two hours apart, undisputed, and a day long.
   */
  ghost predicate ProvenLow(rounds: seq<Round>, a: Action) {
    && rounds != []
    && var round, chain := rounds[|rounds| - 1], ChainOf(rounds, a.token);
       && a.token in round.tokens && a.token !in round.retired && a.retiredAt == round.now
       && Verified(QuoteOf(round, a.token), round.now) && QuoteOf(round, a.token).at == a.watch.lastAt
       && Backs(chain, a.token, a.watch) && Told(rounds, a.token, chain)
       && |chain| >= MIN_SAMPLES && chain[|chain| - 1].at - chain[0].at >= BELOW_SECONDS
  }

  /** What the round does to a token after the rounds before it. */
  function LastOutcome(before: seq<Round>, round: Round, token: Token): Outcome {
    ObserveIn(round, token, WatchAfter(before, token))
  }

  /** The actions are those of the tokens listed in the round. */
  ghost predicate Exactly(before: seq<Round>, round: Round, actions: seq<Action>) {
    forall a :: a in actions <==> exists token ::
        token in round.tokens
        && LastOutcome(before, round, token).action == Some(a)
  }

  lemma WatchStep(before: seq<Round>, round: Round, token: Token)
    ensures WatchAfter(before + [round], token) ==
            if token in round.tokens then LastOutcome(before, round, token).watch else None
  {
    assert (before + [round])[..|before|] == before;
  }

  lemma RetirementIsProven(before: seq<Round>, round: Round, token: Token)
    requires token in round.tokens && LastOutcome(before, round, token).action.Some?
    ensures ProvenLow(before + [round], LastOutcome(before, round, token).action.value)
  {
    var rounds, a := before + [round], LastOutcome(before, round, token).action.value;
    assert rounds[..|before|] == before;
    assert WatchAfter(rounds, token) == Some(a.watch) && a.token == token;
    RecordIsBacked(rounds, token);
    hide Told, ChainAfter;
    assert QuoteOf(round, token).at == a.watch.lastAt;
  }

  /** A reading retires exactly on a current low quote that makes the record a day long. */
  lemma RetirementIsDue(before: seq<Round>, round: Round, token: Token)
    ensures var w, q := WatchAfter(before, token), QuoteOf(round, token);
            var r := LastOutcome(before, round, token);
            r.action.Some? ==
              (token !in round.retired && Verified(q, round.now) && q.at >= LastAt(w) && q.cap.value < MCAP_USD
               && r.watch.Some? && r.watch.value.lastAt - r.watch.value.belowSince >= BELOW_SECONDS)
  {
    var w := WatchAfter(before, token);
    if w.Some? {
      RecordIsBacked(before, token);
    }
    RetiresExactly(token, w, ChainOf(before, token), token in round.retired, QuoteOf(round, token), round.now);
  }

  /** A watch that lasts for a day retires the token on the next low quote that is not outdated. */
  lemma DayOfLowQuotesRetires(before: seq<Round>, round: Round, token: Token, first: nat)
    requires Lasting(before + [round], token, first) && NewestAt(before + [round], token, first)
    requires ReadsLow(round, token) && QuoteOf(round, token).at == Newest(before + [round], token, first)
    requires QuoteOf(round, token).at - QuoteOf((before + [round])[first], token).at >= BELOW_SECONDS
    ensures LastOutcome(before, round, token).action.Some?
  {
    var rounds, w := before + [round], WatchAfter(before, token);
    LastingIsWatched(rounds, token, first);
    WatchStep(before, round, token);
    RetirementIsDue(before, round, token);
    if first < |before| {
      LastingMore(before, round, token, first);
      LastingIsWatched(before, token, first);
      assert NewestAt(before, token, first);
    }
    hide Lasting, Observe;
  }

  lemma OutcomeTwice(before: seq<Round>, round: Round, token: Token)
    ensures ObserveIn(round, token, LastOutcome(before, round, token).watch) == LastOutcome(before, round, token)
  {
    if WatchAfter(before, token).Some? {
      RecordIsBacked(before, token);
    }
    ObserveTwice(round, token, WatchAfter(before, token), ChainOf(before, token));
  }

  /** The state between rounds. */
  class Watches {
    var watches: map<Token, Watch>
    ghost var rounds: seq<Round>

    function WatchOf(token: Token): Option<Watch>
      reads this
    {
      if token in watches then Some(watches[token]) else None
    }

    /** The records are those that the rounds so far leave. */
    ghost predicate Valid()
      reads this
    {
      forall token :: WatchOf(token) == WatchAfter(rounds, token)
    }

    /** The same within a round that has visited some of its tokens. */
    ghost predicate Midway(round: Round, visited: set<Token>)
      reads this
    {
      forall token :: WatchOf(token) ==
        if token in visited then LastOutcome(rounds, round, token).watch else WatchAfter(rounds, token)
    }

    constructor ()
      ensures Valid() && rounds == []
    {
      watches, rounds := map[], [];
    }

    method ObserveToken(round: Round, token: Token) returns (action: Option<Action>)
      modifies this`watches
      ensures var r := ObserveIn(round, token, old(WatchOf(token)));
              && action == r.action && WatchOf(token) == r.watch
              && (forall other :: other != token ==> WatchOf(other) == old(WatchOf(other)))
    {
      var r := ObserveIn(round, token, WatchOf(token));
      if r.watch.Some? {
        watches := watches[token := r.watch.value];
      } else {
        watches := watches - {token};
      }
      action := r.action;
    }

    /** `observe_low_caps`: every token once over, then records of other tokens are dropped. */
    method ObserveAll(round: Round) returns (actions: seq<Action>)
      requires Valid()
      modifies this
      ensures Valid() && rounds == old(rounds) + [round]
      ensures Exactly(old(rounds), round, actions)
    {
      hide WatchAfter, ObserveIn;
      actions := [];
      for i := 0 to |round.tokens|
        invariant rounds == old(rounds) && Midway(round, Visited(round.tokens, i))
        invariant forall a :: a in actions <==>
                    exists k :: 0 <= k < i && LastOutcome(rounds, round, round.tokens[k]).action == Some(a)
      {
        var token := round.tokens[i];
        OutcomeTwice(rounds, round, token);
        assert ObserveIn(round, token, WatchOf(token)) == LastOutcome(rounds, round, token);
        var action := ObserveToken(round, token);
        actions := actions + (if action.Some? then [action.value] else []);
      }
      hide LastOutcome;
      watches := map token | token in watches && token in round.tokens :: watches[token];
      rounds := rounds + [round];
      forall token ensures WatchOf(token) == WatchAfter(rounds, token) {
        WatchStep(old(rounds), round, token);
        assert token in Visited(round.tokens, |round.tokens|) <==> token in round.tokens;
      }
    }
  }

  function Visited(tokens: seq<Token>, n: nat): set<Token>
    requires n <= |tokens|
  {
    set k | 0 <= k < n :: tokens[k]
  }

  /**
   Over any run, the retirements of a round are exactly those whose chain is complete, and each
   one is proven low by the quotes of the rounds up to it.
   */
  method Run(rounds: seq<Round>) returns (retirements: seq<seq<Action>>)
    ensures |retirements| == |rounds|
    ensures forall i :: 0 <= i < |rounds| ==> Exactly(rounds[..i], rounds[i], retirements[i])
    ensures forall i, a :: 0 <= i < |rounds| && a in retirements[i] ==> ProvenLow(rounds[..i + 1], a)
  {
    hide ProvenLow, LastOutcome;
    var state := new Watches();
    retirements := [];
    for i := 0 to |rounds|
      invariant state.Valid() && fresh(state) && |retirements| == i && state.rounds == rounds[..i]
      invariant forall k :: 0 <= k < i ==> Exactly(rounds[..k], rounds[k], retirements[k])
      invariant forall k, a :: 0 <= k < i && a in retirements[k] ==> ProvenLow(rounds[..k + 1], a)
    {
      var actions := state.ObserveAll(rounds[i]);
      assert rounds[..i] + [rounds[i]] == rounds[..i + 1];
      forall a | a in actions ensures ProvenLow(rounds[..i + 1], a) {
        var token :| token in rounds[i].tokens && LastOutcome(rounds[..i], rounds[i], token).action == Some(a);
        RetirementIsProven(rounds[..i], rounds[i], token);
      }
      hide Exactly;
      retirements := retirements + [actions];
    }
  }
}
