// The signal-card helpers of signals.js (shared with the red-zero test page
// and signals_ui.js): the stored signal configuration and its sanitising,
// the signal-card test, the two-pairs test, the simulated and the executed
// swap of a round's first two cards, the exhaustive "can these cards form a
// sensitive round" search, and the pass that retargets every round after a
// signal round (`analyze_signal_cards`, `analyze_red_zero_signals`). Every
// deal here is the signals.js Simulator's, which leaves Banker's third card
// out of Banker's total.

module SignalCards {
  import opened Base
  import opened Cards
  import opened Engine
  import opened NestedEngine
  import opened Perms

  // ---- the signal configuration ----

  const VALID_SUITS: seq<string> := ["♠", "♥", "♦", "♣"]
  const VALID_RANKS: seq<string> := ["A", "2", "3", "4", "5", "6", "7", "8", "9", "10", "J", "Q", "K"]

  /** A stored list field: an array of strings, or any other value. */
  datatype JsList = JsArray(items: seq<string>) | NotArray

  /** The stored configuration: an object with two list fields, or any other value. */
  datatype RawConfig = ConfigObject(suits: JsList, ranks: JsList) | NotObject

  datatype SignalConfig = SignalConfig(suits: seq<string>, ranks: seq<string>)

  /** `a` is `b` with some entries dropped, in their original order. */
  predicate Subsequence(a: seq<string>, b: seq<string>)
    decreases |b|
  {
    if |a| == 0 then true
    else if |b| == 0 then false
    else if a[0] == b[0] then Subsequence(a[1..], b[1..])
    else Subsequence(a, b[1..])
  }

  /** `values.filter(v => allowSet.has(v))`. */
  function Filter(xs: seq<string>, allowed: seq<string>): (r: seq<string>)
    ensures forall x :: x in r <==> x in xs && x in allowed
    ensures forall x :: x in allowed ==> Count(r, x) == Count(xs, x)
    ensures Subsequence(r, xs)
  {
    if |xs| == 0 then []
    else
      var rest := Filter(xs[1..], allowed);
      assert xs == [xs[0]] + xs[1..];
      if xs[0] in allowed then
        assert ([xs[0]] + rest)[1..] == rest;
        [xs[0]] + rest
      else
        assert |rest| > 0 ==> rest[0] in rest;
        rest
  }

  /** `sanitizeConfigArray`: no list unless the value is an array, else its allowed entries. */
  function SanitizeConfigArray(v: JsList, allowed: seq<string>): (r: seq<string>)
    ensures v.NotArray? ==> r == []
    ensures forall x :: x in r <==> v.JsArray? && x in v.items && x in allowed
    ensures v.JsArray? ==> Subsequence(r, v.items)
  {
    match v
    case NotArray => []
    case JsArray(items) => Filter(items, allowed)
  }

  /** `sanitizeSignalConfig`: empty lists for a non-object, else each list sanitised. */
  function SanitizeSignalConfig(c: RawConfig): (r: SignalConfig)
    ensures c.NotObject? ==> r.suits == [] && r.ranks == []
    ensures forall s :: s in r.suits ==> s in VALID_SUITS
    ensures forall s :: s in r.ranks ==> s in VALID_RANKS
    ensures c.ConfigObject? && c.suits.JsArray? ==> Subsequence(r.suits, c.suits.items)
    ensures c.ConfigObject? && c.ranks.JsArray? ==> Subsequence(r.ranks, c.ranks.items)
  {
    match c
    case NotObject => SignalConfig([], [])
    case ConfigObject(suits, ranks) =>
      SignalConfig(SanitizeConfigArray(suits, VALID_SUITS), SanitizeConfigArray(ranks, VALID_RANKS))
  }

  /** `Card.isSignalCard`: no card is a signal card unless both lists are set. */
  predicate IsSignalCard(cfg: SignalConfig, c: Card)
  {
    |cfg.suits| > 0 && |cfg.ranks| > 0 && SuitSymbol(c.suit) in cfg.suits && RankName(c.rank) in cfg.ranks
  }

  lemma CardNamesValid(c: Card)
    ensures SuitSymbol(c.suit) in VALID_SUITS
    ensures RankName(c.rank) in VALID_RANKS
  {
    var names := ["A", "2", "3", "4", "5", "6", "7", "8", "9", "10", "J", "Q", "K"];
    assert names == VALID_RANKS;
    assert RankName(c.rank) == VALID_RANKS[c.rank - 1];
  }

  /**
    * Through a sanitised configuration, a card is a signal card exactly when
    * its suit symbol and its rank name are both among the stored entries.
    */
  lemma SanitizedSignalCard(suits: seq<string>, ranks: seq<string>, c: Card)
    ensures IsSignalCard(SanitizeSignalConfig(ConfigObject(JsArray(suits), JsArray(ranks))), c)
            <==> SuitSymbol(c.suit) in suits && RankName(c.rank) in ranks
  {
    CardNamesValid(c);
    var cfg := SanitizeSignalConfig(ConfigObject(JsArray(suits), JsArray(ranks)));
    if SuitSymbol(c.suit) in suits && RankName(c.rank) in ranks {
      assert SuitSymbol(c.suit) in cfg.suits && RankName(c.rank) in cfg.ranks;
    }
  }

  // ---- two pairs ----

  function RankCount(cs: seq<Card>, r: Rank): (n: nat)
    ensures n <= |cs|
  {
    if |cs| == 0 then 0 else (if cs[0].rank == r then 1 else 0) + RankCount(cs[1..], r)
  }

  /** How many of the ranks `rs` occur exactly twice among the cards. */
  function PairedRanks(cs: seq<Card>, rs: seq<Rank>): nat
  {
    if |rs| == 0 then 0 else (if RankCount(cs, rs[0]) == 2 then 1 else 0) + PairedRanks(cs, rs[1..])
  }

  /** `hasTwoPairs`: at least four cards and at least two ranks that occur exactly twice. */
  predicate HasTwoPairs(cs: seq<Card>)
  {
    |cs| >= 4 && PairedRanks(cs, RANKS) >= 2
  }

  predicate PairAt(cs: seq<Card>, rs: seq<Rank>, i: nat)
  {
    i < |rs| && RankCount(cs, rs[i]) == 2
  }

  lemma {:induction false} PairedRanksOne(cs: seq<Card>, rs: seq<Rank>)
    ensures PairedRanks(cs, rs) >= 1 <==> exists i: nat :: PairAt(cs, rs, i)
  {
    if |rs| > 0 {
      PairedRanksOne(cs, rs[1..]);
      assert PairedRanks(cs, rs) == (if RankCount(cs, rs[0]) == 2 then 1 else 0) + PairedRanks(cs, rs[1..]);
      if RankCount(cs, rs[0]) == 2 {
        assert PairAt(cs, rs, 0);
      }
      if exists i: nat :: PairAt(cs, rs[1..], i) {
        var i: nat :| PairAt(cs, rs[1..], i);
        assert rs[1..][i] == rs[i + 1];
        assert PairAt(cs, rs, i + 1);
      }
      if exists i: nat :: PairAt(cs, rs, i) {
        var i: nat :| PairAt(cs, rs, i);
        if i > 0 {
          assert rs[1..][i - 1] == rs[i];
          assert PairAt(cs, rs[1..], i - 1);
        }
      }
    }
  }

  lemma {:induction false} PairedRanksTwo(cs: seq<Card>, rs: seq<Rank>)
    ensures PairedRanks(cs, rs) >= 2 <==> exists i: nat, j: nat :: i < j && PairAt(cs, rs, i) && PairAt(cs, rs, j)
  {
    if |rs| > 0 {
      PairedRanksOne(cs, rs[1..]);
      PairedRanksTwo(cs, rs[1..]);
      if exists i: nat, j: nat :: i < j && PairAt(cs, rs[1..], i) && PairAt(cs, rs[1..], j) {
        var i: nat, j: nat :| i < j && PairAt(cs, rs[1..], i) && PairAt(cs, rs[1..], j);
        assert PairAt(cs, rs, i + 1) && PairAt(cs, rs, j + 1);
      }
      if RankCount(cs, rs[0]) == 2 && exists i: nat :: PairAt(cs, rs[1..], i) {
        var i: nat :| PairAt(cs, rs[1..], i);
        assert PairAt(cs, rs, 0) && PairAt(cs, rs, i + 1);
      }
      if exists i: nat, j: nat :: i < j && PairAt(cs, rs, i) && PairAt(cs, rs, j) {
        var i: nat, j: nat :| i < j && PairAt(cs, rs, i) && PairAt(cs, rs, j);
        assert PairAt(cs, rs[1..], j - 1);
        if i > 0 {
          assert PairAt(cs, rs[1..], i - 1);
        }
      }
    }
  }

  lemma RanksInOrder()
    ensures |RANKS| == 13 && forall i :: 0 <= i < 13 ==> RANKS[i] == i + 1
  {
  }

  /** `hasTwoPairs` holds exactly when four or more cards hold two different ranks exactly twice each. */
  lemma HasTwoPairsIff(cs: seq<Card>)
    ensures HasTwoPairs(cs)
            <==> |cs| >= 4 && exists r1: Rank, r2: Rank :: r1 < r2 && RankCount(cs, r1) == 2 && RankCount(cs, r2) == 2
  {
    PairedRanksTwo(cs, RANKS);
    RanksInOrder();
    PairsAmongRanks(cs, RANKS);
  }

  lemma PairsAmongRanks(cs: seq<Card>, rs: seq<Rank>)
    requires |rs| == 13 && forall i :: 0 <= i < 13 ==> rs[i] == i + 1
    ensures (exists i: nat, j: nat :: i < j && PairAt(cs, rs, i) && PairAt(cs, rs, j))
            <==> exists r1: Rank, r2: Rank :: r1 < r2 && RankCount(cs, r1) == 2 && RankCount(cs, r2) == 2
  {
    if exists r1: Rank, r2: Rank :: r1 < r2 && RankCount(cs, r1) == 2 && RankCount(cs, r2) == 2 {
      var r1: Rank, r2: Rank :| r1 < r2 && RankCount(cs, r1) == 2 && RankCount(cs, r2) == 2;
      assert rs[r1 - 1] == r1 && rs[r2 - 1] == r2;
      assert PairAt(cs, rs, r1 - 1) && PairAt(cs, rs, r2 - 1);
    }
    if exists i: nat, j: nat :: i < j && PairAt(cs, rs, i) && PairAt(cs, rs, j) {
      var i: nat, j: nat :| i < j && PairAt(cs, rs, i) && PairAt(cs, rs, j);
      var r1: Rank, r2: Rank := rs[i], rs[j];
      assert r1 < r2 && RankCount(cs, r1) == 2 && RankCount(cs, r2) == 2;
    }
  }

  lemma RankCountCons(c: Card, cs: seq<Card>, r: Rank)
    ensures RankCount([c] + cs, r) == (if c.rank == r then 1 else 0) + RankCount(cs, r)
  {
    assert ([c] + cs)[1..] == cs;
  }

  /** The counts of the ranks of five cards, one by one. */
  lemma RankCountFive(c1: Card, c2: Card, c3: Card, c4: Card, c5: Card, r: Rank)
    ensures RankCount([c1, c2, c3, c4, c5], r)
            == (if c1.rank == r then 1 else 0) + (if c2.rank == r then 1 else 0) + (if c3.rank == r then 1 else 0)
               + (if c4.rank == r then 1 else 0) + (if c5.rank == r then 1 else 0)
  {
    RankCountCons(c5, [], r);
    assert [c5] == [c5] + [];
    RankCountCons(c4, [c5], r);
    RankCountCons(c3, [c4, c5], r);
    RankCountCons(c2, [c3, c4, c5], r);
    RankCountCons(c1, [c2, c3, c4, c5], r);
    assert [c1, c2, c3, c4, c5] == [c1] + [c2, c3, c4, c5];
    assert [c2, c3, c4, c5] == [c2] + [c3, c4, c5];
    assert [c3, c4, c5] == [c3] + [c4, c5];
    assert [c4, c5] == [c4] + [c5];
  }

  /** A triple is not a pair: three cards of one rank and two of another are not two pairs. */
  lemma TripleIsNoPair(a1: Card, a2: Card, a3: Card, b1: Card, b2: Card)
    requires a1.rank == a2.rank == a3.rank != b1.rank == b2.rank
    ensures !HasTwoPairs([a1, a2, a3, b1, b2])
  {
    HasTwoPairsIff([a1, a2, a3, b1, b2]);
    forall r: Rank
      ensures RankCount([a1, a2, a3, b1, b2], r) == 2 <==> r == b1.rank
    {
      RankCountFive(a1, a2, a3, b1, b2, r);
    }
  }

  /** Two cards of one rank, two of another and a fifth of a third rank are two pairs. */
  lemma TwoPairsOfFive(a1: Card, a2: Card, b1: Card, b2: Card, x: Card)
    requires a1.rank == a2.rank && b1.rank == b2.rank && a1.rank < b1.rank
    requires x.rank != a1.rank && x.rank != b1.rank
    ensures HasTwoPairs([a1, a2, b1, b2, x])
  {
    HasTwoPairsIff([a1, a2, b1, b2, x]);
    RankCountFive(a1, a2, b1, b2, x, a1.rank);
    RankCountFive(a1, a2, b1, b2, x, b1.rank);
  }

  // ---- the first-two-cards swap ----

  function LabelOf(o: Option<Outcome>): Label
  {
    match o
    case None => Missing
    case Some(x) => Won(x)
  }

  /**
    * `swapFirstTwoCards`: deal renumbered copies of the round's cards with
    * the first two exchanged, from the top and without the sensitivity test,
    * and read the outcome. The round itself is not touched.
    */
  function SwapFirstTwoCards(cs: seq<Card>): (o: Option<Outcome>)
    ensures |cs| < 2 ==> o.None?
    ensures |cs| >= 2 ==> o == (match SwapReplay(SignalsSimulator, Points(cs), 0)
                                case None => None
                                case Some(h) => Some(HandOutcome(h)))
  {
    if |cs| < 2 then None
    else
      var copies := Reindex(SwapAt(cs, 0));
      PointsOfCopies(SwapAt(cs, 0));
      PointsOfSwap(cs, 0);
      match RoundAt(SignalsSimulator, copies, 0, true)
      case None => None
      case Some(r) => Some(HandOutcome(Deal(SignalsSimulator, Points(copies), 0).value))
  }

  /** On a sensitive round the simulated swap exists, changes the outcome, and is no tie. */
  lemma SwapFirstOfSensitive(cs: seq<Card>)
    requires Sensitive(SignalsSimulator, Points(cs), 0)
    ensures SwapFirstTwoCards(cs).Some?
    ensures SwapFirstTwoCards(cs).value != HandOutcome(Deal(SignalsSimulator, Points(cs), 0).value)
    ensures SwapFirstTwoCards(cs).value != Tie
  {
    SensitiveNeedsFour(Points(cs));
  }

  lemma SensitiveNeedsFour(ps: seq<nat>)
    requires Sensitive(SignalsSimulator, ps, 0)
    ensures |ps| >= 4
  {
  }

  /** `executeCardSwap` on a card list: the first two cards exchanged, if there are two. */
  function SwapFront(cs: seq<Card>): (r: seq<Card>)
    ensures multiset(r) == multiset(cs) && |r| == |cs|
    ensures |cs| >= 2 ==> r[0] == cs[1] && r[1] == cs[0] && r[2..] == cs[2..]
    ensures |cs| < 2 ==> r == cs
  {
    if |cs| < 2 then cs
    else
      assert cs == [cs[0], cs[1]] + cs[2..];
      assert SwapAt(cs, 0) == [cs[1], cs[0]] + cs[2..];
      SwapAt(cs, 0)
  }

  lemma SwapFrontInvolution(cs: seq<Card>)
    ensures SwapFront(SwapFront(cs)) == cs
  {
    if |cs| >= 2 {
      assert SwapFront(SwapFront(cs)) == [cs[0], cs[1]] + cs[2..];
      assert cs == [cs[0], cs[1]] + cs[2..];
    }
  }

  /** `executeCardSwap` in place: only the entries 0 and 1 move. */
  method ExecuteCardSwap(a: array<Card>)
    modifies a
    ensures a[..] == SwapFront(old(a[..]))
  {
    if a.Length < 2 {
      return;
    }
    a[0], a[1] := a[1], a[0];
    assert a[..] == [a[0], a[1]] + a[2..];
  }

  // ---- can the cards form a sensitive round ----

  /**
    * `canFormSensitiveRound`: fewer than four cards cannot; otherwise try
    * every ordering, dealt as renumbered copies from the top, and report
    * whether one of them is a sensitive round.
    */
  method CanFormSensitiveRound(cs: seq<Card>) returns (b: bool)
    ensures b <==> |cs| >= 4 && exists p :: p in Permutations(cs) && Sensitive(SignalsSimulator, Points(p), 0)
  {
    if |cs| < 4 {
      return false;
    }
    var perms := Permutations(cs);
    for k := 0 to |perms|
      invariant forall j :: 0 <= j < k ==> !Sensitive(SignalsSimulator, Points(perms[j]), 0)
    {
      var temp := Reindex(perms[k]);
      PointsOfCopies(perms[k]);
      var r := SimulateRoundAsWritten(temp, 0, false);
      if r.Some? && r.value.sensitive {
        return true;
      }
    }
    return false;
  }

  /** The search is exhaustive: some ordering of the cards is a sensitive round. */
  lemma CanFormMeansSomeOrdering(cs: seq<Card>)
    ensures (exists p :: p in Permutations(cs) && Sensitive(SignalsSimulator, Points(p), 0))
            <==> exists p :: multiset(p) == multiset(cs) && Sensitive(SignalsSimulator, Points(p), 0)
  {
    if exists p :: multiset(p) == multiset(cs) && Sensitive(SignalsSimulator, Points(p), 0) {
      var p :| multiset(p) == multiset(cs) && Sensitive(SignalsSimulator, Points(p), 0);
      PermutationsComplete(cs, p);
    }
    if exists p :: p in Permutations(cs) && Sensitive(SignalsSimulator, Points(p), 0) {
      var p :| p in Permutations(cs) && Sensitive(SignalsSimulator, Points(p), 0);
      PermutationsSound(cs, p);
    }
  }

  /** Cards that are a sensitive round as they lie can form one. */
  lemma CanFormInOwnOrder(cs: seq<Card>)
    requires Sensitive(SignalsSimulator, Points(cs), 0)
    ensures |cs| >= 4 && exists p :: p in Permutations(cs) && Sensitive(SignalsSimulator, Points(p), 0)
  {
    SensitiveNeedsFour(Points(cs));
    CanFormMeansSomeOrdering(cs);
  }

  // ---- the follow-the-signal pass ----

  /** Which cards signal: a configured suit and rank (signals.js), or a red zero (red-zero test page). */
  datatype SignalRule = ConfiguredCards(cfg: SignalConfig) | RedZeros

  predicate IsSignal(rule: SignalRule, c: Card)
  {
    match rule
    case ConfiguredCards(cfg) => IsSignalCard(cfg, c)
    case RedZeros => IsRedZero(c)
  }

  predicate HasSignal(rule: SignalRule, cs: seq<Card>)
  {
    exists c :: c in cs && IsSignal(rule, c)
  }

  /** A round whose signal decides the next one: signals.js passes over T rounds. */
  predicate Decides(rule: SignalRule, prev: Round)
  {
    !(rule.ConfiguredCards? && prev.isT)
  }

  /**
    * The rule for the round after `prev`: after a signal round a non-Banker
    * round is swapped when the swap makes it Banker; after any other round a
    * Banker round is swapped when the swap makes it neither Banker nor, except
    * in the wrap-around step, a tie.
    */
  predicate Fires(prev: Round, next: Round, rule: SignalRule, wrap: bool)
  {
    Decides(rule, prev)
    && var s := SwapFirstTwoCards(next.cards);
       if HasSignal(rule, prev.cards) then next.result != Won(Banker) && s == Some(Banker)
       else next.result == Won(Banker) && s != Some(Banker) && (wrap || s != Some(Tie))
  }

  /** The round after its first two cards are exchanged and its result replaced by the swapped replay's. */
  function ApplySwap(r: Round): Round
  {
    r.(cards := SwapFront(r.cards), result := LabelOf(SwapFirstTwoCards(r.cards)), swapped := true)
  }

  function Follow(prev: Round, next: Round, rule: SignalRule, wrap: bool): Round
  {
    if Fires(prev, next, rule, wrap) then ApplySwap(next) else next
  }

  /** A round is changed exactly when the rule fires, and then only by the swap. */
  lemma FollowChanges(prev: Round, next: Round, rule: SignalRule, wrap: bool)
    ensures Follow(prev, next, rule, wrap) != next <==> Fires(prev, next, rule, wrap)
    ensures Follow(prev, next, rule, wrap) != next ==> Follow(prev, next, rule, wrap).result != next.result
    ensures multiset(Follow(prev, next, rule, wrap).cards) == multiset(next.cards)
    ensures Follow(prev, next, rule, wrap).isT == next.isT
  {
  }

  /** The swap keeps what the rule reads from a round as the previous one. */
  lemma FollowKeepsSignal(prev: Round, next: Round, rule: SignalRule, wrap: bool)
    ensures Follow(prev, next, rule, wrap).isT == next.isT
    ensures HasSignal(rule, Follow(prev, next, rule, wrap).cards) == HasSignal(rule, next.cards)
  {
    var f := Follow(prev, next, rule, wrap);
    assert forall c :: c in f.cards <==> c in multiset(f.cards);
    assert forall c :: c in next.cards <==> c in multiset(next.cards);
  }

  /** How many of the first `n` rounds differ between two lists. */
  function Changed(a: seq<Round>, b: seq<Round>, n: nat): (d: nat)
    requires n <= |a| && n <= |b|
    ensures d <= n
  {
    if n == 0 then 0 else Changed(a, b, n - 1) + (if a[n - 1] != b[n - 1] then 1 else 0)
  }

  lemma {:induction false} ChangedFrame(a: seq<Round>, b: seq<Round>, c: seq<Round>, n: nat)
    requires n <= |a| && n <= |b| && n <= |c|
    requires forall k :: 0 <= k < n ==> b[k] == c[k]
    ensures Changed(a, b, n) == Changed(a, c, n)
  {
    if n > 0 {
      ChangedFrame(a, b, c, n - 1);
    }
  }

  lemma {:induction false} ChangedAtZero(a: seq<Round>, b: seq<Round>, c: seq<Round>, n: nat)
    requires 1 <= n <= |a| && n <= |b| && n <= |c|
    requires a[0] == b[0] && forall k :: 1 <= k < n ==> b[k] == c[k]
    ensures Changed(a, c, n) == Changed(a, b, n) + (if c[0] != a[0] then 1 else 0)
  {
    if n > 1 {
      ChangedAtZero(a, b, c, n - 1);
    }
  }

  /** How many of the first `n` rounds signal and decide. */
  function Signalling(a: seq<Round>, rule: SignalRule, n: nat): (s: nat)
    requires n <= |a|
    ensures s <= n
  {
    if n == 0 then 0
    else Signalling(a, rule, n - 1) + (if Decides(rule, a[n - 1]) && HasSignal(rule, a[n - 1].cards) then 1 else 0)
  }

  /** One step of the pass in the source's branch order. */
  method FollowOne(prev: Round, next: Round, rule: SignalRule, wrap: bool)
    returns (r: Round, fired: bool, signalled: bool)
    ensures r == Follow(prev, next, rule, wrap)
    ensures fired <==> Fires(prev, next, rule, wrap)
    ensures signalled <==> Decides(rule, prev) && HasSignal(rule, prev.cards)
  {
    r, fired, signalled := next, false, false;
    if !Decides(rule, prev) {
      return;
    }
    if exists c :: c in prev.cards && IsSignal(rule, c) {
      signalled := true;
      if next.result != Won(Banker) {
        var swappedResult := SwapFirstTwoCards(next.cards);
        if swappedResult == Some(Banker) {
          r, fired := ApplySwap(next), true;
        }
      }
    } else if next.result == Won(Banker) {
      var swappedResult := SwapFirstTwoCards(next.cards);
      if swappedResult != Some(Banker) && (wrap || swappedResult != Some(Tie)) {
        r, fired := ApplySwap(next), true;
      }
    }
  }

  /** The rule reads only the previous round's T flag and whether it signals. */
  lemma FollowReadsSignalOnly(p: Round, q: Round, next: Round, rule: SignalRule, wrap: bool)
    requires p.isT == q.isT && HasSignal(rule, p.cards) == HasSignal(rule, q.cards)
    ensures Follow(p, next, rule, wrap) == Follow(q, next, rule, wrap)
    ensures Fires(p, next, rule, wrap) == Fires(q, next, rule, wrap)
  {
  }

  /** Inside the pass, the round before the next one reads as it did before the pass. */
  lemma PrevSignals(before: seq<Round>, cur: seq<Round>, i: nat, rule: SignalRule)
    requires i < |before| == |cur|
    requires i == 0 ==> cur[0] == before[0]
    requires i > 0 ==> cur[i] == Follow(before[i - 1], before[i], rule, false)
    ensures cur[i].isT == before[i].isT && HasSignal(rule, cur[i].cards) == HasSignal(rule, before[i].cards)
  {
    if i > 0 {
      FollowKeepsSignal(before[i - 1], before[i], rule, false);
    }
  }

  /** After `i` steps: rounds 1..i follow their predecessors, the others are as before. */
  predicate PassState(before: seq<Round>, cur: seq<Round>, i: nat, rule: SignalRule)
  {
    i < |before| == |cur|
    && (forall k :: 1 <= k <= i ==> cur[k] == Follow(before[k - 1], before[k], rule, false))
    && cur[0] == before[0]
    && (forall k :: i < k < |before| ==> cur[k] == before[k])
  }

  /** One step of the pass keeps the loop's account of the rounds. */
  lemma FollowStep(before: seq<Round>, prior: seq<Round>, i: nat, rule: SignalRule, prev: Round, r: Round)
    requires PassState(before, prior, i, rule) && i + 1 < |before|
    requires prev == prior[i] && r == Follow(prev, prior[i + 1], rule, false)
    ensures prior[i + 1] == before[i + 1]
    ensures r == Follow(before[i], before[i + 1], rule, false)
    ensures Fires(prev, prior[i + 1], rule, false) == Fires(before[i], before[i + 1], rule, false)
    ensures Decides(rule, prev) == Decides(rule, before[i])
    ensures HasSignal(rule, prev.cards) == HasSignal(rule, before[i].cards)
    ensures PassState(before, prior[i + 1 := r], i + 1, rule)
    ensures Changed(before, prior[i + 1 := r], i + 2)
            == Changed(before, prior, i + 1) + (if Fires(before[i], before[i + 1], rule, false) then 1 else 0)
  {
    assert prior[i + 1] == before[i + 1];
    assert prev.isT == before[i].isT && HasSignal(rule, prev.cards) == HasSignal(rule, before[i].cards) by {
      PrevSignals(before, prior, i, rule);
    }
    FollowReadsSignalOnly(prev, before[i], before[i + 1], rule, false);
    var after := prior[i + 1 := r];
    assert PassState(before, after, i + 1, rule);
    assert Changed(before, after, i + 2)
           == Changed(before, prior, i + 1) + (if Fires(before[i], before[i + 1], rule, false) then 1 else 0) by {
      FollowChanges(before[i], before[i + 1], rule, false);
      ChangedFrame(before, prior, after, i + 1);
    }
  }

  /** The wrap-around step: the first round follows the last. */
  lemma WrapStep(before: seq<Round>, prior: seq<Round>, rule: SignalRule, prev: Round, r: Round)
    requires |before| > 1 && PassState(before, prior, |before| - 1, rule)
    requires prev == prior[|before| - 1] && r == Follow(prev, prior[0], rule, true)
    ensures r == Follow(before[|before| - 1], before[0], rule, true)
    ensures Fires(prev, prior[0], rule, true) == Fires(before[|before| - 1], before[0], rule, true)
    ensures Decides(rule, prev) == Decides(rule, before[|before| - 1])
    ensures HasSignal(rule, prev.cards) == HasSignal(rule, before[|before| - 1].cards)
    ensures forall k :: 1 <= k < |before| ==> prior[0 := r][k] == Follow(before[k - 1], before[k], rule, false)
    ensures Changed(before, prior[0 := r], |before|)
            == Changed(before, prior, |before|) + (if Fires(before[|before| - 1], before[0], rule, true) then 1 else 0)
  {
    var n := |before|;
    PrevSignals(before, prior, n - 1, rule);
    FollowReadsSignalOnly(prev, before[n - 1], before[0], rule, true);
    FollowChanges(before[n - 1], before[0], rule, true);
    ChangedAtZero(before, prior, prior[0 := r], n);
  }

  /**
    * `analyze_signal_cards` (rule `ConfiguredCards`, with the wrap-around
    * step from the last round to the first) and `analyze_red_zero_signals`
    * (rule `RedZeros`, no wrap-around). Every round after the first follows
    * its predecessor by the rule, the first follows the last when wrapping,
    * and the adjustments counted are exactly the rounds changed.
    */
  method AnalyzeSignals(rounds: array<Round>, rule: SignalRule, wrap: bool)
    returns (adjustments: nat, signalRounds: nat)
    modifies rounds
    ensures forall k :: 1 <= k < rounds.Length
                        ==> rounds[k] == Follow(old(rounds[k - 1]), old(rounds[k]), rule, false)
    ensures rounds.Length > 0
            ==> rounds[0] == if wrap && rounds.Length > 1
                             then Follow(old(rounds[rounds.Length - 1]), old(rounds[0]), rule, true)
                             else old(rounds[0])
    ensures adjustments == Changed(old(rounds[..]), rounds[..], rounds.Length)
    ensures rounds.Length > 0
            ==> signalRounds == Signalling(old(rounds[..]), rule, rounds.Length - 1)
                                + (if wrap && rounds.Length > 1 && Decides(rule, old(rounds[rounds.Length - 1]))
                                      && HasSignal(rule, old(rounds[rounds.Length - 1]).cards) then 1 else 0)
  {
    adjustments, signalRounds := 0, 0;
    if rounds.Length == 0 {
      return;
    }
    ghost var before := rounds[..];
    adjustments, signalRounds := FollowPass(rounds, rule);
    if wrap && rounds.Length > 1 {
      var fired, signalled := WrapPass(rounds, rule, before);
      if fired {
        adjustments := adjustments + 1;
      }
      if signalled {
        signalRounds := signalRounds + 1;
      }
    }
  }

  /** The pass from the second round to the last. */
  method FollowPass(rounds: array<Round>, rule: SignalRule) returns (adjustments: nat, signalRounds: nat)
    requires rounds.Length > 0
    modifies rounds
    ensures PassState(old(rounds[..]), rounds[..], rounds.Length - 1, rule)
    ensures adjustments == Changed(old(rounds[..]), rounds[..], rounds.Length)
    ensures signalRounds == Signalling(old(rounds[..]), rule, rounds.Length - 1)
  {
    adjustments, signalRounds := 0, 0;
    var n := rounds.Length;
    ghost var before := rounds[..];
    var i := 0;
    while i + 1 < n
      invariant PassState(before, rounds[..], i, rule)
      invariant adjustments == Changed(before, rounds[..], i + 1)
      invariant signalRounds == Signalling(before, rule, i)
    {
      ghost var prior := rounds[..];
      var prev := rounds[i];
      var r, fired, signalled := FollowOne(prev, rounds[i + 1], rule, false);
      FollowStep(before, prior, i, rule, prev, r);
      rounds[i + 1] := r;
      assert rounds[..] == prior[i + 1 := r];
      if fired {
        adjustments := adjustments + 1;
      }
      if signalled {
        signalRounds := signalRounds + 1;
      }
      i := i + 1;
    }
  }

  /** The wrap-around step after the pass: the first round follows the last. */
  method WrapPass(rounds: array<Round>, rule: SignalRule, ghost before: seq<Round>) returns (fired: bool, signalled: bool)
    requires rounds.Length > 1 && PassState(before, rounds[..], rounds.Length - 1, rule)
    modifies rounds
    ensures forall k :: 1 <= k < rounds.Length ==> rounds[k] == Follow(before[k - 1], before[k], rule, false)
    ensures rounds[0] == Follow(before[rounds.Length - 1], before[0], rule, true)
    ensures Changed(before, rounds[..], rounds.Length)
            == Changed(before, old(rounds[..]), rounds.Length) + (if fired then 1 else 0)
    ensures signalled <==> Decides(rule, before[rounds.Length - 1]) && HasSignal(rule, before[rounds.Length - 1].cards)
  {
    var n := rounds.Length;
    ghost var prior := rounds[..];
    var prev := rounds[n - 1];
    var r;
    r, fired, signalled := FollowOne(prev, rounds[0], rule, true);
    WrapStep(before, prior, rule, prev, r);
    rounds[0] := r;
    assert rounds[..] == prior[0 := r];
  }
}
