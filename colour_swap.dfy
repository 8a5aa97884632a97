// The card-back colour pass of signals.js (`scoreRound`, `sourceCandidates`,
// `willRoundKeepSignal`, `solvePattern`): the backs of a round's first four
// cards are brought to the pattern BBBR or RRRB by exchanging cards of equal
// point value with other rounds, without taking a signal card away from a
// signal round or giving one to a round that should have none.
//
// A round's sandbox copy in `solvePattern` always equals the live first four
// cards (the only exchanges in that round hit position `p` and positions 4
// and 5), so the model reads the live rounds.

module ColourSwap {
  import opened Base
  import opened Cards
  import opened RoundSlots
  import opened JsRules
  import opened SignalCards

  /** The two back patterns; the back letter 'B' is `Black`, 'R' is `Red`. */
  const PAT1: seq<Color> := [Black, Black, Black, Red]
  const PAT2: seq<Color> := [Red, Red, Red, Black]

  /** How many leading cards a pattern governs: `Math.min(4, cards.length)`. */
  function Head(cs: seq<Card>): (n: nat)
    ensures n <= 4 && n <= |cs|
    ensures n == 4 || n == |cs|
  {
    if |cs| < 4 then |cs| else 4
  }

  /** The backs of the first `n` cards follow `pattern`. */
  predicate Follows(cs: seq<Card>, pattern: seq<Color>, n: nat)
  {
    n <= |cs| && n <= |pattern| && forall i :: 0 <= i < n ==> cs[i].back == Some(pattern[i])
  }

  /** A round whose head follows one of the two patterns. */
  predicate Settled(cs: seq<Card>)
  {
    Follows(cs, PAT1, Head(cs)) || Follows(cs, PAT2, Head(cs))
  }

  // ---- scoreRound ----

  /** How many of the first `n` backs agree with `pattern`. */
  function MatchCount(cs: seq<Card>, pattern: seq<Color>, n: nat): nat
    requires n <= |cs| && n <= |pattern|
  {
    if n == 0 then 0
    else MatchCount(cs, pattern, n - 1) + (if cs[n - 1].back == Some(pattern[n - 1]) then 1 else 0)
  }

  /** Every governed back agrees exactly when the match count is full. */
  lemma {:induction false} MatchCountFull(cs: seq<Card>, pattern: seq<Color>, n: nat)
    requires n <= |cs| && n <= |pattern|
    ensures MatchCount(cs, pattern, n) <= n
    ensures MatchCount(cs, pattern, n) == n <==> Follows(cs, pattern, n)
  {
    if n > 0 {
      MatchCountFull(cs, pattern, n - 1);
      if MatchCount(cs, pattern, n) == n {
        assert Follows(cs, pattern, n - 1);
      }
    }
  }

  datatype Score = Score(matched: nat, deficit: nat)

  /** `scoreRound`: of the governed backs, how many agree with the pattern and how many do not. */
  method ScoreRound(cs: seq<Card>, pattern: seq<Color>) returns (s: Score)
    requires |pattern| == 4
    ensures s.matched + s.deficit == Head(cs)
    ensures s.matched == MatchCount(cs, pattern, Head(cs))
    ensures s.deficit == 0 <==> Follows(cs, pattern, Head(cs))
  {
    var n := Head(cs);
    var m, d := 0, 0;
    for i := 0 to n
      invariant m == MatchCount(cs, pattern, i) && m + d == i
    {
      if cs[i].back == Some(pattern[i]) {
        m := m + 1;
      } else {
        d := d + 1;
      }
    }
    MatchCountFull(cs, pattern, n);
    s := Score(m, d);
  }

  /**
    * The pattern tried first. Scores of one round add up to the same total,
    * so this is PAT2 exactly when PAT2 matches more, and BBBR on a tie.
    */
  function FirstPattern(s1: Score, s2: Score): (p: seq<Color>)
    ensures p == PAT1 || p == PAT2
    ensures s1.matched + s1.deficit == s2.matched + s2.deficit ==> (p == PAT2 <==> s2.matched > s1.matched)
  {
    assert PAT1[0] != PAT2[0];
    if s1.matched > s2.matched || (s1.matched == s2.matched && s1.deficit < s2.deficit) then PAT1
    else if s2.matched > s1.matched then PAT2
    else PAT1
  }

  // ---- signal cards per round ----

  /** How many signal cards there are among `cs`. */
  function SigCount(cfg: SignalConfig, cs: seq<Card>): nat
  {
    if |cs| == 0 then 0 else (if IsSignalCard(cfg, cs[0]) then 1 else 0) + SigCount(cfg, cs[1..])
  }

  /** Some card other than the one at `removed` is a signal card. */
  predicate SignalAmong(cfg: SignalConfig, cs: seq<Card>, removed: int)
  {
    exists i :: 0 <= i < |cs| && i != removed && IsSignalCard(cfg, cs[i])
  }

  lemma {:induction false} SigCountPositive(cfg: SignalConfig, cs: seq<Card>)
    ensures SigCount(cfg, cs) > 0 <==> SignalAmong(cfg, cs, -1)
  {
    if |cs| > 0 {
      SigCountPositive(cfg, cs[1..]);
      if SignalAmong(cfg, cs[1..], -1) {
        var i :| 0 <= i < |cs[1..]| && IsSignalCard(cfg, cs[1..][i]);
        assert IsSignalCard(cfg, cs[i + 1]);
      }
      if SignalAmong(cfg, cs, -1) && !IsSignalCard(cfg, cs[0]) {
        var i :| 0 <= i < |cs| && IsSignalCard(cfg, cs[i]);
        assert cs[1..][i - 1] == cs[i];
      }
    }
  }

  /** Writing one card changes the signal count by what leaves and what comes in. */
  lemma {:induction false} SigCountPut(cfg: SignalConfig, cs: seq<Card>, i: nat, c: Card)
    requires i < |cs|
    ensures SigCount(cfg, cs[i := c]) + (if IsSignalCard(cfg, cs[i]) then 1 else 0)
            == SigCount(cfg, cs) + (if IsSignalCard(cfg, c) then 1 else 0)
  {
    if i > 0 {
      assert cs[i := c][1..] == cs[1..][i - 1 := c];
      SigCountPut(cfg, cs[1..], i - 1, c);
    } else {
      assert cs[i := c][1..] == cs[1..];
    }
  }

  /** A round keeps a signal card after its card at `removed` is replaced by `incoming`. */
  predicate KeepsSignal(cfg: SignalConfig, cs: seq<Card>, removed: nat, incoming: Card)
  {
    SignalAmong(cfg, cs, removed) || IsSignalCard(cfg, incoming)
  }

  /** What `willRoundKeepSignal` tests is that the round still holds a signal card after the exchange. */
  lemma KeepSignalMeans(cfg: SignalConfig, cs: seq<Card>, i: nat, c: Card)
    requires i < |cs|
    ensures KeepsSignal(cfg, cs, i, c) <==> SigCount(cfg, cs[i := c]) > 0
  {
    SigCountPositive(cfg, cs[i := c]);
    if SignalAmong(cfg, cs, i) {
      var j :| 0 <= j < |cs| && j != i && IsSignalCard(cfg, cs[j]);
      assert cs[i := c][j] == cs[j];
    }
    if IsSignalCard(cfg, c) {
      assert cs[i := c][i] == c;
    }
    if SignalAmong(cfg, cs[i := c], -1) && !IsSignalCard(cfg, c) {
      var j :| 0 <= j < |cs| && IsSignalCard(cfg, cs[i := c][j]);
      assert j != i && cs[j] == cs[i := c][j];
    }
  }

  /** `willRoundKeepSignal`: a signal card among the other cards, or an incoming signal card. */
  method WillRoundKeepSignal(cfg: SignalConfig, cs: seq<Card>, removedIdx: nat, incoming: Card) returns (b: bool)
    ensures b <==> KeepsSignal(cfg, cs, removedIdx, incoming)
  {
    var hasSignal := false;
    var i := 0;
    while i < |cs| && !hasSignal
      invariant 0 <= i <= |cs|
      invariant hasSignal <==> exists j :: 0 <= j < i && j != removedIdx && IsSignalCard(cfg, cs[j])
    {
      if i != removedIdx && IsSignalCard(cfg, cs[i]) {
        hasSignal := true;
      }
      i := i + 1;
    }
    if !hasSignal && IsSignalCard(cfg, incoming) {
      hasSignal := true;
    }
    b := hasSignal;
  }

  // ---- sourceCandidates ----

  /**
    * Where `sourceCandidates` may look for round `ridx`: its own positions 4
    * and 5; no fully locked round; a semi-locked round from position 4 on;
    * an earlier round at positions 4 and 5; a later round in its first four.
    */
  predicate Offerable(ridx: nat, lockedFull: set<nat>, semi: set<nat>, p: Place)
  {
    if p.r == ridx then p.c == 4 || p.c == 5
    else p.r !in lockedFull
         && (if p.r in semi then p.c >= 4 else if p.r < ridx then p.c == 4 || p.c == 5 else p.c < 4)
  }

  /** The numbers `lo`, `lo + 1`, ..., below `lo + len`. */
  function Range(lo: nat, len: nat): (qs: seq<nat>)
    ensures forall q: nat :: q in qs <==> lo <= q < lo + len
    ensures forall k :: 0 <= k < |qs| ==> qs[k] == lo + k
  {
    var qs := seq(len, k => lo + k);
    assert forall q: nat :: lo <= q < lo + len ==> q in qs by {
      forall q: nat | lo <= q < lo + len
        ensures q in qs
      {
        assert qs[q - lo] == q;
      }
    }
    qs
  }

  /** The positions searched in round `i`. */
  function Columns(i: nat, ridx: nat, semi: set<nat>, len: nat): (qs: seq<nat>)
    ensures forall q: nat :: q in qs <==> (if i in semi then 4 <= q < len else if i < ridx then q == 4 || q == 5 else q < 4)
  {
    if i in semi then Range(4, if len > 4 then len - 4 else 0)
    else if i < ridx then [4, 5]
    else Range(0, 4)
  }

  /** The positions `qs` of round `i` that exist and hold a card with back `need`, in order. */
  function Pick(rs: seq<Round>, need: Color, i: nat, qs: seq<nat>): (ps: seq<Place>)
    requires i < |rs|
    ensures forall p :: p in ps <==> p.r == i && p.c in qs && p.c < |rs[i].cards| && rs[i].cards[p.c].back == Some(need)
  {
    if |qs| == 0 then []
    else
      (if qs[0] < |rs[i].cards| && rs[i].cards[qs[0]].back == Some(need) then [Place(i, qs[0])] else [])
      + Pick(rs, need, i, qs[1..])
  }

  /** The rounds after `ridx`, then the rounds before it. */
  function SearchOrder(n: nat, ridx: nat): (order: seq<nat>)
    requires ridx < n
    ensures forall i: nat :: i in order <==> i < n && i != ridx
    ensures forall k :: 0 <= k < |order| ==> order[k] < n
  {
    Range(ridx + 1, n - ridx - 1) + Range(0, ridx)
  }

  function Search(rs: seq<Round>, need: Color, ridx: nat, order: seq<nat>, lockedFull: set<nat>, semi: set<nat>)
    : (ps: seq<Place>)
    requires forall k :: 0 <= k < |order| ==> order[k] < |rs|
    ensures forall p :: p in ps <==>
              p.r in order && p.r !in lockedFull && p.c in Columns(p.r, ridx, semi, |rs[p.r].cards|)
              && p.c < |rs[p.r].cards| && rs[p.r].cards[p.c].back == Some(need)
  {
    if |order| == 0 then []
    else
      var i := order[0];
      (if i in lockedFull then [] else Pick(rs, need, i, Columns(i, ridx, semi, |rs[i].cards|)))
      + Search(rs, need, ridx, order[1..], lockedFull, semi)
  }

  /** `sourceCandidates`: the places offering back `need` to round `ridx`, in the order they are tried. */
  function SourceCandidates(rs: seq<Round>, need: Color, ridx: nat, lockedFull: set<nat>, semi: set<nat>)
    : (ps: seq<Place>)
    requires ridx < |rs|
  {
    Pick(rs, need, ridx, [4, 5]) + Search(rs, need, ridx, SearchOrder(|rs|, ridx), lockedFull, semi)
  }

  /** A place is a candidate exactly when it exists, has back `need` and may be offered. */
  lemma CandidatesOfferable(rs: seq<Round>, need: Color, ridx: nat, lockedFull: set<nat>, semi: set<nat>)
    requires ridx < |rs|
    ensures forall p :: p in SourceCandidates(rs, need, ridx, lockedFull, semi) <==>
              IsPlace(rs, p) && CardAt(rs, p).back == Some(need) && Offerable(ridx, lockedFull, semi, p)
  {
    var order := SearchOrder(|rs|, ridx);
    forall p
      ensures p in SourceCandidates(rs, need, ridx, lockedFull, semi) <==>
              IsPlace(rs, p) && CardAt(rs, p).back == Some(need) && Offerable(ridx, lockedFull, semi, p)
    {
      if p.r < |rs| && p.r != ridx {
        assert p.r in order;
        assert p.c in Columns(p.r, ridx, semi, |rs[p.r].cards|) <==>
               (if p.r in semi then 4 <= p.c < |rs[p.r].cards| else if p.r < ridx then p.c == 4 || p.c == 5 else p.c < 4);
      }
    }
  }

  // ---- the protection rules of solvePattern ----

  /** Rule 1: the same rank, or (unless strict) two cards of the zero family 10, J, Q, K. */
  predicate RankAllowed(a: Card, b: Card, rankStrict: bool)
  {
    a.rank == b.rank || (!rankStrict && a.rank >= 10 && b.rank >= 10)
  }

  /**
    * Rules 1 and 2 for exchanging position `p` of round `ridx` with `cand`:
    * an allowed rank, and a signal card traded for a non-signal card only
    * between two signal rounds that both keep a signal card.
    */
  predicate Acceptable(cfg: SignalConfig, rs: seq<Round>, ridx: nat, p: nat, cand: Place, rankStrict: bool,
                       sRounds: set<nat>)
    requires IsPlace(rs, Place(ridx, p)) && IsPlace(rs, cand)
  {
    var cur := CardAt(rs, Place(ridx, p));
    var cc := CardAt(rs, cand);
    RankAllowed(cur, cc, rankStrict)
    && (IsSignalCard(cfg, cur) == IsSignalCard(cfg, cc)
        || (ridx in sRounds && cand.r in sRounds
            && KeepsSignal(cfg, rs[ridx].cards, p, cc) && KeepsSignal(cfg, rs[cand.r].cards, cand.c, cur)))
  }

  /** An allowed rank keeps the point value, and a strict one the rank. */
  lemma RankAllowedPoint(a: Card, b: Card, rankStrict: bool)
    requires RankAllowed(a, b, rankStrict)
    ensures CardPoint(a) == CardPoint(b)
    ensures rankStrict ==> a.rank == b.rank
  {
  }

  /** The candidate loop: the first candidate both rules accept, or none. */
  method FindSwap(cfg: SignalConfig, rs: seq<Round>, ridx: nat, p: nat, cands: seq<Place>, rankStrict: bool,
                  sRounds: set<nat>) returns (k: Option<nat>)
    requires IsPlace(rs, Place(ridx, p))
    requires forall j :: 0 <= j < |cands| ==> IsPlace(rs, cands[j])
    ensures k.None? <==> forall j :: 0 <= j < |cands| ==> !Acceptable(cfg, rs, ridx, p, cands[j], rankStrict, sRounds)
    ensures k.Some? ==> k.value < |cands| && Acceptable(cfg, rs, ridx, p, cands[k.value], rankStrict, sRounds)
    ensures k.Some? ==> forall j :: 0 <= j < k.value ==> !Acceptable(cfg, rs, ridx, p, cands[j], rankStrict, sRounds)
  {
    var cur := CardAt(rs, Place(ridx, p));
    var j := 0;
    while j < |cands|
      invariant j <= |cands|
      invariant forall i :: 0 <= i < j ==> !Acceptable(cfg, rs, ridx, p, cands[i], rankStrict, sRounds)
    {
      var cand := cands[j];
      var cc := CardAt(rs, cand);
      var ok := RankAllowed(cur, cc, rankStrict);
      if ok && IsSignalCard(cfg, cur) != IsSignalCard(cfg, cc) {
        if ridx in sRounds && cand.r in sRounds {
          var keepA := WillRoundKeepSignal(cfg, rs[ridx].cards, p, cc);
          var keepB := WillRoundKeepSignal(cfg, rs[cand.r].cards, cand.c, cur);
          ok := keepA && keepB;
        } else {
          ok := false;
        }
      }
      if ok {
        return Some(j);
      }
      j := j + 1;
    }
    return None;
  }

  // ---- what an exchange keeps ----

  /**
    * Outside the signal rounds every round keeps its number of signal cards;
    * a signal round holding a signal card still holds one.
    */
  ghost predicate SignalsKept(cfg: SignalConfig, a: seq<Round>, b: seq<Round>, sRounds: set<nat>)
  {
    |a| == |b|
    && forall k :: 0 <= k < |a| ==>
         (k !in sRounds ==> SigCount(cfg, b[k].cards) == SigCount(cfg, a[k].cards))
         && (k in sRounds && SigCount(cfg, a[k].cards) > 0 ==> SigCount(cfg, b[k].cards) > 0)
  }

  /** Only the first four places of round `ridx` and the places it may be offered have changed. */
  ghost predicate Confined(a: seq<Round>, b: seq<Round>, ridx: nat, lockedFull: set<nat>, semi: set<nat>)
  {
    SameShape(a, b)
    && forall q :: IsPlace(a, q) && !Offerable(ridx, lockedFull, semi, q) && !(q.r == ridx && q.c < 4)
         ==> CardAt(b, q) == CardAt(a, q)
  }

  /** The cards of every round after an exchange of `a` and `b`. */
  lemma SwapRoundCards(rs: seq<Round>, a: Place, b: Place, k: nat)
    requires IsPlace(rs, a) && IsPlace(rs, b) && k < |rs|
    ensures var x, y := CardAt(rs, a), CardAt(rs, b);
            SwapPlaces(rs, a, b)[k].cards ==
              if k == a.r && k == b.r then rs[k].cards[a.c := y][b.c := x]
              else if k == a.r then rs[k].cards[a.c := y]
              else if k == b.r then rs[k].cards[b.c := x]
              else rs[k].cards
  {
  }

  lemma SignalsStep(cfg: SignalConfig, rs0: seq<Round>, rs: seq<Round>, a: Place, b: Place, sRounds: set<nat>)
    requires IsPlace(rs, a) && IsPlace(rs, b) && SignalsKept(cfg, rs0, rs, sRounds)
    requires IsSignalCard(cfg, CardAt(rs, a)) == IsSignalCard(cfg, CardAt(rs, b))
             || (a.r in sRounds && b.r in sRounds
                 && KeepsSignal(cfg, rs[a.r].cards, a.c, CardAt(rs, b))
                 && KeepsSignal(cfg, rs[b.r].cards, b.c, CardAt(rs, a)))
    ensures SignalsKept(cfg, rs0, SwapPlaces(rs, a, b), sRounds)
  {
    var out := SwapPlaces(rs, a, b);
    var x, y := CardAt(rs, a), CardAt(rs, b);
    forall k | 0 <= k < |rs0|
      ensures k !in sRounds ==> SigCount(cfg, out[k].cards) == SigCount(cfg, rs0[k].cards)
      ensures k in sRounds && SigCount(cfg, rs0[k].cards) > 0 ==> SigCount(cfg, out[k].cards) > 0
    {
      SwapRoundCards(rs, a, b, k);
      var cs := rs[k].cards;
      if k == a.r && k == b.r {
        SigCountPut(cfg, cs, a.c, y);
        SigCountPut(cfg, cs[a.c := y], b.c, x);
        assert SigCount(cfg, out[k].cards) == SigCount(cfg, cs);
      } else if k == a.r {
        SigCountPut(cfg, cs, a.c, y);
        if IsSignalCard(cfg, x) != IsSignalCard(cfg, y) {
          KeepSignalMeans(cfg, cs, a.c, y);
        }
      } else if k == b.r {
        SigCountPut(cfg, cs, b.c, x);
        if IsSignalCard(cfg, x) != IsSignalCard(cfg, y) {
          KeepSignalMeans(cfg, cs, b.c, x);
        }
      }
    }
  }

  lemma PointsStep(rs0: seq<Round>, rs: seq<Round>, a: Place, b: Place, strict: bool)
    requires IsPlace(rs, a) && IsPlace(rs, b) && PointsKept(rs0, rs)
    requires CardPoint(CardAt(rs, a)) == CardPoint(CardAt(rs, b))
    requires strict ==> RanksKept(rs0, rs) && CardAt(rs, a).rank == CardAt(rs, b).rank
    ensures PointsKept(rs0, SwapPlaces(rs, a, b))
    ensures strict ==> RanksKept(rs0, SwapPlaces(rs, a, b))
  {
    var out := SwapPlaces(rs, a, b);
    SwapPlacesEffect(rs, a, b);
    SameShapeTrans(rs0, rs, out);
    SameShapePlaces(rs0, rs);
    forall p | IsPlace(rs0, p) && IsPlace(out, p)
      ensures CardPoint(CardAt(out, p)) == CardPoint(CardAt(rs0, p))
      ensures strict ==> CardAt(out, p).rank == CardAt(rs0, p).rank
    {
      assert CardAt(out, p) == CardAt(rs, Source(p, a, b));
    }
  }

  lemma ConfinedStep(rs0: seq<Round>, rs: seq<Round>, ridx: nat, lockedFull: set<nat>, semi: set<nat>,
                     p: nat, cand: Place)
    requires Confined(rs0, rs, ridx, lockedFull, semi)
    requires p < 4 && IsPlace(rs, Place(ridx, p)) && IsPlace(rs, cand) && Offerable(ridx, lockedFull, semi, cand)
    ensures Confined(rs0, SwapPlaces(rs, Place(ridx, p), cand), ridx, lockedFull, semi)
  {
    var out := SwapPlaces(rs, Place(ridx, p), cand);
    SwapPlacesEffect(rs, Place(ridx, p), cand);
    SameShapeTrans(rs0, rs, out);
    SameShapePlaces(rs0, rs);
  }

  // ---- solvePattern ----

  /** What holds after the first `p` governed positions of round `ridx` are done. */
  ghost predicate SolveInv(cfg: SignalConfig, rs: seq<Round>, out: seq<Round>, ridx: nat, pattern: seq<Color>,
                           lockedFull: set<nat>, semi: set<nat>, rankStrict: bool, sRounds: set<nat>, p: nat)
  {
    ridx < |rs|
    && PointsKept(rs, out) && (rankStrict ==> RanksKept(rs, out))
    && multiset(Flatten(out)) == multiset(Flatten(rs))
    && Follows(out[ridx].cards, pattern, p)
    && SignalsKept(cfg, rs, out, sRounds)
    && Confined(rs, out, ridx, lockedFull, semi)
  }

  /** One exchange with an accepted candidate keeps everything and settles position `p`. */
  lemma SolveStep(cfg: SignalConfig, rs: seq<Round>, out: seq<Round>, ridx: nat, pattern: seq<Color>,
                  lockedFull: set<nat>, semi: set<nat>, rankStrict: bool, sRounds: set<nat>, p: nat, cand: Place)
    requires SolveInv(cfg, rs, out, ridx, pattern, lockedFull, semi, rankStrict, sRounds, p)
    requires p < 4 && p < |pattern| && IsPlace(out, Place(ridx, p)) && IsPlace(out, cand)
    requires CardAt(out, cand).back == Some(pattern[p]) && Offerable(ridx, lockedFull, semi, cand)
    requires Acceptable(cfg, out, ridx, p, cand, rankStrict, sRounds)
    ensures SolveInv(cfg, rs, SwapPlaces(out, Place(ridx, p), cand), ridx, pattern, lockedFull, semi, rankStrict,
                     sRounds, p + 1)
  {
    var a := Place(ridx, p);
    var next := SwapPlaces(out, a, cand);
    RankAllowedPoint(CardAt(out, a), CardAt(out, cand), rankStrict);
    PointsStep(rs, out, a, cand, rankStrict);
    SwapPlacesMultiset(out, a, cand);
    SignalsStep(cfg, rs, out, a, cand, sRounds);
    ConfinedStep(rs, out, ridx, lockedFull, semi, p, cand);
    SwapPlacesEffect(out, a, cand);
    forall i | 0 <= i < p
      ensures next[ridx].cards[i] == out[ridx].cards[i]
    {
      assert CardAt(next, Place(ridx, i)) == CardAt(out, Place(ridx, i));
    }
    assert next[ridx].cards[p] == CardAt(out, cand);
  }

  /**
    * `solvePattern`: for each governed position whose back is wrong, exchange
    * it with the first acceptable candidate; give up at the first position
    * without one, keeping the exchanges made so far.
    *
    * Every exchange keeps each place's point value (and rank, when strict)
    * and the deck's cards; success means the head follows the pattern; the
    * signal rule holds throughout; and nothing outside the round's head and
    * the offerable places moves.
    */
  method SolvePattern(cfg: SignalConfig, rs: seq<Round>, ridx: nat, pattern: seq<Color>, lockedFull: set<nat>,
                      semi: set<nat>, rankStrict: bool, sRounds: set<nat>) returns (out: seq<Round>, ok: bool)
    requires ridx < |rs| && |pattern| == 4
    ensures PointsKept(rs, out) && (rankStrict ==> RanksKept(rs, out))
    ensures multiset(Flatten(out)) == multiset(Flatten(rs))
    ensures ok ==> Follows(out[ridx].cards, pattern, Head(rs[ridx].cards))
    ensures SignalsKept(cfg, rs, out, sRounds)
    ensures Confined(rs, out, ridx, lockedFull, semi)
  {
    out := rs;
    var n := Head(rs[ridx].cards);
    var p := 0;
    while p < n
      invariant p <= n
      invariant SolveInv(cfg, rs, out, ridx, pattern, lockedFull, semi, rankStrict, sRounds, p)
    {
      var next, found := SolveAt(cfg, rs, out, ridx, pattern, lockedFull, semi, rankStrict, sRounds, p);
      if !found {
        return out, false;
      }
      out := next;
      p := p + 1;
    }
    ok := true;
  }

  /**
    * One governed position of `solvePattern`: nothing when its back is
    * right, else the exchange with the first acceptable candidate, or
    * failure when there is none.
    */
  method SolveAt(cfg: SignalConfig, ghost rs: seq<Round>, out: seq<Round>, ridx: nat, pattern: seq<Color>,
                 lockedFull: set<nat>, semi: set<nat>, rankStrict: bool, sRounds: set<nat>, p: nat)
    returns (next: seq<Round>, found: bool)
    requires ridx < |rs| && p < Head(rs[ridx].cards) && |pattern| == 4
    requires SolveInv(cfg, rs, out, ridx, pattern, lockedFull, semi, rankStrict, sRounds, p)
    ensures found ==> SolveInv(cfg, rs, next, ridx, pattern, lockedFull, semi, rankStrict, sRounds, p + 1)
    ensures !found ==> next == out
  {
    assert |out[ridx].cards| == |rs[ridx].cards|;
    if out[ridx].cards[p].back == Some(pattern[p]) {
      return out, true;
    }
    var cands := SourceCandidates(out, pattern[p], ridx, lockedFull, semi);
    CandidatesOfferable(out, pattern[p], ridx, lockedFull, semi);
    var k := FindSwap(cfg, out, ridx, p, cands, rankStrict, sRounds);
    if k.None? {
      return out, false;
    }
    var cand := cands[k.value];
    assert cand in cands;
    SolveStep(cfg, rs, out, ridx, pattern, lockedFull, semi, rankStrict, sRounds, p, cand);
    return SwapPlaces(out, Place(ridx, p), cand), true;
  }
}
