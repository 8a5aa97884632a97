// Finding sensitive rounds: the left-to-right scan of a whole shoe
// (`scan_all_sensitive_rounds`, the same loop in every source file, each
// dealing with its own Simulator) and the
// reshuffle-and-rescan of a pool of unused cards
// (`multi_pass_candidates_from_cards_simple`, in its go/waa.py, script.js,
// red-zero-signal-test.js and signals_ui.js variants).

module Scan {
  import opened Base
  import opened Cards
  import opened Engine
  import opened NestedEngine
  import opened Shuffle

  /** `r` is the engine's record for a sensitive round of `d` starting at its `start`. */
  predicate ScannedRound(sim: Simulator, d: seq<Card>, r: Round)
  {
    r.start.At? && r.start.index >= 0
    && RoundAt(sim, d, r.start.index, false) == Some(r) && r.sensitive
  }

  lemma SensitiveNeedsFourCards(sim: Simulator, ps: seq<nat>, i: nat)
    requires Sensitive(sim, ps, i)
    ensures i + 4 <= |ps|
  {
  }

  /**
    * `scan_all_sensitive_rounds`: every start index whose round is sensitive,
    * in increasing order, each with the engine's record.
    */
  method ScanAllSensitiveRounds(sim: Simulator, d: seq<Card>) returns (out: seq<Round>)
    ensures forall k :: 0 <= k < |out| ==> ScannedRound(sim, d, out[k])
    ensures forall k1, k2 :: 0 <= k1 < k2 < |out| ==> StartIndex(out[k1]) < StartIndex(out[k2])
    ensures forall i: nat :: Sensitive(sim, Points(d), i) ==> RoundAt(sim, d, i, false).value in out
  {
    out := [];
    var last := |d| - 1;
    for i := 0 to if last < 0 then 0 else last
      invariant ScanInv(sim, d, out, i)
    {
      out := ScanOne(sim, d, out, i);
    }
    forall j: nat | Sensitive(sim, Points(d), j)
      ensures RoundAt(sim, d, j, false).value in out
    {
      SensitiveNeedsFourCards(sim, Points(d), j);
    }
  }

  /** The scan before index `i`: the sensitive rounds found so far, in start order. */
  ghost predicate ScanInv(sim: Simulator, d: seq<Card>, out: seq<Round>, i: nat)
  {
    (forall k :: 0 <= k < |out| ==> ScannedRound(sim, d, out[k]) && StartIndex(out[k]) < i)
    && (forall k1, k2 :: 0 <= k1 < k2 < |out| ==> StartIndex(out[k1]) < StartIndex(out[k2]))
    && (forall j: nat :: j < i && Sensitive(sim, Points(d), j) ==> RoundAt(sim, d, j, false).value in out)
  }

  /** One index of the scan: the round dealt there is kept when it is sensitive. */
  method ScanOne(sim: Simulator, d: seq<Card>, out: seq<Round>, i: nat) returns (out': seq<Round>)
    requires ScanInv(sim, d, out, i)
    ensures ScanInv(sim, d, out', i + 1)
  {
    out' := out;
    var r := SimulateWith(sim, d, i, false);
    if r.Some? {
      RoundAtFields(sim, d, i);
      if r.value.sensitive {
        out' := out + [r.value];
      }
    }
  }

  // ---- the reshuffle-and-rescan ----

  /**
    * The variants of `multi_pass_candidates_from_cards_simple`: the smallest
    * pool it accepts, how many cards the scan loop keeps back (`i < n - 3`
    * or `i < n - 1`), whether a round's `start_index` is its first card's
    * `pos` or, as in script.js, `ordered.pos` of the array (undefined), and
    * the Simulator the file deals with.
    */
  datatype MultiPassVariant = MultiPassVariant(minPool: nat, keepBack: nat, firstCardStart: bool, sim: Simulator)

  /** go/waa.py. */
  const WAA_VARIANT := MultiPassVariant(4, 3, true, WaaSimulator)
  /** red-zero-signal-test.js: the go/waa.py loop, dealt by its copy of the signals.js Simulator. */
  const RED_ZERO_VARIANT := MultiPassVariant(4, 3, true, SignalsSimulator)
  /** script.js: `start_index` is read from the array. */
  const SCRIPT_VARIANT := MultiPassVariant(4, 3, false, WaaSimulator)
  /** signals_ui.js and its copy in signals.js: pools of 2 cards, scan up to the last card. */
  const SIGNALS_VARIANT := MultiPassVariant(2, 1, true, SignalsSimulator)

  /** The start label a variant gives a round whose cards are `cs`. */
  function VariantStart(v: MultiPassVariant, cs: seq<Card>): Start
  {
    if v.firstCardStart && |cs| > 0 then At(cs[0].pos) else Undefined
  }

  /** The cards alone, dealt from their first card, form a sensitive round using all of them. */
  predicate SelfSensitive(sim: Simulator, cs: seq<Card>)
  {
    Sensitive(sim, Points(cs), 0) && Deal(sim, Points(cs), 0).value.len == |cs|
  }

  /** A round as the reshuffle-and-rescan emits it. */
  predicate CandidateRound(v: MultiPassVariant, r: Round)
  {
    SelfSensitive(v.sim, r.cards)
    && r.result == Won(HandOutcome(Deal(v.sim, Points(r.cards), 0).value))
    && r.sensitive && r.segment == NoSegment && !r.isT && !r.swapped
    && r.start == VariantStart(v, r.cards)
  }

  lemma FlattenAppend(rs: seq<Round>, r: Round)
    ensures Flatten(rs + [r]) == Flatten(rs) + r.cards
  {
    if |rs| > 0 {
      assert (rs + [r])[1..] == rs[1..] + [r];
      FlattenAppend(rs[1..], r);
    }
  }

  /** A sensitive round found inside a run is also sensitive on its own cards. */
  lemma SliceSelfSensitive(sim: Simulator, sh: seq<Card>, i: nat)
    requires Sensitive(sim, Points(sh), i)
    ensures i + Deal(sim, Points(sh), i).value.len <= |sh|
    ensures SelfSensitive(sim, sh[i..i + Deal(sim, Points(sh), i).value.len])
    ensures Deal(sim, Points(sh[i..i + Deal(sim, Points(sh), i).value.len]), 0) == Deal(sim, Points(sh), i)
  {
    var n := Deal(sim, Points(sh), i).value.len;
    assert Points(sh[i..i + n]) == Points(sh)[i..i + n];
    SensitiveOnOwnCards(sim, Points(sh), i);
  }

  /** The record the reshuffle-and-rescan emits for the pool cards `cs`. */
  function Candidate(v: MultiPassVariant, cs: seq<Card>, res: Label): Round
  {
    Round(VariantStart(v, cs), cs, res, true, NoSegment, false, false)
  }

  /** The temporary copies the rescan deals: the pool's cards renumbered by index. */
  predicate TempCopies(shuffled: seq<Card>, temp: seq<Card>)
  {
    |temp| == |shuffled| && Points(temp) == Points(shuffled)
    && forall k :: 0 <= k < |temp| ==> temp[k].pos == k
  }

  /** One kept round: the next slice of the shuffled pool, sensitive on its own cards. */
  lemma CandidateStep(v: MultiPassVariant, shuffled: seq<Card>, temp: seq<Card>, i: nat, r: Round, n: nat)
    requires Points(temp) == Points(shuffled)
    requires RoundAt(v.sim, temp, i, false) == Some(r) && r.sensitive && n == |r.cards|
    ensures i + n <= |shuffled|
    ensures CandidateRound(v, Candidate(v, shuffled[i..i + n], r.result))
  {
    RoundAtFields(v.sim, temp, i);
    var h := Deal(v.sim, Points(shuffled), i).value;
    assert Sensitive(v.sim, Points(shuffled), i);
    SliceSelfSensitive(v.sim, shuffled, i);
    var cs := shuffled[i..i + h.len];
    assert Deal(v.sim, Points(cs), 0) == Some(h);
    assert r.result == Won(HandOutcome(h));
  }

  /** Appending the next slice keeps the emitted cards within the scanned prefix. */
  lemma SliceStep(out: seq<Round>, shuffled: seq<Card>, i: nat, j: nat, r: Round)
    requires i <= j <= |shuffled| && r.cards == shuffled[i..j]
    requires multiset(Flatten(out)) <= multiset(shuffled[..i])
    ensures multiset(Flatten(out + [r])) <= multiset(shuffled[..j])
  {
    FlattenAppend(out, r);
    assert shuffled[..j] == shuffled[..i] + r.cards;
  }

  lemma PrefixGrows<T>(s: seq<T>, i: nat, j: nat)
    requires i <= j <= |s|
    ensures multiset(s[..i]) <= multiset(s[..j])
  {
    assert s[..j] == s[..i] + s[i..j];
  }

  /**
    * The mapping back to pool cards: the `n` pool cards dealt from `i`, in
    * dealing order, or nothing when two of them share a position.
    */
  method MapBack(shuffled: seq<Card>, i: nat, n: nat) returns (ordered: Option<seq<Card>>)
    requires i + n <= |shuffled|
    ensures ordered.Some? <==> DistinctPositions(shuffled[i..i + n])
    ensures ordered.Some? ==> ordered.value == shuffled[i..i + n]
  {
    var acc: seq<Card> := [];
    var seen: set<int> := {};
    for t := 0 to n
      invariant acc == shuffled[i..i + t] && seen == Positions(acc)
      invariant DistinctPositions(acc)
    {
      var oc := shuffled[i + t];
      if oc.pos in seen {
        var k :| 0 <= k < |acc| && acc[k].pos == oc.pos;
        assert shuffled[i..i + n][k] == acc[k] && shuffled[i..i + n][t] == oc;
        return None;
      }
      acc := acc + [oc];
      seen := seen + {oc.pos};
    }
    return Some(acc);
  }

  /**
    * The reference turn of the rescan at index `i` of the shuffled pool: no
    * complete round moves on by one; a complete round that is not sensitive
    * is skipped whole; a sensitive one is kept, as the record of its pool
    * cards, when those cards have distinct positions (otherwise the scan moves
    * on by one). Returns the round kept, if any, and the next index.
    */
  function RescanMove(v: MultiPassVariant, sh: seq<Card>, i: nat): (m: (Option<Round>, nat))
    requires i < |sh|
    ensures i < m.1 <= |sh|
  {
    match Deal(v.sim, Points(sh), i)
    case None => (None, i + 1)
    case Some(h) =>
      if !Sensitive(v.sim, Points(sh), i) then (None, i + h.len)
      else if DistinctPositions(sh[i..i + h.len]) then (Some(Candidate(v, sh[i..i + h.len], Won(HandOutcome(h)))), i + h.len)
      else (None, i + 1)
  }

  function Kept(found: Option<Round>): seq<Round>
  {
    if found.Some? then [found.value] else []
  }

  /**
    * The reference rescan from index `i`: the turns of `RescanMove` from left
    * to right while more than `keepBack` cards lie from the index on.
    */
  function GreedyRescan(v: MultiPassVariant, sh: seq<Card>, i: nat): seq<Round>
    requires i <= |sh|
    decreases |sh| - i
  {
    if i + v.keepBack >= |sh| then []
    else
      var m := RescanMove(v, sh, i);
      Kept(m.0) + GreedyRescan(v, sh, m.1)
  }

  /** What `multi_pass_candidates_from_cards_simple` finds for the draws `pick`. */
  function Rescanned(v: MultiPassVariant, pool: seq<Card>, pick: nat -> nat): seq<Round>
    requires ValidPick(pick)
  {
    if |pool| < v.minPool then [] else GreedyRescan(v, Shuffled(pool, pick), 0)
  }

  /** One step of the reference from an index it deals at. */
  lemma GreedyRescanUnfold(v: MultiPassVariant, sh: seq<Card>, i: nat)
    requires i + v.keepBack < |sh|
    ensures GreedyRescan(v, sh, i) == Kept(RescanMove(v, sh, i).0) + GreedyRescan(v, sh, RescanMove(v, sh, i).1)
  {
  }

  /** A turn of the rescan keeps what remains of the reference `whole` to scan. */
  lemma RescanAdvance(v: MultiPassVariant, sh: seq<Card>, whole: seq<Round>, out: seq<Round>, i: nat,
                      found: Option<Round>, next: nat)
    requires i + v.keepBack < |sh| && (found, next) == RescanMove(v, sh, i)
    requires out + GreedyRescan(v, sh, i) == whole
    ensures out + Kept(found) + GreedyRescan(v, sh, next) == whole
  {
    GreedyRescanUnfold(v, sh, i);
    var rest := GreedyRescan(v, sh, next);
    assert out + (Kept(found) + rest) == out + Kept(found) + rest;
  }

  /**
    * One turn of the rescan loop at index `i`: the round kept there, if any,
    * the temporary indices it used, and the next index to try.
    */
  method RescanAt(v: MultiPassVariant, shuffled: seq<Card>, temp: seq<Card>, i: nat, used: set<int>)
    returns (found: Option<Round>, tempIndices: set<int>, next: nat)
    requires TempCopies(shuffled, temp) && i < |temp|
    ensures i < next <= |temp|
    ensures found.Some? ==> found.value.cards == shuffled[i..next] && CandidateRound(v, found.value)
    ensures forall u :: u in tempIndices ==> i <= u < next
    ensures (forall u :: u in used ==> u < i) ==> (found, next) == RescanMove(v, shuffled, i)
    ensures i in used ==> found.None? && next == i + 1
  {
    found, tempIndices, next := None, {}, i + 1;
    if i !in used {
      var r := SimulateWith(v.sim, temp, i, false);
      if r.Some? {
        found, tempIndices, next := KeepRescanned(v, shuffled, temp, i, used, r.value);
      } else {
        assert Deal(v.sim, Points(shuffled), i).None?;
      }
    }
  }

  /** The rest of the turn once a round was dealt at `i` of the temporary copies. */
  method KeepRescanned(v: MultiPassVariant, shuffled: seq<Card>, temp: seq<Card>, i: nat, used: set<int>, r: Round)
    returns (found: Option<Round>, tempIndices: set<int>, next: nat)
    requires TempCopies(shuffled, temp) && i < |temp| && RoundAt(v.sim, temp, i, false) == Some(r)
    ensures i < next <= |temp|
    ensures found.Some? ==> found.value.cards == shuffled[i..next] && CandidateRound(v, found.value)
    ensures forall u :: u in tempIndices ==> i <= u < next
    ensures (forall u :: u in used ==> u < i) ==> (found, next) == RescanMove(v, shuffled, i)
  {
    found, tempIndices, next := None, {}, i + 1;
    RoundAtFields(v.sim, temp, i);
    var n := |r.cards|;
    assert r.cards == temp[i..i + n];
    var ids := set c | c in r.cards :: c.pos;
    if ids * used == {} {
      if !r.sensitive {
        next := i + n;
      } else {
        var ordered := MapBack(shuffled, i, n);
        if ordered.Some? {
          CandidateStep(v, shuffled, temp, i, r, n);
          found := Some(Candidate(v, ordered.value, r.result));
          tempIndices := ids;
          // `max(temp_indices) + 1`: the temporary copies are numbered by index.
          next := i + n;
        }
      }
    }
  }

  /**
    * `multi_pass_candidates_from_cards_simple`: shuffle a copy of the pool
    * with the draws `pick`, then rescan it.
    */
  method MultiPassCandidates(v: MultiPassVariant, pool: seq<Card>, pick: nat -> nat) returns (out: seq<Round>)
    requires ValidPick(pick)
    ensures |pool| < v.minPool ==> out == []
    ensures out == Rescanned(v, pool, pick)
    ensures forall k :: 0 <= k < |out| ==> CandidateRound(v, out[k])
    ensures multiset(Flatten(out)) <= multiset(pool)
  {
    out := [];
    if |pool| < v.minPool {
      return;
    }
    var a := new Card[|pool|](k requires 0 <= k < |pool| => pool[k]);
    assert a[..] == pool;
    ShuffleInPlace(a, pick);
    out := Rescan(v, a[..]);
  }

  /** The state of the rescan loop at index `i`: what it kept so far, and the temporary indices used. */
  predicate RescanInv(v: MultiPassVariant, shuffled: seq<Card>, out: seq<Round>, used: set<int>, i: nat)
  {
    i <= |shuffled|
    && (forall u :: u in used ==> u < i)
    && (forall k :: 0 <= k < |out| ==> CandidateRound(v, out[k]))
    && multiset(Flatten(out)) <= multiset(shuffled[..i])
    && out + GreedyRescan(v, shuffled, i) == GreedyRescan(v, shuffled, 0)
  }

  /** One turn of the rescan loop, with the bookkeeping of what it keeps. */
  method RescanTurn(v: MultiPassVariant, shuffled: seq<Card>, temp: seq<Card>, out: seq<Round>, used: set<int>, i: nat)
    returns (out': seq<Round>, used': set<int>, next: nat)
    requires TempCopies(shuffled, temp) && i + v.keepBack < |temp|
    requires RescanInv(v, shuffled, out, used, i)
    ensures i < next && RescanInv(v, shuffled, out', used', next)
    ensures out' == out + Kept(RescanMove(v, shuffled, i).0) && next == RescanMove(v, shuffled, i).1
  {
    var found, ids;
    found, ids, next := RescanAt(v, shuffled, temp, i, used);
    RescanAdvance(v, shuffled, GreedyRescan(v, shuffled, 0), out, i, found, next);
    if found.Some? {
      SliceStep(out, shuffled, i, next, found.value);
      out', used' := out + [found.value], used + ids;
    } else {
      PrefixGrows(shuffled, i, next);
      out', used' := out, used;
    }
  }

  /**
    * The rescan of a shuffled pool: deal renumbered copies from the left,
    * keep each sensitive round (mapped back to the pool's own cards, in
    * dealing order) and skip past every complete round. The rounds kept are
    * those of the reference `GreedyRescan`: disjoint pieces of the pool,
    * each a sensitive round on its own cards. The source's tests of used
    * temporary indices never fire, since every used index lies before the
    * one tried.
    */
  method Rescan(v: MultiPassVariant, shuffled: seq<Card>) returns (out: seq<Round>)
    ensures out == GreedyRescan(v, shuffled, 0)
    ensures forall k :: 0 <= k < |out| ==> CandidateRound(v, out[k])
    ensures multiset(Flatten(out)) <= multiset(shuffled)
  {
    out := [];
    // The temporary copies are renumbered with their indices; they are only
    // dealt, so only their points matter.
    var temp := Reindex(shuffled);
    PointsOfCopies(shuffled);
    var used: set<int> := {};
    var i := 0;
    while i < |temp| - v.keepBack
      invariant RescanInv(v, shuffled, out, used, i)
      decreases |temp| - i
    {
      out, used, i := RescanTurn(v, shuffled, temp, out, used, i);
    }
    assert GreedyRescan(v, shuffled, i) == [];
    PrefixGrows(shuffled, i, |shuffled|);
    assert shuffled[..|shuffled|] == shuffled;
  }
}
