// go/waa.py `enforce_tie_signal` and `validate_tie_signal`: every view that
// precedes a tie is made entirely of the tie suit, by exchanging suits with
// same-rank cards elsewhere, and is locked against the later balancing.

module TieSignal {
  import opened Base
  import opened Cards
  import opened Suits

  /** A possible donor for a card of rank `rank` in view `idx`: another view's unlocked tie-suit card of that rank. */
  predicate Donor(vs: Views, idx: nat, rank: Rank, tie: Suit, locked: set<Slot>, q: Slot)
  {
    IsSlot(vs, q) && q.k != idx && CardAt(vs, q).rank == rank && CardAt(vs, q).suit == tie && q !in locked
  }

  /** The donor search: the first donor in shoe order, or none. */
  method FindDonor(vs: Views, idx: nat, rank: Rank, tie: Suit, locked: set<Slot>) returns (d: Option<Slot>)
    ensures d.Some? ==> Donor(vs, idx, rank, tie, locked, d.value)
    ensures d.Some? ==> forall q :: Donor(vs, idx, rank, tie, locked, q) ==> !Before(q, d.value)
    ensures d.None? ==> forall q :: !Donor(vs, idx, rank, tie, locked, q)
  {
    for k := 0 to |vs|
      invariant forall q :: Donor(vs, idx, rank, tie, locked, q) ==> q.k >= k
    {
      if k == idx {
        continue;
      }
      for j := 0 to |vs[k]|
        invariant forall q :: Donor(vs, idx, rank, tie, locked, q) ==> q.k > k || (q.k == k && q.j >= j)
      {
        var c := vs[k][j];
        if c.rank == rank && c.suit == tie && Slot(k, j) !in locked {
          assert Donor(vs, idx, rank, tie, locked, Slot(k, j));
          return Some(Slot(k, j));
        }
      }
    }
    return None;
  }

  /**
    * One card of step 1: kept when it already has the tie suit, otherwise it
    * exchanges suits with the first donor; nothing when there is no donor.
    */
  method TieCard(cur: Views, here: Slot, tie: Suit, locked: set<Slot>) returns (r: Option<Views>)
    requires IsSlot(cur, here)
    ensures r.None? <==> CardAt(cur, here).suit != tie
                         && forall q :: !Donor(cur, here.k, CardAt(cur, here).rank, tie, locked, q)
    ensures r.Some? ==> SameButSuits(cur, r.value) && Conserved(cur, r.value)
    ensures r.Some? ==> CardAt(r.value, here).suit == tie
    ensures r.Some? ==> forall s :: s in locked && s != here && IsSlot(cur, s) ==> CardAt(r.value, s) == CardAt(cur, s)
  {
    if CardAt(cur, here).suit == tie {
      return Some(cur);
    }
    var d := FindDonor(cur, here.k, CardAt(cur, here).rank, tie, locked);
    if d.None? {
      return None;
    }
    SwapSuitsKeepsCounts(cur, here, d.value);
    return Some(SwapSuits(cur, here, d.value));
  }

  /** Every card of every view listed in `ix` has suit `t`. */
  ghost predicate Suited(vs: Views, ix: seq<nat>, t: Suit)
  {
    forall s :: IsSlot(vs, s) && s.k in ix ==> CardAt(vs, s).suit == t
  }

  /** `locked` holds exactly the cards of the views listed in `ix`. */
  ghost predicate LocksViews(vs: Views, ix: seq<nat>, locked: set<Slot>)
  {
    forall s :: s in locked <==> IsSlot(vs, s) && s.k in ix
  }

  /**
    * Step 1 of `enforce_tie_signal`: for each listed view, each card not yet
    * of the tie suit takes the tie suit from the first donor elsewhere; every
    * card of the view is then locked. Fails when some card has no donor.
    */
  method TieSwaps(vs: Views, ix: seq<nat>, tie: Suit) returns (r: Result<(Views, set<Slot>)>)
    requires forall a :: 0 <= a < |ix| ==> ix[a] < |vs|
    ensures r.Ok? ==> SameButSuits(vs, r.value.0) && Conserved(vs, r.value.0)
    ensures r.Ok? ==> Suited(r.value.0, ix, tie)
    ensures r.Ok? ==> LocksViews(vs, ix, r.value.1)
  {
    var cur := vs;
    var locked: set<Slot> := {};
    for t := 0 to |ix|
      invariant TieInv(vs, cur, ix, t, tie, locked)
    {
      var next := TieView(vs, cur, ix, t, tie, locked);
      if next.None? {
        return Err("Tie signal enforcement failed: no donor");
      }
      cur, locked := next.value.0, next.value.1;
    }
    assert ix[..|ix|] == ix;
    return Ok((cur, locked));
  }

  /** The loop invariant of step 1 after the first `t` listed views. */
  ghost predicate TieInv(vs: Views, cur: Views, ix: seq<nat>, t: nat, tie: Suit, locked: set<Slot>)
  {
    && t <= |ix|
    && SameButSuits(vs, cur) && Conserved(vs, cur)
    && LocksViews(vs, ix[..t], locked)
    && (forall s :: s in locked ==> CardAt(cur, s).suit == tie)
  }

  /** Step 1 for the listed view `ix[t]`: each of its cards takes the tie suit and is locked. */
  method TieView(ghost vs: Views, cur: Views, ix: seq<nat>, t: nat, tie: Suit, locked: set<Slot>)
    returns (r: Option<(Views, set<Slot>)>)
    requires t < |ix| && ix[t] < |vs| && TieInv(vs, cur, ix, t, tie, locked)
    ensures r.Some? ==> TieInv(vs, r.value.0, ix, t + 1, tie, r.value.1)
  {
    var idx := ix[t];
    var out, lk := cur, locked;
    for j := 0 to |out[idx]|
      invariant SameButSuits(vs, out) && Conserved(vs, out)
      invariant forall s :: s in lk <==> IsSlot(vs, s) && (s.k in ix[..t] || (s.k == idx && s.j < j))
      invariant forall s :: s in lk ==> CardAt(out, s).suit == tie
    {
      var here := Slot(idx, j);
      var next := TieCard(out, here, tie, lk);
      if next.None? {
        return None;
      }
      SameButSuitsTrans(vs, out, next.value);
      out := next.value;
      lk := lk + {here};
    }
    assert ix[..t + 1] == ix[..t] + [idx];
    return Some((out, lk));
  }

  /** The suits other than the tie suit, in suit order: `alt_suits`. */
  function AltSuits(tie: Suit): (alts: seq<Suit>)
    ensures |alts| == 3 && tie !in alts
  {
    if tie == Spade then [Heart, Diamond, Club]
    else if tie == Heart then [Spade, Diamond, Club]
    else if tie == Diamond then [Spade, Heart, Club]
    else [Spade, Heart, Diamond]
  }

  /** A view that step 2 breaks: not listed, not empty, and entirely of the tie suit. */
  predicate MonoTie(vs: Views, ix: seq<nat>, tie: Suit, k: nat)
    requires k < |vs|
  {
    k !in ix && |vs[k]| > 0 && AllOfSuit(vs[k], tie)
  }

  /**
    * Step 2 of `enforce_tie_signal`: a view outside the tie list made entirely
    * of the tie suit gets another suit on its first card, drawn by
    * `random.choice`; `altPick(k)` is that draw for view `k`. This overwrites a
    * suit, so it does not keep the faces of the shoe.
    */
  method BreakMonoTie(vs: Views, ix: seq<nat>, tie: Suit, altPick: nat -> nat) returns (out: Views)
    ensures SameButSuits(vs, out)
    ensures forall k :: 0 <= k < |vs| ==>
              out[k] == if MonoTie(vs, ix, tie, k)
                        then vs[k][0 := vs[k][0].(suit := AltSuits(tie)[altPick(k) % 3])]
                        else vs[k]
    ensures forall k :: 0 <= k < |out| && k !in ix && |out[k]| > 0 ==> !AllOfSuit(out[k], tie)
  {
    out := vs;
    for k := 0 to |vs|
      invariant |out| == |vs|
      invariant forall k' :: 0 <= k' < k ==>
                  out[k'] == if MonoTie(vs, ix, tie, k')
                             then vs[k'][0 := vs[k'][0].(suit := AltSuits(tie)[altPick(k') % 3])]
                             else vs[k']
      invariant forall k' :: k <= k' < |vs| ==> out[k'] == vs[k']
    {
      if k in ix {
        continue;
      }
      CountSuitFull(vs[k], tie);
      if CountSuit(vs[k], tie) == |vs[k]| && |vs[k]| > 0 {
        out := out[k := vs[k][0 := vs[k][0].(suit := AltSuits(tie)[altPick(k) % 3])]];
      }
    }
    forall k | 0 <= k < |out| && k !in ix && |out[k]| > 0
      ensures !AllOfSuit(out[k], tie)
    {
      if !MonoTie(vs, ix, tie, k) {
        assert out[k] == vs[k];
      } else {
        assert out[k][0].suit != tie;
      }
    }
  }

  /**
    * `enforce_tie_signal`: nothing without a tie suit; otherwise step 1 on the
    * views preceding a tie, then step 2. On success every card of those views
    * has the tie suit and is locked, and no other non-empty view is made of
    * the tie suit alone.
    */
  method EnforceTieSignal(vs: Views, results: seq<Label>, tie: Option<Suit>, altPick: nat -> nat)
    returns (r: Result<(Views, set<Slot>)>)
    requires |results| == |vs|
    ensures tie.None? ==> r == Ok((vs, {}))
    ensures r.Ok? ==> SameButSuits(vs, r.value.0)
    ensures r.Ok? && tie.Some? ==> Suited(r.value.0, TieIndices(results), tie.value)
    ensures r.Ok? && tie.Some? ==> LocksViews(vs, TieIndices(results), r.value.1)
    ensures r.Ok? && tie.Some? ==>
              forall k :: 0 <= k < |vs| && k !in TieIndices(results) && |vs[k]| > 0 ==> !AllOfSuit(r.value.0[k], tie.value)
  {
    if tie.None? {
      return Ok((vs, {}));
    }
    var ix := TieIndices(results);
    forall a | 0 <= a < |ix| ensures ix[a] < |vs| {
      assert ix[a] in ix;
    }
    var step1 := TieSwaps(vs, ix, tie.value);
    if step1.Err? {
      return Err(step1.msg);
    }
    var (mid, locked) := step1.value;
    var out := BreakMonoTie(mid, ix, tie.value, altPick);
    SameButSuitsTrans(vs, mid, out);
    assert Suited(out, ix, tie.value) by {
      forall s | IsSlot(out, s) && s.k in ix
        ensures CardAt(out, s).suit == tie.value
      {
        assert out[s.k] == mid[s.k];
      }
    }
    return Ok((out, locked));
  }

  /** `validate_tie_signal`: the views preceding a tie are all tie suit, and no other view holds it. */
  function ValidateTieSignal(vs: Views, results: seq<Label>, tie: Suit): (ok: bool)
    requires |results| == |vs|
    ensures ok <==> forall k, j :: 0 <= k < |vs| && 0 <= j < |vs[k]| ==> (vs[k][j].suit == tie <==> k in TieIndices(results))
  {
    var ix := TieIndices(results);
    (forall k, j :: 0 <= k < |vs| && k in ix && 0 <= j < |vs[k]| ==> vs[k][j].suit == tie)
    && (forall k, j :: 0 <= k < |vs| && k !in ix && 0 <= j < |vs[k]| ==> vs[k][j].suit != tie)
  }

  /** After a successful enforcement, validation fails only on a tie-suit card outside the tie views. */
  lemma ValidateAfterEnforce(vs: Views, results: seq<Label>, tie: Suit)
    requires |results| == |vs| && Suited(vs, TieIndices(results), tie)
    ensures ValidateTieSignal(vs, results, tie)
            <==> forall s :: IsSlot(vs, s) && s.k !in TieIndices(results) ==> CardAt(vs, s).suit != tie
  {
    var ix := TieIndices(results);
    if forall s :: IsSlot(vs, s) && s.k !in ix ==> CardAt(vs, s).suit != tie {
      forall k, j | 0 <= k < |vs| && 0 <= j < |vs[k]|
        ensures vs[k][j].suit == tie <==> k in ix
      {
        assert IsSlot(vs, Slot(k, j));
      }
    }
  }
}
