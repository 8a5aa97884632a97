// go/waa.py `_apply_color_rule_for_shoe`: the red/black colour written on
// every card of a finished shoe. The first four cards of each round (and of
// the tail) follow black-black-black-red or red-red-red-black; the rest of a
// half-and-half quota is dealt at random to the cards still uncoloured.

module Colour {
  import opened Base
  import opened Cards
  import opened Suits
  import opened Shuffle

  /** `pat1` (black, black, black, red) and `pat2` (red, red, red, black). */
  datatype Pattern = BlackFirst | RedFirst

  function PatternColour(p: Pattern, i: nat): Color
  {
    if p == BlackFirst then (if i < 3 then Black else Red) else (if i < 3 then Red else Black)
  }

  /** How many of the first `k` colours of the pattern are `c`: `pat[:k].count(c)`. */
  function Need(p: Pattern, k: nat, c: Color): (n: nat)
    ensures n <= k
  {
    if k == 0 then 0 else Need(p, k - 1, c) + (if PatternColour(p, k - 1) == c then 1 else 0)
  }

  /** The patterned prefix of a card list: `min(4, len(seq))`. */
  function PrefixLen(cs: seq<Card>): (k: nat)
    ensures k <= 4 && k <= |cs| && (k == 4 || k == |cs|)
  {
    if |cs| < 4 then |cs| else 4
  }

  /** The pattern can be paid out of the remaining quotas. */
  predicate Fits(p: Pattern, k: nat, red: nat, black: nat)
  {
    Need(p, k, Red) <= red && Need(p, k, Black) <= black
  }

  /** The first cards of `cs` carry the colours of pattern `p`. */
  predicate Follows(cs: seq<Card>, p: Pattern)
  {
    forall i :: 0 <= i < PrefixLen(cs) ==> cs[i].color == Some(PatternColour(p, i))
  }

  /** The first cards of `cs` follow one of the two patterns. */
  ghost predicate Patterned(cs: seq<Card>)
  {
    exists p :: Follows(cs, p)
  }

  /** Every card keeps everything but its colour. */
  ghost predicate SameButColours(a: Views, b: Views)
  {
    SameShape(a, b)
    && forall s :: IsSlot(a, s) ==> CardAt(b, s) == CardAt(a, s).(color := CardAt(b, s).color)
  }

  lemma SameButColoursTrans(a: Views, b: Views, c: Views)
    requires SameButColours(a, b) && SameButColours(b, c)
    ensures SameButColours(a, c)
  {
    forall s | IsSlot(a, s)
      ensures CardAt(c, s) == CardAt(a, s).(color := CardAt(c, s).color)
    {
      assert IsSlot(b, s);
    }
  }

  // ---- colour counts ----

  function ColoursOf(cs: seq<Card>): (r: seq<Option<Color>>)
    ensures |r| == |cs|
    ensures forall i :: 0 <= i < |cs| ==> r[i] == cs[i].color
  {
    seq(|cs|, i requires 0 <= i < |cs| => cs[i].color)
  }

  /** How many cards of the views have colour `x` (`None`: not coloured yet). */
  function ColourCount(vs: Views, x: Option<Color>): (n: nat)
    ensures n == multiset(ColoursOf(Concat(vs)))[x]
  {
    Count(ColoursOf(Concat(vs)), x)
  }

  /** The views with the card at `s` given colour `c`. */
  function SetColour(vs: Views, s: Slot, c: Color): (r: Views)
    requires IsSlot(vs, s)
    ensures SameButColours(vs, r)
    ensures CardAt(r, s).color == Some(c)
    ensures forall q :: IsSlot(vs, q) && q != s ==> CardAt(r, q) == CardAt(vs, q)
  {
    vs[s.k := vs[s.k][s.j := CardAt(vs, s).(color := Some(c))]]
  }

  /** Writing one colour moves one card from its old colour count to the new one. */
  lemma SetColourCounts(vs: Views, s: Slot, c: Color)
    requires IsSlot(vs, s)
    ensures forall x :: ColourCount(SetColour(vs, s, c), x)
                        == ColourCount(vs, x) - (if CardAt(vs, s).color == x then 1 else 0) + (if Some(c) == x then 1 else 0)
  {
    var card := CardAt(vs, s).(color := Some(c));
    UpdateInConcat(vs, s, card);
    var cs := Concat(vs);
    var i := Offset(vs, s.k) + s.j;
    assert ColoursOf(cs[i := card]) == ColoursOf(cs)[i := Some(c)];
    MultisetUpdate(ColoursOf(cs), i, Some(c));
    assert ColoursOf(cs)[i] in multiset(ColoursOf(cs));
  }

  /** No card is coloured yet. */
  predicate Uncoloured(vs: Views)
  {
    forall k, j :: 0 <= k < |vs| && 0 <= j < |vs[k]| ==> vs[k][j].color.None?
  }

  /** Every card is coloured. */
  predicate AllColoured(vs: Views)
  {
    forall k, j :: 0 <= k < |vs| && 0 <= j < |vs[k]| ==> vs[k][j].color.Some?
  }

  function CardTotal(vs: Views): nat
  {
    |Concat(vs)|
  }

  lemma {:induction false} UncolouredCounts(vs: Views)
    requires Uncoloured(vs)
    ensures ColourCount(vs, None) == CardTotal(vs)
    ensures ColourCount(vs, Some(Red)) == 0 && ColourCount(vs, Some(Black)) == 0
  {
    var cs := ColoursOf(Concat(vs));
    forall i | 0 <= i < |cs| ensures cs[i] == None {
      ConcatMember(vs, i);
    }
    assert multiset(cs)[None] == |cs| by {
      NoneEverywhere(cs);
    }
  }

  /** Every card of the concatenation sits in some view. */
  lemma {:induction false} ConcatMember(vs: Views, i: nat)
    requires i < |Concat(vs)|
    ensures exists k, j :: 0 <= k < |vs| && 0 <= j < |vs[k]| && Concat(vs)[i] == vs[k][j]
  {
    if i < |vs[0]| {
      assert Concat(vs)[i] == vs[0][i];
    } else {
      ConcatMember(vs[1..], i - |vs[0]|);
      var k, j :| 0 <= k < |vs[1..]| && 0 <= j < |vs[1..][k]| && Concat(vs[1..])[i - |vs[0]|] == vs[1..][k][j];
      assert Concat(vs)[i] == vs[k + 1][j];
    }
  }

  lemma {:induction false} NoneEverywhere(cs: seq<Option<Color>>)
    requires forall i :: 0 <= i < |cs| ==> cs[i] == None
    ensures multiset(cs)[None] == |cs|
  {
    if |cs| > 0 {
      assert cs == [cs[0]] + cs[1..];
      NoneEverywhere(cs[1..]);
    }
  }

  // ---- step 1: the first four of each card list ----

  const QuotaShort := "colour quota short: no first-four pattern fits"
  const PoolShort := "colour quota short: more uncoloured cards than remaining quota"

  /**
    * The colouring loop of `assign_first_four` for card list `t`: the first
    * cards take the colours of pattern `p`, one at a time.
    */
  method PaintPrefix(cur: Views, t: nat, p: Pattern) returns (out: Views)
    requires t < |cur|
    ensures SameButColours(cur, out)
    ensures Follows(out[t], p)
    ensures forall j :: PrefixLen(cur[t]) <= j < |cur[t]| ==> out[t][j] == cur[t][j]
    ensures forall t' :: 0 <= t' < |cur| && t' != t ==> out[t'] == cur[t']
    ensures (forall j :: 0 <= j < PrefixLen(cur[t]) ==> cur[t][j].color.None?) ==>
              && ColourCount(out, None) == ColourCount(cur, None) - PrefixLen(cur[t])
              && ColourCount(out, Some(Red)) == ColourCount(cur, Some(Red)) + Need(p, PrefixLen(cur[t]), Red)
              && ColourCount(out, Some(Black)) == ColourCount(cur, Some(Black)) + Need(p, PrefixLen(cur[t]), Black)
  {
    var k := PrefixLen(cur[t]);
    ghost var blank := forall j :: 0 <= j < k ==> cur[t][j].color.None?;
    out := cur;
    for i := 0 to k
      invariant PaintInv(cur, out, t, p, i, blank)
    {
      PaintStep(cur, out, t, p, i, blank);
      out := SetColour(out, Slot(t, i), PatternColour(p, i));
    }
    PaintDone(cur, out, t, p, blank);
  }

  /** Once the whole prefix is written, `PaintPrefix` has done what it promises. */
  lemma PaintDone(cur: Views, out: Views, t: nat, p: Pattern, blank: bool)
    requires t < |cur| && PaintInv(cur, out, t, p, PrefixLen(cur[t]), blank)
    requires blank == forall j :: 0 <= j < PrefixLen(cur[t]) ==> cur[t][j].color.None?
    ensures Follows(out[t], p)
    ensures blank ==>
              && ColourCount(out, None) == ColourCount(cur, None) - PrefixLen(cur[t])
              && ColourCount(out, Some(Red)) == ColourCount(cur, Some(Red)) + Need(p, PrefixLen(cur[t]), Red)
              && ColourCount(out, Some(Black)) == ColourCount(cur, Some(Black)) + Need(p, PrefixLen(cur[t]), Black)
  {
    assert |out[t]| == |cur[t]|;
  }

  /** After `i` colours written by `PaintPrefix`. */
  ghost predicate PaintInv(cur: Views, out: Views, t: nat, p: Pattern, i: nat, blank: bool)
  {
    t < |cur| && SameButColours(cur, out)
    && (forall i' :: 0 <= i' < i && i' < |cur[t]| ==> out[t][i'].color == Some(PatternColour(p, i')))
    && (forall j :: i <= j < |cur[t]| ==> out[t][j] == cur[t][j])
    && (forall t' :: 0 <= t' < |cur| && t' != t ==> out[t'] == cur[t'])
    && (blank ==>
          && ColourCount(out, None) == ColourCount(cur, None) - i
          && ColourCount(out, Some(Red)) == ColourCount(cur, Some(Red)) + Need(p, i, Red)
          && ColourCount(out, Some(Black)) == ColourCount(cur, Some(Black)) + Need(p, i, Black))
  }

  /** One colour written by `PaintPrefix` keeps its loop invariant. */
  lemma PaintStep(cur: Views, out: Views, t: nat, p: Pattern, i: nat, blank: bool)
    requires t < |cur| && i < PrefixLen(cur[t])
    requires blank == forall j :: 0 <= j < PrefixLen(cur[t]) ==> cur[t][j].color.None?
    requires PaintInv(cur, out, t, p, i, blank)
    ensures PaintInv(cur, SetColour(out, Slot(t, i), PatternColour(p, i)), t, p, i + 1, blank)
  {
    var s := Slot(t, i);
    var c := PatternColour(p, i);
    SetColourCounts(out, s, c);
    var next := SetColour(out, s, c);
    SameButColoursTrans(cur, out, next);
    assert next == out[t := out[t][i := out[t][i].(color := Some(c))]];
    if blank {
      assert CardAt(out, s).color == None;
    }
  }

  /**
    * The choice of `assign_first_four`: an error when neither pattern fits
    * the quotas, the only one that fits, or `random.choice` between both
    * (`pickFirst` is that draw).
    */
  function ChoosePattern(k: nat, red: nat, black: nat, pickFirst: bool): (p: Option<Pattern>)
    ensures p.None? <==> !Fits(BlackFirst, k, red, black) && !Fits(RedFirst, k, red, black)
    ensures p.Some? ==> Fits(p.value, k, red, black)
    ensures Fits(BlackFirst, k, red, black) && Fits(RedFirst, k, red, black) ==>
              p == Some(if pickFirst then BlackFirst else RedFirst)
  {
    var ok1, ok2 := Fits(BlackFirst, k, red, black), Fits(RedFirst, k, red, black);
    if ok1 && ok2 then Some(if pickFirst then BlackFirst else RedFirst)
    else if ok1 then Some(BlackFirst)
    else if ok2 then Some(RedFirst)
    else None
  }

  lemma {:induction false} NeedSplit(p: Pattern, k: nat)
    ensures Need(p, k, Red) + Need(p, k, Black) == k
  {
    if k > 0 {
      NeedSplit(p, k - 1);
    }
  }

  /** The loop invariant of step 1 after `t` card lists, with `pats` the patterns they follow. */
  ghost predicate FoursInv(segs: Views, cur: Views, pats: seq<Pattern>, t: nat, red: nat, black: nat)
  {
    && t <= |segs|
    && SameButColours(segs, cur) && |pats| == t
    && (forall t' :: 0 <= t' < t ==> Follows(cur[t'], pats[t']))
    && (forall t' :: 0 <= t' < t ==> forall j :: PrefixLen(segs[t']) <= j < |segs[t']| ==> cur[t'][j] == segs[t'][j])
    && (forall t' :: t <= t' < |segs| ==> cur[t'] == segs[t'])
    && (Uncoloured(segs) ==>
          && ColourCount(cur, None) == red + black
          && ColourCount(cur, Some(Red)) + red == CardTotal(segs) / 2
          && ColourCount(cur, Some(Black)) + black == CardTotal(segs) - CardTotal(segs) / 2)
  }

  /**
    * Step 1 for card list `t`: nothing to paint when it has no first cards,
    * a quota error when no pattern fits, else the chosen pattern painted and
    * its colours taken from the quotas.
    */
  method FirstFour(ghost segs: Views, cur: Views, ghost pats: seq<Pattern>, t: nat, red: nat, black: nat, pick: bool)
    returns (ok: bool, next: Views, ghost pats': seq<Pattern>, red': nat, black': nat)
    requires FoursInv(segs, cur, pats, t, red, black) && t < |segs|
    ensures !ok <==> PrefixLen(cur[t]) > 0 && ChoosePattern(PrefixLen(cur[t]), red, black, pick).None?
    ensures ok ==> FoursInv(segs, next, pats', t + 1, red', black')
  {
    var k := PrefixLen(cur[t]);
    if k == 0 {
      return true, cur, pats + [BlackFirst], red, black;
    }
    var chosen := ChoosePattern(k, red, black, pick);
    if chosen.None? {
      return false, cur, pats, red, black;
    }
    var p := chosen.value;
    // The source's `use` calls re-check the quotas, which `ChoosePattern` already guarantees.
    red', black' := red - Need(p, k, Red), black - Need(p, k, Black);
    NeedSplit(p, k);
    next := PaintPrefix(cur, t, p);
    SameButColoursTrans(segs, cur, next);
    ok, pats' := true, pats + [p];
  }

  /**
    * Step 1 of `_apply_color_rule_for_shoe` over every card list in turn,
    * starting from quotas of `total // 2` red and the rest black; `pickFirst(t)`
    * is the `random.choice` for list `t`. When no card was coloured before,
    * the quotas left are exactly the cards still uncoloured.
    */
  method FirstFours(segs: Views, pickFirst: nat -> bool) returns (r: Result<(Views, nat, nat)>)
    ensures r.Err? ==> r.msg == QuotaShort
    ensures r.Ok? ==> SameButColours(segs, r.value.0)
    ensures r.Ok? ==> forall t :: 0 <= t < |segs| ==> Patterned(r.value.0[t])
    ensures r.Ok? ==> forall t :: 0 <= t < |segs| ==> forall j :: PrefixLen(segs[t]) <= j < |segs[t]| ==> r.value.0[t][j] == segs[t][j]
    ensures r.Ok? && Uncoloured(segs) ==>
              && ColourCount(r.value.0, None) == r.value.1 + r.value.2
              && ColourCount(r.value.0, Some(Red)) + r.value.1 == CardTotal(segs) / 2
              && ColourCount(r.value.0, Some(Black)) + r.value.2 == CardTotal(segs) - CardTotal(segs) / 2
  {
    var total := CardTotal(segs);
    var red: nat, black: nat := total / 2, total - total / 2;
    var cur := segs;
    ghost var pats: seq<Pattern> := [];
    if Uncoloured(segs) {
      UncolouredCounts(segs);
    }
    for t := 0 to |segs|
      invariant FoursInv(segs, cur, pats, t, red, black)
    {
      var ok;
      ok, cur, pats, red, black := FirstFour(segs, cur, pats, t, red, black, pickFirst(t));
      if !ok {
        return Err(QuotaShort);
      }
    }
    forall t | 0 <= t < |segs| ensures Patterned(cur[t]) {
      assert Follows(cur[t], pats[t]);
    }
    return Ok((cur, red, black));
  }

  // ---- step 2: the rest of the quota ----

  /** `[c] * n`. */
  function Repeat(c: Color, n: nat): (r: seq<Color>)
    ensures |r| == n && forall i :: 0 <= i < n ==> r[i] == c
    ensures multiset(r)[c] == n
    ensures forall d :: d != c ==> multiset(r)[d] == 0
  {
    if n == 0 then [] else [c] + Repeat(c, n - 1)
  }

  /** Popping the last pool entry moves it out of the pool's count. */
  lemma CountPop(pool: seq<Color>, c: Color)
    requires |pool| > 0
    ensures Count(pool, c) == Count(pool[..|pool| - 1], c) + (if pool[|pool| - 1] == c then 1 else 0)
  {
    var n := |pool| - 1;
    var init, last := pool[..n], pool[n];
    assert pool == init + [last];
    assert multiset(pool) == multiset(init) + multiset{last};
    assert Count(pool, c) == multiset(init)[c] + multiset{last}[c];
  }

  /** The fill invariant, for the cards before slot (k, j) in shoe order. */
  ghost predicate Filled(cur: Views, out: Views, pool: seq<Color>, rem: seq<Color>, k: nat, j: nat)
  {
    && FilledSlots(cur, out, k, j)
    && FilledCounts(cur, out, pool, rem)
  }

  /** The colours still in the pool account for the cards still uncoloured. */
  predicate FilledCounts(cur: Views, out: Views, pool: seq<Color>, rem: seq<Color>)
  {
    && ColourCount(out, None) == |rem|
    && ColourCount(out, Some(Red)) + Count(rem, Red) == ColourCount(cur, Some(Red)) + Count(pool, Red)
    && ColourCount(out, Some(Black)) + Count(rem, Black) == ColourCount(cur, Some(Black)) + Count(pool, Black)
  }

  /** Only colours differ, the cards before slot (k, j) are coloured, the others as they were, and a coloured card keeps its colour. */
  ghost predicate FilledSlots(cur: Views, out: Views, k: nat, j: nat)
  {
    && SameButColours(cur, out)
    && (forall q :: IsSlot(cur, q) && Before(q, Slot(k, j)) ==> CardAt(out, q).color.Some?)
    && (forall q :: IsSlot(cur, q) && !Before(q, Slot(k, j)) ==> CardAt(out, q) == CardAt(cur, q))
    && (forall q :: IsSlot(cur, q) && CardAt(cur, q).color.Some? ==> CardAt(out, q) == CardAt(cur, q))
  }

  /** One card of `fill_rest_robust`: an uncoloured card takes the last colour of the pool. */
  lemma FillStep(cur: Views, out: Views, pool: seq<Color>, rem: seq<Color>, q: Slot)
    requires IsSlot(cur, q) && Filled(cur, out, pool, rem, q.k, q.j)
    ensures CardAt(out, q).color.None? ==> |rem| > 0
    ensures CardAt(out, q).color.None? ==>
              Filled(cur, SetColour(out, q, rem[|rem| - 1]), pool, rem[..|rem| - 1], q.k, q.j + 1)
    ensures CardAt(out, q).color.Some? ==> Filled(cur, out, pool, rem, q.k, q.j + 1)
  {
    assert IsSlot(out, q);
    if CardAt(out, q).color.None? {
      assert |rem| > 0 by {
        SetColourCounts(out, q, Red);
      }
      var c := rem[|rem| - 1];
      var next := SetColour(out, q, c);
      assert FilledCounts(cur, next, pool, rem[..|rem| - 1]) by {
        FillCounts(cur, out, pool, rem, q);
      }
      assert FilledSlots(cur, next, q.k, q.j + 1) by {
        FillSlots(cur, out, q, c);
      }
    }
  }

  /** Colouring an uncoloured card with the pool's last colour keeps the counts balanced. */
  lemma FillCounts(cur: Views, out: Views, pool: seq<Color>, rem: seq<Color>, q: Slot)
    requires IsSlot(out, q) && CardAt(out, q).color.None? && |rem| > 0
    requires FilledCounts(cur, out, pool, rem)
    ensures FilledCounts(cur, SetColour(out, q, rem[|rem| - 1]), pool, rem[..|rem| - 1])
  {
    SetColourCounts(out, q, rem[|rem| - 1]);
    CountPop(rem, Red);
    CountPop(rem, Black);
  }

  /** Colouring the uncoloured card at q moves the coloured prefix one card on. */
  lemma FillSlots(cur: Views, out: Views, q: Slot, c: Color)
    requires IsSlot(cur, q) && FilledSlots(cur, out, q.k, q.j)
    requires IsSlot(out, q) && CardAt(out, q).color.None?
    ensures FilledSlots(cur, SetColour(out, q, c), q.k, q.j + 1)
  {
    SameButColoursTrans(cur, out, SetColour(out, q, c));
  }

  /** Moving from the end of one card list to the start of the next. */
  lemma FillNext(cur: Views, out: Views, pool: seq<Color>, rem: seq<Color>, k: nat)
    requires k < |cur| && Filled(cur, out, pool, rem, k, |cur[k]|)
    ensures Filled(cur, out, pool, rem, k + 1, 0)
  {
  }

  /**
    * `fill_rest_robust` after its size check: the uncoloured cards, in shoe
    * order, take the pool's colours from its end. Every card is then
    * coloured, cards coloured before keep their colour, and the colour
    * counts grow by the pool's.
    */
  method FillRest(cur: Views, pool: seq<Color>) returns (out: Views)
    requires |pool| == ColourCount(cur, None)
    ensures SameButColours(cur, out) && AllColoured(out)
    ensures forall q :: IsSlot(cur, q) && CardAt(cur, q).color.Some? ==> CardAt(out, q) == CardAt(cur, q)
    ensures ColourCount(out, Some(Red)) == ColourCount(cur, Some(Red)) + Count(pool, Red)
    ensures ColourCount(out, Some(Black)) == ColourCount(cur, Some(Black)) + Count(pool, Black)
  {
    out := cur;
    var rem := pool;
    for k := 0 to |cur|
      invariant Filled(cur, out, pool, rem, k, 0)
    {
      for j := 0 to |cur[k]|
        invariant Filled(cur, out, pool, rem, k, j)
      {
        var q := Slot(k, j);
        FillStep(cur, out, pool, rem, q);
        if out[k][j].color.None? {
          out := SetColour(out, q, rem[|rem| - 1]);
          rem := rem[..|rem| - 1];
        }
      }
      FillNext(cur, out, pool, rem, k);
    }
    forall k, j | 0 <= k < |out| && 0 <= j < |out[k]| ensures out[k][j].color.Some? {
      assert IsSlot(cur, Slot(k, j));
    }
    ColouredCounts(out);
    assert |rem| == 0;
    assert Count(rem, Red) == 0 && Count(rem, Black) == 0;
  }

  lemma ColouredCounts(vs: Views)
    requires AllColoured(vs)
    ensures ColourCount(vs, None) == 0
  {
    var cs := ColoursOf(Concat(vs));
    forall i | 0 <= i < |cs| ensures cs[i] != None {
      ConcatMember(vs, i);
    }
    assert None !in multiset(cs);
  }

  /**
    * `fill_rest_robust`: a pool of the remaining quotas, too small for the
    * uncoloured cards an error, too large cut down, then shuffled with the
    * draws `pick` and handed out.
    */
  method FillFromQuota(cur: Views, red: nat, black: nat, pick: nat -> nat) returns (r: Result<Views>)
    requires ValidPick(pick)
    ensures r.Err? <==> ColourCount(cur, None) > red + black
    ensures r.Err? ==> r.msg == PoolShort
    ensures r.Ok? ==> SameButColours(cur, r.value) && AllColoured(r.value)
    ensures r.Ok? ==> forall q :: IsSlot(cur, q) && CardAt(cur, q).color.Some? ==> CardAt(r.value, q) == CardAt(cur, q)
    ensures r.Ok? && ColourCount(cur, None) == red + black ==>
              && ColourCount(r.value, Some(Red)) == ColourCount(cur, Some(Red)) + red
              && ColourCount(r.value, Some(Black)) == ColourCount(cur, Some(Black)) + black
  {
    var uncoloured := ColourCount(cur, None);
    var pool := Repeat(Red, red) + Repeat(Black, black);
    assert Count(pool, Red) == red && Count(pool, Black) == black;
    if uncoloured > |pool| {
      return Err(PoolShort);
    } else if uncoloured < |pool| {
      // The source drops the surplus quota.
      pool := pool[..uncoloured];
    }
    ghost var before := pool;
    pool := Shuffled(pool, pick);
    ShuffledIsPermutation(before, pick);
    var out := FillRest(cur, pool);
    return Ok(out);
  }

  /** The colour rule's effect on the whole shoe: the rounds' card lists followed by the tail's. */
  function Shoe(vs: Views, tail: seq<Card>): Views
  {
    vs + [tail]
  }

  /**
    * `_apply_color_rule_for_shoe`. `pickFirst` gives the `random.choice`
    * between both patterns, `pick` the draws of `random.shuffle` on the pool.
    * On success every card is coloured and keeps everything else, and the
    * first cards of every round and of the tail follow a pattern. On a shoe
    * not coloured before, the result has exactly `total // 2` red cards, and
    * the only possible failure is a round no pattern fits.
    */
  method ApplyColourRule(vs: Views, tail: seq<Card>, pickFirst: nat -> bool, pick: nat -> nat)
    returns (r: Result<(Views, seq<Card>)>)
    requires ValidPick(pick)
    ensures r.Err? ==> r.msg in {QuotaShort, PoolShort}
    ensures r.Err? && Uncoloured(Shoe(vs, tail)) ==> r.msg == QuotaShort
    ensures r.Ok? ==> |r.value.0| == |vs|
    ensures r.Ok? ==> SameButColours(Shoe(vs, tail), Shoe(r.value.0, r.value.1))
    ensures r.Ok? ==> AllColoured(Shoe(r.value.0, r.value.1))
    ensures r.Ok? ==> forall k :: 0 <= k < |vs| ==> Patterned(r.value.0[k])
    ensures r.Ok? ==> Patterned(r.value.1)
    ensures r.Ok? && Uncoloured(Shoe(vs, tail)) ==>
              && ColourCount(Shoe(r.value.0, r.value.1), Some(Red)) == CardTotal(Shoe(vs, tail)) / 2
              && ColourCount(Shoe(r.value.0, r.value.1), Some(Black)) == CardTotal(Shoe(vs, tail)) - CardTotal(Shoe(vs, tail)) / 2
  {
    var segs := Shoe(vs, tail);
    var step1 := FirstFours(segs, pickFirst);
    if step1.Err? {
      return Err(step1.msg);
    }
    var (cur, red, black) := step1.value;
    var filled := FillFromQuota(cur, red, black, pick);
    if filled.Err? {
      return Err(filled.msg);
    }
    var out := filled.value;
    SameButColoursTrans(segs, cur, out);
    assert out == out[..|vs|] + [out[|vs|]];
    forall k | 0 <= k < |segs| ensures Patterned(out[k]) {
      StillPatterned(cur, out, k);
    }
    return Ok((out[..|vs|], out[|vs|]));
  }

  /** Filling the uncoloured cards keeps the patterned prefixes. */
  lemma StillPatterned(cur: Views, out: Views, k: nat)
    requires k < |cur| && Patterned(cur[k]) && SameButColours(cur, out)
    requires forall q :: IsSlot(cur, q) && CardAt(cur, q).color.Some? ==> CardAt(out, q) == CardAt(cur, q)
    ensures Patterned(out[k])
  {
    var p :| Follows(cur[k], p);
    forall i | 0 <= i < PrefixLen(out[k]) ensures out[k][i].color == Some(PatternColour(p, i)) {
      assert IsSlot(cur, Slot(k, i));
    }
    assert Follows(out[k], p);
  }
}
