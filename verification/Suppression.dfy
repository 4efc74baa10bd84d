/** Greedy non-maximum suppression over exact rationals. */
module Suppression {
  datatype Box = Box(x1: real, y1: real, x2: real, y2: real)

  function MaxR(a: real, b: real): real { if a >= b then a else b }
  function MinR(a: real, b: real): real { if a <= b then a else b }

  function Area(b: Box): real {
    MaxR(0.0, b.x2 - b.x1) * MaxR(0.0, b.y2 - b.y1)
  }

  function Intersection(a: Box, b: Box): real {
    MaxR(0.0, MinR(a.x2, b.x2) - MaxR(a.x1, b.x1)) * MaxR(0.0, MinR(a.y2, b.y2) - MaxR(a.y1, b.y1))
  }

  /** Intersection over union, zero when the union is empty. */
  function Iou(a: Box, b: Box): real {
    var inter := Intersection(a, b);
    var union := Area(a) + Area(b) - inter;
    if union > 0.0 then inter / union else 0.0
  }

  lemma IouSymmetric(a: Box, b: Box)
    ensures Iou(a, b) == Iou(b, a)
  {
    IntersectionSymmetric(a, b);
  }

  lemma ProductAtMost(a: real, b: real, c: real, d: real)
    requires 0.0 <= a <= c && 0.0 <= b <= d
    ensures 0.0 <= a * b <= c * d
  {
    assert a * (d - b) >= 0.0 && (c - a) * d >= 0.0;
    assert a * b >= 0.0;
  }

  lemma IntersectionIsPart(a: Box, b: Box)
    ensures 0.0 <= Intersection(a, b) <= Area(a)
  {
    ProductAtMost(MaxR(0.0, MinR(a.x2, b.x2) - MaxR(a.x1, b.x1)), MaxR(0.0, MinR(a.y2, b.y2) - MaxR(a.y1, b.y1)),
                  MaxR(0.0, a.x2 - a.x1), MaxR(0.0, a.y2 - a.y1));
  }

  /** Some point lies inside both boxes. */
  predicate Overlapping(a: Box, b: Box) {
    MaxR(a.x1, b.x1) < MinR(a.x2, b.x2) && MaxR(a.y1, b.y1) < MinR(a.y2, b.y2)
  }

  lemma OverlapHasArea(a: Box, b: Box)
    ensures Intersection(a, b) > 0.0 <==> Overlapping(a, b)
  {
    var w, h := MaxR(0.0, MinR(a.x2, b.x2) - MaxR(a.x1, b.x1)), MaxR(0.0, MinR(a.y2, b.y2) - MaxR(a.y1, b.y1));
    assert Intersection(a, b) == w * h;
    if w > 0.0 && h > 0.0 {
      assert w * h > 0.0;
    }
  }

  lemma QuotientRange(i: real, u: real)
    requires u > 0.0 && 0.0 <= i <= u
    ensures 0.0 <= i / u <= 1.0 && (i / u > 0.0 <==> i > 0.0) && (i / u == 1.0 <==> i == u)
  {
    var q := i / u;
    assert q * u == i;
    assert (1.0 - q) * u == u - i;
  }

  lemma IouOfItself(a: Box)
    requires Area(a) > 0.0
    ensures Iou(a, a) == 1.0
  {
    assert Intersection(a, a) == Area(a);
    QuotientRange(Area(a), Area(a));
  }

  lemma UnionIsEnough(a: Box, b: Box)
    ensures 0.0 <= Intersection(a, b) <= Area(a) + Area(b) - Intersection(a, b)
  {
    IntersectionIsPart(a, b);
    IntersectionIsPart(b, a);
    IntersectionSymmetric(a, b);
  }

  /** The overlap measure is a share: zero exactly for boxes without a common point inside, one for
      a box with itself, and never more than one. */
  lemma IouIsShare(a: Box, b: Box)
    ensures 0.0 <= Iou(a, b) <= 1.0
    ensures Iou(a, b) > 0.0 <==> Overlapping(a, b)
    ensures Area(a) > 0.0 ==> Iou(a, a) == 1.0
  {
    UnionIsEnough(a, b);
    OverlapHasArea(a, b);
    ShareOfUnion(Intersection(a, b), Area(a) + Area(b) - Intersection(a, b));
    if Area(a) > 0.0 {
      IouOfItself(a);
    }
  }

  predicate Inside(x: real, y: real, b: Box) {
    b.x1 < x < b.x2 && b.y1 < y < b.y2
  }

  /** The box of what two boxes have in common. */
  function Common(a: Box, b: Box): (c: Box)
    ensures forall x: real, y: real :: Inside(x, y, c) <==> Inside(x, y, a) && Inside(x, y, b)
  {
    Box(MaxR(a.x1, b.x1), MaxR(a.y1, b.y1), MinR(a.x2, b.x2), MinR(a.y2, b.y2))
  }

  predicate IsProper(b: Box) { b.x1 < b.x2 && b.y1 < b.y2 }

  /** Width times height, and nothing for a box turned inside out. */
  lemma AreaIsProduct(b: Box, w: real, h: real)
    requires w == b.x2 - b.x1 && h == b.y2 - b.y1
    ensures w > 0.0 && h > 0.0 ==> Area(b) == w * h > 0.0
    ensures w <= 0.0 || h <= 0.0 ==> Area(b) == 0.0
  {
  }

  predicate IsRatio(q: real, part: real, whole: real) {
    whole > 0.0 && q * whole == part
  }

  lemma QuotientIsRatio(part: real, whole: real)
    requires whole > 0.0
    ensures IsRatio(part / whole, part, whole)
  {
    TimesBack(part, whole);
  }

  lemma TimesBack(i: real, u: real)
    requires u > 0.0
    ensures i / u * u == i
  {
  }

  lemma CommonIsIntersection(a: Box, b: Box)
    requires Overlapping(a, b)
    ensures IsProper(a) && IsProper(b) && IsProper(Common(a, b))
    ensures Intersection(a, b) == Area(Common(a, b)) > 0.0
    ensures Area(a) + Area(b) - Intersection(a, b) > 0.0
  {
    OverlapHasArea(a, b);
    UnionIsEnough(a, b);
  }

  lemma IouIsQuotient(a: Box, b: Box)
    requires Area(a) + Area(b) - Intersection(a, b) > 0.0
    ensures IsRatio(Iou(a, b), Intersection(a, b), Area(a) + Area(b) - Intersection(a, b))
  {
    QuotientIsRatio(Intersection(a, b), Area(a) + Area(b) - Intersection(a, b));
  }

  predicate HasSides(b: Box, w: real, h: real) {
    w == b.x2 - b.x1 && h == b.y2 - b.y1
  }

  /** What the measure is: of overlapping boxes, the area in common over the area that the two cover
      together, which counts the common part once. */
  lemma IouIsRatio(a: Box, b: Box, wA: real, hA: real, wB: real, hB: real, wC: real, hC: real)
    requires Overlapping(a, b) && HasSides(a, wA, hA) && HasSides(b, wB, hB) && HasSides(Common(a, b), wC, hC)
    ensures IsRatio(Iou(a, b), wC * hC, wA * hA + wB * hB - wC * hC)
  {
    CommonIsIntersection(a, b);
    AreaIsProduct(a, wA, hA);
    AreaIsProduct(b, wB, hB);
    AreaIsProduct(Common(a, b), wC, hC);
    IouIsQuotient(a, b);
    assert Intersection(a, b) == wC * hC && Area(a) + Area(b) - Intersection(a, b) == wA * hA + wB * hB - wC * hC;
  }

  /** A box inside another one overlaps it by its share of the area. */
  lemma NestedIou(a: Box, b: Box, wA: real, hA: real, wB: real, hB: real)
    requires IsProper(b) && a.x1 <= b.x1 && b.x2 <= a.x2 && a.y1 <= b.y1 && b.y2 <= a.y2
    requires HasSides(a, wA, hA) && HasSides(b, wB, hB)
    ensures IsRatio(Iou(a, b), wB * hB, wA * hA)
  {
    assert Common(a, b) == b;
    IouIsRatio(a, b, wA, hA, wB, hB, wB, hB);
    assert wA * hA + wB * hB - wB * hB == wA * hA;
  }

  /** An instance: a quarter of a box within it has overlap one quarter. */
  lemma QuarterBox()
    ensures Iou(Box(0.0, 0.0, 10.0, 10.0), Box(0.0, 0.0, 5.0, 5.0)) == 0.25
  {
    NestedIou(Box(0.0, 0.0, 10.0, 10.0), Box(0.0, 0.0, 5.0, 5.0), 10.0, 10.0, 5.0, 5.0);
  }

  lemma ShareOfUnion(inter: real, union: real)
    requires 0.0 <= inter <= union
    ensures var q := if union > 0.0 then inter / union else 0.0;
      0.0 <= q <= 1.0 && (q > 0.0 <==> inter > 0.0)
  {
    if union > 0.0 {
      QuotientRange(inter, union);
    }
  }

  lemma IntersectionSymmetric(a: Box, b: Box)
    ensures Intersection(a, b) == Intersection(b, a)
  {
    assert MinR(a.x2, b.x2) == MinR(b.x2, a.x2) && MaxR(a.x1, b.x1) == MaxR(b.x1, a.x1);
  }

  ghost predicate Distinct(s: seq<nat>) {
    forall i, j :: 0 <= i < j < |s| ==> s[i] != s[j]
  }

  /** x stands somewhere in front of y. */
  ghost predicate Ahead(s: seq<nat>, x: nat, y: nat) {
    exists i, j :: 0 <= i < j < |s| && s[i] == x && s[j] == y
  }

  /** All indices, by nonincreasing score; ties in any order. */
  ghost predicate IsRanking(order: seq<nat>, scores: seq<real>) {
    && |order| == |scores| && Distinct(order)
    && (forall i :: 0 <= i < |order| ==> order[i] < |scores|)
    && (forall k: nat :: k < |scores| ==> k in order)
    && (forall i, j :: 0 <= i < j < |order| ==> scores[order[i]] >= scores[order[j]])
  }

  // The loop only sees which index spares which; `spares(i, x)` says that box i, once kept, does
  // not suppress box x.

  /** The indices of `rest` that box i does not suppress. */
  function Survivors(spares: (nat, nat) -> bool, i: nat, rest: seq<nat>): seq<nat>
  {
    if rest == [] then []
    else
      (if spares(i, rest[0]) then [rest[0]] else []) + Survivors(spares, i, rest[1..])
  }

  lemma {:induction false} SurvivorsAre(spares: (nat, nat) -> bool, i: nat, rest: seq<nat>)
    ensures var s := Survivors(spares, i, rest);
      && |s| <= |rest|
      && (forall x :: x in s <==> x in rest && spares(i, x))
  {
    if rest != [] {
      SurvivorsAre(spares, i, rest[1..]);
      assert rest == [rest[0]] + rest[1..];
    }
  }

  lemma {:induction false} SurvivorsKeepOrder(spares: (nat, nat) -> bool, i: nat, rest: seq<nat>)
    requires Distinct(rest)
    ensures var s := Survivors(spares, i, rest);
      && Distinct(s)
      && forall x, y :: x in s && y in s ==> (Ahead(s, x, y) <==> Ahead(rest, x, y))
  {
    if rest != [] {
      SurvivorsKeepOrder(spares, i, rest[1..]);
      SurvivorsAre(spares, i, rest[1..]);
      SurvivorsAre(spares, i, rest);
      var s, tail := Survivors(spares, i, rest), Survivors(spares, i, rest[1..]);
      assert rest[0] !in rest[1..];
      forall x, y | x in s && y in s ensures Ahead(s, x, y) <==> Ahead(rest, x, y) {
        AheadCons(rest, x, y);
        if s != tail {
          assert s == [rest[0]] + tail;
          assert s[1..] == tail && s[0] == rest[0];
          AheadCons(s, x, y);
        }
      }
    }
  }

  lemma AheadCons(s: seq<nat>, x: nat, y: nat)
    requires s != []
    ensures Ahead(s, x, y) <==> (x == s[0] && y in s[1..]) || Ahead(s[1..], x, y)
  {
    if Ahead(s, x, y) {
      var i, j :| 0 <= i < j < |s| && s[i] == x && s[j] == y;
      if i > 0 {
        assert s[1..][i - 1] == x && s[1..][j - 1] == y;
      } else {
        assert s[1..][j - 1] == y;
      }
    }
    if x == s[0] && y in s[1..] {
      var j :| 0 <= j < |s[1..]| && s[1..][j] == y;
      assert s[j + 1] == y;
    }
    if Ahead(s[1..], x, y) {
      var i, j :| 0 <= i < j < |s[1..]| && s[1..][i] == x && s[1..][j] == y;
      assert s[i + 1] == x && s[j + 1] == y;
    }
  }

  function Greedy(spares: (nat, nat) -> bool, order: seq<nat>): (keep: seq<nat>)
    decreases |order|
  {
    if order == [] then []
    else
      SurvivorsAre(spares, order[0], order[1..]);
      [order[0]] + Greedy(spares, Survivors(spares, order[0], order[1..]))
  }

  /** The declarative reading: an index is kept just when nothing kept in front of it suppresses
      it. */
  ghost predicate IsGreedyChoice(spares: (nat, nat) -> bool, order: seq<nat>, keep: seq<nat>)
  {
    && (forall x :: x in keep ==> x in order)
    && (forall x :: x in order ==>
          (x in keep <==> forall y :: y in keep && Ahead(order, y, x) ==> spares(y, x)))
  }

  lemma {:induction false} GreedyFollowsOrder(spares: (nat, nat) -> bool, order: seq<nat>)
    requires Distinct(order)
    ensures var keep := Greedy(spares, order);
      && Distinct(keep)
      && (forall x :: x in keep ==> x in order)
      && (forall i, j :: 0 <= i < j < |keep| ==> Ahead(order, keep[i], keep[j]))
    decreases |order|
  {
    if order != [] {
      var h, rest := order[0], order[1..];
      var s := Survivors(spares, h, rest);
      SurvivorsAre(spares, h, rest);
      SurvivorsKeepOrder(spares, h, rest);
      GreedyFollowsOrder(spares, s);
      var keep, tail := Greedy(spares, order), Greedy(spares, s);
      assert keep == [h] + tail && h !in rest;
      forall i, j | 0 <= i < j < |keep| ensures keep[i] != keep[j] && Ahead(order, keep[i], keep[j]) {
        AheadCons(order, keep[i], keep[j]);
        assert keep[j] == tail[j - 1];
        if i > 0 {
          assert keep[i] == tail[i - 1];
        }
      }
    }
  }

  /** The loop makes the greedy choice. */
  lemma {:induction false} GreedyIsGreedyChoice(spares: (nat, nat) -> bool, order: seq<nat>)
    requires Distinct(order)
    ensures IsGreedyChoice(spares, order, Greedy(spares, order))
    decreases |order|
  {
    if order != [] {
      var h, rest := order[0], order[1..];
      var s := Survivors(spares, h, rest);
      SurvivorsAre(spares, h, rest);
      SurvivorsKeepOrder(spares, h, rest);
      GreedyIsGreedyChoice(spares, s);
      var keep, tail := Greedy(spares, order), Greedy(spares, s);
      assert keep == [h] + tail && h !in rest && order == [h] + rest;
      forall x | x in order
        ensures x in keep <==> forall y :: y in keep && Ahead(order, y, x) ==> spares(y, x)
      {
        GreedyStep(spares, order, x);
      }
    }
  }

  /** The first index is kept, and nothing stands in front of it. */
  lemma FirstIsKept(order: seq<nat>, x: nat)
    requires order != [] && Distinct(order) && x == order[0]
    ensures forall y :: !Ahead(order, y, x)
  {
    forall y ensures !Ahead(order, y, x) {
      AheadCons(order, y, x);
    }
  }

  /** An index that the first one suppresses is not kept. */
  lemma SuppressedIsDropped(spares: (nat, nat) -> bool, order: seq<nat>, x: nat)
    requires order != [] && Distinct(order) && x in order && x != order[0] && !spares(order[0], x)
    ensures x !in Greedy(spares, order) && order[0] in Greedy(spares, order) && Ahead(order, order[0], x)
  {
    var h, rest := order[0], order[1..];
    SurvivorsAre(spares, h, rest);
    GreedyIsAmong(spares, Survivors(spares, h, rest));
    AheadCons(order, h, x);
    assert order == [h] + rest;
  }

  lemma {:induction false} GreedyIsAmong(spares: (nat, nat) -> bool, order: seq<nat>)
    ensures forall y :: y in Greedy(spares, order) ==> y in order
    decreases |order|
  {
    if order != [] {
      var s := Survivors(spares, order[0], order[1..]);
      SurvivorsAre(spares, order[0], order[1..]);
      GreedyIsAmong(spares, s);
    }
  }

  /** For an index that the first one spares, the choice among the survivors decides. */
  lemma SparedIsDecidedLater(spares: (nat, nat) -> bool, order: seq<nat>, x: nat)
    requires order != [] && Distinct(order) && x in order && x != order[0] && spares(order[0], x)
    requires var s := Survivors(spares, order[0], order[1..]); IsGreedyChoice(spares, s, Greedy(spares, s))
    ensures var keep := Greedy(spares, order);
      x in keep <==> forall y :: y in keep && Ahead(order, y, x) ==> spares(y, x)
  {
    var h, rest := order[0], order[1..];
    var s := Survivors(spares, h, rest);
    SurvivorsAre(spares, h, rest);
    assert order == [h] + rest && x in s;
    var keep, tail := Greedy(spares, order), Greedy(spares, s);
    assert keep == [h] + tail;
    forall y | y in keep ensures Ahead(order, y, x) <==> y == h || Ahead(s, y, x) {
      SparedAhead(spares, order, y, x);
    }
  }

  lemma GreedyStep(spares: (nat, nat) -> bool, order: seq<nat>, x: nat)
    requires order != [] && Distinct(order) && x in order
    requires var s := Survivors(spares, order[0], order[1..]); IsGreedyChoice(spares, s, Greedy(spares, s))
    ensures var keep := Greedy(spares, order);
      x in keep <==> forall y :: y in keep && Ahead(order, y, x) ==> spares(y, x)
  {
    if x == order[0] {
      FirstIsKept(order, x);
    } else if !spares(order[0], x) {
      SuppressedIsDropped(spares, order, x);
    } else {
      SparedIsDecidedLater(spares, order, x);
    }
  }

  /** What stands in front of an index that the first one spares: the first one, and what stands in
      front of it among the survivors. */
  lemma SparedAhead(spares: (nat, nat) -> bool, order: seq<nat>, y: nat, x: nat)
    requires order != [] && Distinct(order)
    requires var s := Survivors(spares, order[0], order[1..]); x in s && (y == order[0] || y in s)
    ensures Ahead(order, y, x) <==> y == order[0] || Ahead(Survivors(spares, order[0], order[1..]), y, x)
  {
    var h, rest := order[0], order[1..];
    SurvivorsAre(spares, h, rest);
    SurvivorsKeepOrder(spares, h, rest);
    AheadCons(order, y, x);
  }

  /** The greedy choice is unique: whatever list satisfies the reading holds the same indices. */
  lemma {:induction false} GreedyChoiceIsUnique(spares: (nat, nat) -> bool, order: seq<nat>, a: seq<nat>,
                                                b: seq<nat>, p: nat)
    requires Distinct(order) && p < |order|
    requires IsGreedyChoice(spares, order, a) && IsGreedyChoice(spares, order, b)
    ensures order[p] in a <==> order[p] in b
    decreases p
  {
    var x := order[p];
    forall y | Ahead(order, y, x) ensures y in a <==> y in b {
      var i, j :| 0 <= i < j < |order| && order[i] == y && order[j] == x;
      assert j == p;
      GreedyChoiceIsUnique(spares, order, a, b, i);
    }
  }

  /** No kept box suppresses a later kept one, and each box left out is suppressed by a kept box
      in front of it. */
  lemma ChoiceConsequences(spares: (nat, nat) -> bool, order: seq<nat>, keep: seq<nat>)
    requires IsGreedyChoice(spares, order, keep)
    requires forall i, j :: 0 <= i < j < |keep| ==> Ahead(order, keep[i], keep[j])
    ensures forall i, j :: 0 <= i < j < |keep| ==> spares(keep[i], keep[j])
    ensures forall x :: x in order && x !in keep ==> exists y :: y in keep && Ahead(order, y, x) && !spares(y, x)
  {
    forall i, j | 0 <= i < j < |keep| ensures spares(keep[i], keep[j]) {
      assert keep[i] in keep && keep[j] in keep && Ahead(order, keep[i], keep[j]);
    }
  }

  /** The first n indices, ranked. */
  ghost predicate RanksFirst(order: seq<nat>, scores: seq<real>, n: nat) {
    && n <= |scores| && |order| == n && Distinct(order)
    && (forall i :: 0 <= i < |order| ==> order[i] < n)
    && (forall k: nat :: k < n ==> k in order)
    && Descends(order, scores)
  }

  ghost predicate Descends(order: seq<nat>, scores: seq<real>) {
    forall i, j :: 0 <= i < j < |order| && order[i] < |scores| && order[j] < |scores| ==>
      scores[order[i]] >= scores[order[j]]
  }

  lemma InsertRanked(order: seq<nat>, scores: seq<real>, n: nat, at: nat)
    requires n < |scores| && RanksFirst(order, scores, n) && at <= n
    requires forall i :: 0 <= i < at ==> scores[order[i]] > scores[n]
    requires at < n ==> scores[order[at]] <= scores[n]
    ensures RanksFirst(order[..at] + [n] + order[at..], scores, n + 1)
  {
    var next := order[..at] + [n] + order[at..];
    assert forall i :: 0 <= i < |next| ==> next[i] == if i < at then order[i] else if i == at then n else order[i - 1];
    forall i, j | 0 <= i < j < |next| ensures next[i] != next[j] && scores[next[i]] >= scores[next[j]] {
      InsertedPair(order, scores, n, at, i, j);
    }
    forall k: nat | k < n + 1 ensures k in next {
      assert k == n || k in order;
      InsertedHolds(order, n, at, k);
    }
  }

  lemma InsertedHolds(order: seq<nat>, n: nat, at: nat, k: nat)
    requires at <= |order| && (k == n || k in order)
    ensures k in order[..at] + [n] + order[at..]
  {
    assert order == order[..at] + order[at..];
  }

  lemma InsertedPair(order: seq<nat>, scores: seq<real>, n: nat, at: nat, i: nat, j: nat)
    requires n < |scores| && RanksFirst(order, scores, n) && at <= n && i < j <= n
    requires forall i :: 0 <= i < at ==> scores[order[i]] > scores[n]
    requires at < n ==> scores[order[at]] <= scores[n]
    ensures var x := if i < at then order[i] else if i == at then n else order[i - 1];
      var y := if j < at then order[j] else if j == at then n else order[j - 1];
      x != y && scores[x] >= scores[y]
  {
    if i == at && j - 1 > at {
      assert scores[order[at]] >= scores[order[j - 1]];
    }
  }

  /** Indices by nonincreasing score: an insertion sort stands in for the library's sort, and
      nothing below depends on how it breaks ties. */
  method ArgsortDescending(scores: seq<real>) returns (order: seq<nat>)
    ensures IsRanking(order, scores)
  {
    order := [];
    var n := 0;
    while n < |scores|
      invariant RanksFirst(order, scores, n)
    {
      var at := 0;
      while at < |order| && scores[order[at]] > scores[n]
        invariant 0 <= at <= |order|
        invariant forall i :: 0 <= i < at ==> scores[order[i]] > scores[n]
      {
        at := at + 1;
      }
      InsertRanked(order, scores, n, at);
      order := order[..at] + [n] + order[at..];
      n := n + 1;
    }
  }

  function Clear(boxes: seq<Box>, threshold: real): (nat, nat) -> bool {
    (i: nat, j: nat) => i < |boxes| && j < |boxes| && Iou(boxes[i], boxes[j]) <= threshold
  }

  method Nms(boxes: seq<Box>, scores: seq<real>, threshold: real) returns (keep: seq<nat>, ghost ranking: seq<nat>)
    requires |boxes| == |scores|
    ensures IsRanking(ranking, scores) && IsGreedyChoice(Clear(boxes, threshold), ranking, keep)
    ensures Distinct(keep) && forall i :: 0 <= i < |keep| ==> keep[i] < |boxes|
    ensures forall i, j :: 0 <= i < j < |keep| ==> Ahead(ranking, keep[i], keep[j])
  {
    var order := ArgsortDescending(scores);
    ranking, keep := order, [];
    var clear := Clear(boxes, threshold);
    GreedyFollowsOrder(clear, ranking);
    GreedyIsGreedyChoice(clear, ranking);
    assert keep + Greedy(clear, order) == Greedy(clear, ranking);
    while |order| > 0
      invariant keep + Greedy(clear, order) == Greedy(clear, ranking)
      decreases |order|
    {
      var i := order[0];
      ghost var before := keep;
      keep := keep + [i];
      SurvivorsAre(clear, i, order[1..]);
      if |order| == 1 {
        order := [];
        assert Survivors(clear, i, []) == [];
        assert keep == before + Greedy(clear, [i]);
        break;
      }
      assert before + Greedy(clear, order) == keep + Greedy(clear, Survivors(clear, i, order[1..]));
      order := Survivors(clear, i, order[1..]);
    }
    assert keep == keep + Greedy(clear, []) == Greedy(clear, ranking);
    forall i | 0 <= i < |keep| ensures keep[i] < |boxes| {
      assert keep[i] in keep && keep[i] in ranking;
    }
  }

  /** Kept boxes stay within the overlap bound pairwise, in both directions, and in order of
      score. */
  lemma KeptBoxesAreApart(boxes: seq<Box>, scores: seq<real>, threshold: real, ranking: seq<nat>, keep: seq<nat>,
                          i: nat, j: nat)
    requires |boxes| == |scores| && IsRanking(ranking, scores)
    requires IsGreedyChoice(Clear(boxes, threshold), ranking, keep)
    requires forall i, j :: 0 <= i < j < |keep| ==> Ahead(ranking, keep[i], keep[j])
    requires i < j < |keep|
    ensures keep[i] < |boxes| && keep[j] < |boxes| && scores[keep[i]] >= scores[keep[j]]
    ensures Iou(boxes[keep[i]], boxes[keep[j]]) <= threshold && Iou(boxes[keep[j]], boxes[keep[i]]) <= threshold
  {
    ChoiceConsequences(Clear(boxes, threshold), ranking, keep);
    assert keep[i] in keep && keep[j] in keep;
    assert Clear(boxes, threshold)(keep[i], keep[j]);
    assert Ahead(ranking, keep[i], keep[j]);
    IouSymmetric(boxes[keep[i]], boxes[keep[j]]);
  }

  /** Each suppressed box overlaps a kept box of at least its score by more than the bound. */
  lemma SuppressedBoxIsDominated(boxes: seq<Box>, scores: seq<real>, threshold: real, ranking: seq<nat>,
                                 keep: seq<nat>, x: nat)
    returns (y: nat)
    requires |boxes| == |scores| && IsRanking(ranking, scores)
    requires IsGreedyChoice(Clear(boxes, threshold), ranking, keep)
    requires x < |boxes| && x !in keep
    ensures y in keep && y < |boxes| && scores[y] >= scores[x] && Iou(boxes[y], boxes[x]) > threshold
  {
    assert x in ranking;
    y :| y in keep && Ahead(ranking, y, x) && !Clear(boxes, threshold)(y, x);
  }
}
