/** Decoding detector output: orientation, confidence filter, suppression, and mapping the boxes
    back onto the original image. */
module Detections {
  import opened Suppression

  datatype Result<T> = Ok(value: T) | ValueError

  datatype LetterboxMeta = LetterboxMeta(gain: real, padX: real, padY: real, origW: nat, origH: nat)

  datatype Detection = Detection(x1: real, y1: real, x2: real, y2: real, confidence: real)

  datatype Matrix = Matrix(rows: nat, cols: nat, at: seq<seq<real>>) {
    ghost predicate Valid() {
      |at| == rows && forall i :: 0 <= i < rows ==> |at[i]| == cols
    }
  }

  function Transpose(m: Matrix): (t: Matrix)
    requires m.Valid()
    ensures t.Valid()
  {
    Matrix(m.cols, m.rows,
      seq(m.cols, j requires 0 <= j < m.cols => seq(m.rows, i requires 0 <= i < m.rows => m.at[i][j])))
  }

  predicate LooksLikeBoxes(width: nat) { width == 4 || width == 5 || width == 6 || width == 84 }

  predicate IsTransposed(m: Matrix) { m.rows <= 84 && !LooksLikeBoxes(m.cols) }

  /** One candidate per row. */
  function Oriented(m: Matrix): (t: Matrix)
    requires m.Valid()
    ensures t.Valid()
  {
    if IsTransposed(m) then Transpose(m) else m
  }

  lemma TransposeTwice(m: Matrix)
    requires m.Valid()
    ensures Transpose(Transpose(m)) == m
  {
    var t := Transpose(m);
    var back := Transpose(t);
    forall i | 0 <= i < m.rows ensures back.at[i] == m.at[i] {
      assert forall j :: 0 <= j < m.cols ==> back.at[i][j] == t.at[j][i] == m.at[i][j];
    }
    assert back.at == m.at;
  }

  /** The shape heuristic, exactly: output with one candidate per column (4 + classes rows) is
      read correctly just when it has at most 84 rows and its width is no box width; output with
      one candidate per row just when there are more than 84 of them or its width is one. The only
      exception is output that is its own transpose, which is read correctly in any case. */
  lemma OrientationIff(candidates: Matrix, classes: nat)
    requires candidates.Valid() && candidates.cols == 4 + classes
    ensures Oriented(Transpose(candidates)) == candidates <==>
      || (classes <= 80 && candidates.rows !in {4, 5, 6, 84})
      || Transpose(candidates) == candidates
    ensures Oriented(candidates) == candidates <==>
      candidates.rows > 84 || classes in {0, 1, 2, 80} || Transpose(candidates) == candidates
  {
    TransposeTwice(candidates);
  }

  /** Square output looks the same both ways, so of the two layouts exactly one is read correctly:
      one candidate per column for sides up to 84 that are no box width, and one per row otherwise. */
  lemma SquareOutputIsReadOneWay(candidates: Matrix)
    requires candidates.Valid() && candidates.rows == candidates.cols && Transpose(candidates) != candidates
    ensures var n := candidates.rows; var perColumn := n <= 84 && n !in {4, 5, 6, 84};
      && (Oriented(Transpose(candidates)) == candidates <==> perColumn)
      && (Oriented(candidates) == candidates <==> !perColumn)
  {
    TransposeTwice(candidates);
  }

  /** The best class score of a row. */
  function Best(scores: seq<real>): (best: real)
    requires scores != []
    ensures best in scores && forall i :: 0 <= i < |scores| ==> scores[i] <= best
  {
    if |scores| == 1 then scores[0] else MaxR(scores[0], Best(scores[1..]))
  }

  function Score(row: seq<real>): real
    requires |row| >= 5
  {
    Best(row[4..])
  }

  /** Centre and size to corners. */
  function BoxOf(row: seq<real>): Box
    requires |row| >= 4
  {
    Box(row[0] - row[2] / 2.0, row[1] - row[3] / 2.0, row[0] + row[2] / 2.0, row[1] + row[3] / 2.0)
  }

  function Clip(x: real, hi: nat): real { MinR(MaxR(x, 0.0), hi as real) }

  /** A letterbox box in original pixels, cut to the image. */
  function OnImage(b: Box, meta: LetterboxMeta): Box
    requires meta.gain != 0.0
  {
    Box(Clip((b.x1 - meta.padX) / meta.gain, meta.origW), Clip((b.y1 - meta.padY) / meta.gain, meta.origH),
        Clip((b.x2 - meta.padX) / meta.gain, meta.origW), Clip((b.y2 - meta.padY) / meta.gain, meta.origH))
  }

  lemma TransposedEntry(m: Matrix, i: nat, j: nat)
    requires m.Valid() && i < m.rows && j < m.cols
    ensures Transpose(m).rows == m.cols && Transpose(m).cols == m.rows && Transpose(m).at[j][i] == m.at[i][j]
  {
  }

  /** A row's score is the largest of its class scores, however many there are. */
  lemma ScoreIsLargest(row: seq<real>)
    requires |row| >= 5
    ensures forall k :: 4 <= k < |row| ==> row[k] <= Score(row)
    ensures exists k :: 4 <= k < |row| && row[k] == Score(row)
  {
    var scores := row[4..];
    forall k | 4 <= k < |row| ensures row[k] <= Score(row) {
      assert scores[k - 4] == row[k];
    }
    var i :| 0 <= i < |scores| && scores[i] == Score(row);
    assert row[i + 4] == Score(row);
  }

  /** A row's box has the row's centre and size. */
  lemma BoxHasCentreAndSize(row: seq<real>)
    requires |row| >= 4
    ensures var b := BoxOf(row);
      && b.x1 + b.x2 == 2.0 * row[0] && b.y1 + b.y2 == 2.0 * row[1]
      && b.x2 - b.x1 == row[2] && b.y2 - b.y1 == row[3]
  {
  }

  /** Where a canvas coordinate is in the image: the pad is taken off, the gain is divided out, and
      what is outside is moved to the border. */
  predicate IsMappedBack(x: real, canvas: real, pad: real, gain: real, size: nat) {
    && 0.0 <= x <= size as real
    && (0.0 < x < size as real ==> x * gain == canvas - pad)
    && (x == 0.0 && size > 0 ==> canvas - pad <= 0.0)
    && (x == size as real && size > 0 ==> canvas - pad >= size as real * gain)
  }

  lemma ClipMapsBack(canvas: real, pad: real, gain: real, size: nat)
    requires gain > 0.0
    ensures IsMappedBack(Clip((canvas - pad) / gain, size), canvas, pad, gain, size)
  {
    var x := (canvas - pad) / gain;
    TimesBack(canvas - pad, gain);
    assert x * gain == canvas - pad;
    if x <= 0.0 {
      assert x * gain <= 0.0;
    }
    if x >= size as real {
      assert (x - size as real) * gain >= 0.0;
    }
  }

  lemma BoxIsMappedBack(b: Box, meta: LetterboxMeta)
    requires meta.gain > 0.0
    ensures var o := OnImage(b, meta);
      && IsMappedBack(o.x1, b.x1, meta.padX, meta.gain, meta.origW)
      && IsMappedBack(o.y1, b.y1, meta.padY, meta.gain, meta.origH)
      && IsMappedBack(o.x2, b.x2, meta.padX, meta.gain, meta.origW)
      && IsMappedBack(o.y2, b.y2, meta.padY, meta.gain, meta.origH)
  {
    ClipMapsBack(b.x1, meta.padX, meta.gain, meta.origW);
    ClipMapsBack(b.y1, meta.padY, meta.gain, meta.origH);
    ClipMapsBack(b.x2, meta.padX, meta.gain, meta.origW);
    ClipMapsBack(b.y2, meta.padY, meta.gain, meta.origH);
  }

  predicate IsEmpty(b: Box) { b.x2 <= b.x1 || b.y2 <= b.y1 }

  /** Rows whose score reaches the threshold, in row order. */
  function Picks(p: Matrix, conf: real, n: nat): (rows: seq<nat>)
    requires p.Valid() && p.cols >= 5 && n <= p.rows
    ensures forall k: nat :: k in rows <==> k < n && Score(p.at[k]) >= conf
    ensures Distinct(rows)
  {
    if n == 0 then []
    else
      var earlier := Picks(p, conf, n - 1);
      if Score(p.at[n - 1]) >= conf then earlier + [n - 1] else earlier
  }

  ghost predicate AreRows(p: Matrix, rows: seq<nat>) {
    p.Valid() && p.cols >= 5 && forall i :: 0 <= i < |rows| ==> rows[i] < p.rows
  }

  /** A box mapped back, or nothing when the image border leaves nothing of it. */
  function AsDetection(box: Box, score: real, meta: LetterboxMeta): (d: seq<Detection>)
    requires meta.gain != 0.0
    ensures |d| <= 1
    ensures d != [] ==> IsWellFormed(d[0], meta) && d[0].confidence == score
  {
    var b := OnImage(box, meta);
    if IsEmpty(b) then [] else [Detection(b.x1, b.y1, b.x2, b.y2, score)]
  }

  predicate IsWellFormed(d: Detection, meta: LetterboxMeta) {
    0.0 <= d.x1 < d.x2 <= meta.origW as real && 0.0 <= d.y1 < d.y2 <= meta.origH as real
  }

  function Parts(p: Matrix, meta: LetterboxMeta, kept: seq<nat>): seq<seq<Detection>>
    requires AreRows(p, kept) && meta.gain != 0.0
  {
    seq(|kept|, i requires 0 <= i < |kept| => AsDetection(BoxOf(p.at[kept[i]]), Score(p.at[kept[i]]), meta))
  }

  function Concat(parts: seq<seq<Detection>>): seq<Detection> {
    if parts == [] then [] else Concat(parts[..|parts| - 1]) + parts[|parts| - 1]
  }

  /** The kept rows as detections, the ones that are cut to nothing left out. */
  function Emitted(p: Matrix, meta: LetterboxMeta, kept: seq<nat>): seq<Detection>
    requires AreRows(p, kept) && meta.gain != 0.0
  {
    Concat(Parts(p, meta, kept))
  }

  function Overlap(p: Matrix, a: nat, b: nat): real
    requires p.Valid() && p.cols >= 5 && a < p.rows && b < p.rows
  {
    Iou(BoxOf(p.at[a]), BoxOf(p.at[b]))
  }

  /** Which rows survive: they reach the threshold, are pairwise apart, come in order of score,
      and answer for every other row that reaches the threshold. */
  ghost predicate IsSelection(p: Matrix, conf: real, threshold: real, kept: seq<nat>)
    requires AreRows(p, kept)
  {
    && (forall i :: 0 <= i < |kept| ==> Score(p.at[kept[i]]) >= conf)
    && (forall i, j :: 0 <= i < j < |kept| ==>
          kept[i] != kept[j] && Score(p.at[kept[i]]) >= Score(p.at[kept[j]])
            && Overlap(p, kept[i], kept[j]) <= threshold)
    && (forall x: nat :: x < p.rows && Score(p.at[x]) >= conf && x !in kept ==> IsDominated(p, threshold, kept, x))
  }

  ghost predicate IsDominated(p: Matrix, threshold: real, kept: seq<nat>, x: nat)
    requires AreRows(p, kept) && x < p.rows
  {
    exists i :: 0 <= i < |kept| && Score(p.at[kept[i]]) >= Score(p.at[x]) && Overlap(p, kept[i], x) > threshold
  }

  /** From filtered candidates to kept rows: sort, then suppress. */
  method SelectRows(p: Matrix, conf: real, threshold: real) returns (kept: seq<nat>)
    requires p.Valid() && p.cols >= 5
    ensures AreRows(p, kept) && IsSelection(p, conf, threshold, kept)
  {
    var picks := Picks(p, conf, p.rows);
    PicksAreRows(p, conf, picks);
    var scores := seq(|picks|, i requires 0 <= i < |picks| => Score(p.at[picks[i]]));
    var order := ArgsortDescending(scores);
    var sorted := seq(|order|, i requires 0 <= i < |order| => picks[order[i]]);
    SortedAreCandidates(p, conf, picks, order, sorted);
    kept := SuppressRows(p, conf, threshold, sorted);
  }

  lemma PicksAreRows(p: Matrix, conf: real, picks: seq<nat>)
    requires p.Valid() && p.cols >= 5 && picks == Picks(p, conf, p.rows)
    ensures AreRows(p, picks)
  {
    forall i | 0 <= i < |picks| ensures picks[i] < p.rows {
      assert picks[i] in picks;
    }
  }

  lemma SortedAreCandidates(p: Matrix, conf: real, picks: seq<nat>, order: seq<nat>, sorted: seq<nat>)
    requires p.Valid() && p.cols >= 5 && picks == Picks(p, conf, p.rows)
    requires Distinct(order) && |order| == |picks| == |sorted|
    requires forall i :: 0 <= i < |order| ==> order[i] < |picks| && sorted[i] == picks[order[i]]
    requires forall k: nat :: k < |picks| ==> k in order
    ensures AreCandidates(p, conf, sorted)
  {
    SortedHoldsPicks(picks, order, sorted);
    forall i | 0 <= i < |sorted| ensures sorted[i] < p.rows {
      assert sorted[i] in sorted;
    }
  }

  method SuppressRows(p: Matrix, ghost conf: real, threshold: real, sorted: seq<nat>) returns (kept: seq<nat>)
    requires AreCandidates(p, conf, sorted)
    ensures AreRows(p, kept) && IsSelection(p, conf, threshold, kept)
  {
    var boxes := seq(|sorted|, i requires 0 <= i < |sorted| => BoxOf(p.at[sorted[i]]));
    var scores := seq(|sorted|, i requires 0 <= i < |sorted| => Score(p.at[sorted[i]]));
    var keep, ranking := Nms(boxes, scores, threshold);
    kept := seq(|keep|, i requires 0 <= i < |keep| => sorted[keep[i]]);
    KeptIsSelection(p, conf, threshold, sorted, boxes, scores, ranking, keep, kept);
  }

  method DecodeYolov8(pred: Matrix, meta: LetterboxMeta, conf: real, threshold: real)
    returns (r: Result<seq<Detection>>, ghost kept: seq<nat>)
    requires pred.Valid() && meta.gain != 0.0
    ensures r.ValueError? <==> Oriented(pred).cols < 5
    ensures r.Ok? ==> AreRows(Oriented(pred), kept) && IsSelection(Oriented(pred), conf, threshold, kept)
    ensures r.Ok? ==> r.value == Emitted(Oriented(pred), meta, kept)
  {
    var p := if pred.rows <= 84 && pred.cols !in {4, 5, 6, 84} then Transpose(pred) else pred;
    if p.cols < 5 {
      return ValueError, [];
    }
    var rows := SelectRows(p, conf, threshold);
    kept := rows;
    var detections := EmitDetections(p, meta, rows);
    r := Ok(detections);
  }

  method EmitDetections(p: Matrix, meta: LetterboxMeta, rows: seq<nat>) returns (detections: seq<Detection>)
    requires AreRows(p, rows) && meta.gain != 0.0
    ensures detections == Emitted(p, meta, rows)
  {
    ghost var parts := Parts(p, meta, rows);
    detections := [];
    for i := 0 to |rows|
      invariant detections == Concat(parts[..i])
    {
      assert parts[..i + 1][..i] == parts[..i];
      var b := OnImage(BoxOf(p.at[rows[i]]), meta);
      if b.x2 <= b.x1 || b.y2 <= b.y1 {
        continue;
      }
      detections := detections + [Detection(b.x1, b.y1, b.x2, b.y2, Score(p.at[rows[i]]))];
    }
    assert parts[..|rows|] == parts;
  }

  lemma SortedHoldsPicks(picks: seq<nat>, order: seq<nat>, sorted: seq<nat>)
    requires Distinct(picks) && Distinct(order) && |order| == |picks| && |sorted| == |order|
    requires forall i :: 0 <= i < |order| ==> order[i] < |picks| && sorted[i] == picks[order[i]]
    requires forall k: nat :: k < |picks| ==> k in order
    ensures Distinct(sorted) && forall x :: x in sorted <==> x in picks
  {
    forall i, j | 0 <= i < j < |sorted| ensures sorted[i] != sorted[j] {
      var a, b := order[i], order[j];
      assert a != b;
      if a < b {
        assert picks[a] != picks[b];
      } else {
        assert picks[b] != picks[a];
      }
    }
    forall x | x in picks ensures x in sorted {
      var k: nat :| k < |picks| && picks[k] == x;
      assert k in order;
      var i :| 0 <= i < |order| && order[i] == k;
      assert sorted[i] == x;
    }
  }

  /** The rows that reach the threshold, each once. */
  ghost predicate AreCandidates(p: Matrix, conf: real, sorted: seq<nat>) {
    && AreRows(p, sorted) && Distinct(sorted)
    && forall x: nat :: x in sorted <==> x < p.rows && Score(p.at[x]) >= conf
  }

  /** What suppression was given and what it returned. */
  ghost predicate IsSuppressed(p: Matrix, threshold: real, sorted: seq<nat>, boxes: seq<Box>, scores: seq<real>,
                               ranking: seq<nat>, keep: seq<nat>)
    requires AreRows(p, sorted)
  {
    && |boxes| == |scores| == |sorted|
    && (forall i :: 0 <= i < |sorted| ==> boxes[i] == BoxOf(p.at[sorted[i]]) && scores[i] == Score(p.at[sorted[i]]))
    && IsRanking(ranking, scores) && IsGreedyChoice(Clear(boxes, threshold), ranking, keep) && Distinct(keep)
    && (forall i, j :: 0 <= i < j < |keep| ==> Ahead(ranking, keep[i], keep[j]))
    && (forall i :: 0 <= i < |keep| ==> keep[i] < |sorted|)
  }

  lemma KeptPair(p: Matrix, threshold: real, sorted: seq<nat>, boxes: seq<Box>, scores: seq<real>,
                 ranking: seq<nat>, keep: seq<nat>, i: nat, j: nat)
    requires AreRows(p, sorted) && Distinct(sorted) && IsSuppressed(p, threshold, sorted, boxes, scores, ranking, keep)
    requires i < j < |keep|
    ensures var a, b := sorted[keep[i]], sorted[keep[j]];
      a != b && Score(p.at[a]) >= Score(p.at[b]) && Overlap(p, a, b) <= threshold
  {
    KeptBoxesAreApart(boxes, scores, threshold, ranking, keep, i, j);
    DifferentEntries(sorted, keep[i], keep[j]);
  }

  lemma DroppedIsDominated(p: Matrix, threshold: real, sorted: seq<nat>, boxes: seq<Box>, scores: seq<real>,
                           ranking: seq<nat>, keep: seq<nat>, kept: seq<nat>, k: nat)
    requires AreRows(p, sorted) && IsSuppressed(p, threshold, sorted, boxes, scores, ranking, keep)
    requires |kept| == |keep| && (forall i :: 0 <= i < |keep| ==> kept[i] == sorted[keep[i]])
    requires AreRows(p, kept) && k < |sorted| && k !in keep
    ensures IsDominated(p, threshold, kept, sorted[k])
  {
    var y := SuppressedBoxIsDominated(boxes, scores, threshold, ranking, keep, k);
    var i :| 0 <= i < |keep| && keep[i] == y;
    assert Score(p.at[kept[i]]) >= Score(p.at[sorted[k]]) && Overlap(p, kept[i], sorted[k]) > threshold;
  }

  lemma KeptIsSelection(p: Matrix, conf: real, threshold: real, sorted: seq<nat>, boxes: seq<Box>, scores: seq<real>,
                        ranking: seq<nat>, keep: seq<nat>, kept: seq<nat>)
    requires AreCandidates(p, conf, sorted) && IsSuppressed(p, threshold, sorted, boxes, scores, ranking, keep)
    requires |kept| == |keep| && (forall i :: 0 <= i < |keep| ==> kept[i] == sorted[keep[i]])
    ensures AreRows(p, kept) && IsSelection(p, conf, threshold, kept)
  {
    forall i | 0 <= i < |kept| ensures kept[i] < p.rows && Score(p.at[kept[i]]) >= conf {
      assert kept[i] in sorted;
    }
    forall i, j | 0 <= i < j < |kept|
      ensures kept[i] != kept[j] && Score(p.at[kept[i]]) >= Score(p.at[kept[j]])
        && Overlap(p, kept[i], kept[j]) <= threshold
    {
      KeptPair(p, threshold, sorted, boxes, scores, ranking, keep, i, j);
    }
    forall x: nat | x < p.rows && Score(p.at[x]) >= conf && x !in kept ensures IsDominated(p, threshold, kept, x) {
      assert x in sorted;
      var k: nat :| k < |sorted| && sorted[k] == x;
      assert forall i :: 0 <= i < |keep| ==> kept[i] != sorted[k];
      DroppedIsDominated(p, threshold, sorted, boxes, scores, ranking, keep, kept, k);
    }
  }

  lemma DifferentEntries(s: seq<nat>, i: nat, j: nat)
    requires Distinct(s) && i < |s| && j < |s| && i != j
    ensures s[i] != s[j]
  {
    if i < j {} else { assert s[j] != s[i]; }
  }

  // ---------------------------------------------------------------- what the result looks like

  /** In the image, with an area, reaching the threshold, and by nonincreasing confidence. */
  ghost predicate AreWellFormed(ds: seq<Detection>, meta: LetterboxMeta, conf: real) {
    && (forall i :: 0 <= i < |ds| ==> IsWellFormed(ds[i], meta) && ds[i].confidence >= conf)
    && (forall i, j :: 0 <= i < j < |ds| ==> ds[i].confidence >= ds[j].confidence)
  }

  /** Every result of a decode is well formed. */
  lemma EmittedAreWellFormed(p: Matrix, meta: LetterboxMeta, conf: real, threshold: real, kept: seq<nat>)
    requires AreRows(p, kept) && meta.gain != 0.0 && IsSelection(p, conf, threshold, kept)
    ensures AreWellFormed(Emitted(p, meta, kept), meta, conf)
  {
    var parts, scores := Parts(p, meta, kept), seq(|kept|, i requires 0 <= i < |kept| => Score(p.at[kept[i]]));
    assert forall i, j :: 0 <= i < j < |scores| ==> scores[i] >= scores[j];
    ConcatWellFormed(parts, scores, meta, conf);
  }

  lemma {:induction false} ConcatWellFormed(parts: seq<seq<Detection>>, scores: seq<real>, meta: LetterboxMeta,
                                            conf: real)
    requires |parts| == |scores|
    requires forall i :: 0 <= i < |parts| ==> |parts[i]| <= 1
    requires forall i :: 0 <= i < |parts| && parts[i] != [] ==>
      IsWellFormed(parts[i][0], meta) && parts[i][0].confidence == scores[i]
    requires forall i :: 0 <= i < |scores| ==> scores[i] >= conf
    requires forall i, j :: 0 <= i < j < |scores| ==> scores[i] >= scores[j]
    ensures AreWellFormed(Concat(parts), meta, conf)
    ensures parts != [] ==> forall i :: 0 <= i < |Concat(parts)| ==> Concat(parts)[i].confidence >= scores[|scores| - 1]
  {
    if parts != [] {
      var k := |parts| - 1;
      ConcatWellFormed(parts[..k], scores[..k], meta, conf);
      var ds, earlier := Concat(parts), Concat(parts[..k]);
      assert ds == earlier + parts[k];
      forall i | 0 <= i < |ds|
        ensures IsWellFormed(ds[i], meta) && ds[i].confidence >= conf && ds[i].confidence >= scores[k]
      {
        if i < |earlier| {
          assert parts[..k] != [] && ds[i] == earlier[i];
          assert earlier[i].confidence >= scores[..k][k - 1] == scores[k - 1];
        } else {
          assert ds[i] == parts[k][0];
        }
      }
      forall i, j | 0 <= i < j < |ds| ensures ds[i].confidence >= ds[j].confidence {
        if j >= |earlier| {
          assert ds[j] == parts[k][0];
        } else {
          assert ds[i] == earlier[i] && ds[j] == earlier[j];
        }
      }
    }
  }

  /** Nothing is dropped silently: each row that reaches the threshold is in the list, is cut to
      nothing by the image border, or overlaps a kept row of at least its score by more than
      the bound. */
  lemma EveryCandidateIsAnsweredFor(p: Matrix, meta: LetterboxMeta, conf: real, threshold: real, kept: seq<nat>, x: nat)
    requires AreRows(p, kept) && meta.gain != 0.0 && IsSelection(p, conf, threshold, kept)
    requires x < p.rows && Score(p.at[x]) >= conf
    ensures var b := OnImage(BoxOf(p.at[x]), meta);
      || Detection(b.x1, b.y1, b.x2, b.y2, Score(p.at[x])) in Emitted(p, meta, kept)
      || IsEmpty(b)
      || IsDominated(p, threshold, kept, x)
  {
    if x in kept {
      KeptIsEmitted(p, meta, kept, x);
    }
  }

  lemma KeptIsEmitted(p: Matrix, meta: LetterboxMeta, kept: seq<nat>, x: nat)
    requires AreRows(p, kept) && meta.gain != 0.0 && x in kept
    ensures var b := OnImage(BoxOf(p.at[x]), meta);
      IsEmpty(b) || Detection(b.x1, b.y1, b.x2, b.y2, Score(p.at[x])) in Emitted(p, meta, kept)
  {
    var i :| 0 <= i < |kept| && kept[i] == x;
    PartIsIn(Parts(p, meta, kept), i);
  }

  lemma {:induction false} PartIsIn(parts: seq<seq<Detection>>, i: nat)
    requires i < |parts|
    ensures forall d :: d in parts[i] ==> d in Concat(parts)
    decreases |parts|
  {
    if i < |parts| - 1 {
      PartIsIn(parts[..|parts| - 1], i);
    }
  }

  /** And nothing is made up: each detection is a kept row mapped back, and no row yields two. */
  lemma EmittedComeFromKept(p: Matrix, meta: LetterboxMeta, kept: seq<nat>)
    requires AreRows(p, kept) && meta.gain != 0.0
    ensures |Emitted(p, meta, kept)| <= |kept|
    ensures forall d :: d in Emitted(p, meta, kept) ==> exists i :: 0 <= i < |kept| && IsRowMapped(p, meta, kept[i], d)
  {
    var parts := Parts(p, meta, kept);
    ConcatIsShort(parts);
    forall d | d in Concat(parts) ensures exists i :: 0 <= i < |kept| && IsRowMapped(p, meta, kept[i], d) {
      var i := ConcatOrigin(parts, d);
      assert IsRowMapped(p, meta, kept[i], d);
    }
  }

  predicate IsRowMapped(p: Matrix, meta: LetterboxMeta, x: nat, d: Detection)
    requires p.Valid() && p.cols >= 5 && x < p.rows && meta.gain != 0.0
  {
    var b := OnImage(BoxOf(p.at[x]), meta);
    b.x1 < b.x2 && b.y1 < b.y2 && d == Detection(b.x1, b.y1, b.x2, b.y2, Score(p.at[x]))
  }

  lemma {:induction false} ConcatIsShort(parts: seq<seq<Detection>>)
    requires forall i :: 0 <= i < |parts| ==> |parts[i]| <= 1
    ensures |Concat(parts)| <= |parts|
    decreases |parts|
  {
    if parts != [] {
      ConcatIsShort(parts[..|parts| - 1]);
    }
  }

  lemma {:induction false} ConcatOrigin(parts: seq<seq<Detection>>, d: Detection) returns (i: nat)
    requires d in Concat(parts)
    ensures i < |parts| && d in parts[i]
    decreases |parts|
  {
    i := |parts| - 1;
    if d !in parts[i] {
      i := ConcatOrigin(parts[..i], d);
    }
  }

  function ToNormalizedBbox(d: Detection, width: nat, height: nat): seq<real>
    requires width > 0 && height > 0
  {
    [d.x1 / width as real, d.y1 / height as real, d.x2 / width as real, d.y2 / height as real]
  }

  lemma NormalizedScalesBack(d: Detection, width: nat, height: nat)
    requires width > 0 && height > 0
    ensures var n := ToNormalizedBbox(d, width, height);
      && n[0] * width as real == d.x1 && n[1] * height as real == d.y1
      && n[2] * width as real == d.x2 && n[3] * height as real == d.y2
  {
    TimesBack(d.x1, width as real);
    TimesBack(d.y1, height as real);
    TimesBack(d.x2, width as real);
    TimesBack(d.y2, height as real);
  }

  /** The normalised box of a well-formed detection is a proper box in the unit square. */
  lemma NormalizedInUnitSquare(d: Detection, meta: LetterboxMeta)
    requires IsWellFormed(d, meta)
    ensures meta.origW > 0 && meta.origH > 0
    ensures var n := ToNormalizedBbox(d, meta.origW, meta.origH);
      0.0 <= n[0] < n[2] <= 1.0 && 0.0 <= n[1] < n[3] <= 1.0
  {
    UnitInterval(d.x1, d.x2, meta.origW as real);
    UnitInterval(d.y1, d.y2, meta.origH as real);
  }

  lemma UnitInterval(a: real, b: real, size: real)
    requires 0.0 <= a < b <= size
    ensures 0.0 <= a / size < b / size <= 1.0
  {
    assert a / size * size == a && b / size * size == b;
  }
}
