/** The video analysis core of the backend (processor.py): per-track
    bookkeeping, the colour and plate decisions over what the vision
    libraries measured, the running counters and progress, and the CSV rows.

    The detector, tracker, HSV masks and OCR reader are not modelled; what
    they return for a frame (track ids, class ids, per-range pixel counts,
    OCR `(text, score)` lists) is the input. */
module Processor {
  import opened Common

  const NotDetected := "Not Detected"
  /** `frames_seen` value on which a track is locked and counted. */
  const LockFrame: nat := 5
  /** At most this many OCR attempts per track. */
  const OcrCap: nat := 10
  /** A locked track absent for more than this many frames gets its CSV row. */
  const StaleAfter: nat := 15
  /** Only every `FrameSkip`-th frame goes through detection. */
  const FrameSkip: nat := 5
  /** Progress is refreshed every `ProgressEvery` frames. */
  const ProgressEvery: nat := 10
  /** Frames wider than this are scaled down to it before detection. */
  const MaxWidth: nat := 1920

  // ---------------------------------------------------------------------
  // Vehicle type

  /** The three labels a track can carry (`type_str`). */
  datatype VehicleType = Car | Bike | Truck

  /** Type of a new track from its YOLO class id: 3 is a bike, 7 a truck,
      anything else (2 included) stays a car. */
  function TypeOf(clsId: int): (t: VehicleType)
    ensures t == Bike <==> clsId == 3
    ensures t == Truck <==> clsId == 7
    ensures t == Car <==> clsId != 3 && clsId != 7
  {
    if clsId == 2 then Car
    else if clsId == 3 then Bike
    else if clsId == 7 then Truck
    else Car
  }

  /** The label written to the CSV and drawn on the frame. */
  function TypeName(t: VehicleType): (s: string)
    ensures |s| >= 3
  {
    match t
    case Car => "Car"
    case Bike => "Bike"
    case Truck => "Truck"
  }

  /** Distinct types are written under distinct labels. */
  lemma TypeNameInjective(a: VehicleType, b: VehicleType)
    ensures TypeName(a) == TypeName(b) <==> a == b
  {
  }

  /** Width of the frames the detector and OCR see. */
  function OutputWidth(sourceWidth: nat): (w: nat)
    ensures w <= MaxWidth && w <= sourceWidth
    ensures sourceWidth <= MaxWidth ==> w == sourceWidth
    ensures sourceWidth > MaxWidth ==> w == MaxWidth
  {
    if sourceWidth > MaxWidth then MaxWidth else sourceWidth
  }

  // ---------------------------------------------------------------------
  // Colour decision

  const ColorNames: seq<string> := ["White", "Black", "Red", "Blue", "Gray"]
  /** Number of HSV ranges per colour (Red wraps around the hue circle). */
  const RangesPerColor: seq<nat> := [1, 1, 2, 1, 1]
  const DefaultColor := "Blue"

  /** What the colour masks measured on a vehicle crop: the crop or its
      centre region may be empty; otherwise, per colour in `ColorNames`
      order, the non-zero pixel count of each of its HSV ranges, and the
      centre's pixel total. */
  datatype ColorSample =
    | EmptyCrop
    | EmptyCenter
    | Masked(rangeCounts: seq<seq<nat>>, total: nat)

  predicate WellFormedSample(s: ColorSample) {
    s.Masked? ==>
      && |s.rangeCounts| == |ColorNames|
      && (forall i :: 0 <= i < |ColorNames| ==> |s.rangeCounts[i]| == RangesPerColor[i])
      && s.total > 0
  }

  function Sum(s: seq<nat>): nat {
    if s == [] then 0 else Sum(s[..|s| - 1]) + s[|s| - 1]
  }

  /** Pixel count of each colour: the sum over its ranges. */
  function ColorTotals(rangeCounts: seq<seq<nat>>): (r: seq<nat>)
    ensures |r| == |rangeCounts|
    ensures forall i :: 0 <= i < |r| ==> r[i] == Sum(rangeCounts[i])
  {
    seq(|rangeCounts|, i requires 0 <= i < |rangeCounts| => Sum(rangeCounts[i]))
  }

  /** `count / total > 0.3`, in exact arithmetic. */
  predicate Dominant(count: nat, total: nat) {
    10 * count > 3 * total
  }

  /** Colour `k` covers more than 30% of the centre and no other such colour
      has more pixels; among equals the earliest wins. */
  ghost predicate IsColorWinner(counts: seq<nat>, total: nat, k: int) {
    && 0 <= k < |counts|
    && Dominant(counts[k], total)
    && (forall j :: 0 <= j < k && Dominant(counts[j], total) ==> counts[j] < counts[k])
    && (forall j :: k < j < |counts| && Dominant(counts[j], total) ==> counts[j] <= counts[k])
  }

  ghost predicate SomeDominant(counts: seq<nat>, total: nat) {
    exists k :: 0 <= k < |counts| && Dominant(counts[k], total)
  }

  /** The colour the source promises for a sample. */
  ghost predicate ColorSpec(sample: ColorSample, color: string)
    requires WellFormedSample(sample)
  {
    match sample
    case Masked(rc, total) =>
      var counts := ColorTotals(rc);
      if SomeDominant(counts, total)
      then exists k :: IsColorWinner(counts, total, k) && color == ColorNames[k]
      else color == DefaultColor
    case _ => color == DefaultColor
  }

  lemma ColorWinnerUnique(counts: seq<nat>, total: nat, k1: int, k2: int)
    requires IsColorWinner(counts, total, k1) && IsColorWinner(counts, total, k2)
    ensures k1 == k2
  {
  }

  /** The colour decision is a function of the sample. */
  lemma ColorSpecDeterministic(sample: ColorSample, c1: string, c2: string)
    requires WellFormedSample(sample)
    requires ColorSpec(sample, c1) && ColorSpec(sample, c2)
    ensures c1 == c2
  {
    if sample.Masked? {
      var counts := ColorTotals(sample.rangeCounts);
      if SomeDominant(counts, sample.total) {
        var k1 :| IsColorWinner(counts, sample.total, k1) && c1 == ColorNames[k1];
        var k2 :| IsColorWinner(counts, sample.total, k2) && c2 == ColorNames[k2];
        ColorWinnerUnique(counts, sample.total, k1, k2);
      }
    }
  }

  /** Index of the running winner of the colour loop (-1 for none): a
      colour replaces it when it is dominant and has strictly more pixels. */
  function Winner(counts: seq<nat>, total: nat): (k: int)
    ensures -1 <= k < |counts|
  {
    if counts == [] then -1
    else
      var w := Winner(counts[..|counts| - 1], total);
      var c := counts[|counts| - 1];
      if c > (if w < 0 then 0 else counts[w]) && Dominant(c, total) then |counts| - 1 else w
  }

  lemma WinnerPrefix(counts: seq<nat>, total: nat)
    requires counts != []
    ensures var w := Winner(counts[..|counts| - 1], total); w < |counts| - 1 && (w >= 0 ==> counts[w] == counts[..|counts| - 1][w])
  {
  }

  /** A colour that stays the winner when one more colour does not beat it. */
  lemma KeepsWinner(p: seq<nat>, c: nat, total: nat, k: int)
    requires IsColorWinner(p, total, k)
    requires !(c > p[k] && Dominant(c, total))
    ensures IsColorWinner(p + [c], total, k)
  {
  }

  /** A dominant colour with more pixels than every earlier dominant one wins. */
  lemma NewWinner(p: seq<nat>, c: nat, total: nat)
    requires Dominant(c, total)
    requires forall j :: 0 <= j < |p| && Dominant(p[j], total) ==> p[j] < c
    ensures IsColorWinner(p + [c], total, |p|)
  {
  }

  /** The running winner is the colour the source promises. */
  lemma {:induction false} WinnerIsColorWinner(counts: seq<nat>, total: nat)
    ensures Winner(counts, total) >= 0 ==> IsColorWinner(counts, total, Winner(counts, total))
    ensures Winner(counts, total) < 0 <==> !SomeDominant(counts, total)
  {
    if counts == [] {
      return;
    }
    var n := |counts| - 1;
    var p, c := counts[..n], counts[n];
    assert counts == p + [c];
    WinnerIsColorWinner(p, total);
    var w := Winner(p, total);
    if w >= 0 {
      if c > p[w] && Dominant(c, total) {
        NewWinner(p, c, total);
      } else {
        KeepsWinner(p, c, total, w);
      }
    } else if Dominant(c, total) {
      NewWinner(p, c, total);
    } else {
      assert forall j :: 0 <= j < |counts| ==> !Dominant(counts[j], total) by {
        assert forall j :: 0 <= j < n ==> counts[j] == p[j];
      }
    }
  }

  /** The colour `detect_color` returns for a sample. */
  function ColorOf(sample: ColorSample): (color: string)
    requires WellFormedSample(sample)
    ensures color in ColorNames
  {
    if sample.Masked? then
      var w := Winner(ColorTotals(sample.rangeCounts), sample.total);
      if w >= 0 then ColorNames[w] else DefaultColor
    else DefaultColor
  }

  /** `ColorOf` meets the promise: the most frequent dominant colour, the
      earliest among equals, or Blue. */
  lemma ColorOfSpec(sample: ColorSample)
    requires WellFormedSample(sample)
    ensures ColorSpec(sample, ColorOf(sample))
  {
    if sample.Masked? {
      WinnerIsColorWinner(ColorTotals(sample.rangeCounts), sample.total);
    }
  }

  /** Sum of the pixel counts of one colour's ranges. */
  method CountPixels(ranges: seq<nat>) returns (count: nat)
    ensures count == Sum(ranges)
  {
    count := 0;
    var j := 0;
    while j < |ranges|
      invariant 0 <= j <= |ranges|
      invariant count == Sum(ranges[..j])
    {
      assert ranges[..j + 1][..j] == ranges[..j];
      count := count + ranges[j];
      j := j + 1;
    }
    assert ranges[..|ranges|] == ranges;
  }

  /** `detect_color`: the loop over the colours in order. */
  method DetectColor(sample: ColorSample) returns (color: string)
    requires WellFormedSample(sample)
    ensures color == ColorOf(sample)
  {
    color := DefaultColor;
    if !sample.Masked? {
      return;
    }
    var rc, total := sample.rangeCounts, sample.total;
    ghost var counts := ColorTotals(rc);
    var maxPixels: nat := 0;
    var i := 0;
    while i < |ColorNames|
      invariant 0 <= i <= |ColorNames|
      invariant var w := Winner(counts[..i], total);
        && color == (if w >= 0 then ColorNames[w] else DefaultColor)
        && maxPixels == (if w >= 0 then counts[w] else 0)
    {
      var count := CountPixels(rc[i]);
      assert counts[..i + 1][..i] == counts[..i];
      WinnerPrefix(counts[..i + 1], total);
      if count > maxPixels && Dominant(count, total) {
        maxPixels := count;
        color := ColorNames[i];
      }
      i := i + 1;
    }
    assert counts[..|ColorNames|] == counts;
  }

  // ---------------------------------------------------------------------
  // Plate reading

  datatype OcrResult = OcrResult(text: string, score: real)

  /** The characters the plate cleaner deletes. */
  predicate IsSeparator(c: char) {
    c == ' ' || c == '.' || c == '-'
  }

  /** The plate cleaner, character by character: separators are dropped and
      everything else is upper-cased. */
  function CleanPlate(text: string): (r: string)
    ensures forall c :: c in r ==> !IsSeparator(c) && !IsLowerAscii(c)
    ensures |r| <= |text|
  {
    if text == [] then []
    else if IsSeparator(text[0]) then CleanPlate(text[1..])
    else [UpperChar(text[0])] + CleanPlate(text[1..])
  }

  /** `CleanPlate` is `text.upper().replace(" ", "").replace(".", "").replace("-", "")`. */
  lemma {:induction false} CleanPlateIsUpperThenRemove(text: string)
    ensures CleanPlate(text) == Remove(Remove(Remove(Upper(text), ' '), '.'), '-')
  {
    if text != [] {
      var u, rest := UpperChar(text[0]), Upper(text[1..]);
      assert Upper(text) == [u] + rest;
      assert IsSeparator(u) <==> IsSeparator(text[0]);
      CleanPlateIsUpperThenRemove(text[1..]);
      RemoveCons(u, rest, ' ');
      RemoveCons(u, Remove(rest, ' '), '.');
      RemoveCons(u, Remove(Remove(rest, ' '), '.'), '-');
    }
  }

  /** Cleaning a cleaned text changes nothing. */
  lemma {:induction false} CleanPlateIdempotent(text: string)
    ensures CleanPlate(CleanPlate(text)) == CleanPlate(text)
  {
    if text != [] {
      CleanPlateIdempotent(text[1..]);
      if !IsSeparator(text[0]) {
        var c := CleanPlate(text);
        assert c == [UpperChar(text[0])] + CleanPlate(text[1..]);
        assert c[1..] == CleanPlate(text[1..]);
      }
    }
  }

  /** What OCR saw on a vehicle crop: whether the crop is empty, its width,
      whether the plate band is empty, and the reader's results on each of
      the three preprocessed images (a reader failure reads as no results). */
  datatype PlateCrop = PlateCrop(empty: bool, width: nat, regionEmpty: bool,
                                 candidates: seq<seq<OcrResult>>)

  /** All readings, candidate after candidate. */
  function Flatten(c: seq<seq<OcrResult>>): seq<OcrResult> {
    if c == [] then [] else Flatten(c[..|c| - 1]) + c[|c| - 1]
  }

  /** Crops narrower than 5% of the frame width are not read. */
  predicate TooNarrow(width: nat, frameWidth: nat) {
    20 * width < frameWidth
  }

  /** One step of the reading loop: a cleaned reading of at least four
      characters replaces the running best when its score is strictly higher. */
  function Consider(b: OcrResult, r: OcrResult): OcrResult {
    if |CleanPlate(r.text)| >= 4 && r.score > b.score then OcrResult(CleanPlate(r.text), r.score) else b
  }

  /** The running best of the reading loop, from ("Not Detected", 0.0). */
  function BestOf(rs: seq<OcrResult>): OcrResult {
    if rs == [] then OcrResult(NotDetected, 0.0)
    else Consider(BestOf(rs[..|rs| - 1]), rs[|rs| - 1])
  }

  lemma BestOfSnoc(p: seq<OcrResult>, r: OcrResult)
    ensures BestOf(p + [r]) == Consider(BestOf(p), r)
  {
    assert (p + [r])[..|p|] == p;
  }

  lemma FlattenSnoc(c: seq<seq<OcrResult>>, rs: seq<OcrResult>)
    ensures Flatten(c + [rs]) == Flatten(c) + rs
  {
    assert (c + [rs])[..|c|] == c;
  }

  /** The result of `detect_plate` on what OCR saw. */
  function PlateOf(crop: PlateCrop, frameWidth: nat): OcrResult {
    if crop.empty || TooNarrow(crop.width, frameWidth) || crop.regionEmpty
    then OcrResult(NotDetected, 0.0)
    else BestOf(Flatten(crop.candidates))
  }

  /** A reading that can win: at least four characters once cleaned, and a
      score above the initial 0.0. */
  predicate Acceptable(r: OcrResult) {
    |CleanPlate(r.text)| >= 4 && r.score > 0.0
  }

  /** Reading `k` has a strictly higher score than every earlier acceptable
      reading and at least the score of every later one. */
  ghost predicate IsBestReading(rs: seq<OcrResult>, k: int) {
    && 0 <= k < |rs|
    && Acceptable(rs[k])
    && (forall j :: 0 <= j < k && Acceptable(rs[j]) ==> rs[j].score < rs[k].score)
    && (forall j :: k < j < |rs| && Acceptable(rs[j]) ==> rs[j].score <= rs[k].score)
  }

  ghost predicate SomeAcceptable(rs: seq<OcrResult>) {
    exists k :: 0 <= k < |rs| && Acceptable(rs[k])
  }

  lemma KeepsBest(p: seq<OcrResult>, r: OcrResult, k: int)
    requires IsBestReading(p, k)
    requires !(Acceptable(r) && r.score > p[k].score)
    ensures IsBestReading(p + [r], k)
  {
  }

  lemma NewBest(p: seq<OcrResult>, r: OcrResult)
    requires Acceptable(r)
    requires forall j :: 0 <= j < |p| && Acceptable(p[j]) ==> p[j].score < r.score
    ensures IsBestReading(p + [r], |p|)
  {
  }

  /** The running best is the cleaned text of the first highest-scoring
      acceptable reading, or "Not Detected" with 0.0 when there is none. */
  lemma {:induction false} BestOfIsBest(rs: seq<OcrResult>)
    ensures SomeAcceptable(rs) ==>
      exists k :: IsBestReading(rs, k) && BestOf(rs) == OcrResult(CleanPlate(rs[k].text), rs[k].score)
    ensures !SomeAcceptable(rs) ==> BestOf(rs) == OcrResult(NotDetected, 0.0)
  {
    if rs == [] {
      return;
    }
    var n := |rs| - 1;
    var p, r := rs[..n], rs[n];
    assert rs == p + [r];
    BestOfIsBest(p);
    var b := BestOf(p);
    assert BestOf(rs) == Consider(b, r);
    if SomeAcceptable(p) {
      var k :| IsBestReading(p, k) && b == OcrResult(CleanPlate(p[k].text), p[k].score);
      if Acceptable(r) && r.score > b.score {
        NewBest(p, r);
        assert IsBestReading(rs, n) && BestOf(rs) == OcrResult(CleanPlate(rs[n].text), rs[n].score);
      } else {
        KeepsBest(p, r, k);
        assert IsBestReading(rs, k) && BestOf(rs) == OcrResult(CleanPlate(rs[k].text), rs[k].score);
      }
      assert SomeAcceptable(rs) by {
        assert Acceptable(rs[k]);
      }
    } else if Acceptable(r) {
      NewBest(p, r);
      assert IsBestReading(rs, n) && BestOf(rs) == OcrResult(CleanPlate(rs[n].text), rs[n].score);
    } else {
      assert forall j :: 0 <= j < |rs| ==> !Acceptable(rs[j]) by {
        assert forall j :: 0 <= j < n ==> rs[j] == p[j];
      }
    }
  }

  /** A plate result is either the "not detected" pair or a cleaned reading
      of at least four characters with a positive score, and it is the best
      reading over the three candidates when the crop passes the filters. */
  lemma PlateOfSpec(crop: PlateCrop, frameWidth: nat)
    ensures var p := PlateOf(crop, frameWidth);
      && ((p.text == NotDetected && p.score == 0.0) || (|p.text| >= 4 && ' ' !in p.text && p.score > 0.0))
      && (p.text == NotDetected <==> p.score == 0.0)
    ensures crop.empty || TooNarrow(crop.width, frameWidth) || crop.regionEmpty ==>
      PlateOf(crop, frameWidth) == OcrResult(NotDetected, 0.0)
    ensures var rs := Flatten(crop.candidates);
      !(crop.empty || TooNarrow(crop.width, frameWidth) || crop.regionEmpty) && SomeAcceptable(rs) ==>
      exists k :: IsBestReading(rs, k) && PlateOf(crop, frameWidth) == OcrResult(CleanPlate(rs[k].text), rs[k].score)
  {
    BestOfIsBest(Flatten(crop.candidates));
    assert ' ' in NotDetected;
  }

  /** `detect_plate`: the size filters, then the reading loop over the three
      preprocessed candidates. */
  method DetectPlate(crop: PlateCrop, frameWidth: nat) returns (text: string, score: real)
    ensures OcrResult(text, score) == PlateOf(crop, frameWidth)
  {
    if crop.empty || TooNarrow(crop.width, frameWidth) || crop.regionEmpty {
      return NotDetected, 0.0;
    }
    text, score := NotDetected, 0.0;
    var cands := crop.candidates;
    var i := 0;
    while i < |cands|
      invariant 0 <= i <= |cands|
      invariant OcrResult(text, score) == BestOf(Flatten(cands[..i]))
    {
      text, score := ReadResults(text, score, cands[i], Flatten(cands[..i]));
      assert cands[..i + 1] == cands[..i] + [cands[i]];
      FlattenSnoc(cands[..i], cands[i]);
      i := i + 1;
    }
    assert cands[..|cands|] == cands;
  }

  /** The inner reading loop over one candidate's results, continuing from
      the running best of the readings `seen` before it. */
  method ReadResults(text0: string, score0: real, results: seq<OcrResult>, ghost seen: seq<OcrResult>)
    returns (text: string, score: real)
    requires OcrResult(text0, score0) == BestOf(seen)
    ensures OcrResult(text, score) == BestOf(seen + results)
  {
    text, score := text0, score0;
    assert seen + results[..0] == seen;
    var j := 0;
    while j < |results|
      invariant 0 <= j <= |results|
      invariant OcrResult(text, score) == BestOf(seen + results[..j])
    {
      var r := results[j];
      assert seen + results[..j + 1] == (seen + results[..j]) + [r];
      BestOfSnoc(seen + results[..j], r);
      var clean := CleanPlate(r.text);
      if |clean| >= 4 && r.score > score {
        score := r.score;
        text := clean;
      }
      j := j + 1;
    }
    assert results[..|results|] == results;
  }

  // ---------------------------------------------------------------------
  // Progress

  /** Progress percentage reported every tenth frame: the share of frames
      read, capped at 99, or 50 when the frame count is unknown. */
  function Progress(frameIdx: nat, totalFrames: int): (p: nat)
    ensures p <= 99
    ensures totalFrames <= 0 ==> p == 50
  {
    if totalFrames > 0 then
      var q := frameIdx * 100 / totalFrames;
      if q > 99 then 99 else q
    else 50
  }

  lemma MulCancel(a: int, b: int, d: int)
    requires d > 0 && a * d < b * d
    ensures a < b
  {
  }

  lemma DivMonotone(x: nat, y: nat, d: int)
    requires x <= y && d > 0
    ensures x / d <= y / d
  {
    var qx, qy := x / d, y / d;
    assert qx * d <= x && y < qy * d + d;
    assert qx * d < (qy + 1) * d;
    MulCancel(qx, qy + 1, d);
  }

  /** For a known frame count, progress never goes backwards. */
  lemma ProgressMonotone(a: nat, b: nat, totalFrames: int)
    requires a <= b && totalFrames > 0
    ensures Progress(a, totalFrames) <= Progress(b, totalFrames)
  {
    DivMonotone(a * 100, b * 100, totalFrames);
  }

  // ---------------------------------------------------------------------
  // Plate state of a track

  /** The OCR fields of `VehicleData`. */
  datatype PlateState = PlateState(initialPlate: string, bestPlate: string, bestConf: real, plateLocked: bool)

  const NoPlate := PlateState(NotDetected, NotDetected, 0.0, false)

  predicate PlateValid(p: PlateState) {
    && (p.bestPlate == NotDetected <==> p.initialPlate == NotDetected)
    && (p.bestPlate == NotDetected ==> p.bestConf == 0.0)
    && (p.bestPlate != NotDetected ==> p.bestConf > 0.3)
    && (p.plateLocked <==> p.initialPlate != NotDetected)
  }

  /** A reading is used when it is a plate and scores above 0.3. */
  predicate Accepted(r: OcrResult) {
    r.text != NotDetected && r.score > 0.3
  }

  /** The update rule for one OCR reading. */
  function Read(p: PlateState, r: OcrResult): (q: PlateState)
    ensures PlateValid(p) ==> PlateValid(q)
    ensures q.bestConf >= p.bestConf
    ensures p.initialPlate != NotDetected ==> q.initialPlate == p.initialPlate
    ensures !Accepted(r) ==> q == p
  {
    if Accepted(r) then
      var p1 := if r.score > p.bestConf then p.(bestConf := r.score, bestPlate := r.text) else p;
      if p1.initialPlate == NotDetected then p1.(initialPlate := r.text, plateLocked := true) else p1
    else p
  }

  /** The plate state after a track's readings, in order. */
  function ReadAll(rs: seq<OcrResult>): PlateState {
    if rs == [] then NoPlate else Read(ReadAll(rs[..|rs| - 1]), rs[|rs| - 1])
  }

  lemma {:induction false} ReadAllValid(rs: seq<OcrResult>)
    ensures PlateValid(ReadAll(rs))
  {
    if rs != [] {
      ReadAllValid(rs[..|rs| - 1]);
    }
  }

  /** The first accepted reading, scanning from the start. */
  function FirstAccepted(rs: seq<OcrResult>): (o: Option<OcrResult>)
    ensures o.Some? ==> Accepted(o.value) && o.value in rs
  {
    if rs == [] then None
    else if Accepted(rs[0]) then Some(rs[0])
    else FirstAccepted(rs[1..])
  }

  lemma {:induction false} FirstAcceptedSnoc(rs: seq<OcrResult>, r: OcrResult)
    ensures FirstAccepted(rs + [r]) ==
      (if FirstAccepted(rs).Some? then FirstAccepted(rs) else if Accepted(r) then Some(r) else None)
  {
    if rs != [] {
      assert (rs + [r])[1..] == rs[1..] + [r];
      FirstAcceptedSnoc(rs[1..], r);
    }
  }

  /** Reading `i` is the first accepted one with the top score `conf`. */
  ghost predicate FirstTop(rs: seq<OcrResult>, i: int, conf: real) {
    && 0 <= i < |rs| && Accepted(rs[i]) && rs[i].score == conf
    && forall j :: 0 <= j < i && Accepted(rs[j]) ==> rs[j].score < conf
  }

  /** After a track's readings the initial plate is the first accepted
      text, and the best confidence is the highest accepted score, read with
      the best plate from the first accepted reading that scored it (0.0
      when none was accepted). */
  lemma {:induction false} ReadAllSummary(rs: seq<OcrResult>)
    ensures var p := ReadAll(rs);
      && p.initialPlate == (if FirstAccepted(rs).Some? then FirstAccepted(rs).value.text else NotDetected)
      && (forall i :: 0 <= i < |rs| && Accepted(rs[i]) ==> rs[i].score <= p.bestConf)
      && (p.bestConf == 0.0 <==> forall i :: 0 <= i < |rs| ==> !Accepted(rs[i]))
      && (p.bestConf != 0.0 ==> exists i :: FirstTop(rs, i, p.bestConf) && rs[i].text == p.bestPlate)
  {
    if rs == [] {
      return;
    }
    var n := |rs| - 1;
    var q, r := rs[..n], rs[n];
    assert rs == q + [r];
    assert forall j :: 0 <= j < n ==> rs[j] == q[j];
    ReadAllSummary(q);
    FirstAcceptedSnoc(q, r);
    var pq := ReadAll(q);
    if pq.bestConf != 0.0 {
      var i :| FirstTop(q, i, pq.bestConf) && q[i].text == pq.bestPlate;
      assert rs[i] == q[i];
      if !(Accepted(r) && r.score > pq.bestConf) {
        assert FirstTop(rs, i, pq.bestConf);
      }
    }
    if Accepted(r) && r.score > pq.bestConf {
      assert FirstTop(rs, n, r.score);
    }
    if FirstAccepted(q).Some? {
      assert pq.initialPlate != NotDetected;
    }
  }

  // ---------------------------------------------------------------------
  // Per-track state

  /** `VehicleData`: one tracked vehicle (the detection box it was created
      with is not used afterwards and is not modelled). */
  datatype Track = Track(
    clsId: int,
    vtype: VehicleType,
    confidence: real,
    framesSeen: nat,
    lastSeenFrame: nat,
    locked: bool,
    ocrAttempts: nat,
    csvWritten: bool,
    color: string,
    plate: PlateState)

  /** Counted exactly from the fifth sighting on; at most one OCR attempt
      per five sightings and never more than ten; written only once counted. */
  predicate TrackValid(v: Track) {
    && (v.locked <==> v.framesSeen >= LockFrame)
    && (v.csvWritten ==> v.locked)
    && v.ocrAttempts <= OcrCap
    && v.ocrAttempts * FrameSkip <= v.framesSeen
  }

  /** A track as created for a new id, with the detector's confidence. */
  function NewTrack(clsId: int, conf: real): (v: Track)
    ensures TrackValid(v)
    ensures v.framesSeen == 0 && !v.locked && !v.csvWritten && v.plate == ReadAll([])
    ensures v.clsId == clsId && v.vtype == TypeOf(clsId) && v.confidence == conf && v.color == DefaultColor
  {
    Track(clsId, TypeOf(clsId), conf, 0, 0, false, 0, false, DefaultColor, NoPlate)
  }

  /** The sighting about to happen is the fifth: the track locks on it. */
  predicate LocksNow(v: Track) {
    !v.locked && v.framesSeen + 1 == LockFrame
  }

  /** One sighting in frame `frameIdx`; `lockColor` is the colour read on
      this crop, taken only when the sighting locks the track. */
  function Sighted(v: Track, frameIdx: nat, lockColor: string): (w: Track)
    requires TrackValid(v)
    ensures TrackValid(w)
    ensures w.framesSeen == v.framesSeen + 1 && w.lastSeenFrame == frameIdx
    ensures (w.locked && !v.locked) <==> w.framesSeen == LockFrame
    ensures w.color == (if LocksNow(v) then lockColor else v.color)
    ensures w.ocrAttempts * FrameSkip < w.framesSeen
    ensures w.(framesSeen := v.framesSeen, lastSeenFrame := v.lastSeenFrame, locked := v.locked, color := v.color) == v
  {
    var v1 := v.(framesSeen := v.framesSeen + 1, lastSeenFrame := frameIdx);
    if !v1.locked && v1.framesSeen == LockFrame then v1.(locked := true, color := lockColor) else v1
  }

  /** The OCR schedule: fewer than ten attempts so far, and `framesSeen`
      is a positive multiple of five. */
  predicate OcrDue(v: Track) {
    v.ocrAttempts < OcrCap && v.framesSeen >= LockFrame && v.framesSeen % FrameSkip == 0
  }

  /** One OCR attempt: the attempt is counted and its reading applied. */
  function Attempted(v: Track, r: OcrResult): (w: Track)
    requires TrackValid(v) && OcrDue(v) && v.ocrAttempts * FrameSkip < v.framesSeen
    ensures TrackValid(w)
    ensures w.ocrAttempts == v.ocrAttempts + 1 && w.plate == Read(v.plate, r)
    ensures w.(ocrAttempts := v.ocrAttempts, plate := v.plate) == v
  {
    v.(ocrAttempts := v.ocrAttempts + 1, plate := Read(v.plate, r))
  }

  /** Everything one detection does to its track: a sighting, the colour
      read when it locks, and an OCR attempt when one is due. */
  function Observe(v: Track, frameIdx: nat, d: Detection, frameWidth: nat): (w: Track)
    requires TrackValid(v) && WellFormedSample(d.color)
    ensures TrackValid(w)
    ensures w.framesSeen == v.framesSeen + 1 && w.lastSeenFrame == frameIdx
    ensures (w.locked && !v.locked) <==> w.framesSeen == LockFrame
    ensures v.locked ==> w.locked
    ensures w.color == (if LocksNow(v) then ColorOf(d.color) else v.color)
    ensures OcrDue(Sighted(v, frameIdx, w.color)) ==>
      w.ocrAttempts == v.ocrAttempts + 1 && w.plate == Read(v.plate, PlateOf(d.plate, frameWidth))
    ensures !OcrDue(Sighted(v, frameIdx, w.color)) ==> w.ocrAttempts == v.ocrAttempts && w.plate == v.plate
    ensures w.clsId == v.clsId && w.vtype == v.vtype && w.confidence == v.confidence && w.csvWritten == v.csvWritten
  {
    var s := Sighted(v, frameIdx, if LocksNow(v) then ColorOf(d.color) else v.color);
    if OcrDue(s) then Attempted(s, PlateOf(d.plate, frameWidth)) else s
  }

  /** What the tracker reported for one vehicle in one frame. */
  datatype Detection = Detection(tid: int, clsId: int, conf: real, color: ColorSample, plate: PlateCrop)

  /** Counters handed to the progress callback. */
  datatype Counters = Counters(total: nat, cars: nat, bikes: nat, trucks: nat, progress: nat)

  /** One line of the output CSV, in header order. */
  datatype CsvRow = CsvRow(vehicleType: string, color: string, numberPlate: string,
                           initialPlate: string, confidence: real, frame: nat)

  const CsvHeader: seq<string> := ["vehicle_type", "color", "number_plate", "initial_plate", "confidence", "frame"]

  /** The row written for a track in frame `frameIdx`, one field per
      `CsvHeader` column in that order: type label, colour, best plate,
      first plate read, best confidence, frame. */
  function RowOf(v: Track, frameIdx: nat): (row: CsvRow)
    ensures row.vehicleType == TypeName(v.vtype) && row.color == v.color
    ensures row.numberPlate == v.plate.bestPlate && row.initialPlate == v.plate.initialPlate
    ensures row.confidence == v.plate.bestConf && row.frame == frameIdx
  {
    CsvRow(TypeName(v.vtype), v.color, v.plate.bestPlate, v.plate.initialPlate, v.plate.bestConf, frameIdx)
  }


  predicate WellFormedFrame(ds: seq<Detection>) {
    forall i :: 0 <= i < |ds| ==> WellFormedSample(ds[i].color)
  }

  /** What `self.model.track` gave for a processed frame: the detections in
      order, or an exception, which the frame's `except` logs and skips. */
  datatype Inference = Tracked(detections: seq<Detection>) | InferenceFailed

  predicate WellFormedInference(f: Inference) {
    f.Tracked? ==> WellFormedFrame(f.detections)
  }

  // ---------------------------------------------------------------------
  // Invariants of the track table, stated on values

  /** No id occurs twice (stated from the end, the way the order grows). */
  predicate NoDup(s: seq<int>) {
    s == [] || (s[|s| - 1] !in s[..|s| - 1] && NoDup(s[..|s| - 1]))
  }

  /** Every track is well formed and the insertion order lists each id once. */
  predicate TracksValid(tracks: map<int, Track>) {
    forall t :: t in tracks ==> TrackValid(tracks[t])
  }

  ghost predicate TableOk(tracks: map<int, Track>, order: seq<int>) {
    && TracksValid(tracks)
    && NoDup(order)
    && (forall t :: t in order <==> t in tracks)
  }

  /** What a tally counts: counted vehicles of one type, or tracks already
      written to the CSV. */
  datatype Kind = LockedAs(vtype: VehicleType) | Written

  predicate Holds(k: Kind, v: Track) {
    match k
    case LockedAs(vt) => v.locked && v.vtype == vt
    case Written => v.csvWritten
  }

  /** 1 when track `tid` exists and satisfies `k`, else 0. */
  function Contribution(tracks: map<int, Track>, tid: int, k: Kind): nat {
    if tid in tracks && Holds(k, tracks[tid]) then 1 else 0
  }

  /** Number of ids in `order` whose track satisfies `k`. */
  function Tally(order: seq<int>, tracks: map<int, Track>, k: Kind): (n: nat)
    ensures n <= |order|
  {
    if order == [] then 0
    else Tally(order[..|order| - 1], tracks, k) + Contribution(tracks, order[|order| - 1], k)
  }

  /** Replacing one track changes a tally by the difference of its two
      contributions, when its id is listed once. */
  lemma {:induction false} TallyUpdate(order: seq<int>, tracks: map<int, Track>, k: Kind, tid: int, v: Track)
    requires NoDup(order)
    ensures Tally(order, tracks[tid := v], k) + (if tid in order then Contribution(tracks, tid, k) else 0)
         == Tally(order, tracks, k) + (if tid in order && Holds(k, v) then 1 else 0)
  {
    if order != [] {
      var p := order[..|order| - 1];
      TallyUpdate(p, tracks, k, tid, v);
      if order[|order| - 1] == tid {
        assert tid !in p;
      } else {
        assert tid in order <==> tid in p;
      }
    }
  }

  lemma TallyAppend(order: seq<int>, tracks: map<int, Track>, k: Kind, tid: int)
    ensures Tally(order + [tid], tracks, k) == Tally(order, tracks, k) + Contribution(tracks, tid, k)
  {
    assert (order + [tid])[..|order|] == order;
  }

  /** When exactly the counted tracks are written, the written tally is the
      sum of the three counted tallies. */
  lemma {:induction false} TallyWrittenIsLocked(order: seq<int>, tracks: map<int, Track>)
    requires forall t :: t in tracks ==> (tracks[t].csvWritten <==> tracks[t].locked)
    ensures Tally(order, tracks, Written)
         == Tally(order, tracks, LockedAs(Car)) + Tally(order, tracks, LockedAs(Bike)) + Tally(order, tracks, LockedAs(Truck))
  {
    if order != [] {
      TallyWrittenIsLocked(order[..|order| - 1], tracks);
    }
  }

  /** The counters count the locked tracks, each under its one type. */
  ghost predicate CountsOk(tracks: map<int, Track>, order: seq<int>, total: nat, cars: nat, bikes: nat, trucks: nat) {
    && total == cars + bikes + trucks
    && cars == Tally(order, tracks, LockedAs(Car))
    && bikes == Tally(order, tracks, LockedAs(Bike))
    && trucks == Tally(order, tracks, LockedAs(Truck))
  }

  /** One CSV row per written track. */
  ghost predicate RowsOk(tracks: map<int, Track>, order: seq<int>, rowCount: nat) {
    rowCount == Tally(order, tracks, Written)
  }

  /** The counters after `tid` locks as a vehicle of type `vt`. */
  function Tallied(c: Counters, vt: VehicleType): (d: Counters)
    ensures d.total == c.total + 1 && d.progress == c.progress
    ensures d.cars + d.bikes + d.trucks == c.cars + c.bikes + c.trucks + 1
  {
    match vt
    case Car => c.(total := c.total + 1, cars := c.cars + 1)
    case Bike => c.(total := c.total + 1, bikes := c.bikes + 1)
    case Truck => c.(total := c.total + 1, trucks := c.trucks + 1)
  }

  lemma AddKeeps(tracks: map<int, Track>, order: seq<int>, c: Counters, rowCount: nat, tid: int, v: Track)
    requires TableOk(tracks, order) && CountsOk(tracks, order, c.total, c.cars, c.bikes, c.trucks)
    requires RowsOk(tracks, order, rowCount)
    requires tid !in tracks && TrackValid(v) && !v.locked
    ensures TableOk(tracks[tid := v], order + [tid])
    ensures CountsOk(tracks[tid := v], order + [tid], c.total, c.cars, c.bikes, c.trucks)
    ensures RowsOk(tracks[tid := v], order + [tid], rowCount)
  {
    var nt := tracks[tid := v];
    forall k: Kind
      ensures Tally(order + [tid], nt, k) == Tally(order, tracks, k)
    {
      TallyUpdate(order, tracks, k, tid, v);
      TallyAppend(order, nt, k, tid);
    }
  }

  lemma ReplaceKeeps(tracks: map<int, Track>, order: seq<int>, c: Counters, rowCount: nat, tid: int, v: Track)
    requires TableOk(tracks, order) && CountsOk(tracks, order, c.total, c.cars, c.bikes, c.trucks)
    requires RowsOk(tracks, order, rowCount)
    requires tid in tracks && TrackValid(v)
    requires v.locked == tracks[tid].locked && v.vtype == tracks[tid].vtype && v.csvWritten == tracks[tid].csvWritten
    ensures TableOk(tracks[tid := v], order)
    ensures CountsOk(tracks[tid := v], order, c.total, c.cars, c.bikes, c.trucks)
    ensures RowsOk(tracks[tid := v], order, rowCount)
  {
    forall k: Kind
      ensures Tally(order, tracks[tid := v], k) == Tally(order, tracks, k)
    {
      TallyUpdate(order, tracks, k, tid, v);
    }
  }

  lemma LockKeeps(tracks: map<int, Track>, order: seq<int>, c: Counters, rowCount: nat, tid: int, v: Track)
    requires TableOk(tracks, order) && CountsOk(tracks, order, c.total, c.cars, c.bikes, c.trucks)
    requires RowsOk(tracks, order, rowCount)
    requires tid in tracks && TrackValid(v)
    requires v.locked && !tracks[tid].locked && v.vtype == tracks[tid].vtype && v.csvWritten == tracks[tid].csvWritten
    ensures var d := Tallied(c, v.vtype);
      && TableOk(tracks[tid := v], order)
      && CountsOk(tracks[tid := v], order, d.total, d.cars, d.bikes, d.trucks)
      && RowsOk(tracks[tid := v], order, rowCount)
  {
    forall k: Kind
      ensures Tally(order, tracks[tid := v], k) == Tally(order, tracks, k) + (if Holds(k, v) then 1 else 0)
    {
      TallyUpdate(order, tracks, k, tid, v);
    }
  }

  lemma WriteKeeps(tracks: map<int, Track>, order: seq<int>, c: Counters, rowCount: nat, tid: int)
    requires TableOk(tracks, order) && CountsOk(tracks, order, c.total, c.cars, c.bikes, c.trucks)
    requires RowsOk(tracks, order, rowCount)
    requires tid in tracks && tracks[tid].locked && !tracks[tid].csvWritten
    ensures var nt := tracks[tid := tracks[tid].(csvWritten := true)];
      && TableOk(nt, order)
      && CountsOk(nt, order, c.total, c.cars, c.bikes, c.trucks)
      && RowsOk(nt, order, rowCount + 1)
  {
    var v := tracks[tid].(csvWritten := true);
    forall k: Kind
      ensures Tally(order, tracks[tid := v], k) == Tally(order, tracks, k) + (if k == Written then 1 else 0)
    {
      TallyUpdate(order, tracks, k, tid, v);
    }
  }

  // ---------------------------------------------------------------------
  // The CSV pass

  /** A track is written in a pass when it is counted and either this is the
      final flush or it was absent from the frame and unseen for more than
      fifteen frames. */
  predicate Due(v: Track, t: int, frameIds: seq<int>, final: bool, frameIdx: nat) {
    v.locked && (final || (t !in frameIds && frameIdx - v.lastSeenFrame > StaleAfter))
  }

  /** The track table and the rows appended after a pass over `ids`. */
  function Flush(tracks: map<int, Track>, ids: seq<int>, frameIds: seq<int>, final: bool, frameIdx: nat)
    : (map<int, Track>, seq<CsvRow>)
  {
    if ids == [] then (tracks, [])
    else
      var (m, rs) := Flush(tracks, ids[..|ids| - 1], frameIds, final, frameIdx);
      var t := ids[|ids| - 1];
      if t in m && !m[t].csvWritten && Due(m[t], t, frameIds, final, frameIdx)
      then (m[t := m[t].(csvWritten := true)], rs + [RowOf(m[t], frameIdx)])
      else (m, rs)
  }

  /** A pass changes nothing but the written flags, and sets exactly those of
      the listed tracks that are due. */
  lemma {:induction false} FlushSpec(tracks: map<int, Track>, ids: seq<int>, frameIds: seq<int>, final: bool, frameIdx: nat)
    ensures var m := Flush(tracks, ids, frameIds, final, frameIdx).0;
      && m.Keys == tracks.Keys
      && forall t :: t in tracks ==>
           m[t] == tracks[t].(csvWritten := tracks[t].csvWritten || (t in ids && Due(tracks[t], t, frameIds, final, frameIdx)))
  {
    if ids != [] {
      var p := ids[..|ids| - 1];
      FlushSpec(tracks, p, frameIds, final, frameIdx);
      assert forall t :: t in ids <==> t in p || t == ids[|ids| - 1];
    }
  }

  // ---------------------------------------------------------------------
  // The per-detection loop, stated on values

  /** What the per-detection loop changes: the track table, its insertion
      order, the counters and the callback reports. */
  datatype Tracking = Tracking(tracks: map<int, Track>, order: seq<int>, counters: Counters, reports: seq<Counters>)

  /** One detection in frame `frameIdx`: its track, created if the id is
      new, is observed, and the sighting that locks it counts the vehicle
      and reports the counters. */
  function Detected(s: Tracking, d: Detection, frameIdx: nat, frameWidth: nat): (r: Tracking)
    requires TracksValid(s.tracks) && WellFormedSample(d.color)
    ensures TracksValid(r.tracks)
  {
    var prior := if d.tid in s.tracks then s.tracks[d.tid] else NewTrack(d.clsId, d.conf);
    var w := Observe(prior, frameIdx, d, frameWidth);
    var c := if w.framesSeen == LockFrame then Tallied(s.counters, w.vtype) else s.counters;
    Tracking(s.tracks[d.tid := w], s.order + (if d.tid in s.tracks then [] else [d.tid]), c,
             if w.framesSeen == LockFrame then s.reports + [c] else s.reports)
  }

  /** The first `n` of a frame's detections, in the tracker's order. */
  function DetectUpTo(s: Tracking, ds: seq<Detection>, n: nat, frameIdx: nat, frameWidth: nat): (r: Tracking)
    requires n <= |ds| && TracksValid(s.tracks) && WellFormedFrame(ds)
    ensures TracksValid(r.tracks)
  {
    if n == 0 then s
    else Detected(DetectUpTo(s, ds, n - 1, frameIdx, frameWidth), ds[n - 1], frameIdx, frameWidth)
  }

  /** All of a frame's detections. */
  function DetectAll(s: Tracking, ds: seq<Detection>, frameIdx: nat, frameWidth: nat): (r: Tracking)
    requires TracksValid(s.tracks) && WellFormedFrame(ds)
    ensures TracksValid(r.tracks)
  {
    DetectUpTo(s, ds, |ds|, frameIdx, frameWidth)
  }

  /** `frame_ids` after the first `n` detections: their ids, in order. */
  function FrameIds(ds: seq<Detection>, n: nat): (ids: seq<int>)
    requires n <= |ds|
    ensures |ids| == n && forall j :: 0 <= j < n ==> ids[j] == ds[j].tid
  {
    if n == 0 then [] else FrameIds(ds, n - 1) + [ds[n - 1].tid]
  }

  /** The ids of the first `n` detections. */
  function Ids(ds: seq<Detection>, n: nat): (ids: set<int>)
    requires n <= |ds|
    ensures forall i :: 0 <= i < n ==> ds[i].tid in ids
    ensures forall t :: t in ids ==> exists i :: 0 <= i < n && ds[i].tid == t
  {
    if n == 0 then {} else Ids(ds, n - 1) + {ds[n - 1].tid}
  }

  /** One detection appends at most its own id to the insertion order and
      at most one report. */
  lemma DetectedExtends(s: Tracking, d: Detection, frameIdx: nat, frameWidth: nat)
    requires TracksValid(s.tracks) && WellFormedSample(d.color)
    ensures var r := Detected(s, d, frameIdx, frameWidth);
      && (r.order == s.order || r.order == s.order + [d.tid])
      && (r.reports == s.reports || r.reports == s.reports + [r.counters])
  {
  }

  /** After a frame's first `n` detections the table holds exactly the old
      ids and the detected ones. */
  lemma {:induction false} DetectKeys(s: Tracking, ds: seq<Detection>, n: nat, frameIdx: nat, frameWidth: nat)
    requires n <= |ds| && TracksValid(s.tracks) && WellFormedFrame(ds)
    ensures var r := DetectUpTo(s, ds, n, frameIdx, frameWidth);
      forall t :: t in r.tracks <==> t in s.tracks || t in Ids(ds, n)
  {
    if n > 0 {
      DetectKeys(s, ds, n - 1, frameIdx, frameWidth);
    }
  }

  /** No track other than the detected ones changes. */
  lemma {:induction false} DetectKeeps(s: Tracking, ds: seq<Detection>, n: nat, frameIdx: nat, frameWidth: nat)
    requires n <= |ds| && TracksValid(s.tracks) && WellFormedFrame(ds)
    ensures var r := DetectUpTo(s, ds, n, frameIdx, frameWidth);
      forall t :: t in s.tracks && t !in Ids(ds, n) ==> t in r.tracks && r.tracks[t] == s.tracks[t]
  {
    if n > 0 {
      DetectKeeps(s, ds, n - 1, frameIdx, frameWidth);
    }
  }

  /** Every detected track was last seen in this frame. */
  lemma {:induction false} DetectSeen(s: Tracking, ds: seq<Detection>, n: nat, frameIdx: nat, frameWidth: nat)
    requires n <= |ds| && TracksValid(s.tracks) && WellFormedFrame(ds)
    ensures var r := DetectUpTo(s, ds, n, frameIdx, frameWidth);
      forall t :: t in Ids(ds, n) ==> t in r.tracks && r.tracks[t].lastSeenFrame == frameIdx
  {
    if n > 0 {
      DetectSeen(s, ds, n - 1, frameIdx, frameWidth);
    }
  }

  /** New ids are appended to the insertion order. */
  lemma {:induction false} DetectOrder(s: Tracking, ds: seq<Detection>, n: nat, frameIdx: nat, frameWidth: nat)
    requires n <= |ds| && TracksValid(s.tracks) && WellFormedFrame(ds)
    ensures var r := DetectUpTo(s, ds, n, frameIdx, frameWidth);
      s.order <= r.order
  {
    if n > 0 {
      DetectOrder(s, ds, n - 1, frameIdx, frameWidth);
      DetectedExtends(DetectUpTo(s, ds, n - 1, frameIdx, frameWidth), ds[n - 1], frameIdx, frameWidth);
    }
  }

  /** Earlier callback reports are kept. */
  lemma {:induction false} DetectReports(s: Tracking, ds: seq<Detection>, n: nat, frameIdx: nat, frameWidth: nat)
    requires n <= |ds| && TracksValid(s.tracks) && WellFormedFrame(ds)
    ensures var r := DetectUpTo(s, ds, n, frameIdx, frameWidth);
      s.reports <= r.reports
  {
    if n > 0 {
      DetectReports(s, ds, n - 1, frameIdx, frameWidth);
      DetectedExtends(DetectUpTo(s, ds, n - 1, frameIdx, frameWidth), ds[n - 1], frameIdx, frameWidth);
    }
  }

  /** The counters only grow, keep their progress and keep total as cars
      plus bikes plus trucks. */
  lemma {:induction false} DetectGrows(s: Tracking, ds: seq<Detection>, n: nat, frameIdx: nat, frameWidth: nat)
    requires n <= |ds| && TracksValid(s.tracks) && WellFormedFrame(ds)
    ensures var r := DetectUpTo(s, ds, n, frameIdx, frameWidth);
      && r.counters.total >= s.counters.total && r.counters.progress == s.counters.progress
      && (s.counters.total == s.counters.cars + s.counters.bikes + s.counters.trucks ==>
            r.counters.total == r.counters.cars + r.counters.bikes + r.counters.trucks)
  {
    if n > 0 {
      DetectGrows(s, ds, n - 1, frameIdx, frameWidth);
    }
  }

  // ---------------------------------------------------------------------
  // The frame loop

  /** `SITAProcessor` during `process_video`: the track table, the counters
      and the CSV being written. */
  class VideoProcessor {
    var tracks: map<int, Track>
    /** Track ids in insertion order (the order Python iterates the dict). */
    var trackOrder: seq<int>
    var total: nat
    var cars: nat
    var bikes: nat
    var trucks: nat
    var progress: nat
    var frameIdx: nat
    /** Data lines of the output CSV, after its header. */
    var rows: seq<CsvRow>
    /** Arguments of the successive `update_callback` calls. */
    var reports: seq<Counters>
    /** `frame_ids`: the ids of the last processed frame whose tracker call
        succeeded.  A frame whose call throws leaves it as it was, and the
        cleanup pass of that frame reads the stale list. */
    var frameIds: seq<int>

    ghost predicate Valid()
      reads this
    {
      && TableOk(tracks, trackOrder)
      && CountsOk(tracks, trackOrder, total, cars, bikes, trucks)
      && RowsOk(tracks, trackOrder, |rows|)
      && progress <= 99
    }

    function Snapshot(): Counters
      reads this
    {
      Counters(total, cars, bikes, trucks, progress)
    }

    /** The state at the top of `process_video`: no tracks, zero counters,
        only the CSV header written. */
    constructor ()
      ensures Valid() && tracks == map[] && rows == [] && reports == [] && frameIdx == 0
      ensures Snapshot() == Counters(0, 0, 0, 0, 0)
    {
      tracks, trackOrder := map[], [];
      total, cars, bikes, trucks, progress := 0, 0, 0, 0, 0;
      frameIdx := 0;
      rows, reports, frameIds := [], [], [];
    }

    /** A new id gets a fresh `VehicleData` with the detector's confidence,
        appended to the insertion order. */
    method AddTrack(d: Detection)
      requires Valid() && d.tid !in tracks
      modifies this
      ensures Valid()
      ensures tracks == old(tracks)[d.tid := NewTrack(d.clsId, d.conf)]
      ensures trackOrder == old(trackOrder) + [d.tid]
      ensures Snapshot() == old(Snapshot()) && reports == old(reports)
      ensures rows == old(rows) && frameIdx == old(frameIdx)
    {
      var v := NewTrack(d.clsId, d.conf);
      AddKeeps(tracks, trackOrder, Snapshot(), |rows|, d.tid, v);
      tracks, trackOrder := tracks[d.tid := v], trackOrder + [d.tid];
    }

    /** The body of the per-detection loop: find or create the track, count
        it on its fifth sighting, and run the OCR schedule. */
    method ProcessDetection(d: Detection, frameWidth: nat)
      requires Valid() && WellFormedSample(d.color)
      modifies this
      ensures Valid()
      ensures var prior := if d.tid in old(tracks) then old(tracks[d.tid]) else NewTrack(d.clsId, d.conf);
        tracks == old(tracks)[d.tid := Observe(prior, frameIdx, d, frameWidth)]
      ensures trackOrder == old(trackOrder) + (if d.tid in old(tracks) then [] else [d.tid])
      ensures if tracks[d.tid].framesSeen == LockFrame
        then Snapshot() == Tallied(old(Snapshot()), tracks[d.tid].vtype) && reports == old(reports) + [Snapshot()]
        else Snapshot() == old(Snapshot()) && reports == old(reports)
      ensures rows == old(rows) && frameIdx == old(frameIdx)
    {
      if d.tid !in tracks {
        AddTrack(d);
      }
      var v := tracks[d.tid];
      var locksNow := LocksNow(v);
      var lockColor := v.color;
      if locksNow {
        lockColor := DetectColor(d.color);
      }
      v := Sighted(v, frameIdx, lockColor);
      if OcrDue(v) {
        var text, score := DetectPlate(d.plate, frameWidth);
        v := Attempted(v, OcrResult(text, score));
      }
      if locksNow {
        Lock(d.tid, v);
      } else {
        Replace(d.tid, v);
      }
    }

    /** Put back a track whose sighting did not lock it. */
    method Replace(tid: int, v: Track)
      requires Valid() && tid in tracks && TrackValid(v)
      requires v.locked == tracks[tid].locked && v.vtype == tracks[tid].vtype && v.csvWritten == tracks[tid].csvWritten
      modifies this
      ensures Valid()
      ensures tracks == old(tracks)[tid := v] && trackOrder == old(trackOrder)
      ensures Snapshot() == old(Snapshot()) && reports == old(reports)
      ensures rows == old(rows) && frameIdx == old(frameIdx)
    {
      ReplaceKeeps(tracks, trackOrder, Snapshot(), |rows|, tid, v);
      tracks := tracks[tid := v];
    }

    /** Put back a track on the sighting that locks it: count it under its
        type and report the counters. */
    method Lock(tid: int, v: Track)
      requires Valid() && tid in tracks && TrackValid(v)
      requires v.locked && !tracks[tid].locked && v.vtype == tracks[tid].vtype && v.csvWritten == tracks[tid].csvWritten
      modifies this
      ensures Valid()
      ensures tracks == old(tracks)[tid := v] && trackOrder == old(trackOrder)
      ensures Snapshot() == Tallied(old(Snapshot()), v.vtype)
      ensures reports == old(reports) + [Snapshot()]
      ensures rows == old(rows) && frameIdx == old(frameIdx)
    {
      var c := Tallied(Snapshot(), v.vtype);
      LockKeeps(tracks, trackOrder, Snapshot(), |rows|, tid, v);
      tracks, total, cars, bikes, trucks, reports := tracks[tid := v], c.total, c.cars, c.bikes, c.trucks, reports + [c];
    }

    /** A CSV pass over the tracks in insertion order (`Flush`): with
        `final`, every locked unwritten track; otherwise those absent from
        `frameIds` and unseen for more than fifteen frames. */
    method WriteRows(frameIds: seq<int>, final: bool)
      requires Valid()
      modifies this
      ensures Valid()
      ensures var (m, written) := Flush(old(tracks), trackOrder, frameIds, final, frameIdx);
        tracks == m && rows == old(rows) + written
      ensures trackOrder == old(trackOrder) && Snapshot() == old(Snapshot())
      ensures reports == old(reports) && frameIdx == old(frameIdx) && this.frameIds == old(this.frameIds)
    {
      ghost var rows0 := rows;
      var i := 0;
      while i < |trackOrder|
        invariant 0 <= i <= |trackOrder|
        invariant Valid()
        invariant tracks == Flush(old(tracks), trackOrder[..i], frameIds, final, frameIdx).0
        invariant rows == rows0 + Flush(old(tracks), trackOrder[..i], frameIds, final, frameIdx).1
        invariant trackOrder == old(trackOrder) && Snapshot() == old(Snapshot())
        invariant reports == old(reports) && frameIdx == old(frameIdx) && this.frameIds == old(this.frameIds)
      {
        var t := trackOrder[i];
        assert trackOrder[..i + 1][..i] == trackOrder[..i];
        if t in tracks && !tracks[t].csvWritten && Due(tracks[t], t, frameIds, final, frameIdx) {
          WriteRow(t);
        }
        i := i + 1;
      }
      assert trackOrder[..|trackOrder|] == trackOrder;
    }

    /** Append the row of a locked, unwritten track and mark it written. */
    method WriteRow(t: int)
      requires Valid() && t in tracks && tracks[t].locked && !tracks[t].csvWritten
      modifies this
      ensures Valid()
      ensures tracks == old(tracks)[t := old(tracks[t]).(csvWritten := true)]
      ensures rows == old(rows) + [RowOf(old(tracks[t]), frameIdx)]
      ensures trackOrder == old(trackOrder) && frameIds == old(frameIds)
      ensures Snapshot() == old(Snapshot()) && reports == old(reports) && frameIdx == old(frameIdx)
    {
      WriteKeeps(tracks, trackOrder, Snapshot(), |rows|, t);
      rows, tracks := rows + [RowOf(tracks[t], frameIdx)], tracks[t := tracks[t].(csvWritten := true)];
    }

    /** One pass of the frame loop for a frame that was read.  On a
        processed frame whose tracker call throws, no track is touched but
        the cleanup pass still runs, against the previous `frame_ids`. */
    method Step(inference: Inference, totalFrames: int, frameWidth: nat)
      requires Valid() && WellFormedInference(inference)
      modifies this
      ensures Valid()
      ensures frameIdx == old(frameIdx) + 1
      ensures frameIdx % ProgressEvery == 0 ==> progress == Progress(frameIdx, totalFrames)
      ensures frameIdx % ProgressEvery != 0 ==> progress == old(progress)
      ensures frameIdx % FrameSkip != 0 ==>
        && tracks == old(tracks) && trackOrder == old(trackOrder) && rows == old(rows) && frameIds == old(frameIds)
        && Snapshot() == old(Snapshot()).(progress := progress)
        && reports == (if frameIdx % ProgressEvery == 0 then old(reports) + [Snapshot()] else old(reports))
      ensures frameIdx % FrameSkip == 0 && inference.InferenceFailed? ==>
        && trackOrder == old(trackOrder) && total == old(total) && frameIds == old(frameIds)
        && Snapshot() == old(Snapshot()).(progress := progress)
        && reports == (if frameIdx % ProgressEvery == 0 then old(reports) + [old(Snapshot()).(progress := progress)]
                       else old(reports))
        && var (m, written) := Flush(old(tracks), trackOrder, old(frameIds), false, frameIdx);
           tracks == m && rows == old(rows) + written
      ensures frameIdx % FrameSkip == 0 && inference.Tracked? ==>
        var c := old(Snapshot()).(progress := progress);
        var start := Tracking(old(tracks), old(trackOrder), c,
                              if frameIdx % ProgressEvery == 0 then old(reports) + [c] else old(reports));
        var s := DetectAll(start, inference.detections, frameIdx, frameWidth);
        && frameIds == FrameIds(inference.detections, |inference.detections|)
        && trackOrder == s.order && Snapshot() == s.counters && reports == s.reports
        && var (m, written) := Flush(s.tracks, s.order, frameIds, false, frameIdx);
           tracks == m && rows == old(rows) + written
      ensures total >= old(total) && |rows| >= |old(rows)| && rows[..|old(rows)|] == old(rows)
    {
      frameIdx := frameIdx + 1;
      if frameIdx % ProgressEvery == 0 {
        progress := Progress(frameIdx, totalFrames);
        reports := reports + [Snapshot()];
      }
      if frameIdx % FrameSkip != 0 {
        return;
      }
      ProcessFrame(inference, frameWidth);
    }

    /** A frame on the five-frame skip: the tracker's detections, or the
        logged exception, then the cleanup pass. */
    method ProcessFrame(inference: Inference, frameWidth: nat)
      requires Valid() && WellFormedInference(inference)
      modifies this
      ensures Valid()
      ensures frameIdx == old(frameIdx) && progress == old(progress)
      ensures inference.InferenceFailed? ==>
        && trackOrder == old(trackOrder) && total == old(total) && frameIds == old(frameIds)
        && Snapshot() == old(Snapshot()) && reports == old(reports)
        && var (m, written) := Flush(old(tracks), trackOrder, old(frameIds), false, frameIdx);
           tracks == m && rows == old(rows) + written
      ensures inference.Tracked? ==>
        && frameIds == FrameIds(inference.detections, |inference.detections|)
        && var s := DetectAll(old(State()), inference.detections, frameIdx, frameWidth);
           && trackOrder == s.order && Snapshot() == s.counters && reports == s.reports
           && var (m, written) := Flush(s.tracks, s.order, frameIds, false, frameIdx);
              tracks == m && rows == old(rows) + written
      ensures total >= old(total) && |rows| >= |old(rows)| && rows[..|old(rows)|] == old(rows)
    {
      if inference.Tracked? {
        DetectGrows(State(), inference.detections, |inference.detections|, frameIdx, frameWidth);
        frameIds := TrackDetections(inference.detections, frameWidth);
      }
      WriteRows(frameIds, false);
    }

    /** `ProcessDetection` on detection `i`, seen as a step of `DetectUpTo`. */
    method Detect(ghost start: Tracking, detections: seq<Detection>, i: nat, frameWidth: nat)
      requires Valid() && i < |detections| && TracksValid(start.tracks) && WellFormedFrame(detections)
      requires State() == DetectUpTo(start, detections, i, frameIdx, frameWidth)
      modifies this
      ensures Valid() && rows == old(rows) && frameIdx == old(frameIdx)
      ensures State() == DetectUpTo(start, detections, i + 1, frameIdx, frameWidth)
    {
      ProcessDetection(detections[i], frameWidth);
    }

    /** The frame-loop state as a `Tracking` value. */
    function State(): Tracking
      reads this
    {
      Tracking(tracks, trackOrder, Snapshot(), reports)
    }

    /** The per-detection loop: the state becomes `DetectAll`'s, and `ids`
        is the `frame_ids` it builds. */
    method TrackDetections(detections: seq<Detection>, frameWidth: nat) returns (ids: seq<int>)
      requires Valid() && WellFormedFrame(detections)
      modifies this
      ensures Valid()
      ensures State() == DetectAll(old(State()), detections, frameIdx, frameWidth)
      ensures ids == FrameIds(detections, |detections|)
      ensures frameIdx == old(frameIdx) && rows == old(rows)
    {
      ghost var start := State();
      assert TracksValid(start.tracks);
      ids := [];
      var i := 0;
      while i < |detections|
        invariant 0 <= i <= |detections|
        invariant Valid() && TracksValid(start.tracks)
        invariant State() == DetectUpTo(start, detections, i, frameIdx, frameWidth)
        invariant frameIdx == old(frameIdx) && rows == old(rows)
        invariant ids == FrameIds(detections, i)
      {
        ids := ids + [detections[i].tid];
        Detect(start, detections, i, frameWidth);
        i := i + 1;
      }
    }

    /** `process_video` from the first frame to the final flush: every
        counted vehicle ends with exactly one CSV row. */
    method ProcessVideo(isOpen: bool, frames: seq<Inference>, totalFrames: int, sourceWidth: nat)
      returns (result: Outcome<Counters>)
      requires forall k :: 0 <= k < |frames| ==> WellFormedInference(frames[k])
      modifies this
      ensures !isOpen ==> result == Failed("Video Error")
      ensures !isOpen ==>
        && tracks == old(tracks) && trackOrder == old(trackOrder) && Snapshot() == old(Snapshot())
        && frameIdx == old(frameIdx) && rows == old(rows) && reports == old(reports) && frameIds == old(frameIds)
      ensures isOpen ==> Valid() && result == Ok(Snapshot()) && frameIdx == |frames|
      ensures isOpen ==> result.value.total == result.value.cars + result.value.bikes + result.value.trucks
      ensures isOpen ==> forall t :: t in tracks ==> (tracks[t].csvWritten <==> tracks[t].locked)
      ensures isOpen ==> |rows| == total
    {
      if !isOpen {
        return Failed("Video Error");
      }
      var frameWidth := OutputWidth(sourceWidth);
      tracks, trackOrder, rows, frameIds := map[], [], [], [];
      total, cars, bikes, trucks, progress := 0, 0, 0, 0, 0;
      frameIdx := 0;
      var k := 0;
      while k < |frames|
        invariant 0 <= k <= |frames|
        invariant Valid() && frameIdx == k
      {
        Step(frames[k], totalFrames, frameWidth);
        k := k + 1;
      }
      ghost var beforeFlush := tracks;
      WriteRows([], true);
      FlushSpec(beforeFlush, trackOrder, [], true, frameIdx);
      TallyWrittenIsLocked(trackOrder, tracks);
      result := Ok(Snapshot());
    }
  }
}
