/** The OCR comparison script (reproduce_ocr.py): the original and the
    improved plate reading of a vehicle crop.  Image processing and the
    reader are left out: each preprocessed image is represented by what the
    reader returns on it, `Failed` when `readtext` throws.  Readings are
    cleaned as in the backend (`Processor.CleanPlate`). */
module ReproduceOcr {
  import opened Common
  import opened Processor

  /** What the reader returns on one image. */
  type ImageRead = Outcome<seq<OcrResult>>

  /** The answers of the two readers: the bare string for an empty crop, or
      a text with a score that is `None` for an empty plate region. */
  datatype Answer = Bare(text: string) | Pair(text: string, score: Option<real>)

  /** A reading both versions accept: score at least 0.15 and at least four
      characters once cleaned. */
  predicate Qualifies(r: OcrResult) {
    r.score >= 0.15 && |CleanPlate(r.text)| >= 4
  }

  // ---------------------------------------------------------------------
  // The plate region

  /** The region rows `int(h*0.40)` to `int(h*0.85)` and columns
      `int(w*0.05)` to `int(w*0.95)` hold no pixel. */
  predicate RegionEmpty(h: nat, w: nat) {
    (85 * h) / 100 <= (40 * h) / 100 || (95 * w) / 100 <= (5 * w) / 100
  }

  /** For a non-empty crop the region is empty exactly when the crop is a
      single pixel high or wide. */
  lemma RegionEmptyExactly(h: nat, w: nat)
    requires h > 0 && w > 0
    ensures RegionEmpty(h, w) <==> h == 1 || w == 1
  {
    var a, b := (40 * h) / 100, (5 * w) / 100;
    assert 100 * a <= 40 * h && 100 * b <= 5 * w;
    if h >= 3 {
      assert 100 * (a + 1) <= 85 * h;
    } else if h == 2 {
      assert a == 0 && (85 * h) / 100 == 1;
    }
    if w >= 2 {
      assert 100 * (b + 1) <= 95 * w;
    }
  }

  // ---------------------------------------------------------------------
  // The original `run_ocr`: the first acceptable reading

  function FirstHit(rs: seq<OcrResult>): (o: Option<OcrResult>)
    ensures o.Some? ==> |o.value.text| >= 4 && o.value.score >= 0.15
    ensures o.Some? ==> forall c :: c in o.value.text ==> !IsSeparator(c) && !IsLowerAscii(c)
  {
    if rs == [] then None
    else if Qualifies(rs[0]) then Some(OcrResult(CleanPlate(rs[0].text), rs[0].score))
    else FirstHit(rs[1..])
  }

  ghost predicate IsFirstHit(rs: seq<OcrResult>, k: int) {
    0 <= k < |rs| && Qualifies(rs[k]) && forall j :: 0 <= j < k ==> !Qualifies(rs[j])
  }

  /** The first acceptable reading in reader order, cleaned, or none. */
  lemma {:induction false} FirstHitSpec(rs: seq<OcrResult>)
    ensures FirstHit(rs).None? <==> forall j :: 0 <= j < |rs| ==> !Qualifies(rs[j])
    ensures FirstHit(rs).Some? ==>
      exists k :: IsFirstHit(rs, k) && FirstHit(rs).value == OcrResult(CleanPlate(rs[k].text), rs[k].score)
  {
    if rs != [] && !Qualifies(rs[0]) {
      FirstHitSpec(rs[1..]);
      assert forall j :: 1 <= j < |rs| ==> rs[j] == rs[1..][j - 1];
      if FirstHit(rs[1..]).Some? {
        var k :| IsFirstHit(rs[1..], k) && FirstHit(rs[1..]).value == OcrResult(CleanPlate(rs[1..][k].text), rs[1..][k].score);
        assert IsFirstHit(rs, k + 1);
      }
    } else if rs != [] {
      assert IsFirstHit(rs, 0);
    }
  }

  /** The original `run_ocr`: the loop returns on the first acceptable
      reading; a throwing reader, like no acceptable reading, gives
      `(None, 0)`. */
  method OriginalRunOcr(read: ImageRead) returns (text: Option<string>, score: real)
    ensures read.Ok? && FirstHit(read.value).Some? ==>
      text == Some(FirstHit(read.value).value.text) && score == FirstHit(read.value).value.score
    ensures !(read.Ok? && FirstHit(read.value).Some?) ==> text.None? && score == 0.0
  {
    if read.Failed? {
      return None, 0.0;
    }
    var rs := read.value;
    for i := 0 to |rs|
      invariant FirstHit(rs[i..]) == FirstHit(rs)
    {
      assert rs[i..][1..] == rs[i + 1..];
      var clean := CleanPlate(rs[i].text);
      if rs[i].score >= 0.15 && |clean| >= 4 {
        return Some(clean), rs[i].score;
      }
    }
    return None, 0.0;
  }

  /** What the original gets from one image, as the chain uses it. */
  function OriginalHit(read: ImageRead): Option<OcrResult> {
    if read.Ok? then FirstHit(read.value) else None
  }

  /** `original_detect_plate`: the grayscale image, then the CLAHE image,
      the first hit winning. */
  function OriginalAnswer(h: nat, w: nat, gray: ImageRead, clahe: ImageRead): Answer {
    if h == 0 || w == 0 then Bare(NotDetected)
    else if RegionEmpty(h, w) then Pair(NotDetected, None)
    else if OriginalHit(gray).Some? then Pair(OriginalHit(gray).value.text, Some(OriginalHit(gray).value.score))
    else if OriginalHit(clahe).Some? then Pair(OriginalHit(clahe).value.text, Some(OriginalHit(clahe).value.score))
    else Pair(NotDetected, Some(0.0))
  }

  /** The original chain, as two calls of its reader. */
  method OriginalDetectPlate(h: nat, w: nat, gray: ImageRead, clahe: ImageRead) returns (answer: Answer)
    ensures answer == OriginalAnswer(h, w, gray, clahe)
  {
    if h == 0 || w == 0 {
      return Bare(NotDetected);
    }
    if RegionEmpty(h, w) {
      return Pair(NotDetected, None);
    }
    var res, score := OriginalRunOcr(gray);
    if res.Some? {
      return Pair(res.value, Some(score));
    }
    res, score := OriginalRunOcr(clahe);
    if res.Some? {
      return Pair(res.value, Some(score));
    }
    return Pair(NotDetected, Some(0.0));
  }

  // ---------------------------------------------------------------------
  // The improved `run_ocr`: the strictly best acceptable reading

  /** The running best `(best_text, best_score)` after the readings `rs`. */
  function BestHit(rs: seq<OcrResult>): (b: (Option<string>, real))
    ensures b.0.None? ==> b.1 == 0.0
    ensures b.0.Some? ==> |b.0.value| >= 4 && b.1 >= 0.15
    ensures b.0.Some? ==> forall c :: c in b.0.value ==> !IsSeparator(c) && !IsLowerAscii(c)
  {
    if rs == [] then (None, 0.0)
    else
      var b := BestHit(rs[..|rs| - 1]);
      var r := rs[|rs| - 1];
      if Qualifies(r) && r.score > b.1 then (Some(CleanPlate(r.text)), r.score) else b
  }

  ghost predicate IsBestHit(rs: seq<OcrResult>, k: int) {
    && 0 <= k < |rs| && Qualifies(rs[k])
    && (forall j :: 0 <= j < k && Qualifies(rs[j]) ==> rs[j].score < rs[k].score)
    && (forall j :: k < j < |rs| && Qualifies(rs[j]) ==> rs[j].score <= rs[k].score)
  }

  lemma KeepsBestHit(p: seq<OcrResult>, r: OcrResult, k: int)
    requires IsBestHit(p, k)
    requires !(Qualifies(r) && r.score > p[k].score)
    ensures IsBestHit(p + [r], k)
  {
  }

  lemma OvertakesBestHit(p: seq<OcrResult>, r: OcrResult, k: int)
    requires IsBestHit(p, k)
    requires Qualifies(r) && r.score > p[k].score
    ensures IsBestHit(p + [r], |p|)
  {
  }

  lemma FirstBestHit(p: seq<OcrResult>, r: OcrResult)
    requires Qualifies(r)
    requires forall j :: 0 <= j < |p| ==> !Qualifies(p[j])
    ensures IsBestHit(p + [r], |p|)
  {
  }

  /** The improved reader keeps the highest-scoring acceptable reading, the
      earliest among equals, and finds none only when none is acceptable. */
  lemma {:induction false} BestHitSpec(rs: seq<OcrResult>)
    ensures BestHit(rs).0.None? <==> forall j :: 0 <= j < |rs| ==> !Qualifies(rs[j])
    ensures BestHit(rs).0.Some? ==>
      exists k :: IsBestHit(rs, k) && BestHit(rs) == (Some(CleanPlate(rs[k].text)), rs[k].score)
  {
    if rs == [] {
      return;
    }
    var n := |rs| - 1;
    var p, r := rs[..n], rs[n];
    assert rs == p + [r];
    BestHitSpec(p);
    var b := BestHit(p);
    assert BestHit(rs) == if Qualifies(r) && r.score > b.1 then (Some(CleanPlate(r.text)), r.score) else b;
    if b.0.Some? {
      var k :| IsBestHit(p, k) && b == (Some(CleanPlate(p[k].text)), p[k].score);
      if Qualifies(r) && r.score > b.1 {
        OvertakesBestHit(p, r, k);
        assert IsBestHit(rs, n) && BestHit(rs) == (Some(CleanPlate(rs[n].text)), rs[n].score);
      } else {
        KeepsBestHit(p, r, k);
        assert IsBestHit(rs, k) && BestHit(rs) == (Some(CleanPlate(rs[k].text)), rs[k].score);
      }
      assert Qualifies(rs[k]);
    } else if Qualifies(r) {
      FirstBestHit(p, r);
      assert IsBestHit(rs, n) && BestHit(rs) == (Some(CleanPlate(rs[n].text)), rs[n].score);
    } else {
      assert forall j :: 0 <= j < |rs| ==> !Qualifies(rs[j]) by {
        assert forall j :: 0 <= j < n ==> rs[j] == p[j];
      }
    }
  }

  /** On the same readings the improved reader never scores below the
      original one. */
  lemma {:induction false} BestAtLeastFirst(rs: seq<OcrResult>)
    ensures FirstHit(rs).Some? ==> BestHit(rs).0.Some? && BestHit(rs).1 >= FirstHit(rs).value.score
  {
    FirstHitSpec(rs);
    BestHitSpec(rs);
    if FirstHit(rs).Some? {
      var f :| IsFirstHit(rs, f) && FirstHit(rs).value == OcrResult(CleanPlate(rs[f].text), rs[f].score);
      var k :| IsBestHit(rs, k) && BestHit(rs) == (Some(CleanPlate(rs[k].text)), rs[k].score);
      assert f <= k;
    }
  }

  /** The improved `run_ocr`: a running maximum over the readings; a
      throwing reader gives `(None, 0)`. */
  method ImprovedRunOcr(read: ImageRead) returns (text: Option<string>, score: real)
    ensures read.Ok? ==> (text, score) == BestHit(read.value)
    ensures read.Failed? ==> text.None? && score == 0.0
  {
    if read.Failed? {
      return None, 0.0;
    }
    var rs := read.value;
    text, score := None, 0.0;
    for i := 0 to |rs|
      invariant (text, score) == BestHit(rs[..i])
    {
      assert rs[..i + 1][..i] == rs[..i];
      var clean := CleanPlate(rs[i].text);
      if rs[i].score >= 0.15 && |clean| >= 4 {
        if rs[i].score > score {
          score := rs[i].score;
          text := Some(clean);
        }
      }
    }
    assert rs[..|rs|] == rs;
  }

  /** What the improved reader gets from one image. */
  function ImprovedHit(read: ImageRead): (Option<string>, real) {
    if read.Ok? then BestHit(read.value) else (None, 0.0)
  }

  /** The first image, in order, on which the improved reader finds a text. */
  function FirstFound(images: seq<ImageRead>): Option<(string, real)> {
    if images == [] then None
    else if ImprovedHit(images[0]).0.Some? then Some((ImprovedHit(images[0]).0.value, ImprovedHit(images[0]).1))
    else FirstFound(images[1..])
  }

  /** `improved_detect_plate`: the resized, the adaptive-threshold and the
      Otsu images in that order, the first with a text winning. */
  function ImprovedAnswer(h: nat, w: nat, resized: ImageRead, adaptive: ImageRead, otsu: ImageRead): Answer {
    if h == 0 || w == 0 then Bare(NotDetected)
    else if RegionEmpty(h, w) then Pair(NotDetected, None)
    else
      var f := FirstFound([resized, adaptive, otsu]);
      if f.Some? then Pair(f.value.0, Some(f.value.1)) else Pair(NotDetected, Some(0.0))
  }

  /** The improved chain: the loop over the three images. */
  method ImprovedDetectPlate(h: nat, w: nat, resized: ImageRead, adaptive: ImageRead, otsu: ImageRead) returns (answer: Answer)
    ensures answer == ImprovedAnswer(h, w, resized, adaptive, otsu)
  {
    if h == 0 || w == 0 {
      return Bare(NotDetected);
    }
    if RegionEmpty(h, w) {
      return Pair(NotDetected, None);
    }
    var candidates := [resized, adaptive, otsu];
    for i := 0 to |candidates|
      invariant FirstFound(candidates[i..]) == FirstFound(candidates)
    {
      assert candidates[i..][1..] == candidates[i + 1..];
      var res, score := ImprovedRunOcr(candidates[i]);
      if res.Some? {
        return Pair(res.value, Some(score));
      }
    }
    return Pair(NotDetected, Some(0.0));
  }

  /** Whether the reader accepts some reading of an image. */
  predicate Readable(read: ImageRead) {
    read.Ok? && exists j :: 0 <= j < |read.value| && Qualifies(read.value[j])
  }

  /** An image yields a text, for either reader, exactly when the reader
      accepts one of its readings. */
  lemma HitIffReadable(x: ImageRead)
    ensures OriginalHit(x).Some? <==> Readable(x)
    ensures ImprovedHit(x).0.Some? <==> Readable(x)
  {
    if x.Ok? {
      FirstHitSpec(x.value);
      BestHitSpec(x.value);
    }
  }

  /** A detected text (anything but "Not Detected") comes with a score of
      at least 0.15 and is a cleaned reading of at least four characters;
      being cleaned, it has no space and so cannot be "Not Detected". */
  predicate WellDetected(ans: Answer) {
    ans.text != NotDetected ==>
      && ans.Pair? && |ans.text| >= 4 && ans.score.Some? && ans.score.value >= 0.15
      && forall ch :: ch in ans.text ==> !IsSeparator(ch) && !IsLowerAscii(ch)
  }

  /** The original chain: an empty crop gives the bare string, an empty
      region a pair without score, and otherwise "Not Detected" with 0
      exactly when neither image has an acceptable reading. */
  lemma OriginalAnswerSpec(h: nat, w: nat, gray: ImageRead, clahe: ImageRead)
    ensures h == 0 || w == 0 ==> OriginalAnswer(h, w, gray, clahe) == Bare(NotDetected)
    ensures h > 0 && w > 0 && RegionEmpty(h, w) ==> OriginalAnswer(h, w, gray, clahe) == Pair(NotDetected, None)
    ensures h > 0 && w > 0 && !RegionEmpty(h, w) ==>
      (OriginalAnswer(h, w, gray, clahe) == Pair(NotDetected, Some(0.0)) <==> !Readable(gray) && !Readable(clahe))
    ensures WellDetected(OriginalAnswer(h, w, gray, clahe))
  {
    HitIffReadable(gray);
    HitIffReadable(clahe);
    assert NotDetected[3] == ' ';
  }

  /** The improved chain, over its three images, with the same cases. */
  lemma ImprovedAnswerSpec(h: nat, w: nat, resized: ImageRead, adaptive: ImageRead, otsu: ImageRead)
    ensures h == 0 || w == 0 ==> ImprovedAnswer(h, w, resized, adaptive, otsu) == Bare(NotDetected)
    ensures h > 0 && w > 0 && RegionEmpty(h, w) ==> ImprovedAnswer(h, w, resized, adaptive, otsu) == Pair(NotDetected, None)
    ensures h > 0 && w > 0 && !RegionEmpty(h, w) ==>
      (ImprovedAnswer(h, w, resized, adaptive, otsu) == Pair(NotDetected, Some(0.0)) <==>
        !Readable(resized) && !Readable(adaptive) && !Readable(otsu))
    ensures WellDetected(ImprovedAnswer(h, w, resized, adaptive, otsu))
  {
    HitIffReadable(resized);
    HitIffReadable(adaptive);
    HitIffReadable(otsu);
    var images := [resized, adaptive, otsu];
    assert images[1..] == [adaptive, otsu] && images[1..][1..] == [otsu] && images[1..][1..][1..] == [];
    assert FirstFound([otsu]).None? <==> !Readable(otsu);
    assert FirstFound([adaptive, otsu]).None? <==> !Readable(adaptive) && !Readable(otsu);
    assert NotDetected[3] == ' ';
  }
}
