/** The colour prototype (day4_vehicle_color.py): the colour decision for a
    vehicle crop and the detections that get a caption.  The HSV masks are
    left out: a crop is given by its pixel count and the number of pixels
    each mask keeps. */
module Day4 {
  import opened Common
  import opened Day3

  /** Mask counts for one crop: `total` is height times width, `white` and
      `black` the achromatic masks, `red`, `blue` and `yellow` the three hue
      ranges. */
  datatype Pixels = Pixels(total: nat, white: nat, black: nat, red: nat, blue: nat, yellow: nat)

  /** The hue ranges, in the order the loop visits them. */
  const HueNames: seq<string> := ["Red", "Blue", "Yellow"]

  /** Every name the decision can give besides the empty-crop answer. */
  const ColorNames: set<string> := {"White", "Black", "Red", "Blue", "Yellow", "Other"}

  /** `count / total > 0.35` for a positive `total`, in exact arithmetic. */
  predicate Exceeds(count: nat, total: nat) {
    100 * count > 35 * total
  }

  function HueCounts(p: Pixels): seq<nat> {
    [p.red, p.blue, p.yellow]
  }

  /** Index of the running leader of the hue loop, or -1 while no range has
      beaten the starting maximum of 0: a range takes over only with
      strictly more pixels. */
  function Leader(counts: seq<nat>): (k: int)
    ensures -1 <= k < |counts|
  {
    if counts == [] then -1
    else
      var w := Leader(counts[..|counts| - 1]);
      if counts[|counts| - 1] > (if w < 0 then 0 else counts[w]) then |counts| - 1 else w
  }

  /** Range `k` has pixels, more than every earlier range and at least as
      many as every later one: the largest count, ties to the earlier. */
  ghost predicate Leads(counts: seq<nat>, k: int) {
    && 0 <= k < |counts| && counts[k] > 0
    && (forall j :: 0 <= j < k ==> counts[j] < counts[k])
    && (forall j :: k < j < |counts| ==> counts[j] <= counts[k])
  }

  lemma {:induction false} LeaderLeads(counts: seq<nat>)
    ensures Leader(counts) >= 0 ==> Leads(counts, Leader(counts))
    ensures Leader(counts) < 0 <==> forall j :: 0 <= j < |counts| ==> counts[j] == 0
  {
    if counts == [] {
      return;
    }
    var n := |counts| - 1;
    var p, c := counts[..n], counts[n];
    assert counts == p + [c];
    LeaderLeads(p);
    var w := Leader(p);
    assert forall j :: 0 <= j < n ==> counts[j] == p[j];
    if w >= 0 && c <= p[w] {
      assert Leads(counts, w);
    }
  }

  /** The colour the hue loop settles on: the leading range, or "Other". */
  function HueOf(p: Pixels): string {
    var k := Leader(HueCounts(p));
    if k < 0 then "Other" else HueNames[k]
  }

  /** `detect_vehicle_color` with the answer for an empty crop as a
      parameter ("Unknown" here, "Other" in the counting prototype). */
  function ColorOf(p: Pixels, whenEmpty: string): (color: string)
    ensures color == whenEmpty || color in ColorNames
  {
    if p.total == 0 then whenEmpty
    else if Exceeds(p.white, p.total) then "White"
    else if Exceeds(p.black, p.total) then "Black"
    else HueOf(p)
  }

  /** The decision order: an empty crop first, then a white share above
      35%, then a black share above 35%, then the largest hue count (ties
      to the earlier of Red, Blue, Yellow), and "Other" when no hue range
      has a pixel. */
  lemma ColorOfSpec(p: Pixels, whenEmpty: string)
    ensures p.total == 0 ==> ColorOf(p, whenEmpty) == whenEmpty
    ensures p.total > 0 && Exceeds(p.white, p.total) ==> ColorOf(p, whenEmpty) == "White"
    ensures p.total > 0 && !Exceeds(p.white, p.total) && Exceeds(p.black, p.total) ==> ColorOf(p, whenEmpty) == "Black"
    ensures p.total > 0 && !Exceeds(p.white, p.total) && !Exceeds(p.black, p.total) ==>
      && (ColorOf(p, whenEmpty) == "Other" <==> p.red == 0 && p.blue == 0 && p.yellow == 0)
      && (ColorOf(p, whenEmpty) != "Other" ==>
            exists k :: Leads(HueCounts(p), k) && ColorOf(p, whenEmpty) == HueNames[k])
  {
    var counts := HueCounts(p);
    LeaderLeads(counts);
    if Leader(counts) < 0 {
      assert counts[0] == 0 && counts[1] == 0 && counts[2] == 0;
    }
  }

  /** The hue loop: a running maximum starting at 0 and "Other". */
  method StrongestHue(p: Pixels) returns (color: string)
    ensures color == HueOf(p)
  {
    var counts := HueCounts(p);
    var maxPixels: nat := 0;
    var leader := -1;
    color := "Other";
    for i := 0 to |HueNames|
      invariant leader == Leader(counts[..i])
      invariant leader < 0 ==> maxPixels == 0 && color == "Other"
      invariant leader >= 0 ==> maxPixels == counts[leader] && color == HueNames[leader]
    {
      assert counts[..i + 1][..i] == counts[..i];
      if counts[i] > maxPixels {
        maxPixels := counts[i];
        color := HueNames[i];
        leader := i;
      }
    }
    assert counts[..|HueNames|] == counts;
  }

  /** `detect_vehicle_color` of this prototype. */
  method DetectVehicleColor(p: Pixels) returns (color: string)
    ensures color == ColorOf(p, "Unknown")
  {
    if p.total == 0 {
      return "Unknown";
    }
    if Exceeds(p.white, p.total) {
      return "White";
    }
    if Exceeds(p.black, p.total) {
      return "Black";
    }
    color := StrongestHue(p);
  }

  /** One detector box with the mask counts of its crop. */
  datatype Sighting = Sighting(className: string, conf: real, box: Box, pixels: Pixels)

  /** The classes this prototype captions. */
  const Captioned: set<string> := {"car", "bus", "truck", "motorcycle", "bicycle"}

  /** A box is processed when its confidence is at least 0.4 and its class
      is one of the five vehicle classes. */
  predicate Processed(s: Sighting) {
    s.conf >= 0.4 && s.className in Captioned
  }

  /** The caption of a processed box: its class and colour. */
  function Caption(s: Sighting): string {
    s.className + " | " + ColorOf(s.pixels, "Unknown")
  }

  /** The boxes a frame draws, in detection order. */
  function FrameCaptions(ss: seq<Sighting>): (r: seq<Drawn>)
    ensures |r| == CountWhere(ss, Processed)
  {
    if ss == [] then []
    else (if Processed(ss[0]) then [Drawn(ss[0].box, Caption(ss[0]))] else []) + FrameCaptions(ss[1..])
  }

  /** A box is drawn with a caption exactly when some processed detection
      of the frame has that box and that class and colour. */
  lemma {:induction false} FrameCaptionsExactly(ss: seq<Sighting>, d: Drawn)
    ensures d in FrameCaptions(ss) <==>
      exists k :: 0 <= k < |ss| && Processed(ss[k]) && d == Drawn(ss[k].box, Caption(ss[k]))
  {
    if ss != [] {
      FrameCaptionsExactly(ss[1..], d);
      if exists k :: 0 <= k < |ss[1..]| && Processed(ss[1..][k]) && d == Drawn(ss[1..][k].box, Caption(ss[1..][k])) {
        var k :| 0 <= k < |ss[1..]| && Processed(ss[1..][k]) && d == Drawn(ss[1..][k].box, Caption(ss[1..][k]));
        assert ss[k + 1] == ss[1..][k];
      }
      if exists k :: 0 <= k < |ss| && Processed(ss[k]) && d == Drawn(ss[k].box, Caption(ss[k])) {
        var k :| 0 <= k < |ss| && Processed(ss[k]) && d == Drawn(ss[k].box, Caption(ss[k]));
        if k > 0 {
          assert ss[1..][k - 1] == ss[k];
        }
      }
    }
  }
}
