/** The first detection prototype (day3_vehicle_detection.py): which YOLO
    detections are drawn, and under which vehicle type.  The detector is
    left out; its boxes, labels and confidences are inputs.  The same
    mapping is reused by the plate prototype (module Day5). */
module Day3 {
  import opened Common

  /** A bounding box in pixel coordinates. */
  datatype Box = Box(x1: int, y1: int, x2: int, y2: int)

  /** One detector box: its class name and confidence. */
  datatype Detection = Detection(className: string, conf: real, box: Box)

  /** A box drawn on the frame with its caption. */
  datatype Drawn = Drawn(box: Box, caption: string)

  predicate IsTwoWheelerClass(className: string) {
    className == "motorcycle" || className == "bicycle"
  }

  predicate IsHeavyClass(className: string) {
    className == "car" || className == "truck" || className == "bus"
  }

  /** The vehicle type a detection is drawn as, or `None` when the loop
      skips it: two-wheelers need a confidence of 0.25, cars, trucks and
      buses 0.4, and every other class is skipped. */
  function VehicleType(className: string, conf: real): (t: Option<string>)
    ensures t.Some? ==> t.value in {"two_wheeler", "car", "truck", "bus"}
    ensures IsTwoWheelerClass(className) ==> (t.Some? <==> conf >= 0.25) && (t.Some? ==> t.value == "two_wheeler")
    ensures IsHeavyClass(className) ==> (t.Some? <==> conf >= 0.4) && (t.Some? ==> t.value == className)
    ensures !IsTwoWheelerClass(className) && !IsHeavyClass(className) ==> t.None?
  {
    if IsTwoWheelerClass(className) then
      if conf < 0.25 then None else Some("two_wheeler")
    else if IsHeavyClass(className) then
      if conf < 0.4 then None else Some(className)
    else None
  }

  /** Every drawn detection had at least 0.25 confidence, and at least 0.4
      unless it is a two-wheeler; the type names the class name's family. */
  lemma DrawnIsConfident(className: string, conf: real)
    requires VehicleType(className, conf).Some?
    ensures conf >= 0.25
    ensures VehicleType(className, conf).value != "two_wheeler" ==> conf >= 0.4 && VehicleType(className, conf).value == className
    ensures VehicleType(className, conf).value == "two_wheeler" <==> IsTwoWheelerClass(className)
  {
  }

  /** Raising the confidence never drops a drawn detection or changes its
      type. */
  lemma MoreConfidentKept(className: string, c1: real, c2: real)
    requires c1 <= c2 && VehicleType(className, c1).Some?
    ensures VehicleType(className, c2) == VehicleType(className, c1)
  {
  }

  /** The boxes the frame loop draws, in detection order, captioned with
      their vehicle type (the confidence printed after it, rounded to two
      decimals, is left out). */
  function DrawnBoxes(ds: seq<Detection>): (r: seq<Drawn>)
    ensures |r| <= |ds|
  {
    if ds == [] then []
    else
      var t := VehicleType(ds[0].className, ds[0].conf);
      (if t.Some? then [Drawn(ds[0].box, t.value)] else []) + DrawnBoxes(ds[1..])
  }

  /** A box is drawn with a caption exactly when some detection of the
      frame has that box and maps to that type. */
  lemma {:induction false} DrawnExactly(ds: seq<Detection>, d: Drawn)
    ensures d in DrawnBoxes(ds) <==>
      exists k :: 0 <= k < |ds| && ds[k].box == d.box && VehicleType(ds[k].className, ds[k].conf) == Some(d.caption)
  {
    if ds != [] {
      DrawnExactly(ds[1..], d);
      if exists k :: 0 <= k < |ds[1..]| && ds[1..][k].box == d.box && VehicleType(ds[1..][k].className, ds[1..][k].conf) == Some(d.caption) {
        var k :| 0 <= k < |ds[1..]| && ds[1..][k].box == d.box && VehicleType(ds[1..][k].className, ds[1..][k].conf) == Some(d.caption);
        assert ds[k + 1] == ds[1..][k];
      }
      if exists k :: 0 <= k < |ds| && ds[k].box == d.box && VehicleType(ds[k].className, ds[k].conf) == Some(d.caption) {
        var k :| 0 <= k < |ds| && ds[k].box == d.box && VehicleType(ds[k].className, ds[k].conf) == Some(d.caption);
        if k > 0 {
          assert ds[1..][k - 1] == ds[k];
        }
      }
    }
  }
}
