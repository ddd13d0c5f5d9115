/** The plate prototype (day5_number_plate_detection.py): each frame goes
    through the vehicle detector, drawn with the mapping of module Day3,
    and then through the plate detector, whose confident boxes are drawn
    as "Plate".  Both detectors are left out; their boxes are inputs. */
module Day5 {
  import opened Common
  import opened Day3

  /** One plate-detector box and its confidence. */
  datatype PlateBox = PlateBox(box: Box, conf: real)

  /** The plate boxes drawn: those of confidence at least 0.4, in order. */
  function PlateLabels(ps: seq<PlateBox>): (r: seq<Drawn>)
    ensures |r| <= |ps|
    ensures forall k :: 0 <= k < |r| ==> r[k].caption == "Plate"
  {
    if ps == [] then []
    else (if ps[0].conf < 0.4 then [] else [Drawn(ps[0].box, "Plate")]) + PlateLabels(ps[1..])
  }

  /** A plate box is drawn exactly when some plate detection of the frame
      has that box and a confidence of at least 0.4; how many are drawn is
      how many are that confident. */
  lemma {:induction false} PlateLabelsExactly(ps: seq<PlateBox>, b: Box)
    ensures Drawn(b, "Plate") in PlateLabels(ps) <==> exists k :: 0 <= k < |ps| && ps[k].box == b && ps[k].conf >= 0.4
    ensures |PlateLabels(ps)| == CountWhere(ps, (p: PlateBox) => p.conf >= 0.4)
  {
    if ps != [] {
      PlateLabelsExactly(ps[1..], b);
      if exists k :: 0 <= k < |ps[1..]| && ps[1..][k].box == b && ps[1..][k].conf >= 0.4 {
        var k :| 0 <= k < |ps[1..]| && ps[1..][k].box == b && ps[1..][k].conf >= 0.4;
        assert ps[k + 1] == ps[1..][k];
      }
      if exists k :: 0 <= k < |ps| && ps[k].box == b && ps[k].conf >= 0.4 {
        var k :| 0 <= k < |ps| && ps[k].box == b && ps[k].conf >= 0.4;
        if k > 0 {
          assert ps[1..][k - 1] == ps[k];
        }
      }
    }
  }

  /** Everything a frame shows: the vehicle boxes first, then the plates. */
  function FrameDrawing(vehicles: seq<Detection>, plates: seq<PlateBox>): (r: seq<Drawn>)
    ensures |r| == |DrawnBoxes(vehicles)| + |PlateLabels(plates)|
    ensures r[..|DrawnBoxes(vehicles)|] == DrawnBoxes(vehicles)
    ensures r[|DrawnBoxes(vehicles)|..] == PlateLabels(plates)
  {
    DrawnBoxes(vehicles) + PlateLabels(plates)
  }

  /** Every caption on a frame is one of the four vehicle types or "Plate",
      and a vehicle type is never captioned "Plate". */
  lemma {:induction false} CaptionsOfFrame(vehicles: seq<Detection>, plates: seq<PlateBox>, d: Drawn)
    requires d in FrameDrawing(vehicles, plates)
    ensures d.caption in {"two_wheeler", "car", "truck", "bus", "Plate"}
    ensures d.caption == "Plate" ==> d in PlateLabels(plates)
  {
    var n := |DrawnBoxes(vehicles)|;
    var r := FrameDrawing(vehicles, plates);
    var i :| 0 <= i < |r| && r[i] == d;
    if i < n {
      assert d in DrawnBoxes(vehicles) by {
        assert DrawnBoxes(vehicles)[i] == r[i];
      }
      DrawnExactly(vehicles, d);
      var k :| 0 <= k < |vehicles| && vehicles[k].box == d.box && VehicleType(vehicles[k].className, vehicles[k].conf) == Some(d.caption);
    } else {
      assert PlateLabels(plates)[i - n] == d;
    }
  }
}
