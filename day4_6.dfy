/** The counting prototype (day4_6_vehicle_color_count_csv.py): detections
    are filtered, matched to tracked centroids, counted once when they are
    below the counting line, tallied by type, colour and both, and saved as
    two CSV tables.  The detector and the HSV masks are left out (see
    module Day4 for the mask counts); drawing is left out. */
module Day4_6 {
  import opened Common
  import opened Day3
  import opened Day4

  /** The counting line's y coordinate. */
  const LineY: int := 350

  /** The matching distance, on each axis, in pixels. */
  const NearPx: int := 50

  /** The keys of `vehicle_count`, in insertion order. */
  const VehicleKeys: seq<string> := ["car", "motorcycle", "truck", "bicycle"]

  /** The keys of `color_count`, in insertion order. */
  const ColorKeys: seq<string> := ["White", "Black", "Red", "Blue", "Yellow", "Other"]

  /** Position of a key in a key list (its first position). */
  function IndexOf(keys: seq<string>, x: string): (i: nat)
    requires x in keys
    ensures i < |keys| && keys[i] == x
  {
    if keys[0] == x then 0 else 1 + IndexOf(keys[1..], x)
  }

  /** `detect_vehicle_color` of this prototype: an empty crop is "Other",
      and every answer is a key of `color_count`. */
  function Color(p: Pixels): (c: string)
    ensures c in ColorKeys
    ensures p.total == 0 ==> c == "Other"
  {
    ColorOf(p, "Other")
  }

  /** `detect_vehicle_color` itself, with the hue loop. */
  method DetectColor(p: Pixels) returns (color: string)
    ensures color == Color(p)
  {
    if p.total == 0 {
      return "Other";
    }
    if Exceeds(p.white, p.total) {
      return "White";
    }
    if Exceeds(p.black, p.total) {
      return "Black";
    }
    color := StrongestHue(p);
  }

  /** A detection is used when its confidence is at least 0.4 and its class
      is a key of `vehicle_count`. */
  predicate Used(s: Sighting) {
    s.conf >= 0.4 && s.className in VehicleKeys
  }

  /** The centroid of a box, with Python's floor division. */
  function Centre(b: Box): (c: (int, int))
    ensures 2 * c.0 <= b.x1 + b.x2 < 2 * c.0 + 2
    ensures 2 * c.1 <= b.y1 + b.y2 < 2 * c.1 + 2
  {
    ((b.x1 + b.x2) / 2, (b.y1 + b.y2) / 2)
  }

  function Abs(x: int): nat {
    if x < 0 then -x else x
  }

  /** Whether a tracked centroid is within the matching distance on both
      axes (strictly). */
  predicate Near(p: (int, int), c: (int, int)) {
    Abs(c.0 - p.0) < NearPx && Abs(c.1 - p.1) < NearPx
  }

  /** Id `k` is the first tracked object near `c`. */
  ghost predicate FirstNear(ps: seq<(int, int)>, c: (int, int), k: int) {
    0 <= k < |ps| && Near(ps[k], c) && forall j :: 0 <= j < k ==> !Near(ps[j], c)
  }

  ghost predicate NoneNear(ps: seq<(int, int)>, c: (int, int)) {
    forall j :: 0 <= j < |ps| ==> !Near(ps[j], c)
  }

  /** Sum of a list of counts. */
  function Sum(s: seq<nat>): nat {
    if s == [] then 0 else s[0] + Sum(s[1..])
  }

  /** Raising one count raises the sum by one. */
  lemma {:induction false} SumBump(s: seq<nat>, i: nat)
    requires i < |s|
    ensures Sum(s[i := s[i] + 1]) == Sum(s) + 1
  {
    if i > 0 {
      SumBump(s[1..], i - 1);
      assert s[i := s[i] + 1][1..] == s[1..][i - 1 := s[i] + 1];
    }
  }

  /** Sum of every cell of a table of counts. */
  function Sum2(t: seq<seq<nat>>): nat {
    if t == [] then 0 else Sum(t[0]) + Sum2(t[1..])
  }

  /** Raising one cell raises the table sum by one. */
  lemma {:induction false} Sum2Bump(t: seq<seq<nat>>, i: nat, j: nat)
    requires i < |t| && j < |t[i]|
    ensures Sum2(t[i := t[i][j := t[i][j] + 1]]) == Sum2(t) + 1
  {
    if i == 0 {
      SumBump(t[0], j);
      assert t[0 := t[0][j := t[0][j] + 1]][1..] == t[1..];
    } else {
      Sum2Bump(t[1..], i - 1, j);
      assert t[i := t[i][j := t[i][j] + 1]][1..] == t[1..][i - 1 := t[i][j := t[i][j] + 1]];
    }
  }

  /** A count list after one more vehicle is counted at `i`, or unchanged
      when none is. */
  function Counted(counts: seq<nat>, i: nat, newly: bool): (r: seq<nat>)
    requires i < |counts|
    ensures |r| == |counts| && Sum(r) == Sum(counts) + (if newly then 1 else 0)
  {
    if newly then (SumBump(counts, i); counts[i := counts[i] + 1]) else counts
  }

  /** The type-by-colour table after one more vehicle is counted at
      (`v`, `c`), or unchanged when none is. */
  function CountedCell(t: seq<seq<nat>>, v: nat, c: nat, newly: bool): (r: seq<seq<nat>>)
    requires v < |t| && c < |t[v]|
    ensures |r| == |t| && Sum2(r) == Sum2(t) + (if newly then 1 else 0)
    ensures forall i :: 0 <= i < |t| ==> |r[i]| == |t[i]|
  {
    if newly then (Sum2Bump(t, v, c); t[v := t[v][c := t[v][c] + 1]]) else t
  }

  /** `n` zero counts. */
  function Zeros(n: nat): (z: seq<nat>)
    ensures |z| == n && Sum(z) == 0
  {
    if n == 0 then [] else [0] + Zeros(n - 1)
  }

  function ZeroTable(rows: nat, cols: nat): (t: seq<seq<nat>>)
    ensures |t| == rows && Sum2(t) == 0
    ensures forall i :: 0 <= i < rows ==> t[i] == Zeros(cols)
  {
    if rows == 0 then [] else [Zeros(cols)] + ZeroTable(rows - 1, cols)
  }

  /** One row of a count table: a key and its count. */
  datatype CountRow = CountRow(key: string, count: nat)

  /** A saved table: the header row and one row per key. */
  datatype CsvFile = CsvFile(header: (string, string), rows: seq<CountRow>)

  function RowTotal(rows: seq<CountRow>): nat {
    if rows == [] then 0 else rows[0].count + RowTotal(rows[1..])
  }

  /** Rows listing the counts of `keys` add up to those counts' sum. */
  lemma {:induction false} RowTotalIsSum(rows: seq<CountRow>, keys: seq<string>, counts: seq<nat>)
    requires |rows| == |keys| == |counts|
    requires forall i :: 0 <= i < |keys| ==> rows[i] == CountRow(keys[i], counts[i])
    ensures RowTotal(rows) == Sum(counts)
  {
    if rows != [] {
      RowTotalIsSum(rows[1..], keys[1..], counts[1..]);
    }
  }

  /** `for k, n in counts.items(): writer.writerow([k, n])`: one row per
      key, in key order, so the rows add up to the dictionary's total. */
  method CountRows(keys: seq<string>, counts: seq<nat>) returns (rows: seq<CountRow>)
    requires |keys| == |counts|
    ensures |rows| == |keys|
    ensures forall i :: 0 <= i < |keys| ==> rows[i] == CountRow(keys[i], counts[i])
    ensures RowTotal(rows) == Sum(counts)
  {
    rows := [];
    for i := 0 to |keys|
      invariant |rows| == i
      invariant forall j :: 0 <= j < i ==> rows[j] == CountRow(keys[j], counts[j])
    {
      rows := rows + [CountRow(keys[i], counts[i])];
    }
    RowTotalIsSum(rows, keys, counts);
  }

  class Counter {
    /** `tracked_objects`: the last centroid of each id; ids are handed out
        in order from 0, so id `k` is at index `k`. */
    var tracked: seq<(int, int)>
    var nextObjectId: nat
    var countedIds: set<nat>
    /** The three count dictionaries, each as the list of its counts in key
        order (`VehicleKeys`, `ColorKeys`, and a row of colour counts per
        vehicle key). */
    var vehicleCount: seq<nat>
    var colorCount: seq<nat>
    var vehicleColorCount: seq<seq<nat>>

    /** Ids are dense, counted ids were handed out, every table has its
        keys, and each table adds up to the number of counted ids. */
    ghost predicate Valid()
      reads this
    {
      && nextObjectId == |tracked|
      && (forall id :: id in countedIds ==> id < nextObjectId)
      && |vehicleCount| == |VehicleKeys| && |colorCount| == |ColorKeys|
      && |vehicleColorCount| == |VehicleKeys|
      && (forall i :: 0 <= i < |vehicleColorCount| ==> |vehicleColorCount[i]| == |ColorKeys|)
      && Sum(vehicleCount) == |countedIds|
      && Sum(colorCount) == |countedIds|
      && Sum2(vehicleColorCount) == |countedIds|
    }

    constructor ()
      ensures Valid() && tracked == [] && countedIds == {}
      ensures vehicleCount == Zeros(|VehicleKeys|) && colorCount == Zeros(|ColorKeys|)
      ensures vehicleColorCount == ZeroTable(|VehicleKeys|, |ColorKeys|)
    {
      tracked, nextObjectId, countedIds := [], 0, {};
      vehicleCount, colorCount := Zeros(|VehicleKeys|), Zeros(|ColorKeys|);
      vehicleColorCount := ZeroTable(|VehicleKeys|, |ColorKeys|);
    }

    /** The matching loop: the first tracked id near the centroid. */
    method FindMatch(c: (int, int)) returns (m: Option<nat>)
      ensures m.Some? ==> FirstNear(tracked, c, m.value)
      ensures m.None? ==> NoneNear(tracked, c)
    {
      for i := 0 to |tracked|
        invariant forall j :: 0 <= j < i ==> !Near(tracked[j], c)
      {
        if Near(tracked[i], c) {
          return Some(i);
        }
      }
      return None;
    }

    /** Tracking: the first near id moves to the centroid, or the centroid
        gets the next id. */
    method Track(c: (int, int)) returns (k: nat)
      requires Valid()
      modifies this
      ensures Valid()
      ensures k <= old(|tracked|)
      ensures k < old(|tracked|) ==> FirstNear(old(tracked), c, k) && tracked == old(tracked)[k := c]
      ensures k == old(|tracked|) ==> NoneNear(old(tracked), c) && tracked == old(tracked) + [c]
      ensures countedIds == old(countedIds) && vehicleCount == old(vehicleCount)
      ensures colorCount == old(colorCount) && vehicleColorCount == old(vehicleColorCount)
    {
      var matched := FindMatch(c);
      if matched.None? {
        k := nextObjectId;
        tracked := tracked + [c];
        nextObjectId := nextObjectId + 1;
      } else {
        k := matched.value;
        tracked := tracked[k := c];
      }
    }

    /** Counting: an id not counted before whose centroid is below the line
        is counted, and its type, its colour and the pair each gain one. */
    method CountOnce(k: nat, cy: int, v: nat, c: nat)
      requires Valid() && k < nextObjectId && v < |VehicleKeys| && c < |ColorKeys|
      modifies this
      ensures Valid() && tracked == old(tracked)
      ensures var newly := k !in old(countedIds) && cy > LineY;
        && countedIds == (if newly then old(countedIds) + {k} else old(countedIds))
        && vehicleCount == Counted(old(vehicleCount), v, newly)
        && colorCount == Counted(old(colorCount), c, newly)
        && vehicleColorCount == CountedCell(old(vehicleColorCount), v, c, newly)
    {
      var newly := k !in countedIds && cy > LineY;
      vehicleCount := Counted(vehicleCount, v, newly);
      colorCount := Counted(colorCount, c, newly);
      vehicleColorCount := CountedCell(vehicleColorCount, v, c, newly);
      if newly {
        countedIds := countedIds + {k};
      }
    }

    /** A used detection: tracked, then counted under its type and colour. */
    method ObserveUsed(s: Sighting) returns (k: nat)
      requires Valid() && Used(s)
      modifies this
      ensures Valid()
      ensures k <= old(|tracked|)
      ensures k < old(|tracked|) ==> FirstNear(old(tracked), Centre(s.box), k) && tracked == old(tracked)[k := Centre(s.box)]
      ensures k == old(|tracked|) ==> NoneNear(old(tracked), Centre(s.box)) && tracked == old(tracked) + [Centre(s.box)]
      ensures var newly := k !in old(countedIds) && Centre(s.box).1 > LineY;
        var v, c := IndexOf(VehicleKeys, s.className), IndexOf(ColorKeys, Color(s.pixels));
        && countedIds == (if newly then old(countedIds) + {k} else old(countedIds))
        && vehicleCount == Counted(old(vehicleCount), v, newly)
        && colorCount == Counted(old(colorCount), c, newly)
        && vehicleColorCount == CountedCell(old(vehicleColorCount), v, c, newly)
    {
      var centre := Centre(s.box);
      var color := DetectColor(s.pixels);
      k := Track(centre);
      CountOnce(k, centre.1, IndexOf(VehicleKeys, s.className), IndexOf(ColorKeys, color));
    }

    /** One detection of the frame loop: an unused detection (confidence
        below 0.4 or another class) changes nothing. */
    method Observe(s: Sighting) returns (id: Option<nat>)
      requires Valid()
      modifies this
      ensures Valid()
      ensures id.Some? <==> Used(s)
      ensures !Used(s) ==>
        && tracked == old(tracked) && countedIds == old(countedIds)
        && vehicleCount == old(vehicleCount) && colorCount == old(colorCount)
        && vehicleColorCount == old(vehicleColorCount)
      ensures old(countedIds) <= countedIds && old(|tracked|) <= |tracked|
    {
      if !Used(s) {
        return None;
      }
      var k := ObserveUsed(s);
      id := Some(k);
    }

    /** The detections of one frame, in order. */
    method ProcessFrame(ss: seq<Sighting>)
      requires Valid()
      modifies this
      ensures Valid()
      ensures old(countedIds) <= countedIds && old(|tracked|) <= |tracked|
    {
      for i := 0 to |ss|
        invariant Valid()
        invariant old(countedIds) <= countedIds && old(|tracked|) <= |tracked|
      {
        var _ := Observe(ss[i]);
      }
    }

    /** The two saved tables: each lists its keys in order with their
        counts, and each adds up to the number of vehicles counted. */
    method SaveCounts() returns (vehicles: CsvFile, colors: CsvFile)
      requires Valid()
      ensures vehicles.header == ("vehicle_type", "count") && colors.header == ("color", "count")
      ensures |vehicles.rows| == |VehicleKeys| && |colors.rows| == |ColorKeys|
      ensures forall i :: 0 <= i < |VehicleKeys| ==> vehicles.rows[i] == CountRow(VehicleKeys[i], vehicleCount[i])
      ensures forall i :: 0 <= i < |ColorKeys| ==> colors.rows[i] == CountRow(ColorKeys[i], colorCount[i])
      ensures RowTotal(vehicles.rows) == |countedIds| && RowTotal(colors.rows) == |countedIds|
    {
      var vrows := CountRows(VehicleKeys, vehicleCount);
      var crows := CountRows(ColorKeys, colorCount);
      vehicles := CsvFile(("vehicle_type", "count"), vrows);
      colors := CsvFile(("color", "count"), crows);
    }
  }
}
