/** The video plate prototype (day6_video_plate_detection.py): confident
    vehicle detections have the lower middle of their crop read by OCR, and
    every confident, long enough reading is a vote for its cleaned text.
    The detector and the reader are left out: a detection carries its
    crop's size and what the reader returns on the plate region. */
module Day6 {
  import opened Common

  /** One OCR result: the text and its score. */
  datatype Reading = Reading(text: string, score: real)

  /** One vehicle detection: class, confidence, the crop's height and width
      (clipped to the frame), and the reader's results on the plate region. */
  datatype Sighting = Sighting(className: string, conf: real, height: nat, width: nat, readings: seq<Reading>)

  const VehicleClasses: set<string> := {"car", "motorcycle", "bus", "truck"}

  /** A detection is read when its confidence is at least 0.5 and its class
      is one of the four vehicle classes. */
  predicate Used(s: Sighting) {
    s.conf >= 0.5 && s.className in VehicleClasses
  }

  /** The plate region's rows, `int(h*0.6)` to `h`, in exact arithmetic. */
  function PlateRows(h: nat): (nat, nat) {
    ((6 * h) / 10, h)
  }

  /** The plate region's columns, `int(w*0.2)` to `int(w*0.8)`. */
  function PlateCols(w: nat): (nat, nat) {
    ((2 * w) / 10, (8 * w) / 10)
  }

  predicate RegionEmpty(h: nat, w: nat) {
    PlateRows(h).1 <= PlateRows(h).0 || PlateCols(w).1 <= PlateCols(w).0
  }

  /** The region starts no higher than the crop's 60% line and spans the
      middle 60% of its width, and for a non-empty crop it is empty exactly
      when the crop is one pixel wide. */
  lemma PlateRegion(h: nat, w: nat)
    ensures 10 * PlateRows(h).0 <= 6 * h && PlateRows(h).1 == h
    ensures 10 * PlateCols(w).0 <= 2 * w && 8 * w < 10 * PlateCols(w).1 + 10
    ensures h > 0 && w > 0 ==> (RegionEmpty(h, w) <==> w == 1)
  {
    var r0, c0, c1 := (6 * h) / 10, (2 * w) / 10, (8 * w) / 10;
    assert 10 * r0 <= 6 * h;
    assert 10 * c0 <= 2 * w;
    assert 8 * w < 10 * c1 + 10;
    if h > 0 {
      assert r0 < h;
    }
    if w >= 2 {
      assert 10 * (c0 + 1) <= 8 * w;
      assert c0 + 1 <= c1;
    }
  }

  /** A reading votes when its score is above 0.4 and its raw text has at
      least six characters. */
  predicate Votes(r: Reading) {
    r.score > 0.4 && |r.text| >= 6
  }

  /** `text.replace(" ", "").upper()`: the key a vote is counted under. */
  function VoteKey(text: string): (k: string)
    ensures ' ' !in k
    ensures forall i :: 0 <= i < |k| ==> !IsLowerAscii(k[i])
    ensures |k| <= |text|
  {
    var r := Remove(text, ' ');
    assert forall i :: 0 <= i < |r| ==> Upper(r)[i] != ' ' by {
      forall i | 0 <= i < |r|
        ensures Upper(r)[i] != ' '
      {
        assert r[i] in r;
      }
    }
    Upper(r)
  }

  /** Removing a character that occurs shortens the text. */
  lemma {:induction false} RemoveShortens(s: string, c: char)
    requires c in s
    ensures |Remove(s, c)| < |s|
  {
    if s[0] != c {
      assert c in s[1..] by {
        var k :| 0 <= k < |s| && s[k] == c;
        assert s[1..][k - 1] == c;
      }
      RemoveShortens(s[1..], c);
    }
  }

  /** The length is checked before the spaces go: a reading with a space
      votes for a key shorter than itself, so a six-character reading with
      a space votes for a key under six characters. */
  lemma ShortKeyVotes(text: string)
    requires ' ' in text
    ensures |VoteKey(text)| < |text|
    ensures Votes(Reading("ABCD E", 0.9)) && |VoteKey("ABCD E")| < 6
  {
    RemoveShortens(text, ' ');
    assert "ABCD E"[4] == ' ';
    RemoveShortens("ABCD E", ' ');
  }

  /** The keys of the votes a list of readings casts, in order. */
  function ReadingKeys(rs: seq<Reading>): seq<string> {
    if rs == [] then []
    else
      var last := rs[|rs| - 1];
      ReadingKeys(rs[..|rs| - 1]) + (if Votes(last) then [VoteKey(last.text)] else [])
  }

  /** A detection casts votes only when it is used, its crop is not empty
      and its plate region is not empty. */
  function SightingKeys(s: Sighting): seq<string> {
    if !Used(s) || s.height == 0 || s.width == 0 || RegionEmpty(s.height, s.width) then []
    else ReadingKeys(s.readings)
  }

  /** The keys of the votes a frame casts, detection after detection. */
  function FrameKeys(ss: seq<Sighting>): seq<string> {
    if ss == [] then [] else FrameKeys(ss[..|ss| - 1]) + SightingKeys(ss[|ss| - 1])
  }

  /** `plate_votes[key]` of the defaultdict. */
  function VotesFor(m: map<string, nat>, key: string): nat {
    if key in m then m[key] else 0
  }

  /** The vote table after counting `keys` one by one. */
  function Tally(m: map<string, nat>, keys: seq<string>): map<string, nat> {
    if keys == [] then m else Bump(Tally(m, keys[..|keys| - 1]), keys[|keys| - 1])
  }

  function Occurrences(keys: seq<string>, key: string): nat {
    if keys == [] then 0 else Occurrences(keys[..|keys| - 1], key) + (if keys[|keys| - 1] == key then 1 else 0)
  }

  /** Each key's count rises by the number of its votes, and no other key
      appears. */
  lemma {:induction false} TallyCounts(m: map<string, nat>, keys: seq<string>, key: string)
    ensures VotesFor(Tally(m, keys), key) == VotesFor(m, key) + Occurrences(keys, key)
    ensures key in Tally(m, keys) <==> key in m || Occurrences(keys, key) > 0
  {
    if keys != [] {
      TallyCounts(m, keys[..|keys| - 1], key);
    }
  }

  /** Counting two lists of votes is counting one after the other. */
  lemma {:induction false} TallyAppend(m: map<string, nat>, a: seq<string>, b: seq<string>)
    ensures Tally(m, a + b) == Tally(Tally(m, a), b)
  {
    if b == [] {
      assert a + b == a;
    } else {
      var n := |b| - 1;
      assert (a + b)[..|a + b| - 1] == a + b[..n];
      assert (a + b)[|a + b| - 1] == b[n];
      TallyAppend(m, a, b[..n]);
    }
  }

  /** One more reading adds its vote, if it casts one. */
  lemma ReadingKeysSnoc(m: map<string, nat>, rs: seq<Reading>, i: nat)
    requires i < |rs|
    ensures Tally(m, ReadingKeys(rs[..i + 1])) ==
      if Votes(rs[i]) then Bump(Tally(m, ReadingKeys(rs[..i])), VoteKey(rs[i].text)) else Tally(m, ReadingKeys(rs[..i]))
  {
    assert rs[..i + 1][..i] == rs[..i];
    if Votes(rs[i]) {
      var key := VoteKey(rs[i].text);
      TallyAppend(m, ReadingKeys(rs[..i]), [key]);
      assert [key][..0] == [];
    } else {
      assert ReadingKeys(rs[..i + 1]) == ReadingKeys(rs[..i]) + [];
      assert ReadingKeys(rs[..i]) + [] == ReadingKeys(rs[..i]);
    }
  }

  class PlateVoter {
    var votes: map<string, nat>
    var frameCount: nat

    constructor ()
      ensures votes == map[] && frameCount == 0
    {
      votes, frameCount := map[], 0;
    }

    /** The inner loop over the reader's results. */
    method CastVotes(rs: seq<Reading>)
      modifies this
      ensures votes == Tally(old(votes), ReadingKeys(rs)) && frameCount == old(frameCount)
    {
      for i := 0 to |rs|
        invariant votes == Tally(old(votes), ReadingKeys(rs[..i])) && frameCount == old(frameCount)
      {
        ReadingKeysSnoc(old(votes), rs, i);
        if Votes(rs[i]) {
          votes := Bump(votes, VoteKey(rs[i].text));
        }
      }
      assert rs[..|rs|] == rs;
    }

    /** One detection: skipped unless used and its crop and plate region
        are not empty, otherwise its readings vote. */
    method Observe(s: Sighting)
      modifies this
      ensures votes == Tally(old(votes), SightingKeys(s)) && frameCount == old(frameCount)
    {
      if !Used(s) || s.height == 0 || s.width == 0 {
        return;
      }
      if RegionEmpty(s.height, s.width) {
        return;
      }
      CastVotes(s.readings);
    }

    /** One frame: the frame counter rises by one and every detection of
        the frame is observed in order. */
    method Frame(ss: seq<Sighting>)
      modifies this
      ensures frameCount == old(frameCount) + 1
      ensures votes == Tally(old(votes), FrameKeys(ss))
    {
      frameCount := frameCount + 1;
      for i := 0 to |ss|
        invariant votes == Tally(old(votes), FrameKeys(ss[..i]))
        invariant frameCount == old(frameCount) + 1
      {
        assert ss[..i + 1][..i] == ss[..i];
        TallyAppend(old(votes), FrameKeys(ss[..i]), SightingKeys(ss[i]));
        Observe(ss[i]);
      }
      assert ss[..|ss|] == ss;
    }
  }
}
