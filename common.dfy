/** Shared vocabulary: an Option type and the handful of string operations
    (case mapping, character removal, substring search, splitting, joining)
    that the Python backend and the JavaScript clients apply to labels,
    plates and filter text.  Case mapping is modelled for ASCII letters. */
module Common {

  datatype Option<T> = None | Some(value: T)

  /** Result of a request or call that may throw. */
  datatype Outcome<T> = Ok(value: T) | Failed(message: string)

  predicate IsUpperAscii(c: char) { 'A' <= c <= 'Z' }
  predicate IsLowerAscii(c: char) { 'a' <= c <= 'z' }

  function LowerChar(c: char): char {
    if IsUpperAscii(c) then (c as int + 32) as char else c
  }

  function UpperChar(c: char): char {
    if IsLowerAscii(c) then (c as int - 32) as char else c
  }

  /** `str.lower()` / `String.prototype.toLowerCase`. */
  function Lower(s: string): (r: string)
    ensures |r| == |s|
    ensures forall i :: 0 <= i < |s| ==> r[i] == LowerChar(s[i])
  {
    if s == [] then [] else [LowerChar(s[0])] + Lower(s[1..])
  }

  /** `str.upper()` / `String.prototype.toUpperCase`. */
  function Upper(s: string): (r: string)
    ensures |r| == |s|
    ensures forall i :: 0 <= i < |s| ==> r[i] == UpperChar(s[i])
  {
    if s == [] then [] else [UpperChar(s[0])] + Upper(s[1..])
  }

  lemma LowerAppend(a: string, b: string)
    ensures Lower(a + b) == Lower(a) + Lower(b)
  {
    assert forall i :: 0 <= i < |a + b| ==> Lower(a + b)[i] == (Lower(a) + Lower(b))[i];
  }

  /** Case mapping keeps every character that is not a letter where it is. */
  lemma CaseKeeps(s: string, c: char)
    requires !IsUpperAscii(c) && !IsLowerAscii(c)
    ensures c in Lower(s) <==> c in s
    ensures c in Upper(s) <==> c in s
  {
    if c in Lower(s) {
      var i :| 0 <= i < |s| && Lower(s)[i] == c;
    }
    if c in Upper(s) {
      var i :| 0 <= i < |s| && Upper(s)[i] == c;
    }
    if c in s {
      var i :| 0 <= i < |s| && s[i] == c;
      assert Lower(s)[i] == c && Upper(s)[i] == c;
    }
  }

  /** `s.replace(c, "")` for a single character `c`. */
  function Remove(s: string, c: char): (r: string)
    ensures c !in r
    ensures |r| <= |s|
    ensures forall x :: x in r ==> x in s
  {
    if s == [] then []
    else if s[0] == c then Remove(s[1..], c)
    else [s[0]] + Remove(s[1..], c)
  }

  lemma RemoveCons(x: char, s: string, c: char)
    ensures Remove([x] + s, c) == if x == c then Remove(s, c) else [x] + Remove(s, c)
  {
    assert ([x] + s)[1..] == s;
  }

  /** `needle in hay` / `hay.includes(needle)`. */
  predicate Contains(hay: string, needle: string)
    decreases |hay|
  {
    needle <= hay || (|hay| > 0 && Contains(hay[1..], needle))
  }

  /** The textbook definition of a substring occurrence. */
  ghost predicate OccursAt(hay: string, needle: string, i: int)
  {
    0 <= i && i + |needle| <= |hay| && hay[i..i + |needle|] == needle
  }

  lemma ShiftOccurrence(hay: string, needle: string, i: int)
    requires |hay| > 0 && i >= 1
    ensures OccursAt(hay, needle, i) <==> OccursAt(hay[1..], needle, i - 1)
  {
    if i + |needle| <= |hay| {
      assert hay[1..][i - 1..i - 1 + |needle|] == hay[i..i + |needle|];
    }
  }

  lemma {:induction false} ContainsIsOccurrence(hay: string, needle: string)
    ensures Contains(hay, needle) <==> exists i :: OccursAt(hay, needle, i)
    decreases |hay|
  {
    if needle <= hay {
      assert OccursAt(hay, needle, 0);
    } else if |hay| == 0 {
      assert forall i :: !OccursAt(hay, needle, i);
    } else {
      ContainsIsOccurrence(hay[1..], needle);
      forall i | i >= 1
        ensures OccursAt(hay, needle, i) <==> OccursAt(hay[1..], needle, i - 1)
      {
        ShiftOccurrence(hay, needle, i);
      }
      if Contains(hay[1..], needle) {
        var i :| OccursAt(hay[1..], needle, i);
        assert OccursAt(hay, needle, i + 1);
      } else {
        assert !OccursAt(hay, needle, 0);
      }
    }
  }

  /** Text found in a piece is found in any string around it. */
  lemma ContainsInfix(x: string, y: string, z: string, needle: string)
    requires Contains(y, needle)
    ensures Contains(x + y + z, needle)
  {
    ContainsIsOccurrence(y, needle);
    var i :| OccursAt(y, needle, i);
    assert (x + y + z)[|x| + i..|x| + i + |needle|] == y[i..i + |needle|];
    assert OccursAt(x + y + z, needle, |x| + i);
    ContainsIsOccurrence(x + y + z, needle);
  }

  lemma EmptyIsContained(hay: string)
    ensures Contains(hay, "")
  {
  }

  /** `s.split(sep)` as JavaScript and Python define it for a one-character
      separator: n separators give n + 1 pieces, empty pieces included. */
  function Split(s: string, sep: char): (r: seq<string>)
    ensures |r| >= 1
    ensures forall k :: 0 <= k < |r| ==> sep !in r[k]
    decreases |s|
  {
    if s == [] then [""]
    else
      var rest := Split(s[1..], sep);
      if s[0] == sep then [""] + rest
      else [[s[0]] + rest[0]] + rest[1..]
  }

  /** `arr.filter(Boolean)` on strings: drop the empty ones. */
  function NonEmpty(parts: seq<string>): (r: seq<string>)
    ensures forall k :: 0 <= k < |r| ==> r[k] != ""
    ensures forall x :: x in r ==> x in parts
    ensures |r| <= |parts|
  {
    if parts == [] then []
    else if parts[0] == "" then NonEmpty(parts[1..])
    else [parts[0]] + NonEmpty(parts[1..])
  }

  /** `arr.join(sep)`. */
  function Join(parts: seq<string>, sep: string): string
  {
    if parts == [] then ""
    else if |parts| == 1 then parts[0]
    else parts[0] + sep + Join(parts[1..], sep)
  }

  /** The characters `String.prototype.trim` strips (ASCII subset). */
  predicate IsJsSpace(c: char) {
    c == ' ' || c == '\t' || c == '\n' || c == '\r' || c == '\U{B}' || c == '\U{C}'
  }

  /** `s.trim() === ""`. */
  predicate IsBlank(s: string) {
    forall i :: 0 <= i < |s| ==> IsJsSpace(s[i])
  }

  /** Number of elements of `s` satisfying `p`. */
  function CountWhere<T>(s: seq<T>, p: T -> bool): (n: nat)
    ensures n <= |s|
  {
    if s == [] then 0 else (if p(s[0]) then 1 else 0) + CountWhere(s[1..], p)
  }

  lemma {:induction false} CountWhereAppend<T>(s: seq<T>, x: T, p: T -> bool)
    ensures CountWhere(s + [x], p) == CountWhere(s, p) + (if p(x) then 1 else 0)
  {
    if s != [] {
      assert (s + [x])[1..] == s[1..] + [x];
      CountWhereAppend(s[1..], x, p);
    }
  }

  /** Elements of `s` satisfying `p`, in order (`arr.filter(p)`). */
  function FilterSeq<T>(s: seq<T>, p: T -> bool): (r: seq<T>)
    ensures |r| == CountWhere(s, p)
    ensures forall x :: x in r ==> x in s && p(x)
  {
    if s == [] then []
    else if p(s[0]) then [s[0]] + FilterSeq(s[1..], p)
    else FilterSeq(s[1..], p)
  }

  lemma {:induction false} FilterKeepsEvery<T>(s: seq<T>, p: T -> bool, x: T)
    requires x in s && p(x)
    ensures x in FilterSeq(s, p)
  {
    if s[0] != x {
      FilterKeepsEvery(s[1..], p, x);
    }
  }

  lemma {:induction false} FilterAll<T>(s: seq<T>, p: T -> bool)
    requires forall i :: 0 <= i < |s| ==> p(s[i])
    ensures FilterSeq(s, p) == s
  {
    if s != [] {
      FilterAll(s[1..], p);
    }
  }

  /** Splitting a string on a separator it does not contain gives it back whole. */
  lemma {:induction false} SplitAbsent(s: string, sep: char)
    requires sep !in s
    ensures Split(s, sep) == [s]
    decreases |s|
  {
    if s != [] {
      SplitAbsent(s[1..], sep);
      assert [s[0]] + s[1..] == s;
    }
  }

  lemma {:induction false} SplitAfter(a: string, sep: char, b: string)
    requires sep !in a
    ensures Split(a + [sep] + b, sep) == [a] + Split(b, sep)
    decreases |a|
  {
    if a == [] {
      assert a + [sep] + b == [sep] + b;
      assert ([sep] + b)[1..] == b;
    } else {
      var s := a + [sep] + b;
      assert s[0] == a[0] && s[1..] == a[1..] + [sep] + b;
      SplitAfter(a[1..], sep, b);
      assert [a[0]] + a[1..] == a;
    }
  }

  /** Joining pieces that avoid the separator and splitting again gives the
      pieces back: a CSV line count is the number of records joined. */
  lemma {:induction false} SplitJoin(parts: seq<string>, sep: char)
    requires |parts| >= 1
    requires forall k :: 0 <= k < |parts| ==> sep !in parts[k]
    ensures Split(Join(parts, [sep]), sep) == parts
  {
    if |parts| == 1 {
      SplitAbsent(parts[0], sep);
    } else {
      SplitJoin(parts[1..], sep);
      SplitAfter(parts[0], sep, Join(parts[1..], [sep]));
      assert [parts[0]] + parts[1..] == parts;
    }
  }

  /** A joined string contains a character only if the pieces or the
      separator do. */
  lemma {:induction false} JoinAvoids(parts: seq<string>, sep: string, c: char)
    requires c !in sep
    requires forall k :: 0 <= k < |parts| ==> c !in parts[k]
    ensures c !in Join(parts, sep)
  {
    if |parts| > 1 {
      JoinAvoids(parts[1..], sep, c);
    }
  }

  /** `acc[k] = (acc[k] || 0) + 1`. */
  function Bump<K>(m: map<K, nat>, k: K): (r: map<K, nat>)
    ensures r.Keys == m.Keys + {k}
  {
    m[k := (if k in m then m[k] else 0) + 1]
  }

  /** Sum of the counters stored under the keys `ks` (0 for an absent key). */
  function SumAt<K>(m: map<K, nat>, ks: seq<K>): nat {
    if ks == [] then 0 else (if ks[0] in m then m[ks[0]] else 0) + SumAt(m, ks[1..])
  }

  lemma {:induction false} SumAtEmpty<K>(ks: seq<K>)
    ensures SumAt(map[], ks) == 0
  {
    if ks != [] {
      SumAtEmpty(ks[1..]);
    }
  }

  /** Whether a sequence repeats no element. */
  predicate Unique<T(==)>(s: seq<T>) {
    s == [] || (s[0] !in s[1..] && Unique(s[1..]))
  }

  /** Bumping a key that is listed once raises the listed sum by exactly one;
      bumping an unlisted key leaves it. */
  lemma {:induction false} BumpSum<K>(m: map<K, nat>, k: K, ks: seq<K>)
    requires Unique(ks)
    ensures SumAt(Bump(m, k), ks) == SumAt(m, ks) + (if k in ks then 1 else 0)
  {
    if ks != [] {
      BumpSum(m, k, ks[1..]);
    }
  }

  /** Decimal digits of a natural number, as `${n}` renders it. */
  function DecimalText(n: nat): (r: string)
    ensures |r| >= 1
    ensures forall i :: 0 <= i < |r| ==> '0' <= r[i] <= '9'
  {
    if n < 10 then [('0' as int + n) as char] else DecimalText(n / 10) + [('0' as int + n % 10) as char]
  }
}
