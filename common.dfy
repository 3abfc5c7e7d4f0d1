/** Shared vocabulary of the game rules: optional values, exact-real points and
    axis-aligned boxes (the three.js Vector3 and Box3 the rules consume), random
    draws turned into indices, and the string operations of JavaScript that the
    map code relies on (split, join, trim). */
module Common {

  datatype Option<T> = None | Some(value: T)

  /** A point or displacement in world space. Reals are exact here, where the
      game uses IEEE doubles. */
  datatype Vec3 = Vec3(x: real, y: real, z: real)

  /** An axis-aligned box given by its minimum and maximum corners. */
  datatype Box = Box(min: Vec3, max: Vec3)

  /** A sprite once its texture has loaded: where it stands and its scale. */
  datatype Sprite = Sprite(position: Vec3, scale: Vec3)

  /** Box3.setFromCenterAndSize: the box of the given size centred on `center`. */
  function BoxAround(center: Vec3, size: Vec3): (b: Box)
    ensures (b.min.x + b.max.x) / 2.0 == center.x && b.max.x - b.min.x == size.x
    ensures (b.min.y + b.max.y) / 2.0 == center.y && b.max.y - b.min.y == size.y
    ensures (b.min.z + b.max.z) / 2.0 == center.z && b.max.z - b.min.z == size.z
  {
    Box(Vec3(center.x - size.x / 2.0, center.y - size.y / 2.0, center.z - size.z / 2.0),
        Vec3(center.x + size.x / 2.0, center.y + size.y / 2.0, center.z + size.z / 2.0))
  }

  /** Box3.intersectsBox: boxes that touch on a face count as intersecting. */
  function Intersects(a: Box, b: Box): (hit: bool)
    ensures (exists p :: ContainsPoint(a, p) && ContainsPoint(b, p)) ==> hit
  {
    !(b.max.x < a.min.x || b.min.x > a.max.x ||
      b.max.y < a.min.y || b.min.y > a.max.y ||
      b.max.z < a.min.z || b.min.z > a.max.z)
  }

  /** Box3.containsPoint. */
  predicate ContainsPoint(b: Box, p: Vec3)
  {
    b.min.x <= p.x <= b.max.x && b.min.y <= p.y <= b.max.y && b.min.z <= p.z <= b.max.z
  }

  /** A box whose min corner is below its max corner on every axis. */
  predicate Proper(b: Box)
  {
    b.min.x <= b.max.x && b.min.y <= b.max.y && b.min.z <= b.max.z
  }

  /** Two proper boxes intersect exactly when some point lies in both, and
      the test does not depend on which box asks. */
  lemma IntersectsSharedPoint(a: Box, b: Box)
    requires Proper(a) && Proper(b)
    ensures Intersects(a, b) <==> exists p :: ContainsPoint(a, p) && ContainsPoint(b, p)
    ensures Intersects(a, b) == Intersects(b, a)
  {
    if Intersects(a, b) {
      var p := Vec3(if a.min.x < b.min.x then b.min.x else a.min.x,
                    if a.min.y < b.min.y then b.min.y else a.min.y,
                    if a.min.z < b.min.z then b.min.z else a.min.z);
      assert ContainsPoint(a, p) && ContainsPoint(b, p);
    }
  }

  /** A value of Math.random(). */
  predicate IsDraw(d: real)
  {
    0.0 <= d < 1.0
  }

  /** `draw * n` for a whole number n, as the sum of |n| copies of the draw
      (subtracted when n is negative); TimesIsProduct shows the two agree.
      Written this way, the product only unfolds one step at a time. */
  function Times(draw: real, n: int): (r: real)
    decreases if n < 0 then -n else n
  {
    if n == 0 then 0.0
    else if n > 0 then Times(draw, n - 1) + draw
    else Times(draw, n + 1) - draw
  }

  lemma {:induction false} TimesIsProduct(draw: real, n: int)
    ensures Times(draw, n) == draw * n as real
    decreases if n < 0 then -n else n
  {
    if n > 0 {
      TimesIsProduct(draw, n - 1);
    } else if n < 0 {
      TimesIsProduct(draw, n + 1);
    }
  }

  /** A draw scaled by n >= 0 lies in [0, n], and below n when n > 0. */
  lemma {:induction false} TimesBounds(draw: real, n: nat)
    requires IsDraw(draw)
    ensures 0.0 <= Times(draw, n) <= n as real
    ensures n > 0 ==> Times(draw, n) < n as real
  {
    if n > 0 {
      TimesBounds(draw, n - 1);
    }
  }

  /** Math.floor(draw * n): the index a random draw selects among n choices. */
  function DrawIndex(draw: real, n: nat): (k: nat)
    requires IsDraw(draw) && n > 0
    ensures k < n
  {
    TimesBounds(draw, n);
    Times(draw, n).Floor
  }

  /** Every index is selected by some draw, namely k / n. */
  lemma DrawIndexCovers(k: nat, n: nat)
    requires k < n
    ensures IsDraw(k as real / n as real)
    ensures DrawIndex(k as real / n as real, n) == k
  {
    var d := k as real / n as real;
    TimesIsProduct(d, n);
    assert d * n as real == k as real;
  }

  /** `catalog[id]` on an object literal such as ITEMS or MONSTERS, given as
      its entries in key order: the value stored under `id`, if any. */
  function Lookup<V>(catalog: seq<(string, V)>, id: string): (r: Option<V>)
    ensures r.Some? <==> exists k :: 0 <= k < |catalog| && catalog[k].0 == id
    ensures r.Some? ==> exists k :: 0 <= k < |catalog| && catalog[k] == (id, r.value)
  {
    if |catalog| == 0 then None
    else if catalog[0].0 == id then Some(catalog[0].1)
    else
      var r := Lookup(catalog[1..], id);
      assert forall k :: 1 <= k < |catalog| ==> catalog[k] == catalog[1..][k - 1];
      r
  }

  /** `Array.prototype.splice(i, 1)`: the list without its entry at `i`, the
      others keeping their order. */
  function RemoveAt<T>(s: seq<T>, i: nat): (r: seq<T>)
    requires i < |s|
    ensures |r| == |s| - 1
    ensures forall j :: 0 <= j < i ==> r[j] == s[j]
    ensures forall j :: i <= j < |r| ==> r[j] == s[j + 1]
  {
    s[..i] + s[i + 1..]
  }

  /** Exactly one occurrence of the removed entry leaves the list. */
  lemma RemoveAtMultiset<T>(s: seq<T>, i: nat)
    requires i < |s|
    ensures multiset(RemoveAt(s, i)) + multiset{s[i]} == multiset(s)
  {
    assert s == s[..i] + [s[i]] + s[i + 1..];
  }

  predicate Distinct<T(==)>(s: seq<T>)
  {
    forall a, b :: 0 <= a < b < |s| ==> s[a] != s[b]
  }

  /** Removing from a list without repeats: what is left was there before,
      still has no repeats, and no longer holds the removed entry. */
  lemma RemoveAtDistinct<T>(s: seq<T>, i: nat)
    requires i < |s| && Distinct(s)
    ensures Distinct(RemoveAt(s, i))
    ensures s[i] !in RemoveAt(s, i)
  {
    var r := RemoveAt(s, i);
    forall a, b | 0 <= a < b < |r|
      ensures r[a] != r[b]
    {
      var a' := if a < i then a else a + 1;
      var b' := if b < i then b else b + 1;
      assert r[a] == s[a'] && r[b] == s[b'];
    }
    forall j | 0 <= j < |r|
      ensures r[j] != s[i]
    {
      var j' := if j < i then j else j + 1;
      assert r[j] == s[j'];
    }
  }

  /** What is left after a removal was in the list. */
  lemma RemoveAtSubset<T>(s: seq<T>, i: nat, x: T)
    requires i < |s| && x in RemoveAt(s, i)
    ensures x in s
  {
    var j :| 0 <= j < |RemoveAt(s, i)| && RemoveAt(s, i)[j] == x;
    if j >= i {
      assert s[j + 1] == x;
    }
  }

  /** `String.prototype.split(sep)` for a one-character separator. */
  function Split(s: string, sep: char): (parts: seq<string>)
    ensures |parts| >= 1
    ensures forall i :: 0 <= i < |parts| ==> sep !in parts[i]
    decreases |s|
  {
    if |s| == 0 then [""]
    else
      var rest := Split(s[1..], sep);
      if s[0] == sep then [""] + rest
      else [[s[0]] + rest[0]] + rest[1..]
  }

  /** `Array.prototype.join(sep)`. */
  function Join(parts: seq<string>, sep: char): (s: string)
    ensures |parts| == 1 ==> s == parts[0]
    decreases |parts|
  {
    if |parts| == 0 then ""
    else if |parts| == 1 then parts[0]
    else parts[0] + [sep] + Join(parts[1..], sep)
  }

  lemma {:induction false} SplitNoSep(a: string, sep: char)
    requires sep !in a
    ensures Split(a, sep) == [a]
    decreases |a|
  {
    if |a| > 0 {
      SplitNoSep(a[1..], sep);
      assert [a[0]] + a[1..] == a;
    }
  }

  lemma {:induction false} SplitAfterPrefix(a: string, rest: string, sep: char)
    requires sep !in a
    ensures Split(a + [sep] + rest, sep) == [a] + Split(rest, sep)
    decreases |a|
  {
    if |a| == 0 {
      assert a + [sep] + rest == [sep] + rest;
      assert ([sep] + rest)[1..] == rest;
    } else {
      var s := a + [sep] + rest;
      assert s[0] == a[0] && s[1..] == a[1..] + [sep] + rest;
      SplitAfterPrefix(a[1..], rest, sep);
      assert [a[0]] + a[1..] == a;
    }
  }

  /** Splitting a joined list of separator-free parts gives the parts back. */
  lemma {:induction false} SplitJoin(parts: seq<string>, sep: char)
    requires |parts| >= 1
    requires forall i :: 0 <= i < |parts| ==> sep !in parts[i]
    ensures Split(Join(parts, sep), sep) == parts
    decreases |parts|
  {
    if |parts| == 1 {
      SplitNoSep(parts[0], sep);
    } else {
      SplitJoin(parts[1..], sep);
      SplitAfterPrefix(parts[0], Join(parts[1..], sep), sep);
      assert [parts[0]] + parts[1..] == parts;
    }
  }

  /** Joining the parts of a split with the same separator gives the text back. */
  lemma {:induction false} JoinSplit(s: string, sep: char)
    ensures Join(Split(s, sep), sep) == s
    decreases |s|
  {
    if |s| > 0 {
      var rest := Split(s[1..], sep);
      JoinSplit(s[1..], sep);
      if s[0] == sep {
        assert ([""] + rest)[1..] == rest;
        assert [s[0]] + s[1..] == s;
      } else {
        var parts := [[s[0]] + rest[0]] + rest[1..];
        assert parts[1..] == rest[1..];
        assert [s[0]] + s[1..] == s;
        if |rest| > 1 {
          assert Join(rest, sep) == rest[0] + [sep] + Join(rest[1..], sep);
        }
      }
    }
  }

  /** The characters `String.prototype.trim` removes: the ECMAScript WhiteSpace
      and LineTerminator code points. */
  predicate IsJsWhitespace(c: char)
  {
    c == '\t' || c == '\n' || c == '\U{B}' || c == '\U{C}' || c == '\r' || c == ' ' ||
    c == '\U{A0}' || c == '\U{1680}' || ('\U{2000}' <= c <= '\U{200A}') ||
    c == '\U{2028}' || c == '\U{2029}' || c == '\U{202F}' || c == '\U{205F}' ||
    c == '\U{3000}' || c == '\U{FEFF}'
  }

  /** The number of whitespace characters at the head of `s`. */
  function LeadingWhitespace(s: string): (n: nat)
    ensures n <= |s|
    ensures forall i :: 0 <= i < n ==> IsJsWhitespace(s[i])
    ensures n == |s| || !IsJsWhitespace(s[n])
    decreases |s|
  {
    if |s| > 0 && IsJsWhitespace(s[0]) then 1 + LeadingWhitespace(s[1..]) else 0
  }

  /** The number of whitespace characters at the tail of `s`. */
  function TrailingWhitespace(s: string): (n: nat)
    ensures n <= |s|
    ensures forall i :: |s| - n <= i < |s| ==> IsJsWhitespace(s[i])
    ensures n == |s| || !IsJsWhitespace(s[|s| - n - 1])
    decreases |s|
  {
    if |s| > 0 && IsJsWhitespace(s[|s| - 1]) then 1 + TrailingWhitespace(s[..|s| - 1]) else 0
  }

  /** `String.prototype.trim`: the text with its leading and trailing
      whitespace removed and nothing else changed. */
  function Trim(s: string): (r: string)
    ensures r == [] || (!IsJsWhitespace(r[0]) && !IsJsWhitespace(r[|r| - 1]))
    ensures LeadingWhitespace(s) + |r| <= |s|
    ensures r == s[LeadingWhitespace(s)..LeadingWhitespace(s) + |r|]
    ensures forall i :: LeadingWhitespace(s) + |r| <= i < |s| ==> IsJsWhitespace(s[i])
  {
    var t := s[LeadingWhitespace(s)..];
    t[..|t| - TrailingWhitespace(t)]
  }
}
