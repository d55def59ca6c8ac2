/** The canonical corner order of a clicked quadrilateral (euclid.py,
    handleMouseOrXKeyBusLabel, the block after the fourth click): pick the two points of
    smallest x as the left pair, put the left pair in order of increasing y and the right
    pair in order of decreasing y, giving [leftTop, leftBottom, rightBottom, rightTop]. */
module QuadOrder {
  import opened Wrappers

  /** A canvas point: Tk reports integer pixel coordinates. */
  datatype Point = Point(x: int, y: int)

  /** Both running minima start at this point, which is not one of the clicks. */
  const Sentinel: Point := Point(1024, 1024)

  /** The selection loop behaves as if it had first scanned the sentinel twice. */
  function Ext(pts: seq<Point>): (e: seq<Point>)
    ensures |e| == |pts| + 2 && e[0] == e[1] == Sentinel
    ensures forall i :: 0 <= i < |pts| ==> e[i + 2] == pts[i]
  {
    [Sentinel, Sentinel] + pts
  }

  /** Python's list.remove: drop the first element equal to v; None when there is none
      (Python raises ValueError). */
  function RemoveFirst<T(==)>(s: seq<T>, v: T): (r: Option<seq<T>>)
    ensures r.Some? <==> v in s
    ensures r.Some? ==> |r.value| + 1 == |s| && multiset(r.value) == multiset(s) - multiset{v}
  {
    if |s| == 0 then None
    else if s[0] == v then
      assert s == [s[0]] + s[1..];
      Some(s[1..])
    else
      match RemoveFirst(s[1..], v)
      case None => None
      case Some(t) =>
        assert s == [s[0]] + s[1..];
        Some([s[0]] + t)
  }

  /** list.remove takes out the FIRST occurrence of v, at position k, and keeps the order
      of everything else. */
  lemma {:induction false} RemoveFirstAt<T>(s: seq<T>, v: T) returns (k: nat)
    requires v in s
    ensures k < |s| && s[k] == v && v !in s[..k]
    ensures RemoveFirst(s, v) == Some(s[..k] + s[k + 1..])
  {
    if s[0] == v {
      k := 0;
      assert s[..k] + s[k + 1..] == s[1..];
    } else {
      var t := s[1..];
      assert v in t;
      var j := RemoveFirstAt(t, v);
      k := j + 1;
      RemoveFirstPast(s, v);
      SlicesOfTail(s, j);
      var before, after := t[..j], t[j + 1..];
      assert s[..k] == [s[0]] + before && s[k + 1..] == after;
      Reassociate([s[0]], before, after);
    }
  }

  /** Sequence concatenation regroups. */
  lemma Reassociate<T>(a: seq<T>, b: seq<T>, c: seq<T>)
    ensures a + (b + c) == (a + b) + c
  {
    assert forall i :: 0 <= i < |a| + |b| + |c| ==> (a + (b + c))[i] == ((a + b) + c)[i];
  }

  /** Past a head that differs from v, list.remove works on the tail. */
  lemma RemoveFirstPast<T>(s: seq<T>, v: T)
    requires |s| > 0 && s[0] != v && RemoveFirst(s[1..], v).Some?
    ensures RemoveFirst(s, v) == Some([s[0]] + RemoveFirst(s[1..], v).value)
  {
  }

  /** Cutting the tail of s at j is cutting s at j + 1. */
  lemma SlicesOfTail<T>(s: seq<T>, j: nat)
    requires j + 1 < |s|
    ensures s[..j + 1] == [s[0]] + s[1..][..j] && s[j + 2..] == s[1..][j + 1..]
  {
    assert forall i :: 0 <= i < j + 1 ==> s[..j + 1][i] == ([s[0]] + s[1..][..j])[i];
  }

  /** Among the first n points of s, g1 is the LAST point of least x and g2 the last point of
      least x once g1 is set aside: this is what a scan comparing with `<=` keeps. */
  ghost predicate LeftSelection(s: seq<Point>, n: nat, g1: nat, g2: nat)
    requires n <= |s|
  {
    g1 < n && g2 < n && g1 != g2 &&
    (forall j :: 0 <= j < n ==> s[g1].x <= s[j].x) &&
    (forall j :: g1 < j < n ==> s[g1].x < s[j].x) &&
    (forall j :: 0 <= j < n && j != g1 ==> s[g2].x <= s[j].x) &&
    (forall j :: g2 < j < n && j != g1 ==> s[g2].x < s[j].x)
  }

  /** Two different positions holding v put v in the multiset at least twice. */
  lemma {:induction false} TwoOccurrences(s: seq<Point>, i: nat, j: nat)
    requires i < j < |s| && s[i] == s[j]
    ensures multiset{s[i], s[j]} <= multiset(s)
  {
    assert s == s[..i] + [s[i]] + s[i + 1..j] + [s[j]] + s[j + 1..];
    assert multiset(s) == multiset(s[..i]) + multiset{s[i]} + multiset(s[i + 1..j])
                          + multiset{s[j]} + multiset(s[j + 1..]);
  }

  /** A value that s holds twice is also held at some position other than k. */
  lemma {:induction false} OtherOccurrence(s: seq<Point>, v: Point, k: nat)
    requires k < |s| && multiset(s)[v] >= 2
    ensures exists j :: 0 <= j < |s| && j != k && s[j] == v
  {
    var rest := s[..k] + s[k + 1..];
    assert s == s[..k] + [s[k]] + s[k + 1..];
    assert multiset(s) == multiset(s[..k]) + multiset{s[k]} + multiset(s[k + 1..]);
    assert v in multiset(rest);
    var m :| 0 <= m < |rest| && rest[m] == v;
    if m < k {
      assert s[m] == v;
    } else {
      assert s[m + 1] == v;
    }
  }

  /** Every point left over after removing the selected pair lies at or right of both. */
  lemma {:induction false} RightOfLeftPair(pts: seq<Point>, g1: nat, g2: nat, r: Point)
    requires LeftSelection(Ext(pts), |pts| + 2, g1, g2)
    requires r in multiset(pts) - multiset{Ext(pts)[g1], Ext(pts)[g2]}
    ensures Ext(pts)[g1].x <= Ext(pts)[g2].x <= r.x
  {
    var e := Ext(pts);
    assert r in pts;
    var j :| 0 <= j < |pts| && pts[j] == r;
    assert e[j + 2] == r;
    if r == e[g1] {
      assert multiset(pts)[r] >= 2;
      assert g1 >= 2;
      OtherOccurrence(pts, r, g1 - 2);
      var j2 :| 0 <= j2 < |pts| && j2 != g1 - 2 && pts[j2] == r;
      assert e[j2 + 2] == r;
    }
  }

  /** Before the scan, the two sentinel copies are the selection. */
  lemma SelectStart(e: seq<Point>)
    requires |e| >= 2 && e[0] == e[1]
    ensures LeftSelection(e, 2, 1, 0)
  {
  }

  /** One step of the selection scan keeps LeftSelection, in each of its three branches. */
  lemma SelectStepShift(e: seq<Point>, n: nat, g1: nat, g2: nat)
    requires n < |e| && LeftSelection(e, n, g1, g2) && e[n].x <= e[g1].x
    ensures LeftSelection(e, n + 1, n, g1)
  {
  }

  lemma SelectStepSecond(e: seq<Point>, n: nat, g1: nat, g2: nat)
    requires n < |e| && LeftSelection(e, n, g1, g2) && e[g1].x < e[n].x <= e[g2].x
    ensures LeftSelection(e, n + 1, g1, n)
  {
  }

  lemma SelectStepKeep(e: seq<Point>, n: nat, g1: nat, g2: nat)
    requires n < |e| && LeftSelection(e, n, g1, g2) && e[g1].x < e[n].x && e[g2].x < e[n].x
    ensures LeftSelection(e, n + 1, g1, g2)
  {
  }

  /** The selection loop: a running pair of least-x points, both starting at the sentinel;
      a point at or left of left1 pushes left1 into left2, otherwise a point at or left of
      left2 replaces left2. It holds the positions Scan gives, which ScanSelects shows to
      be the LeftSelection. */
  method SelectLeftPair(pts: seq<Point>) returns (left1: Point, left2: Point, ghost g1: nat, ghost g2: nat)
    ensures (g1, g2) == Scan(Ext(pts), |pts| + 2)
    ensures left1 == Ext(pts)[Scan(Ext(pts), |pts| + 2).0] && left2 == Ext(pts)[Scan(Ext(pts), |pts| + 2).1]
  {
    ghost var e := Ext(pts);
    left1, left2 := Sentinel, Sentinel;
    g1, g2 := 1, 0;
    for i := 0 to |pts|
      invariant g1 == Scan(e, i + 2).0 && g2 == Scan(e, i + 2).1
      invariant left1 == e[g1] && left2 == e[g2]
    {
      var p := pts[i];
      ghost var n := i + 2;
      assert p == e[n];
      assert Scan(e, n + 1) == Step(e, n, (g1, g2));
      if p.x <= left1.x {
        left2 := left1;
        left1 := p;
        g1, g2 := n, g1;
      } else if p.x <= left2.x {
        left2 := p;
        g2 := n;
      }
    }
  }

  /** The positions the scan holds in left1 and left2 after the first n points of e. */
  ghost function Scan(e: seq<Point>, n: nat): (g: (nat, nat))
    requires 2 <= n <= |e|
    ensures g.0 < n && g.1 < n
  {
    if n == 2 then (1, 0) else Step(e, n - 1, Scan(e, n - 1))
  }

  /** One turn of the scan: point n is compared with the pair g of positions held. */
  ghost function Step(e: seq<Point>, n: nat, g: (nat, nat)): (h: (nat, nat))
    requires n < |e| && g.0 < n && g.1 < n
    ensures h.0 <= n && h.1 <= n
  {
    if e[n].x <= e[g.0].x then (n, g.0)
    else if e[n].x <= e[g.1].x then (g.0, n)
    else g
  }

  /** What the scan holds is the selection LeftSelection describes. */
  lemma {:induction false} ScanSelects(e: seq<Point>, n: nat)
    requires 2 <= n <= |e| && e[0] == e[1]
    ensures LeftSelection(e, n, Scan(e, n).0, Scan(e, n).1)
  {
    if n == 2 {
      SelectStart(e);
    } else {
      ScanSelects(e, n - 1);
      ScanExtends(e, n);
    }
  }

  /** One more point keeps the scan's pair the selection LeftSelection describes. */
  lemma ScanExtends(e: seq<Point>, n: nat)
    requires 3 <= n <= |e| && e[0] == e[1]
    requires LeftSelection(e, n - 1, Scan(e, n - 1).0, Scan(e, n - 1).1)
    ensures LeftSelection(e, n, Scan(e, n).0, Scan(e, n).1)
  {
    var g, h := Scan(e, n - 1), Scan(e, n);
    assert h == Step(e, n - 1, g);
    if e[n - 1].x <= e[g.0].x {
      SelectStepShift(e, n - 1, g.0, g.1);
      assert h.0 == n - 1 && h.1 == g.0;
    } else if e[n - 1].x <= e[g.1].x {
      SelectStepSecond(e, n - 1, g.0, g.1);
      assert h.0 == g.0 && h.1 == n - 1;
    } else {
      SelectStepKeep(e, n - 1, g.0, g.1);
      assert h.0 == g.0 && h.1 == g.1;
    }
  }


  /** The left pair in order: the point of smaller y first, the second point on a tie
      (`leftPoints[0] if leftPoints[0][1] < leftPoints[1][1] else leftPoints[1]`, then the
      other one is whatever remains after removing it). */
  function LowerFirst(a: Point, b: Point): (r: (Point, Point))
    ensures multiset{r.0, r.1} == multiset{a, b}
    ensures r.0.y <= r.1.y
    ensures r.0 == (if a.y < b.y then a else b)
  {
    var top := if a.y < b.y then a else b;
    var others := RemoveFirst([a, b], top).value;
    assert others == if a == top then [b] else [a];
    (top, others[0])
  }

  /** The right pair in order, from the list that remains after the left pair is removed:
      of its first two entries the one of larger y first, the second entry on a tie. Also
      gives the list after the first of them is removed (euclid.py keeps it). */
  function HigherFirst(rest: seq<Point>): (r: (Point, Point, seq<Point>))
    requires |rest| >= 2
    ensures r.0.y >= r.1.y
    ensures r.0 == (if rest[0].y > rest[1].y then rest[0] else rest[1])
    ensures |r.2| == |rest| - 1 && r.2[0] == r.1
    ensures multiset{r.0, r.1} + multiset(r.2[1..]) == multiset(rest)
  {
    var bottom := if rest[0].y > rest[1].y then rest[0] else rest[1];
    RemoveOneOfFirstTwo(rest, bottom);
    var after := RemoveFirst(rest, bottom).value;
    (bottom, after[0], after)
  }

  /** Removing one of the first two entries leaves the other one in front of the rest. */
  lemma RemoveOneOfFirstTwo(rest: seq<Point>, v: Point)
    requires |rest| >= 2 && (v == rest[0] || v == rest[1])
    ensures RemoveFirst(rest, v).Some?
    ensures var after := RemoveFirst(rest, v).value;
            |after| == |rest| - 1 && after[1..] == rest[2..] &&
            after[0] == (if rest[0] == v then rest[1] else rest[0]) &&
            multiset{v, after[0]} + multiset(after[1..]) == multiset(rest)
  {
    assert rest == [rest[0], rest[1]] + rest[2..];
    assert multiset(rest) == multiset{rest[0], rest[1]} + multiset(rest[2..]);
    assert rest[1..][0] == rest[1] && rest[1..][1..] == rest[2..];
    if rest[0] != v {
      assert RemoveFirst(rest[1..], v) == Some(rest[2..]);
    }
  }

  /** The four corners from the left pair and the list left after removing that pair:
      [leftTop, leftBottom] by LowerFirst, then [rightBottom, rightTop] by HigherFirst; also
      the list as HigherFirst leaves it. */
  function PlaceCorners(l1: Point, l2: Point, rest: seq<Point>): (r: (seq<Point>, seq<Point>))
    requires |rest| >= 2
    ensures var c := r.0;
            |c| == 4 &&
            multiset{c[0], c[1]} == multiset{l1, l2} &&
            c[0] == (if l1.y < l2.y then l1 else l2) && c[0].y <= c[1].y &&
            c[2] == (if rest[0].y > rest[1].y then rest[0] else rest[1]) &&
            c[2].y >= c[3].y &&
            |r.1| == |rest| - 1 && r.1[0] == c[3]
  {
    var (leftTop, leftBottom) := LowerFirst(l1, l2);
    var (rightBottom, rightTop, after) := HigherFirst(rest);
    ([leftTop, leftBottom, rightBottom, rightTop], after)
  }

  /** PlaceCorners loses no point: the corners and what stays in the list after rightTop
      are the left pair and the rest. */
  lemma PlaceCornersPermutes(l1: Point, l2: Point, rest: seq<Point>)
    requires |rest| >= 2
    ensures var r := PlaceCorners(l1, l2, rest);
            multiset{r.0[2], r.0[3]} <= multiset(rest) &&
            multiset(r.0) + multiset(r.1[1..]) == multiset{l1, l2} + multiset(rest)
  {
    var lp := LowerFirst(l1, l2);
    var hp := HigherFirst(rest);
    assert PlaceCorners(l1, l2, rest) == ([lp.0, lp.1, hp.0, hp.1], hp.2);
    MultisetOfFour(lp.0, lp.1, hp.0, hp.1);
    Regroup(lp.0, lp.1, hp.0, hp.1, multiset{l1, l2}, multiset(rest), hp.2[1..]);
  }

  lemma MultisetOfFour(a: Point, b: Point, c: Point, d: Point)
    ensures multiset([a, b, c, d]) == multiset{a, b, c, d}
  {
  }

  /** Regrouping a multiset union of two pairs and a rest. */
  lemma Regroup(a: Point, b: Point, c: Point, d: Point, left: multiset<Point>,
                rest: multiset<Point>, t: seq<Point>)
    requires multiset{a, b} == left && multiset{c, d} + multiset(t) == rest
    ensures multiset{a, b, c, d} + multiset(t) == left + rest
  {
  }

  /** Taking a sub-multiset out and adding it back changes nothing. */
  lemma AddBack(m: multiset<Point>, sub: multiset<Point>)
    requires sub <= m
    ensures sub + (m - sub) == m
  {
  }

  /** Removing the first l1 and then the first l2 succeeds exactly when the list holds
      both, and then removes exactly those two. */
  lemma RemovePair(pts: seq<Point>, l1: Point, l2: Point)
    ensures (RemoveFirst(pts, l1).Some? && RemoveFirst(RemoveFirst(pts, l1).value, l2).Some?)
            <==> multiset{l1, l2} <= multiset(pts)
    ensures RemoveFirst(pts, l1).Some? && RemoveFirst(RemoveFirst(pts, l1).value, l2).Some? ==>
              var rest := RemoveFirst(RemoveFirst(pts, l1).value, l2).value;
              |rest| == |pts| - 2 && multiset(rest) == multiset(pts) - multiset{l1, l2}
  {
    var m := multiset(pts);
    var s1 := RemoveFirst(pts, l1);
    if s1.None? {
      assert !(multiset{l1, l2} <= m) by { assert l1 !in m; }
    } else {
      var s2 := RemoveFirst(s1.value, l2);
      PairInMultiset(m, l1, l2);
      if s2.Some? {
        PairRemoved(m, l1, l2, multiset(s2.value));
      }
    }
  }

  /** Taking out one element and then another takes out the pair. */
  lemma PairRemoved(m: multiset<Point>, a: Point, b: Point, r: multiset<Point>)
    requires r == (m - multiset{a}) - multiset{b}
    ensures r == m - multiset{a, b}
  {
  }

  /** A pair is in a multiset exactly when its first is, and its second is in what is left. */
  lemma PairInMultiset(m: multiset<Point>, a: Point, b: Point)
    requires a in m
    ensures multiset{a, b} <= m <==> b in m - multiset{a}
  {
  }


  /** With four clicks none right of the sentinel, the selected pair are two of the clicks. */
  lemma {:induction false} SelectedAreClicks(pts: seq<Point>, g1: nat, g2: nat)
    requires |pts| == 4 && forall i :: 0 <= i < 4 ==> pts[i].x <= 1024
    requires LeftSelection(Ext(pts), |pts| + 2, g1, g2)
    ensures multiset{Ext(pts)[g1], Ext(pts)[g2]} <= multiset(pts)
  {
    var e := Ext(pts);
    assert e[4].x <= 1024 && e[5].x <= 1024;
    assert g1 >= 2 && g2 >= 2;
    if g1 < g2 {
      TwoOccurrencesOrDistinct(pts, g1 - 2, g2 - 2);
    } else {
      TwoOccurrencesOrDistinct(pts, g2 - 2, g1 - 2);
    }
  }

  /** Two distinct positions of pts hold values that the multiset holds together. */
  lemma {:induction false} TwoOccurrencesOrDistinct(pts: seq<Point>, i: nat, j: nat)
    requires i < j < |pts|
    ensures multiset{pts[i], pts[j]} <= multiset(pts)
  {
    if pts[i] == pts[j] {
      TwoOccurrences(pts, i, j);
    } else {
      assert pts[i] in multiset(pts) && pts[j] in multiset(pts);
    }
  }

  /** The click list after removing l1 and then l2 by value, as far as the removals get:
      the first removal that misses raises ValueError and leaves the list as it is. */
  function Leftover(pts: seq<Point>, l1: Point, l2: Point): seq<Point>
  {
    match RemoveFirst(pts, l1)
    case None => pts
    case Some(s1) =>
      match RemoveFirst(s1, l2)
      case None => s1
      case Some(s2) => s2
  }

  /** What euclid.py commits once the scan has chosen the left pair l1, l2: the box
      [leftTop, leftBottom, rightBottom, rightTop] and the click list it leaves, or no box
      where it raises (a removal misses, or fewer than two clicks remain) and the click list
      as the exception leaves it. */
  function Committed(pts: seq<Point>, l1: Point, l2: Point): (r: (Option<seq<int>>, seq<Point>))
    ensures r.0.Some? <==> |pts| >= 4 && multiset{l1, l2} <= multiset(pts)
    ensures r.0.Some? ==> |r.0.value| == 8 && |r.1| == |pts| - 3
    ensures r.0.None? ==> r.1 == Leftover(pts, l1, l2)
  {
    RemovePair(pts, l1, l2);
    var rest := Leftover(pts, l1, l2);
    if |pts| >= 4 && multiset{l1, l2} <= multiset(pts) then
      var (c, left) := PlaceCorners(l1, l2, rest);
      (Some(QuadBox(c)), left)
    else (None, rest)
  }

  /** What follows the selection loop: remove the left pair from the click list by value,
      then PlaceCorners. None where euclid.py raises: l1 or l2 missing from the list,
      or fewer than two points left. `residual` is the click list as euclid.py leaves
      it, and `right` the list once the left pair has been removed. */
  method Arrange(pts: seq<Point>, l1: Point, l2: Point)
    returns (corners: Option<seq<Point>>, residual: seq<Point>, ghost right: seq<Point>)
    ensures corners.Some? <==> |pts| >= 4 && multiset{l1, l2} <= multiset(pts)
    ensures corners.Some? ==>
              RemoveFirst(pts, l1).Some? &&
              RemoveFirst(RemoveFirst(pts, l1).value, l2) == Some(right) &&
              |right| >= 2 && multiset(right) == multiset(pts) - multiset{l1, l2} &&
              (corners.value, residual) == PlaceCorners(l1, l2, right)
    ensures corners.Some? ==> right == Leftover(pts, l1, l2)
    ensures corners.None? ==> residual == Leftover(pts, l1, l2)
  {
    RemovePair(pts, l1, l2);
    residual, right := pts, [];
    var s1 := RemoveFirst(pts, l1);
    if s1.None? {
      corners := None;
      return;
    }
    residual := s1.value;
    var s2 := RemoveFirst(s1.value, l2);
    if s2.None? {
      corners := None;
      return;
    }
    var rest := s2.value;
    right, residual := rest, rest;
    if |rest| < 2 {
      corners := None;
      return;
    }
    var (c, after) := PlaceCorners(l1, l2, rest);
    corners := Some(c);
    residual := after;
  }

  /** The corner ordering as euclid.py runs it on the collected click list `pts`:
      the selection scan, then Arrange. g1, g2 are the positions, in Ext(pts), of the left
      pair the scan chose, and `right` the list once that pair has been removed. */
  method OrderCorners(pts: seq<Point>)
    returns (corners: Option<seq<Point>>, residual: seq<Point>,
             ghost g1: nat, ghost g2: nat, ghost right: seq<Point>)
    ensures LeftSelection(Ext(pts), |pts| + 2, g1, g2) && (g1, g2) == Scan(Ext(pts), |pts| + 2)
    ensures corners.Some? <==>
              |pts| >= 4 && multiset{Ext(pts)[g1], Ext(pts)[g2]} <= multiset(pts)
    ensures corners.Some? ==>
              right == Leftover(pts, Ext(pts)[g1], Ext(pts)[g2]) && |right| >= 2 &&
              (corners.value, residual) == PlaceCorners(Ext(pts)[g1], Ext(pts)[g2], right)
    ensures corners.None? ==> residual == Leftover(pts, Ext(pts)[g1], Ext(pts)[g2])
    ensures corners.Some? ==>
              var c, l1, l2 := corners.value, Ext(pts)[g1], Ext(pts)[g2];
              |c| == 4 &&
              // the left pair is the selected pair, the lower y first (l2 on a tie)
              multiset{c[0], c[1]} == multiset{l1, l2} &&
              c[0] == (if l1.y < l2.y then l1 else l2) && c[0].y <= c[1].y &&
              // the right pair comes from the list without the left pair,
              // the higher y first (the later of its first two entries on a tie)
              RemoveFirst(pts, l1).Some? &&
              RemoveFirst(RemoveFirst(pts, l1).value, l2) == Some(right) &&
              c[2] == (if right[0].y > right[1].y then right[0] else right[1]) &&
              c[2].y >= c[3].y &&
              // euclid.py keeps rightTop and any clicks beyond the fourth in its list
              |residual| == |pts| - 3 && residual[0] == c[3]
    ensures corners.Some? ==>
              var c := corners.value;
              // nothing is lost, and the left pair lies at or left of the right pair
              multiset(c) + multiset(residual[1..]) == multiset(pts) &&
              c[0].x <= c[2].x && c[0].x <= c[3].x && c[1].x <= c[2].x && c[1].x <= c[3].x
    ensures |pts| == 4 && (forall i :: 0 <= i < 4 ==> pts[i].x <= 1024) ==>
              corners.Some? && multiset(corners.value) == multiset(pts)
  {
    var left1, left2;
    left1, left2, g1, g2 := SelectLeftPair(pts);
    ScanSelects(Ext(pts), |pts| + 2);
    if |pts| == 4 && (forall i :: 0 <= i < 4 ==> pts[i].x <= 1024) {
      SelectedAreClicks(pts, g1, g2);
    }
    corners, residual, right := Arrange(pts, left1, left2);
    if corners.Some? {
      PermutationAndPartition(pts, g1, g2, right);
    }
  }

  /** The corners PlaceCorners finds for the scan's left pair are a rearrangement of the
      clicks, with the right pair at or right of the left pair. */
  lemma PermutationAndPartition(pts: seq<Point>, g1: nat, g2: nat, right: seq<Point>)
    requires LeftSelection(Ext(pts), |pts| + 2, g1, g2)
    requires |right| >= 2 && multiset{Ext(pts)[g1], Ext(pts)[g2]} <= multiset(pts)
    requires multiset(right) == multiset(pts) - multiset{Ext(pts)[g1], Ext(pts)[g2]}
    ensures var r := PlaceCorners(Ext(pts)[g1], Ext(pts)[g2], right);
            var c := r.0;
            multiset(c) + multiset(r.1[1..]) == multiset(pts) &&
            c[0].x <= c[2].x && c[0].x <= c[3].x && c[1].x <= c[2].x && c[1].x <= c[3].x
  {
    var l1, l2 := Ext(pts)[g1], Ext(pts)[g2];
    var r := PlaceCorners(l1, l2, right);
    var c := r.0;
    PlaceCornersPermutes(l1, l2, right);
    AddBack(multiset(pts), multiset{l1, l2});
    assert c[2] in multiset(right) && c[3] in multiset(right);
    RightOfLeftPair(pts, g1, g2, c[2]);
    RightOfLeftPair(pts, g1, g2, c[3]);
    assert c[0] == l1 || c[0] == l2;
    assert c[1] == l1 || c[1] == l2;
  }

  /** The eight corner coordinates of a quadrilateral, corner by corner. */
  function QuadBox(c: seq<Point>): (box: seq<int>)
    requires |c| == 4
    ensures |box| == 8
  {
    [c[0].x, c[0].y, c[1].x, c[1].y, c[2].x, c[2].y, c[3].x, c[3].y]
  }

  /** Four clicks none of which lies right of the selection's starting point. */
  predicate FourInRange(pts: seq<Point>)
  {
    |pts| == 4 && forall i :: 0 <= i < 4 ==> pts[i].x <= 1024
  }

  /** box is a quadrilateral committed from the click list pts, leaving `left` as the
      click list: left then right pair (each left corner at or left of each right corner),
      the left pair by increasing y, the right pair by decreasing y, and no click lost. */
  ghost predicate QuadOf(box: seq<int>, pts: seq<Point>, left: seq<Point>)
  {
    |box| == 8 && |left| >= 1 &&
    box[0] <= box[4] && box[0] <= box[6] && box[2] <= box[4] && box[2] <= box[6] &&
    box[1] <= box[3] && box[5] >= box[7] &&
    left[0] == Point(box[6], box[7]) &&
    CornerSet(box) + multiset(left[1..]) == multiset(pts) &&
    (FourInRange(pts) ==> left == [Point(box[6], box[7])] && CornerSet(box) == multiset(pts))
  }

  /** The four corners of an eight-coordinate box, as a multiset. */
  function CornerSet(box: seq<int>): multiset<Point>
    requires |box| == 8
  {
    multiset{Point(box[0], box[1]), Point(box[2], box[3]), Point(box[4], box[5]), Point(box[6], box[7])}
  }

  /** The block after the fourth click: order the clicks and flatten the corners into the
      box to commit, or None where euclid.py raises. `residual` is the click list as
      euclid.py leaves it either way; g1, g2 are the positions, in Ext(pts), of the left pair
      the scan chose. */
  method OrderQuad(pts: seq<Point>)
    returns (box: Option<seq<int>>, residual: seq<Point>, ghost g1: nat, ghost g2: nat)
    ensures LeftSelection(Ext(pts), |pts| + 2, g1, g2) && (g1, g2) == Scan(Ext(pts), |pts| + 2)
    ensures (box, residual) == Committed(pts, Ext(pts)[g1], Ext(pts)[g2])
    ensures box.Some? ==> QuadOf(box.value, pts, residual)
    ensures FourInRange(pts) ==> box.Some?
  {
    var corners, rest;
    ghost var right;
    corners, rest, g1, g2, right := OrderCorners(pts);
    residual := rest;
    if corners.None? {
      return None, residual, g1, g2;
    }
    CornersMakeQuad(pts, corners.value, residual);
    box := Some(QuadBox(corners.value));
  }

  /** Corners with the shape OrderCorners promises make a box QuadOf accepts. */
  lemma CornersMakeQuad(pts: seq<Point>, c: seq<Point>, residual: seq<Point>)
    requires |c| == 4 && |residual| == |pts| - 3 && |residual| >= 1 && residual[0] == c[3]
    requires c[0].y <= c[1].y && c[2].y >= c[3].y
    requires c[0].x <= c[2].x && c[0].x <= c[3].x && c[1].x <= c[2].x && c[1].x <= c[3].x
    requires multiset(c) + multiset(residual[1..]) == multiset(pts)
    ensures QuadOf(QuadBox(c), pts, residual)
  {
    assert c == [c[0], c[1], c[2], c[3]];
    assert multiset(c) == CornerSet(QuadBox(c));
    if FourInRange(pts) {
      assert residual == [c[3]];
      assert residual[1..] == [];
    }
  }
}
