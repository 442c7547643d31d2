/** The Gaza border points: assembling them into a closed ring for the polygon
    (`create_gaza_polygon`) and folding them into a bounding box
    (`get_gaza_bounds`). Points are (lat, lon) pairs as the coordinates file
    gives them. */
module Borders {
  import opened Common

  /** A (lat, lon) pair, or a (lon, lat) pair once swapped for the polygon. */
  type Point = (real, real)

  /** The four border lists of the coordinates file. */
  datatype Borders = Borders(north: seq<Point>, south: seq<Point>, east: seq<Point>, west: seq<Point>)

  datatype GeoBounds = GeoBounds(minLat: real, maxLat: real, minLon: real, maxLon: real)

  function Reverse<T>(s: seq<T>): (r: seq<T>)
    ensures |r| == |s|
    ensures forall k :: 0 <= k < |s| ==> r[k] == s[|s| - 1 - k]
  {
    if s == [] then [] else Reverse(s[1..]) + [s[0]]
  }

  /** `(lon, lat) for lat, lon in points`. */
  function Swap(p: Point): Point
  {
    (p.1, p.0)
  }

  /** `[(lon, lat) for lat, lon in points]`. */
  function SwapAll(points: seq<Point>): (r: seq<Point>)
    ensures |r| == |points| && forall k :: 0 <= k < |points| ==> r[k] == Swap(points[k])
  {
    seq(|points|, k requires 0 <= k < |points| => Swap(points[k]))
  }

  /** The point order of `create_gaza_polygon`: the west border, the north
      border, the east border reversed and the south border reversed. */
  function Assembled(borders: Borders): (pts: seq<Point>)
  {
    borders.west + borders.north + Reverse(borders.east) + Reverse(borders.south)
  }

  /** The ring closed by re-appending its first point when it differs from its last. */
  function Close(pts: seq<Point>): (c: seq<Point>)
    requires |pts| >= 1
  {
    if pts[0] != pts[|pts| - 1] then pts + [pts[0]] else pts
  }

  /** The (lon, lat) ring handed to shapely, or `None` when there are no points. */
  function PolygonRing(borders: Borders): (ring: Option<seq<Point>>)
  {
    var pts := Assembled(borders);
    if pts == [] then None else Some(SwapAll(Close(pts)))
  }

  /** `create_gaza_polygon` up to the hand-off to shapely: the border lists are
      appended in place in the assembled order, the ring is closed and its
      points are swapped to (lon, lat). */
  method CreatePolygonRing(borders: Borders) returns (ring: Option<seq<Point>>)
    ensures ring == PolygonRing(borders)
  {
    var points: seq<Point> := [];
    if borders.west != [] {
      points := points + borders.west;
    }
    assert points == borders.west;
    if borders.north != [] {
      points := points + borders.north;
    }
    assert points == borders.west + borders.north;
    if borders.east != [] {
      points := points + Reverse(borders.east);
    } else {
      assert Reverse(borders.east) == [];
    }
    assert points == borders.west + borders.north + Reverse(borders.east);
    if borders.south != [] {
      points := points + Reverse(borders.south);
    } else {
      assert Reverse(borders.south) == [];
    }
    assert points == Assembled(borders);
    if points != [] {
      ghost var assembled := points;
      if points[0] != points[|points| - 1] {
        points := points + [points[0]];
      }
      assert points == Close(assembled);
      var shapelyPoints := SwapAll(points);
      return Some(shapelyPoints);
    }
    return None;
  }

  /** The ring is `None` exactly when every border is empty; otherwise it holds
      every assembled point swapped to (lon, lat), in order, and is closed, with
      one extra point only when the assembled points were not already closed. */
  lemma PolygonRingShape(borders: Borders)
    ensures PolygonRing(borders).None? <==> borders.west == borders.north == borders.east == borders.south == []
    ensures PolygonRing(borders).Some? ==>
      var pts, ring := Assembled(borders), PolygonRing(borders).value;
      && |pts| >= 1
      && |ring| == |pts| + (if pts[0] == pts[|pts| - 1] then 0 else 1)
      && (forall k :: 0 <= k < |pts| ==> ring[k] == Swap(pts[k]))
      && ring[|ring| - 1] == ring[0] == Swap(pts[0])
  {
    var pts := Assembled(borders);
    assert |pts| == |borders.west| + |borders.north| + |borders.east| + |borders.south|;
    if pts != [] {
      var c := Close(pts);
      assert forall k :: 0 <= k < |pts| ==> c[k] == pts[k];
      assert c[|c| - 1] == pts[0];
    }
  }

  /** The box returned when the coordinates cannot be loaded or hold no point. */
  const FallbackBounds: GeoBounds := GeoBounds(31.23, 31.60, 34.20, 34.56)

  /** `north + south + east + west`, the order `get_gaza_bounds` concatenates in. */
  function AllPoints(borders: Borders): seq<Point>
  {
    borders.north + borders.south + borders.east + borders.west
  }

  function Lats(points: seq<Point>): (lats: seq<real>)
    ensures |lats| == |points| && forall k :: 0 <= k < |points| ==> lats[k] == points[k].0
  {
    seq(|points|, k requires 0 <= k < |points| => points[k].0)
  }

  function Lons(points: seq<Point>): (lons: seq<real>)
    ensures |lons| == |points| && forall k :: 0 <= k < |points| ==> lons[k] == points[k].1
  {
    seq(|points|, k requires 0 <= k < |points| => points[k].1)
  }

  /** Python's `min` of a non-empty list: an element no larger than any other. */
  function MinOf(s: seq<real>): (m: real)
    requires |s| >= 1
    ensures m in s && forall k :: 0 <= k < |s| ==> m <= s[k]
  {
    if |s| == 1 then s[0]
    else
      var rest := MinOf(s[1..]);
      assert forall k :: 1 <= k < |s| ==> s[k] == s[1..][k - 1];
      if s[0] <= rest then s[0] else rest
  }

  /** Python's `max` of a non-empty list: an element no smaller than any other. */
  function MaxOf(s: seq<real>): (m: real)
    requires |s| >= 1
    ensures m in s && forall k :: 0 <= k < |s| ==> s[k] <= m
  {
    if |s| == 1 then s[0]
    else
      var rest := MaxOf(s[1..]);
      assert forall k :: 1 <= k < |s| ==> s[k] == s[1..][k - 1];
      if s[0] >= rest then s[0] else rest
  }

  /** `get_gaza_bounds` with the result of locating and parsing the coordinates
      file as input (`None` when that raised). `min([])` raises on an empty
      point list, which the same handler turns into the fallback box. */
  function GetGazaBounds(loaded: Option<Borders>): (b: GeoBounds)
  {
    if loaded.None? then FallbackBounds
    else
      var all := AllPoints(loaded.value);
      if all == [] then FallbackBounds
      else GeoBounds(MinOf(Lats(all)), MaxOf(Lats(all)), MinOf(Lons(all)), MaxOf(Lons(all)))
  }

  /** The fallback box is used when nothing was loaded or no point exists. */
  lemma GazaBoundsFallback(loaded: Option<Borders>)
    ensures loaded.None? || AllPoints(loaded.value) == [] ==> GetGazaBounds(loaded) == FallbackBounds
  {
  }

  /** With at least one point, the box contains every border point and each of
      its four bounds is attained by some point. */
  lemma GazaBoundsTight(borders: Borders)
    requires AllPoints(borders) != []
    ensures var b := GetGazaBounds(Some(borders));
      && (forall p :: p in AllPoints(borders) ==> b.minLat <= p.0 <= b.maxLat && b.minLon <= p.1 <= b.maxLon)
      && (exists p :: p in AllPoints(borders) && p.0 == b.minLat)
      && (exists p :: p in AllPoints(borders) && p.0 == b.maxLat)
      && (exists p :: p in AllPoints(borders) && p.1 == b.minLon)
      && (exists p :: p in AllPoints(borders) && p.1 == b.maxLon)
      && b.minLat <= b.maxLat && b.minLon <= b.maxLon
  {
    var all := AllPoints(borders);
    var b := GetGazaBounds(Some(borders));
    var lats, lons := Lats(all), Lons(all);
    forall p | p in all
      ensures b.minLat <= p.0 <= b.maxLat && b.minLon <= p.1 <= b.maxLon
    {
      var k :| 0 <= k < |all| && all[k] == p;
      assert lats[k] == p.0 && lons[k] == p.1;
    }
    var i1 :| 0 <= i1 < |lats| && lats[i1] == b.minLat;
    assert all[i1] in all;
    var i2 :| 0 <= i2 < |lats| && lats[i2] == b.maxLat;
    assert all[i2] in all;
    var i3 :| 0 <= i3 < |lons| && lons[i3] == b.minLon;
    assert all[i3] in all;
    var i4 :| 0 <= i4 < |lons| && lons[i4] == b.maxLon;
    assert all[i4] in all;
    assert all[0] in all;
  }

  /** A border set that already closes on itself is handed over as is, swapped
      to (lon, lat); without the south border the ring is closed by repeating
      its first point. */
  lemma RingExample()
    ensures PolygonRing(Borders([(31.5, 34.2)], [(31.0, 34.0)], [(31.5, 34.5)], [(31.0, 34.0)]))
      == Some([(34.0, 31.0), (34.2, 31.5), (34.5, 31.5), (34.0, 31.0)])
    ensures PolygonRing(Borders([(31.5, 34.2)], [], [(31.5, 34.5)], [(31.0, 34.0)]))
      == Some([(34.0, 31.0), (34.2, 31.5), (34.5, 31.5), (34.0, 31.0)])
  {
    assert Reverse([(31.5, 34.5)]) == [(31.5, 34.5)];
    assert Reverse([(31.0, 34.0)]) == [(31.0, 34.0)];
    assert Reverse<Point>([]) == [];
    var closed := [(31.0, 34.0), (31.5, 34.2), (31.5, 34.5), (31.0, 34.0)];
    assert Assembled(Borders([(31.5, 34.2)], [(31.0, 34.0)], [(31.5, 34.5)], [(31.0, 34.0)])) == closed;
    assert Close(closed) == closed;
    var open := [(31.0, 34.0), (31.5, 34.2), (31.5, 34.5)];
    assert Assembled(Borders([(31.5, 34.2)], [], [(31.5, 34.5)], [(31.0, 34.0)])) == open;
    assert Close(open) == closed;
    assert SwapAll(closed) == [(34.0, 31.0), (34.2, 31.5), (34.5, 31.5), (34.0, 31.0)];
  }
}
