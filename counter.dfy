/**
 * The line-crossing counter: a per-class IN/OUT/inventory tally driven by the
 * side of a fixed line on which each tracked object's centroid lies, frame by
 * frame.
 *
 * The first half is a value-level specification (a `CounterState` and the
 * functions `Initial`, `Observe`, `ObserveAll`, `AfterUpdate`, `AfterReset`)
 * with the lemmas about it; the second half is the counter object itself,
 * whose methods update its maps in place and are proved to agree with the
 * specification.
 */
module Counter {
  import opened Wrappers

  /** A pixel position. */
  datatype Point = Point(x: int, y: int)

  /** An axis-aligned bounding box with integer corners (x1, y1) and (x2, y2). */
  datatype Box = Box(x1: int, y1: int, x2: int, y2: int)

  /**
   * One tracked detection of a frame. `trackerId` is None when the tracker
   * gave no identity; `className` is None when the batch carries no class
   * names, in which case the label "unknown" is used.
   */
  datatype Observation = Observation(box: Box, trackerId: Option<int>, className: Option<string>)

  // ---------------------------------------------------------------------
  // Geometry
  // ---------------------------------------------------------------------

  /**
   * The 2D cross product of (p - a) and (b - a): positive on one side of the
   * infinite line through a and b, negative on the other, zero on it.
   */
  function SideOfLine(p: Point, a: Point, b: Point): int {
    (p.x - a.x) * (b.y - a.y) - (p.y - a.y) * (b.x - a.x)
  }

  /** p lies on the line through a and b with rational parameter t / k. */
  predicate OnLineAt(p: Point, a: Point, b: Point, k: int, t: int) {
    k != 0 && k * (p.x - a.x) == t * (b.x - a.x) && k * (p.y - a.y) == t * (b.y - a.y)
  }

  /** Both endpoints of the counting line lie on it. */
  lemma EndpointsOnLine(a: Point, b: Point)
    ensures SideOfLine(a, a, b) == 0 && SideOfLine(b, a, b) == 0
  {
  }

  /**
   * For a non-degenerate line, the side value is zero exactly for the points
   * of the infinite line through a and b (not only the segment).
   */
  lemma SideZeroIffOnLine(p: Point, a: Point, b: Point)
    requires a != b
    ensures SideOfLine(p, a, b) == 0 <==> exists k, t :: OnLineAt(p, a, b, k, t)
  {
    var dx, dy := b.x - a.x, b.y - a.y;
    var px, py := p.x - a.x, p.y - a.y;
    if SideOfLine(p, a, b) == 0 {
      assert px * dy == py * dx;
      if dx != 0 {
        assert dx * py == px * dy;
        assert OnLineAt(p, a, b, dx, px);
      } else {
        assert dy != 0;
        assert dy * px == py * dx;
        assert OnLineAt(p, a, b, dy, py);
      }
    }
    if exists k, t :: OnLineAt(p, a, b, k, t) {
      var k, t :| OnLineAt(p, a, b, k, t);
      calc {
        k * SideOfLine(p, a, b);
        (k * px) * dy - (k * py) * dx;
        (t * dx) * dy - (t * dy) * dx;
        0;
      }
      MulZero(k, SideOfLine(p, a, b));
    }
  }

  lemma MulZero(k: int, s: int)
    requires k != 0 && k * s == 0
    ensures s == 0
  {
  }

  /**
   * Reflecting a point through any point m of the line puts it on the
   * opposite side with the same magnitude: opposite sides give opposite signs.
   */
  lemma {:induction false} ReflectionNegatesSide(p: Point, m: Point, a: Point, b: Point)
    requires SideOfLine(m, a, b) == 0
    ensures SideOfLine(Point(2 * m.x - p.x, 2 * m.y - p.y), a, b) == -SideOfLine(p, a, b)
  {
    var dx, dy := b.x - a.x, b.y - a.y;
    var q := Point(2 * m.x - p.x, 2 * m.y - p.y);
    calc {
      SideOfLine(q, a, b);
      (2 * (m.x - a.x) - (p.x - a.x)) * dy - (2 * (m.y - a.y) - (p.y - a.y)) * dx;
      2 * ((m.x - a.x) * dy - (m.y - a.y) * dx) - ((p.x - a.x) * dy - (p.y - a.y) * dx);
      2 * SideOfLine(m, a, b) - SideOfLine(p, a, b);
      -SideOfLine(p, a, b);
    }
  }

  /** Exchanging the endpoints negates every side value. */
  lemma SwapEndpointsNegatesSide(p: Point, a: Point, b: Point)
    ensures SideOfLine(p, b, a) == -SideOfLine(p, a, b)
  {
    var px, py := p.x - a.x, p.y - a.y;
    var dx, dy := b.x - a.x, b.y - a.y;
    calc {
      SideOfLine(p, b, a);
      (px - dx) * (-dy) - (py - dy) * (-dx);
      -(px * dy) + dx * dy + py * dx - dy * dx;
      -(px * dy - py * dx);
    }
  }

  /**
   * The integer centroid of a box, using floor division by 2 (Dafny's
   * Euclidean division coincides with floor division for a positive divisor).
   */
  function Centroid(box: Box): (c: Point)
    ensures 2 * c.x <= box.x1 + box.x2 < 2 * c.x + 2
    ensures 2 * c.y <= box.y1 + box.y2 < 2 * c.y + 2
    ensures box.x1 <= box.x2 ==> box.x1 <= c.x <= box.x2
    ensures box.y1 <= box.y2 ==> box.y1 <= c.y <= box.y2
  {
    Point((box.x1 + box.x2) / 2, (box.y1 + box.y2) / 2)
  }

  // ---------------------------------------------------------------------
  // Specification state
  // ---------------------------------------------------------------------

  /** The mutable part of a counter, as a value. */
  datatype CounterState = CounterState(
    inCounts: map<string, int>,
    outCounts: map<string, int>,
    inventory: map<string, int>,
    lastSide: map<int, int>)

  /** The label under which an observation is tallied. */
  function LabelOf(o: Observation): string {
    o.className.GetOr("unknown")
  }

  /** Get-or-zero lookup, as the source's `d.get(k, 0)`. */
  function Get<K>(m: map<K, int>, k: K): int {
    if k in m then m[k] else 0
  }

  /** The side value an observation reports for track `t` (0 when it belongs to another track). */
  function Reading(o: Observation, t: int, a: Point, b: Point): int {
    if o.trackerId == Some(t) then SideOfLine(Centroid(o.box), a, b) else 0
  }

  /** The non-null tracker ids of a batch. */
  function TrackedIds(obs: seq<Observation>): set<int> {
    set j | 0 <= j < |obs| && obs[j].trackerId.Some? :: obs[j].trackerId.value
  }

  /** The starting inventory of a label: its configured initial value, 0 for an unconfigured label. */
  function Baseline(labels: seq<string>, initial: map<string, int>, c: string): int {
    if c in labels then Get(initial, c) else 0
  }

  /** The labels a counter tracks when none are given. */
  const DefaultLabels: seq<string> := ["car", "motorcycle"]

  /** The state right after construction. */
  function Initial(labels: seq<string>, initial: map<string, int>): CounterState {
    CounterState(
      map c | c in labels :: 0,
      map c | c in labels :: 0,
      map c | c in labels :: Get(initial, c),
      map[])
  }

  /** Inventory equals baseline + IN - OUT, for every label (configured or not). */
  ghost predicate Balanced(s: CounterState, labels: seq<string>, initial: map<string, int>) {
    forall c :: Get(s.inventory, c) == Baseline(labels, initial, c) + Get(s.inCounts, c) - Get(s.outCounts, c)
  }

  /** The counter's invariant: balanced inventory, non-negative counts, configured labels present. */
  ghost predicate CounterInv(s: CounterState, labels: seq<string>, initial: map<string, int>) {
    && Balanced(s, labels, initial)
    && (forall c :: Get(s.inCounts, c) >= 0 && Get(s.outCounts, c) >= 0)
    && (forall c :: c in labels ==> c in s.inCounts && c in s.outCounts && c in s.inventory)
  }

  /** Records one IN (`isIn`) or OUT event for label c. */
  function Tally(s: CounterState, c: string, isIn: bool): CounterState {
    if isIn then
      s.(inCounts := s.inCounts[c := Get(s.inCounts, c) + 1],
         inventory := s.inventory[c := Get(s.inventory, c) + 1])
    else
      s.(outCounts := s.outCounts[c := Get(s.outCounts, c) + 1],
         inventory := s.inventory[c := Get(s.inventory, c) - 1])
  }

  /** Processing of one observation of a batch (one iteration of the update loop). */
  function Observe(s: CounterState, o: Observation, a: Point, b: Point, invert: bool): CounterState {
    match o.trackerId
    case None => s
    case Some(tid) =>
      var side := SideOfLine(Centroid(o.box), a, b);
      var prev := if tid in s.lastSide then Some(s.lastSide[tid]) else None;
      var s1 := s.(lastSide := s.lastSide[tid := if side != 0 then side else prev.GetOr(0)]);
      if prev.None? || prev.value == 0 || side == 0 then s1
      else if !((prev.value > 0 && side < 0) || (prev.value < 0 && side > 0)) then s1
      else
        var wentNegToPos := prev.value < 0 && side > 0;
        Tally(s1, LabelOf(o), if invert then !wentNegToPos else wentNegToPos)
  }

  /** The observations of a batch processed in order, first to last. */
  function ObserveAll(s: CounterState, obs: seq<Observation>, a: Point, b: Point, invert: bool): CounterState
    decreases |obs|
  {
    if obs == [] then s
    else Observe(ObserveAll(s, obs[..|obs| - 1], a, b, invert), obs[|obs| - 1], a, b, invert)
  }

  /** `lastSide` restricted to the ids of the current batch. */
  function Purge(lastSide: map<int, int>, ids: set<int>): map<int, int> {
    map k | k in lastSide && k in ids :: lastSide[k]
  }

  /** The effect of `update` on a whole batch: an empty batch changes nothing. */
  function AfterUpdate(s: CounterState, batch: seq<Observation>, a: Point, b: Point, invert: bool): CounterState {
    if |batch| == 0 then s
    else
      var r := ObserveAll(s, batch, a, b, invert);
      r.(lastSide := Purge(r.lastSide, TrackedIds(batch)))
  }

  /** Sets each label of `ls` in turn to its value in `values` (0 when absent). */
  function ResetTo(m: map<string, int>, ls: seq<string>, values: map<string, int>): map<string, int>
    decreases |ls|
  {
    if ls == [] then m
    else ResetTo(m, ls[..|ls| - 1], values)[ls[|ls| - 1] := Get(values, ls[|ls| - 1])]
  }

  /** The configured labels `ls` set back to their start one after another, history untouched. */
  function ResetLabels(s: CounterState, ls: seq<string>, initial: map<string, int>): CounterState {
    s.(inCounts := ResetTo(s.inCounts, ls, map[]),
       outCounts := ResetTo(s.outCounts, ls, map[]),
       inventory := ResetTo(s.inventory, ls, initial))
  }

  /** The effect of `reset`: configured labels back to their start, history cleared. */
  function AfterReset(s: CounterState, labels: seq<string>, initial: map<string, int>): CounterState {
    ResetLabels(s, labels, initial).(lastSide := map[])
  }

  /** A crossing: the track has a stored side whose sign is opposite to the current one. */
  predicate Crosses(s: CounterState, o: Observation, a: Point, b: Point) {
    && o.trackerId.Some?
    && o.trackerId.value in s.lastSide
    && s.lastSide[o.trackerId.value] * SideOfLine(Centroid(o.box), a, b) < 0
  }

  /** The tallies are the same in both states. */
  predicate SameTallies(s: CounterState, r: CounterState) {
    s.inCounts == r.inCounts && s.outCounts == r.outCounts && s.inventory == r.inventory
  }

  // ---------------------------------------------------------------------
  // Lemmas about one observation
  // ---------------------------------------------------------------------

  lemma MulPositive(p: int, q: int)
    requires p > 0 && q > 0
    ensures p * q > 0
  {
  }

  lemma MulSigns(p: int, q: int)
    ensures p * q < 0 <==> (p > 0 && q < 0) || (p < 0 && q > 0)
  {
    if p > 0 && q > 0 {
      MulPositive(p, q);
    } else if p < 0 && q < 0 {
      MulPositive(-p, -q);
      assert p * q == (-p) * (-q);
    } else if p > 0 && q < 0 {
      MulPositive(p, -q);
      assert p * q == -(p * (-q));
    } else if p < 0 && q > 0 {
      MulPositive(-p, q);
      assert p * q == -((-p) * q);
    } else {
      assert p == 0 || q == 0;
    }
  }

  /**
   * The crossing rule: an observation changes the tallies only if it crosses;
   * a first sighting, a stored side of 0 or a reading of 0 never crosses. A
   * crossing counts IN exactly when the stored side was negative, unless the
   * direction is inverted, and moves exactly one of IN/OUT of its label by one
   * and the inventory of that label by +1/-1; no other label changes.
   */
  lemma ObserveTallies(s: CounterState, o: Observation, a: Point, b: Point, invert: bool)
    ensures var r := Observe(s, o, a, b, invert);
      && (Crosses(s, o, a, b) ==>
            var t := o.trackerId.value;
            t in s.lastSide && s.lastSide[t] != 0 && SideOfLine(Centroid(o.box), a, b) != 0)
      && (!Crosses(s, o, a, b) ==> SameTallies(s, r))
      && (Crosses(s, o, a, b) ==>
            var c := LabelOf(o);
            var isIn := (s.lastSide[o.trackerId.value] < 0) != invert;
            && Get(r.inCounts, c) == Get(s.inCounts, c) + (if isIn then 1 else 0)
            && Get(r.outCounts, c) == Get(s.outCounts, c) + (if isIn then 0 else 1)
            && Get(r.inventory, c) == Get(s.inventory, c) + (if isIn then 1 else -1)
            && (forall c' :: c' != c ==>
                  && Get(r.inCounts, c') == Get(s.inCounts, c')
                  && Get(r.outCounts, c') == Get(s.outCounts, c')
                  && Get(r.inventory, c') == Get(s.inventory, c')))
  {
    if o.trackerId.Some? {
      var t := o.trackerId.value;
      var side := SideOfLine(Centroid(o.box), a, b);
      if t in s.lastSide {
        MulSigns(s.lastSide[t], side);
      }
    }
  }

  /** The history rule for one observation: a zero reading keeps the stored side. */
  lemma ObserveHistory(s: CounterState, o: Observation, a: Point, b: Point, invert: bool, t: int)
    ensures var r := Observe(s, o, a, b, invert).lastSide;
      && (Reading(o, t, a, b) != 0 ==> t in r && r[t] == Reading(o, t, a, b))
      && (Reading(o, t, a, b) == 0 ==> Get(r, t) == Get(s.lastSide, t))
      && r.Keys == s.lastSide.Keys + (if o.trackerId.Some? then {o.trackerId.value} else {})
  {
  }

  lemma ObservePreservesInv(s: CounterState, o: Observation, a: Point, b: Point, invert: bool,
                            labels: seq<string>, initial: map<string, int>)
    requires CounterInv(s, labels, initial)
    ensures CounterInv(Observe(s, o, a, b, invert), labels, initial)
  {
    var r := Observe(s, o, a, b, invert);
    ObserveTallies(s, o, a, b, invert);
    forall c
      ensures Get(r.inventory, c) == Baseline(labels, initial, c) + Get(r.inCounts, c) - Get(r.outCounts, c)
      ensures Get(r.inCounts, c) >= 0 && Get(r.outCounts, c) >= 0
    {
      assert Get(s.inventory, c) == Baseline(labels, initial, c) + Get(s.inCounts, c) - Get(s.outCounts, c);
      assert Get(s.inCounts, c) >= 0 && Get(s.outCounts, c) >= 0;
    }
  }

  // ---------------------------------------------------------------------
  // Lemmas about a batch
  // ---------------------------------------------------------------------

  lemma TrackedIdsSnoc(obs: seq<Observation>)
    requires obs != []
    ensures var o := obs[|obs| - 1];
      TrackedIds(obs) == TrackedIds(obs[..|obs| - 1]) + (if o.trackerId.Some? then {o.trackerId.value} else {})
  {
    var init := obs[..|obs| - 1];
    var o := obs[|obs| - 1];
    forall t | t in TrackedIds(obs)
      ensures t in TrackedIds(init) || o.trackerId == Some(t)
    {
      var j :| 0 <= j < |obs| && obs[j].trackerId.Some? && obs[j].trackerId.value == t;
      if j < |obs| - 1 { assert init[j] == obs[j]; }
    }
    forall t | t in TrackedIds(init)
      ensures t in TrackedIds(obs)
    {
      var j :| 0 <= j < |init| && init[j].trackerId.Some? && init[j].trackerId.value == t;
      assert obs[j] == init[j];
    }
    if o.trackerId.Some? {
      assert obs[|obs| - 1].trackerId.value in TrackedIds(obs);
    }
  }

  /** After processing a batch, the history holds the old ids plus every id of the batch. */
  lemma {:induction false} ObserveAllKeys(s: CounterState, obs: seq<Observation>, a: Point, b: Point, invert: bool)
    ensures ObserveAll(s, obs, a, b, invert).lastSide.Keys == s.lastSide.Keys + TrackedIds(obs)
    decreases |obs|
  {
    if obs != [] {
      var init := obs[..|obs| - 1];
      ObserveAllKeys(s, init, a, b, invert);
      ObserveHistory(ObserveAll(s, init, a, b, invert), obs[|obs| - 1], a, b, invert, 0);
      TrackedIdsSnoc(obs);
    }
  }

  /** Index j holds the last non-zero reading of track t in the batch. */
  predicate LastReadingAt(obs: seq<Observation>, t: int, a: Point, b: Point, j: int) {
    && 0 <= j < |obs|
    && Reading(obs[j], t, a, b) != 0
    && (forall k :: j < k < |obs| ==> Reading(obs[k], t, a, b) == 0)
  }

  /** The batch has no non-zero reading of track t. */
  predicate NoReading(obs: seq<Observation>, t: int, a: Point, b: Point) {
    forall j :: 0 <= j < |obs| ==> Reading(obs[j], t, a, b) == 0
  }

  /**
   * The history rule over a batch: the stored side of track t is its last
   * non-zero reading in the batch; when it has none, the stored side is
   * unchanged (0 standing for "no entry").
   */
  lemma {:induction false} ObserveAllHistory(s: CounterState, obs: seq<Observation>, a: Point, b: Point,
                                             invert: bool, t: int)
    ensures var r := ObserveAll(s, obs, a, b, invert).lastSide;
      && (forall j :: LastReadingAt(obs, t, a, b, j) ==> t in r && r[t] == Reading(obs[j], t, a, b))
      && (NoReading(obs, t, a, b) ==> Get(r, t) == Get(s.lastSide, t))
    decreases |obs|
  {
    if obs != [] {
      var n := |obs| - 1;
      var init := obs[..n];
      var mid := ObserveAll(s, init, a, b, invert);
      var r := ObserveAll(s, obs, a, b, invert).lastSide;
      assert r == Observe(mid, obs[n], a, b, invert).lastSide;
      ObserveAllHistory(s, init, a, b, invert, t);
      ObserveHistory(mid, obs[n], a, b, invert, t);
      if Reading(obs[n], t, a, b) != 0 {
        forall j | LastReadingAt(obs, t, a, b, j) ensures j == n {
        }
      } else {
        forall j | LastReadingAt(obs, t, a, b, j)
          ensures LastReadingAt(init, t, a, b, j) && Reading(init[j], t, a, b) == Reading(obs[j], t, a, b)
        {
          assert j < n;
          forall k | j < k < n ensures Reading(init[k], t, a, b) == 0 {
            assert init[k] == obs[k];
          }
        }
        if NoReading(obs, t, a, b) {
          forall j | 0 <= j < n ensures Reading(init[j], t, a, b) == 0 {
            assert init[j] == obs[j];
          }
          assert NoReading(init, t, a, b);
        }
      }
    }
  }

  /** A non-zero history is never replaced by 0, and a non-zero reading is always remembered. */
  lemma HistoryNeverCleared(s: CounterState, obs: seq<Observation>, a: Point, b: Point, invert: bool, t: int)
    requires Get(s.lastSide, t) != 0 || !NoReading(obs, t, a, b)
    ensures Get(ObserveAll(s, obs, a, b, invert).lastSide, t) != 0
  {
    ObserveAllHistory(s, obs, a, b, invert, t);
    if !NoReading(obs, t, a, b) {
      var j :| 0 <= j < |obs| && Reading(obs[j], t, a, b) != 0;
      while !LastReadingAt(obs, t, a, b, j)
        invariant 0 <= j < |obs| && Reading(obs[j], t, a, b) != 0
        decreases |obs| - j
      {
        var k :| j < k < |obs| && Reading(obs[k], t, a, b) != 0;
        j := k;
      }
    }
  }

  lemma {:induction false} ObserveAllPreservesInv(s: CounterState, obs: seq<Observation>, a: Point, b: Point,
                                                  invert: bool, labels: seq<string>, initial: map<string, int>)
    requires CounterInv(s, labels, initial)
    ensures CounterInv(ObserveAll(s, obs, a, b, invert), labels, initial)
    decreases |obs|
  {
    if obs != [] {
      var init := obs[..|obs| - 1];
      ObserveAllPreservesInv(s, init, a, b, invert, labels, initial);
      ObservePreservesInv(ObserveAll(s, init, a, b, invert), obs[|obs| - 1], a, b, invert, labels, initial);
    }
  }

  /** Counts only ever grow over a batch. */
  lemma {:induction false} ObserveAllMonotone(s: CounterState, obs: seq<Observation>, a: Point, b: Point, invert: bool)
    ensures var r := ObserveAll(s, obs, a, b, invert);
      forall c :: Get(r.inCounts, c) >= Get(s.inCounts, c) && Get(r.outCounts, c) >= Get(s.outCounts, c)
    decreases |obs|
  {
    if obs != [] {
      var init := obs[..|obs| - 1];
      var mid := ObserveAll(s, init, a, b, invert);
      ObserveAllMonotone(s, init, a, b, invert);
      ObserveTallies(mid, obs[|obs| - 1], a, b, invert);
    }
  }

  /** `update` keeps the counter invariant (in particular inventory = initial + IN - OUT). */
  lemma UpdatePreservesInv(s: CounterState, batch: seq<Observation>, a: Point, b: Point, invert: bool,
                           labels: seq<string>, initial: map<string, int>)
    requires CounterInv(s, labels, initial)
    ensures CounterInv(AfterUpdate(s, batch, a, b, invert), labels, initial)
  {
    ObserveAllPreservesInv(s, batch, a, b, invert, labels, initial);
  }

  /** An empty batch changes nothing, not even the history (no purge). */
  lemma EmptyUpdateIsNoOp(s: CounterState, a: Point, b: Point, invert: bool)
    ensures AfterUpdate(s, [], a, b, invert) == s
  {
  }

  /** The purge rule: after a non-empty batch the history holds exactly the batch's non-null ids. */
  lemma UpdateHistoryKeys(s: CounterState, batch: seq<Observation>, a: Point, b: Point, invert: bool)
    requires |batch| > 0
    ensures AfterUpdate(s, batch, a, b, invert).lastSide.Keys == TrackedIds(batch)
  {
    ObserveAllKeys(s, batch, a, b, invert);
  }

  /** The history rule, as seen after a whole `update` call. */
  lemma UpdateHistory(s: CounterState, batch: seq<Observation>, a: Point, b: Point, invert: bool, t: int)
    requires t in TrackedIds(batch)
    ensures var r := AfterUpdate(s, batch, a, b, invert).lastSide;
      && t in r
      && (forall j :: LastReadingAt(batch, t, a, b, j) ==> r[t] == Reading(batch[j], t, a, b))
      && (NoReading(batch, t, a, b) ==> r[t] == Get(s.lastSide, t))
  {
    ObserveAllKeys(s, batch, a, b, invert);
    ObserveAllHistory(s, batch, a, b, invert, t);
  }

  /** A track that vanishes for one frame and reappears is a first sighting: it cannot cross. */
  lemma ReappearanceIsFirstSighting(s: CounterState, gap: seq<Observation>, o: Observation,
                                    a: Point, b: Point, invert: bool)
    requires |gap| > 0 && o.trackerId.Some? && o.trackerId.value !in TrackedIds(gap)
    ensures !Crosses(AfterUpdate(s, gap, a, b, invert), o, a, b)
  {
    UpdateHistoryKeys(s, gap, a, b, invert);
  }

  // ---------------------------------------------------------------------
  // Lemmas about construction and reset
  // ---------------------------------------------------------------------

  /** After construction every configured label has IN = OUT = 0 and its initial inventory. */
  lemma InitialTallies(labels: seq<string>, initial: map<string, int>)
    ensures CounterInv(Initial(labels, initial), labels, initial)
    ensures forall c :: c in labels ==>
      && Get(Initial(labels, initial).inCounts, c) == 0
      && Get(Initial(labels, initial).outCounts, c) == 0
      && Get(Initial(labels, initial).inventory, c) == Get(initial, c)
    ensures Initial(labels, initial).lastSide == map[]
  {
  }

  /**
   * Resetting labels `ls` of a map gives each of them its value in `values`
   * and leaves every other label (its presence and its value) as it was.
   */
  lemma {:induction false} ResetToEffect(m: map<string, int>, ls: seq<string>, values: map<string, int>)
    ensures var r := ResetTo(m, ls, values);
      && (forall c :: c in ls ==> c in r && r[c] == Get(values, c))
      && (forall c :: c !in ls ==> (c in r <==> c in m) && Get(r, c) == Get(m, c))
    decreases |ls|
  {
    if ls != [] {
      var init := ls[..|ls| - 1];
      ResetToEffect(m, init, values);
      forall c | c in ls ensures c in init || c == ls[|ls| - 1] {
        var j :| 0 <= j < |ls| && ls[j] == c;
        if j < |ls| - 1 { assert init[j] == c; }
      }
      forall c | c in init ensures c in ls {
        var j :| 0 <= j < |init| && init[j] == c;
        assert ls[j] == c;
      }
    }
  }

  lemma ResetLabelsEffect(s: CounterState, ls: seq<string>, initial: map<string, int>)
    ensures var r := ResetLabels(s, ls, initial);
      && r.lastSide == s.lastSide
      && (forall c :: c in ls ==>
            && c in r.inCounts && r.inCounts[c] == 0
            && c in r.outCounts && r.outCounts[c] == 0
            && c in r.inventory && r.inventory[c] == Get(initial, c))
      && (forall c :: c !in ls ==>
            && (c in r.inCounts <==> c in s.inCounts) && Get(r.inCounts, c) == Get(s.inCounts, c)
            && (c in r.outCounts <==> c in s.outCounts) && Get(r.outCounts, c) == Get(s.outCounts, c)
            && (c in r.inventory <==> c in s.inventory) && Get(r.inventory, c) == Get(s.inventory, c))
  {
    ResetToEffect(s.inCounts, ls, map[]);
    ResetToEffect(s.outCounts, ls, map[]);
    ResetToEffect(s.inventory, ls, initial);
  }

  /**
   * `reset` restores configured labels to IN = OUT = 0 and their initial
   * inventory, leaves every other label as it was, clears the history and
   * keeps the counter invariant.
   */
  lemma ResetTallies(s: CounterState, labels: seq<string>, initial: map<string, int>)
    requires CounterInv(s, labels, initial)
    ensures var r := AfterReset(s, labels, initial);
      && CounterInv(r, labels, initial)
      && r.lastSide == map[]
      && (forall c :: c in labels ==>
            Get(r.inCounts, c) == 0 && Get(r.outCounts, c) == 0 && Get(r.inventory, c) == Get(initial, c))
      && (forall c :: c !in labels ==>
            Get(r.inCounts, c) == Get(s.inCounts, c) && Get(r.outCounts, c) == Get(s.outCounts, c) &&
            Get(r.inventory, c) == Get(s.inventory, c))
  {
    var r := AfterReset(s, labels, initial);
    ResetLabelsEffect(s, labels, initial);
    forall c
      ensures Get(r.inventory, c) == Baseline(labels, initial, c) + Get(r.inCounts, c) - Get(r.outCounts, c)
      ensures Get(r.inCounts, c) >= 0 && Get(r.outCounts, c) >= 0
    {
      assert Get(s.inventory, c) == Baseline(labels, initial, c) + Get(s.inCounts, c) - Get(s.outCounts, c);
      assert Get(s.inCounts, c) >= 0 && Get(s.outCounts, c) >= 0;
    }
  }

  /** Two maps with the same keys and get-or-zero values are equal. */
  lemma SameByGet<K>(m1: map<K, int>, m2: map<K, int>)
    requires forall k :: (k in m1 <==> k in m2) && Get(m1, k) == Get(m2, k)
    ensures m1 == m2
  {
    assert forall k :: k in m1 ==> m1[k] == Get(m1, k);
  }

  /** `reset` is idempotent. */
  lemma ResetIdempotent(s: CounterState, labels: seq<string>, initial: map<string, int>)
    ensures AfterReset(AfterReset(s, labels, initial), labels, initial) == AfterReset(s, labels, initial)
  {
    var r := AfterReset(s, labels, initial);
    var rr := AfterReset(r, labels, initial);
    ResetLabelsEffect(s, labels, initial);
    ResetLabelsEffect(r, labels, initial);
    SameByGet(rr.inCounts, r.inCounts);
    SameByGet(rr.outCounts, r.outCounts);
    SameByGet(rr.inventory, r.inventory);
  }

  /** Resetting a freshly constructed counter gives it back unchanged. */
  lemma ResetOfInitial(labels: seq<string>, initial: map<string, int>)
    ensures AfterReset(Initial(labels, initial), labels, initial) == Initial(labels, initial)
  {
    var s := Initial(labels, initial);
    var r := AfterReset(s, labels, initial);
    ResetLabelsEffect(s, labels, initial);
    SameByGet(r.inCounts, s.inCounts);
    SameByGet(r.outCounts, s.outCounts);
    SameByGet(r.inventory, s.inventory);
  }

  /** After `reset` the next observation of any track is a first sighting and counts nothing. */
  lemma FirstObservationAfterReset(s: CounterState, o: Observation, labels: seq<string>,
                                   initial: map<string, int>, a: Point, b: Point, invert: bool)
    ensures var r := AfterReset(s, labels, initial);
      !Crosses(r, o, a, b) && SameTallies(r, Observe(r, o, a, b, invert))
  {
    ObserveTallies(AfterReset(s, labels, initial), o, a, b, invert);
  }

  // ---------------------------------------------------------------------
  // Concrete scenarios
  // ---------------------------------------------------------------------

  /**
   * A vehicle whose centroid moves from (15, 15) to (85, 15) across the
   * vertical line x = 50 goes from the negative to the positive side: one IN
   * for its class, or one OUT when the direction is inverted.
   */
  lemma CrossingScenario(c: string, tid: int, invert: bool)
    ensures var a, b := Point(50, 0), Point(50, 100);
      var s0 := Initial(DefaultLabels, map[]);
      var s1 := AfterUpdate(s0, [Observation(Box(10, 10, 20, 20), Some(tid), Some(c))], a, b, invert);
      var s2 := AfterUpdate(s1, [Observation(Box(80, 10, 90, 20), Some(tid), Some(c))], a, b, invert);
      && Get(s2.inCounts, c) == (if invert then 0 else 1)
      && Get(s2.outCounts, c) == (if invert then 1 else 0)
      && Get(s2.inventory, c) == (if invert then -1 else 1)
  {
    var a, b := Point(50, 0), Point(50, 100);
    var s0 := Initial(DefaultLabels, map[]);
    var o1 := Observation(Box(10, 10, 20, 20), Some(tid), Some(c));
    var o2 := Observation(Box(80, 10, 90, 20), Some(tid), Some(c));
    assert SideOfLine(Centroid(o1.box), a, b) == -3500;
    assert SideOfLine(Centroid(o2.box), a, b) == 3500;
    assert [o1][..0] == [] && [o2][..0] == [];
    assert TrackedIds([o1]) == {tid} by {
      assert [o1][0].trackerId == Some(tid);
    }
    var r1 := ObserveAll(s0, [o1], a, b, invert);
    assert ObserveAll(s0, [o1][..0], a, b, invert) == s0;
    assert r1 == Observe(s0, o1, a, b, invert);
    var s1 := AfterUpdate(s0, [o1], a, b, invert);
    assert s1.inCounts == s0.inCounts && s1.outCounts == s0.outCounts && s1.inventory == s0.inventory;
    assert tid in s1.lastSide && s1.lastSide[tid] == -3500;
    var r2 := Observe(s1, o2, a, b, invert);
    assert ObserveAll(s1, [o2][..0], a, b, invert) == s1;
    assert ObserveAll(s1, [o2], a, b, invert) == r2;
    assert r2 == Tally(s1.(lastSide := s1.lastSide[tid := 3500]), c, !invert);
  }

  /**
   * Within one batch the observations are processed in order: a track seen
   * twice in the same frame compares its second reading with the side stored
   * by its first, so the order of the two readings decides the direction.
   */
  lemma SameTrackTwiceInOneBatch(c: string, tid: int)
    ensures var a, b := Point(50, 0), Point(50, 100);
      var left := Observation(Box(10, 10, 20, 20), Some(tid), Some(c));
      var right := Observation(Box(80, 10, 90, 20), Some(tid), Some(c));
      var s0 := Initial(DefaultLabels, map[]);
      var lr := AfterUpdate(s0, [left, right], a, b, false);
      var rl := AfterUpdate(s0, [right, left], a, b, false);
      && Get(lr.inCounts, c) == 1 && Get(lr.outCounts, c) == 0
      && Get(rl.inCounts, c) == 0 && Get(rl.outCounts, c) == 1
  {
    var a, b := Point(50, 0), Point(50, 100);
    var left := Observation(Box(10, 10, 20, 20), Some(tid), Some(c));
    var right := Observation(Box(80, 10, 90, 20), Some(tid), Some(c));
    var s0 := Initial(DefaultLabels, map[]);
    assert SideOfLine(Centroid(left.box), a, b) == -3500;
    assert SideOfLine(Centroid(right.box), a, b) == 3500;
    assert [left, right][..1] == [left] && [right, left][..1] == [right];
    assert [left][..0] == [] && [right][..0] == [];
    var l1 := Observe(s0, left, a, b, false);
    assert ObserveAll(s0, [left], a, b, false) == l1;
    assert l1.inCounts == s0.inCounts && l1.outCounts == s0.outCounts;
    assert ObserveAll(s0, [left, right], a, b, false) == Observe(l1, right, a, b, false);
    var r1 := Observe(s0, right, a, b, false);
    assert ObserveAll(s0, [right], a, b, false) == r1;
    assert r1.inCounts == s0.inCounts && r1.outCounts == s0.outCounts;
    assert ObserveAll(s0, [right, left], a, b, false) == Observe(r1, left, a, b, false);
  }

  /** A track missing from the next batch is forgotten; the new one is remembered. */
  lemma PurgeScenario()
    ensures var a, b := Point(0, 50), Point(100, 50);
      var s0 := Initial(DefaultLabels, map[]);
      var s1 := AfterUpdate(s0, [Observation(Box(10, 10, 20, 20), Some(1), Some("car"))], a, b, false);
      var s2 := AfterUpdate(s1, [Observation(Box(30, 10, 40, 20), Some(2), Some("car"))], a, b, false);
      && 1 in s1.lastSide
      && 1 !in s2.lastSide && 2 in s2.lastSide
  {
    var a, b := Point(0, 50), Point(100, 50);
    var s0 := Initial(DefaultLabels, map[]);
    var o1 := Observation(Box(10, 10, 20, 20), Some(1), Some("car"));
    var o2 := Observation(Box(30, 10, 40, 20), Some(2), Some("car"));
    assert [o1][..0] == [] && [o2][..0] == [];
    assert TrackedIds([o1]) == {1} by {
      assert [o1][0].trackerId == Some(1);
    }
    assert TrackedIds([o2]) == {2} by {
      assert [o2][0].trackerId == Some(2);
    }
    var s1 := AfterUpdate(s0, [o1], a, b, false);
    assert 1 in s1.lastSide;
    var r2 := ObserveAll(s1, [o2], a, b, false);
    assert ObserveAll(s1, [o2][..0], a, b, false) == s1;
    assert r2 == Observe(s1, o2, a, b, false);
    assert r2.lastSide.Keys == {1, 2};
  }

  // ---------------------------------------------------------------------
  // The counter object
  // ---------------------------------------------------------------------

  /**
   * A line-crossing counter by class. The line, the labels, the direction
   * flag and the initial inventory are fixed at construction; the four maps
   * are updated in place by `Reset` and `Update`.
   */
  class LineCrossingCounterByClass {
    const a: Point
    const b: Point
    const labels: seq<string>
    const invertDirection: bool
    const initialInventory: map<string, int>

    var inCounts: map<string, int>
    var outCounts: map<string, int>
    var inventory: map<string, int>
    var lastSide: map<int, int>

    /** The current tallies and history as a value. */
    function State(): CounterState
      reads this
    {
      CounterState(inCounts, outCounts, inventory, lastSide)
    }

    ghost predicate Valid()
      reads this
    {
      CounterInv(State(), labels, initialInventory)
    }

    /** Creates the counter and registers every configured label (duplicates collapse). */
    constructor (a: Point, b: Point, labels: seq<string> := DefaultLabels, invertDirection: bool := false,
                 initialInventory: map<string, int> := map[])
      ensures this.a == a && this.b == b && this.labels == labels
      ensures this.invertDirection == invertDirection && this.initialInventory == initialInventory
      ensures State() == Initial(labels, initialInventory)
      ensures Valid()
    {
      this.a, this.b, this.labels := a, b, labels;
      this.invertDirection, this.initialInventory := invertDirection, initialInventory;
      inCounts, outCounts, inventory, lastSide := map[], map[], map[], map[];
      new;
      for i := 0 to |labels|
        invariant inCounts == map c | c in labels[..i] :: 0
        invariant outCounts == map c | c in labels[..i] :: 0
        invariant inventory == map c | c in labels[..i] :: Get(initialInventory, c)
        invariant lastSide == map[]
      {
        var lbl := labels[i];
        assert labels[..i + 1] == labels[..i] + [lbl];
        if lbl !in inCounts { inCounts := inCounts[lbl := 0]; }
        if lbl !in outCounts { outCounts := outCounts[lbl := 0]; }
        var initial := if lbl in initialInventory then initialInventory[lbl] else 0;
        if lbl !in inventory { inventory := inventory[lbl := initial]; }
      }
      assert labels[..|labels|] == labels;
      InitialTallies(labels, initialInventory);
    }

    /** Restores the configured labels' tallies and clears the history. */
    method Reset()
      requires Valid()
      modifies this
      ensures Valid()
      ensures State() == AfterReset(old(State()), labels, initialInventory)
    {
      ghost var s := State();
      for i := 0 to |labels|
        invariant State() == ResetLabels(s, labels[..i], initialInventory)
      {
        var lbl := labels[i];
        assert labels[..i + 1][..i] == labels[..i];
        inCounts := inCounts[lbl := 0];
        outCounts := outCounts[lbl := 0];
        inventory := inventory[lbl := if lbl in initialInventory then initialInventory[lbl] else 0];
      }
      lastSide := map[];
      assert labels[..|labels|] == labels;
      ResetTallies(s, labels, initialInventory);
    }

    /** One iteration of the update loop: refresh the track's history, then tally a crossing. */
    method ProcessObservation(o: Observation)
      modifies this
      ensures State() == Observe(old(State()), o, a, b, invertDirection)
    {
      if o.trackerId.None? {
        return;
      }
      var tid := o.trackerId.value;
      var cx := (o.box.x1 + o.box.x2) / 2;
      var cy := (o.box.y1 + o.box.y2) / 2;
      var side := SideOfLine(Point(cx, cy), a, b);
      var prev := if tid in lastSide then Some(lastSide[tid]) else None;
      lastSide := lastSide[tid := if side != 0 then side else prev.GetOr(0)];
      if prev.None? || prev.value == 0 || side == 0 {
        return;
      }
      var crossed := (prev.value > 0 && side < 0) || (prev.value < 0 && side > 0);
      if !crossed {
        return;
      }
      var cname := LabelOf(o);
      var wentNegToPos := prev.value < 0 && side > 0;
      if invertDirection {
        wentNegToPos := !wentNegToPos;
      }
      if wentNegToPos {
        inCounts := inCounts[cname := Get(inCounts, cname) + 1];
        inventory := inventory[cname := Get(inventory, cname) + 1];
      } else {
        outCounts := outCounts[cname := Get(outCounts, cname) + 1];
        inventory := inventory[cname := Get(inventory, cname) - 1];
      }
    }

    /** The end of the update: drops the history of every track absent from the batch. */
    method PurgeStale(currentIds: set<int>)
      requires Valid()
      modifies this
      ensures Valid()
      ensures lastSide == Purge(old(lastSide), currentIds)
      ensures inCounts == old(inCounts) && outCounts == old(outCounts) && inventory == old(inventory)
    {
      var staleIds := set k | k in lastSide && k !in currentIds;
      while staleIds != {}
        invariant inCounts == old(inCounts) && outCounts == old(outCounts) && inventory == old(inventory)
        invariant forall k :: k in staleIds <==> k in lastSide && k !in currentIds
        invariant forall k :: k in old(lastSide) && k in currentIds ==> k in lastSide
        invariant forall k :: k in lastSide ==> k in old(lastSide) && lastSide[k] == old(lastSide)[k]
        decreases staleIds
      {
        if forall k :: k !in staleIds {
          assert false;
        }
        var k :| k in staleIds;
        lastSide := map k' | k' in lastSide && k' != k :: lastSide[k'];
        staleIds := staleIds - {k};
      }
      ghost var purged := Purge(old(lastSide), currentIds);
      forall k | k in lastSide ensures k in purged && lastSide[k] == purged[k] {
        assert k !in staleIds;
      }
      forall k | k in purged ensures k in lastSide { }
    }

    /**
     * Consumes one frame's batch of tracked observations in order, then drops
     * the history of every track that is not in the (non-empty) batch.
     */
    method Update(batch: seq<Observation>)
      requires Valid()
      modifies this
      ensures Valid()
      ensures State() == AfterUpdate(old(State()), batch, a, b, invertDirection)
      ensures |batch| == 0 ==> State() == old(State())
      ensures |batch| > 0 ==> lastSide.Keys == TrackedIds(batch)
    {
      if |batch| == 0 {
        assert State() == old(State());
        return;
      }
      ghost var s := State();
      var currentIds: set<int> := {};
      var i := 0;
      while i < |batch|
        invariant 0 <= i <= |batch|
        invariant currentIds == TrackedIds(batch[..i])
        invariant State() == ObserveAll(s, batch[..i], a, b, invertDirection)
      {
        var o := batch[i];
        assert batch[..i + 1][..i] == batch[..i];
        TrackedIdsSnoc(batch[..i + 1]);
        if o.trackerId.Some? {
          currentIds := currentIds + {o.trackerId.value};
        }
        ProcessObservation(o);
        i := i + 1;
      }
      assert batch[..i] == batch;
      ghost var mid := State();
      assert mid == ObserveAll(s, batch, a, b, invertDirection);
      assert currentIds == TrackedIds(batch);

      ObserveAllPreservesInv(s, batch, a, b, invertDirection, labels, initialInventory);
      PurgeStale(currentIds);
      assert State() == AfterUpdate(s, batch, a, b, invertDirection);
      UpdatePreservesInv(s, batch, a, b, invertDirection, labels, initialInventory);
      UpdateHistoryKeys(s, batch, a, b, invertDirection);
    }
  }
}
