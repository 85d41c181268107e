/**
 * Conflict analysis of the `simple-sat` solver (`analyze` in
 * lib/simple-sat/src/solver.rs), on the trail state as a value.
 *
 * Starting from a conflict clause whose literals are all False, the
 * analysis walks the trail backwards. Every variable of the clauses it
 * looks at is "seen" once (and its activity bumped) unless it lies on level
 * 0; seen variables below the current level go into the learnt clause,
 * those on the current level are counted by `counter`. The most recent
 * seen trail literal `p` is un-seen; when it was the last one counted, the
 * learnt clause gets `!p` in front, else the walk continues with the reason
 * of `p`. The backtrack level is the highest level among the other
 * literals, whose first literal of that level is swapped to position 1.
 *
 * The source's `debug_assert`s (the current level is not 0, every literal
 * looked at is False, a counted literal is on the current level, a reason
 * starts with its literal), its unsigned `counter -= 1`, its `index -= 1`
 * and the `unwrap` of the reason are shown never to fail on the trails the
 * solver keeps.
 */
module SolverAnalyze {
  import opened Wrappers
  import opened LBool
  import opened SatLit
  import opened Assignment
  import opened SolverTrail

  /** The level recorded for the variable of `l`. */
  function LevelOf(levels: seq<nat>, l: Lit): nat
    requires Var(l) as int < |levels|
  {
    levels[Var(l)]
  }

  /** The variable of `l` is marked in `seen`. */
  predicate SeenLit(seen: seq<bool>, l: Lit)
  {
    Var(l) as int < |seen| && seen[Var(l)]
  }

  /** The number of trail positions in `[a, b)` whose variable is seen. */
  function Count(seen: seq<bool>, trail: seq<Lit>, a: nat, b: nat): nat
    requires b <= |trail|
    decreases b
  {
    if b <= a then 0 else Count(seen, trail, a, b - 1) + (if SeenLit(seen, trail[b - 1]) then 1 else 0)
  }

  /** Marking a variable that is at no position of `[a, b)` leaves the count unchanged. */
  lemma {:induction false} CountOther(seen: seq<bool>, trail: seq<Lit>, a: nat, b: nat, v: nat, x: bool)
    requires b <= |trail| && v < |seen|
    requires forall k :: a <= k < b ==> Var(trail[k]) as int != v
    ensures Count(seen[v := x], trail, a, b) == Count(seen, trail, a, b)
    decreases b
  {
    if b > a {
      CountOther(seen, trail, a, b - 1, v, x);
    }
  }

  /** Marking the variable at position `m`, which is at no other position of `[a, b)`, adds one to the count. */
  lemma {:induction false} CountMark(seen: seq<bool>, trail: seq<Lit>, a: nat, b: nat, m: nat)
    requires a <= m < b <= |trail| && Var(trail[m]) as int < |seen| && !seen[Var(trail[m])]
    requires forall k :: a <= k < b && k != m ==> Var(trail[k]) != Var(trail[m])
    ensures Count(seen[Var(trail[m]) := true], trail, a, b) == Count(seen, trail, a, b) + 1
    decreases b
  {
    var v := Var(trail[m]) as nat;
    if b - 1 == m {
      CountOther(seen, trail, a, m, v, true);
    } else {
      CountMark(seen, trail, a, b - 1, m);
    }
  }

  lemma {:induction false} CountUnseen(seen: seq<bool>, trail: seq<Lit>, a: nat, b: nat)
    requires b <= |trail| && forall v :: 0 <= v < |seen| ==> !seen[v]
    ensures Count(seen, trail, a, b) == 0
    decreases b
  {
    if b > a {
      CountUnseen(seen, trail, a, b - 1);
    }
  }

  /** A seen variable at a position of `[a, b)` makes the count positive. */
  lemma {:induction false} CountPositive(seen: seq<bool>, trail: seq<Lit>, a: nat, b: nat, m: nat)
    requires a <= m < b <= |trail| && SeenLit(seen, trail[m])
    ensures Count(seen, trail, a, b) >= 1
    decreases b
  {
    if b - 1 != m {
      CountPositive(seen, trail, a, b - 1, m);
    }
  }

  // ---------- the trail, indexed by `pos` ----------

  /** The facts of the trail invariant the analysis uses: `pos` indexes the trail, and levels follow positions. */
  ghost predicate Indexed(t: TrailState)
  {
    && Shaped(t)
    && (forall k :: 0 <= k < |t.trail| ==>
          var v := Var(t.trail[k]);
          t.pos[v] == k && t.values[v] != Undef && t.levels[v] == LevelAt(t.lim, k))
    && (forall v :: 0 <= v < |t.values| && t.values[v] != Undef ==>
          t.pos[v] < |t.trail| && Var(t.trail[t.pos[v]]) as int == v)
  }

  lemma TrailIndexed(db: seq<seq<Lit>>, t: TrailState)
    requires TrailOk(db, t)
    ensures Indexed(t)
  {
    forall k | 0 <= k < |t.trail|
      ensures t.pos[Var(t.trail[k])] == k && t.values[Var(t.trail[k])] != Undef
      ensures t.levels[Var(t.trail[k])] == LevelAt(t.lim, k)
    {
      assert EntryOk(db, t, k);
    }
    forall v | 0 <= v < |t.values| && t.values[v] != Undef
      ensures t.pos[v] < |t.trail| && Var(t.trail[t.pos[v]]) as int == v
    {
      assert OnTrail(t, v);
    }
  }

  /** An assigned variable lies on the current level `d` exactly when its position is at or after the start of `d`. */
  lemma LevelTop(t: TrailState, v: nat)
    requires Indexed(t) && |t.lim| > 0 && v < |t.values| && t.values[v] != Undef
    ensures t.levels[v] <= |t.lim|
    ensures t.levels[v] == |t.lim| <==> t.pos[v] >= t.lim[|t.lim| - 1]
  {
    var i := t.pos[v];
    assert Var(t.trail[i]) as int == v;
    LevelAtBelow(t.lim, i, |t.lim| - 1);
    if i >= t.lim[|t.lim| - 1] {
      LevelAtAll(t.lim, i);
    }
  }

  // ---------- the state of the walk ----------

  /** What the source keeps while walking the trail; the activities are bumped on the way. */
  datatype Walk = Walk(seen: seq<bool>, counter: nat, learnt: seq<Lit>, act: seq<int>)

  /** A seen variable is assigned above level 0, and on the current level only before `index`. */
  ghost predicate Marked(t: TrailState, v: nat, lo: nat, index: nat)
    requires Shaped(t) && v < |t.values|
  {
    t.values[v] != Undef && t.levels[v] > 0 && (t.levels[v] == |t.lim| ==> lo <= t.pos[v] < index)
  }

  /** A literal of the learnt clause so far: False, seen, and on a level between 0 and the current one. */
  ghost predicate Learnt(t: TrailState, seen: seq<bool>, l: Lit)
    requires Shaped(t)
  {
    Var(l) as int < |t.values| && |seen| == |t.values|
    && LitValue(t.values, l) == False && seen[Var(l)] && 0 < t.levels[Var(l)] < |t.lim|
  }

  /** The activities are the initial ones, plus one for every variable in `bumped`. */
  ghost predicate BumpedBy(act: seq<int>, base: seq<int>, bumped: set<nat>)
  {
    |act| == |base| && forall v :: 0 <= v < |base| ==> act[v] == base[v] + (if v in bumped then 1 else 0)
  }

  /**
   * The invariant of the walk before trail position `index`, with `lo` the
   * start of the current level: `counter` counts the seen variables from
   * `lo` up to `index`; a bumped variable is seen or was un-seen at or after
   * `index`.
   */
  ghost predicate WalkOk(t: TrailState, w: Walk, lo: nat, index: nat, base: seq<int>, bumped: set<nat>)
  {
    && Indexed(t) && |t.lim| > 0 && lo == t.lim[|t.lim| - 1] && lo <= index <= |t.trail|
    && |w.seen| == |t.values| && |base| == |t.values| && BumpedBy(w.act, base, bumped)
    && w.counter == Count(w.seen, t.trail, lo, index)
    && (forall v :: 0 <= v < |t.values| && w.seen[v] ==> Marked(t, v, lo, index) && v in bumped)
    && (forall v :: v in bumped ==> v < |t.values| && (w.seen[v] || (t.values[v] != Undef && t.pos[v] >= index)))
    && (forall j :: 0 <= j < |w.learnt| ==> Learnt(t, w.seen, w.learnt[j]))
    && (forall j, k :: 0 <= j < k < |w.learnt| ==> Var(w.learnt[j]) != Var(w.learnt[k]))
  }

  /** The literals `c[start..]` are False and were assigned before trail position `index`. */
  ghost predicate FalseBefore(t: TrailState, c: seq<Lit>, start: nat, index: nat)
    requires Shaped(t)
  {
    forall j :: start <= j < |c| ==>
      Var(c[j]) as int < |t.values| && LitValue(t.values, c[j]) == False && t.pos[Var(c[j])] < index
  }

  /** One step of the inner loop: the variable of `q` becomes seen and bumped, and `q` is learnt below the current level or counted on it. */
  function Mark(t: TrailState, w: Walk, q: Lit): (w2: Walk)
    requires Var(q) as int < |t.levels| && Var(q) as int < |w.seen| && Var(q) as int < |w.act|
    ensures w2.seen == w.seen[Var(q) := true] && w2.act == w.act[Var(q) := w.act[Var(q)] + 1]
    ensures t.levels[Var(q)] < |t.lim| ==> w2.counter == w.counter && w2.learnt == w.learnt + [q]
    ensures t.levels[Var(q)] >= |t.lim| ==> w2.counter == w.counter + 1 && w2.learnt == w.learnt
  {
    var v := Var(q);
    var seen2 := w.seen[v := true];
    var act2 := w.act[v := w.act[v] + 1];
    if t.levels[v] < |t.lim| then Walk(seen2, w.counter, w.learnt + [q], act2)
    else Walk(seen2, w.counter + 1, w.learnt, act2)
  }

  /** Marking a False literal assigned before `index`, not yet seen and above level 0, keeps the walk invariant. */
  lemma MarkOk(t: TrailState, w: Walk, lo: nat, index: nat, base: seq<int>, bumped: set<nat>, q: Lit)
    requires WalkOk(t, w, lo, index, base, bumped)
    requires Var(q) as int < |t.values| && LitValue(t.values, q) == False && t.pos[Var(q)] < index
    requires !w.seen[Var(q)] && t.levels[Var(q)] > 0
    ensures Var(q) as nat !in bumped && t.levels[Var(q)] <= |t.lim|
    ensures WalkOk(t, Mark(t, w, q), lo, index, base, bumped + {Var(q) as nat})
  {
    var v := Var(q) as nat;
    LevelTop(t, v);
    var w2 := Mark(t, w, q);
    var m := t.pos[v];
    assert Var(t.trail[m]) as nat == v;
    if t.levels[v] < |t.lim| {
      assert m < lo;
      CountOther(w.seen, t.trail, lo, index, v, true);
      assert Learnt(t, w2.seen, q);
    } else {
      forall k | lo <= k < index && k != m
        ensures Var(t.trail[k]) != Var(t.trail[m])
      {
      }
      CountMark(w.seen, t.trail, lo, index, m);
    }
    forall j | 0 <= j < |w.learnt|
      ensures Learnt(t, w2.seen, w2.learnt[j])
    {
      assert Learnt(t, w.seen, w.learnt[j]);
    }
  }

  /** A seen variable on the current level makes the count positive. */
  lemma SeenCounted(t: TrailState, w: Walk, lo: nat, index: nat, base: seq<int>, bumped: set<nat>, v: nat)
    requires WalkOk(t, w, lo, index, base, bumped) && v < |t.values| && w.seen[v] && t.levels[v] == |t.lim|
    ensures w.counter >= 1
  {
    assert Marked(t, v, lo, index);
    assert Var(t.trail[t.pos[v]]) as int == v;
    CountPositive(w.seen, t.trail, lo, index, t.pos[v]);
  }

  /**
   * The inner `for` loop of `analyze` over `c[start..]`: every literal not
   * yet seen and above level 0 is seen and bumped, and goes into the learnt
   * clause below the current level or is counted on it. A clause with a
   * literal on the current level leaves a positive count.
   */
  method ScanClause(t: TrailState, c: seq<Lit>, start: nat, lo: nat, index: nat, w: Walk,
                    ghost base: seq<int>, ghost bumped: set<nat>)
    returns (w2: Walk, ghost bumped2: set<nat>)
    requires WalkOk(t, w, lo, index, base, bumped) && FalseBefore(t, c, start, index) && start <= |c|
    ensures WalkOk(t, w2, lo, index, base, bumped2)
    ensures w2.counter >= w.counter
    ensures forall j :: start <= j < |c| && LevelOf(t.levels, c[j]) == |t.lim| ==> w2.counter >= 1
  {
    w2, bumped2 := w, bumped;
    for j := start to |c|
      invariant WalkOk(t, w2, lo, index, base, bumped2)
      invariant w2.counter >= w.counter
      invariant forall k :: start <= k < j && LevelOf(t.levels, c[k]) == |t.lim| ==> w2.counter >= 1
    {
      var q := c[j];
      var v := Var(q);
      if !w2.seen[v] && t.levels[v] > 0 {
        MarkOk(t, w2, lo, index, base, bumped2, q);
        w2, bumped2 := Mark(t, w2, q), bumped2 + {v as nat};
      } else if t.levels[v] == |t.lim| {
        SeenCounted(t, w2, lo, index, base, bumped2, v as nat);
      }
    }
  }

  /**
   * The search `loop { index -= 1; if seen[trail[index].var()] { break } }`:
   * with a positive count it stops, at or after `lo`, on the last seen
   * trail literal before `index`.
   */
  method FindSeen(seen: seq<bool>, trail: seq<Lit>, lo: nat, index: nat, counter: nat) returns (i: nat)
    requires lo <= index <= |trail| && counter >= 1 && Count(seen, trail, lo, index) == counter
    ensures lo <= i < index && SeenLit(seen, trail[i]) && Count(seen, trail, lo, i) == counter - 1
    ensures forall k :: i < k < index ==> !SeenLit(seen, trail[k])
  {
    i := index;
    while true
      invariant lo <= i <= index && Count(seen, trail, lo, i) == counter
      invariant forall k :: i <= k < index ==> !SeenLit(seen, trail[k])
      decreases i
    {
      i := i - 1;
      if SeenLit(seen, trail[i]) {
        return;
      }
    }
  }

  /** After un-seeing the literal found at `i`, the seen variables on the current level lie before `i`. */
  lemma UnmarkSeen(t: TrailState, w: Walk, lo: nat, index: nat, base: seq<int>, bumped: set<nat>, i: nat)
    requires WalkOk(t, w, lo, index, base, bumped)
    requires lo <= i < index && SeenLit(w.seen, t.trail[i])
    requires forall k :: i < k < index ==> !SeenLit(w.seen, t.trail[k])
    ensures var seen2 := w.seen[Var(t.trail[i]) := false];
      forall u :: 0 <= u < |t.values| && seen2[u] ==> Marked(t, u, lo, i) && u in bumped
  {
    var v := Var(t.trail[i]) as nat;
    var seen2 := w.seen[v := false];
    forall u | 0 <= u < |t.values| && seen2[u]
      ensures Marked(t, u, lo, i) && u in bumped
    {
      assert Marked(t, u, lo, index);
      if t.levels[u] == |t.lim| {
        var k := t.pos[u];
        assert Var(t.trail[k]) as int == u;
        assert SeenLit(w.seen, t.trail[k]);
      }
    }
  }

  /** Un-seeing the literal found at `i` moves the walk to position `i` with one less counted. */
  lemma UnmarkOk(t: TrailState, w: Walk, lo: nat, index: nat, base: seq<int>, bumped: set<nat>, i: nat)
    requires WalkOk(t, w, lo, index, base, bumped) && w.counter >= 1
    requires lo <= i < index && SeenLit(w.seen, t.trail[i]) && Count(w.seen, t.trail, lo, i) == w.counter - 1
    requires forall k :: i < k < index ==> !SeenLit(w.seen, t.trail[k])
    ensures var v := Var(t.trail[i]);
      && t.levels[v] == |t.lim|
      && WalkOk(t, Walk(w.seen[v := false], w.counter - 1, w.learnt, w.act), lo, i, base, bumped)
  {
    var p := t.trail[i];
    var v := Var(p) as nat;
    LevelAtAll(t.lim, i);
    assert t.levels[v] == |t.lim|;
    var seen2 := w.seen[v := false];
    CountOther(w.seen, t.trail, lo, i, v, false);
    UnmarkSeen(t, w, lo, index, base, bumped, i);
    forall j | 0 <= j < |w.learnt|
      ensures Learnt(t, seen2, w.learnt[j])
    {
      assert Learnt(t, w.seen, w.learnt[j]);
    }
  }

  /** The first position in `[1, hi)` of a literal on the highest level among them. */
  function FirstMax(levels: seq<nat>, learnt: seq<Lit>, hi: nat): (m: nat)
    requires 2 <= hi <= |learnt| && forall j :: 0 <= j < |learnt| ==> Var(learnt[j]) as int < |levels|
    ensures 1 <= m < hi
    decreases hi
  {
    if hi == 2 then 1
    else
      var m := FirstMax(levels, learnt, hi - 1);
      if LevelOf(levels, learnt[hi - 1]) > LevelOf(levels, learnt[m]) then hi - 1 else m
  }

  /** `FirstMax` is on the highest level of `[1, hi)`, and the literals before it are on lower levels. */
  lemma {:induction false} FirstMaxIsMax(levels: seq<nat>, learnt: seq<Lit>, hi: nat)
    requires 2 <= hi <= |learnt| && forall j :: 0 <= j < |learnt| ==> Var(learnt[j]) as int < |levels|
    ensures var m := FirstMax(levels, learnt, hi);
      && (forall j :: 1 <= j < hi ==> LevelOf(levels, learnt[j]) <= LevelOf(levels, learnt[m]))
      && (forall j :: 1 <= j < m ==> LevelOf(levels, learnt[j]) < LevelOf(levels, learnt[m]))
    decreases hi
  {
    if hi > 2 {
      FirstMaxIsMax(levels, learnt, hi - 1);
    }
  }

  /** `lemma` with the literals at `i` and `j` exchanged (`lemma.swap(i, j)`). */
  function SwapAt(s: seq<Lit>, i: nat, j: nat): (r: seq<Lit>)
    requires i < |s| && j < |s|
    ensures |r| == |s| && r[i] == s[j] && r[j] == s[i]
    ensures forall k :: 0 <= k < |s| && k != i && k != j ==> r[k] == s[k]
  {
    s[i := s[j]][j := s[i]]
  }

  /**
   * The backtrack level of `analyze`: 0 for a unit; otherwise the loop finds
   * the first literal after position 1 on the highest level among positions
   * 1 and up, swaps it to position 1, and returns its level.
   */
  method BacktrackLevel(levels: seq<nat>, learnt: seq<Lit>) returns (out: seq<Lit>, bt: nat)
    requires |learnt| >= 1 && forall j :: 0 <= j < |learnt| ==> Var(learnt[j]) as int < |levels|
    ensures |learnt| == 1 ==> out == learnt && bt == 0
    ensures |learnt| >= 2 ==>
      && out == SwapAt(learnt, 1, FirstMax(levels, learnt, |learnt|))
      && bt == LevelOf(levels, out[1])
  {
    if |learnt| == 1 {
      return learnt, 0;
    }
    var maxI := 1;
    for i := 2 to |learnt|
      invariant maxI == FirstMax(levels, learnt, i)
    {
      if LevelOf(levels, learnt[i]) > LevelOf(levels, learnt[maxI]) {
        maxI := i;
      }
    }
    out := SwapAt(learnt, 1, maxI);
    bt := LevelOf(levels, out[1]);
  }

  /** `l` is False under the trail's values. */
  ghost predicate FalseLit(t: TrailState, l: Lit)
  {
    Var(l) as int < |t.values| && LitValue(t.values, l) == False
  }

  /** `l` is False on the current level. */
  ghost predicate TopLit(t: TrailState, l: Lit)
    requires Shaped(t)
  {
    FalseLit(t, l) && t.levels[Var(l)] == |t.lim|
  }

  /** `l` is False on a level between 0 and the current one. */
  ghost predicate LowLit(t: TrailState, l: Lit)
    requires Shaped(t)
  {
    FalseLit(t, l) && 0 < t.levels[Var(l)] < |t.lim|
  }

  /** No two positions of `s` hold literals of the same variable. */
  predicate DistinctVars(s: seq<Lit>)
  {
    forall j, k :: 0 <= j < |s| && 0 <= k < |s| && j != k ==> Var(s[j]) != Var(s[k])
  }

  /** The learnt clause is False; its first literal is on the current level, the others on levels between 0 and it. */
  ghost predicate Asserting(t: TrailState, learnt: seq<Lit>)
    requires Shaped(t)
  {
    && |learnt| >= 1
    && TopLit(t, learnt[0])
    && (forall j :: 1 <= j < |learnt| ==> LowLit(t, learnt[j]))
    && DistinctVars(learnt)
  }

  /**
   * The outer `loop` of `analyze`: clauses are scanned, from the conflict
   * along the reasons of the trail literals found, until the literal found
   * at trail position `i` was the last one counted on the current level.
   */
  method WalkTrail(db: seq<seq<Lit>>, t: TrailState, conflict: nat, act: seq<int>)
    returns (w: Walk, i: nat, ghost bumped: set<nat>)
    requires Indexed(t) && |t.lim| > 0 && ReasonedAbove(db, t) && |act| == |t.values|
    requires conflict < |db| && FalseBefore(t, db[conflict], 0, |t.trail|)
    requires exists j :: 0 <= j < |db[conflict]| && LevelOf(t.levels, db[conflict][j]) == |t.lim|
    ensures WalkOk(t, w, t.lim[|t.lim| - 1], i, act, bumped) && w.counter == 0
    ensures i < |t.trail| && t.levels[Var(t.trail[i])] == |t.lim| && Var(t.trail[i]) as nat in bumped
  {
    var lo := t.lim[|t.lim| - 1];
    var index: nat := |t.trail|;
    w := Walk(seq(|t.values|, _ => false), 0, [], act);
    bumped := {};
    CountUnseen(w.seen, t.trail, lo, index);
    var c := db[conflict];
    var start := 0;
    while true
      invariant WalkOk(t, w, lo, index, act, bumped) && FalseBefore(t, c, start, index)
      invariant start <= |c|
      invariant start == 0 ==> c == db[conflict]
      invariant start != 0 ==> w.counter >= 1
      decreases index
    {
      w, bumped := ScanClause(t, c, start, lo, index, w, act, bumped);
      i := FindSeen(w.seen, t.trail, lo, index, w.counter);
      var p := t.trail[i];
      assert Var(p) as nat in bumped;
      UnmarkOk(t, w, lo, index, act, bumped, i);
      w := Walk(w.seen[Var(p) := false], w.counter - 1, w.learnt, w.act);
      index := i;
      if w.counter == 0 {
        return;
      }
      assert lo < i;
      assert Reasoned(db, t, i);
      c := db[t.reasons[Var(p)].value];
      start := 1;
    }
  }

  /** Trail position `i` has a reason clause, whose other literals are False and were assigned before it. */
  ghost predicate Reasoned(db: seq<seq<Lit>>, t: TrailState, i: nat)
    requires Shaped(t) && i < |t.trail|
  {
    var v := Var(t.trail[i]);
    t.reasons[v].Some? && t.reasons[v].value < |db| && |db[t.reasons[v].value]| >= 1
    && FalseBefore(t, db[t.reasons[v].value], 1, i)
  }

  /** Every trail literal after the start of the current level is implied by a reason. */
  ghost predicate ReasonedAbove(db: seq<seq<Lit>>, t: TrailState)
    requires Shaped(t) && |t.lim| > 0
  {
    forall i :: t.lim[|t.lim| - 1] < i < |t.trail| ==> Reasoned(db, t, i)
  }

  /** On the solver's trails, no literal after the start of the current level is a decision. */
  lemma ReasonedAboveOk(db: seq<seq<Lit>>, t: TrailState)
    requires TrailOk(db, t) && |t.lim| > 0
    ensures ReasonedAbove(db, t)
  {
    forall i | t.lim[|t.lim| - 1] < i < |t.trail|
      ensures Reasoned(db, t, i)
    {
      assert EntryOk(db, t, i);
      LevelAtAll(t.lim, i);
    }
  }

  /** `!p` in front of the literals learnt below the current level makes an asserting clause of bumped variables. */
  lemma PrependAsserting(db: seq<seq<Lit>>, t: TrailState, w: Walk, lo: nat, i: nat, base: seq<int>, bumped: set<nat>)
    requires TrailOk(db, t) && WalkOk(t, w, lo, i, base, bumped) && i < |t.trail|
    requires t.levels[Var(t.trail[i])] == |t.lim| && Var(t.trail[i]) as nat in bumped
    ensures var full := [Not(t.trail[i])] + w.learnt;
      Asserting(t, full) && forall j :: 0 <= j < |full| ==> Var(full[j]) as nat in bumped
  {
    var p := t.trail[i];
    var full := [Not(p)] + w.learnt;
    assert EntryOk(db, t, i);
    LitValueNot(t.values, p);
    assert TopLit(t, full[0]);
    forall j | 1 <= j < |full|
      ensures LowLit(t, full[j]) && Var(full[j]) as nat in bumped
    {
      assert full[j] == w.learnt[j - 1];
      assert Learnt(t, w.seen, full[j]);
    }
    forall j | 0 <= j < |w.learnt|
      ensures LowLit(t, w.learnt[j])
    {
      assert Learnt(t, w.seen, w.learnt[j]);
    }
    PrependDistinct(t, full[0], w.learnt);
  }

  /** A literal on the current level in front of distinct literals below it gives distinct variables. */
  lemma PrependDistinct(t: TrailState, x: Lit, s: seq<Lit>)
    requires Shaped(t) && TopLit(t, x) && forall j :: 0 <= j < |s| ==> LowLit(t, s[j])
    requires forall j, k :: 0 <= j < k < |s| ==> Var(s[j]) != Var(s[k])
    ensures DistinctVars([x] + s)
  {
    var full := [x] + s;
    forall j, k | 0 <= j < |full| && 0 <= k < |full| && j != k
      ensures Var(full[j]) != Var(full[k])
    {
      if j > 0 && k > 0 {
        assert full[j] == s[j - 1] && full[k] == s[k - 1];
        if j > k {
          assert Var(s[k - 1]) != Var(s[j - 1]);
        }
      } else if j > 0 {
        assert LowLit(t, s[j - 1]);
      } else {
        assert LowLit(t, s[k - 1]);
      }
    }
  }

  /** Exchanging two positions keeps the variables distinct. */
  lemma SwapDistinct(s: seq<Lit>, a: nat, b: nat)
    requires DistinctVars(s) && a < |s| && b < |s|
    ensures DistinctVars(SwapAt(s, a, b))
  {
    var r := SwapAt(s, a, b);
    forall j, k | 0 <= j < |r| && 0 <= k < |r| && j != k
      ensures Var(r[j]) != Var(r[k])
    {
      var j' := if j == a then b else if j == b then a else j;
      var k' := if k == a then b else if k == b then a else k;
      assert r[j] == s[j'] && r[k] == s[k'] && j' != k';
    }
  }

  /** Moving the first literal of the highest level to position 1 keeps the clause asserting and its variables bumped. */
  lemma SwapAsserting(t: TrailState, full: seq<Lit>, bumped: set<nat>)
    requires Shaped(t) && Asserting(t, full) && |full| >= 2
    requires forall j :: 0 <= j < |full| ==> Var(full[j]) as nat in bumped
    ensures var out := SwapAt(full, 1, FirstMax(t.levels, full, |full|));
      && Asserting(t, out)
      && (forall j :: 0 <= j < |out| ==> Var(out[j]) as nat in bumped)
      && forall j :: 1 <= j < |out| ==> t.levels[Var(out[j])] <= t.levels[Var(out[1])]
  {
    var m := FirstMax(t.levels, full, |full|);
    FirstMaxIsMax(t.levels, full, |full|);
    var out := SwapAt(full, 1, m);
    SwapDistinct(full, 1, m);
    forall j | 1 <= j < |out|
      ensures LowLit(t, out[j]) && Var(out[j]) as nat in bumped
      ensures t.levels[Var(out[j])] <= t.levels[Var(out[1])]
    {
      var j' := if j == 1 then m else if j == m then 1 else j;
      assert out[j] == full[j'];
    }
  }

  /**
   * `analyze(conflict)` on a conflict clause that is entirely False and has
   * a literal on the current level, which is not level 0: the learnt clause
   * is asserting, the backtrack level is the highest level of its other
   * literals (0 for a unit), and the activities of the variables the walk
   * saw were bumped by one, among them every variable of the learnt clause.
   */
  method AnalyzeConflict(db: seq<seq<Lit>>, t: TrailState, conflict: nat, act: seq<int>)
    returns (learnt: seq<Lit>, bt: nat, act2: seq<int>)
    requires TrailOk(db, t) && |t.lim| > 0 && |act| == |t.values|
    requires conflict < |db| && FalseBefore(t, db[conflict], 0, |t.trail|)
    requires exists j :: 0 <= j < |db[conflict]| && LevelOf(t.levels, db[conflict][j]) == |t.lim|
    ensures Asserting(t, learnt)
    ensures |learnt| == 1 ==> bt == 0
    ensures |learnt| >= 2 ==>
      && bt == t.levels[Var(learnt[1])]
      && forall j :: 1 <= j < |learnt| ==> t.levels[Var(learnt[j])] <= bt
    ensures |act2| == |act| && forall v :: 0 <= v < |act| ==> act2[v] == act[v] || act2[v] == act[v] + 1
    ensures forall j :: 0 <= j < |learnt| ==> act2[Var(learnt[j])] == act[Var(learnt[j])] + 1
  {
    TrailIndexed(db, t);
    ReasonedAboveOk(db, t);
    var w, i, bumped := WalkTrail(db, t, conflict, act);
    var full := [Not(t.trail[i])] + w.learnt;
    PrependAsserting(db, t, w, t.lim[|t.lim| - 1], i, act, bumped);
    learnt, bt := BacktrackLevel(t.levels, full);
    if |full| >= 2 {
      SwapAsserting(t, full, bumped);
    }
    act2 := w.act;
    BumpedFacts(act2, act, bumped, learnt);
  }

  /** Activities bumped by `bumped` grew by at most one, and by exactly one on the variables of `learnt`. */
  lemma BumpedFacts(act2: seq<int>, act: seq<int>, bumped: set<nat>, learnt: seq<Lit>)
    requires BumpedBy(act2, act, bumped)
    requires forall j :: 0 <= j < |learnt| ==> Var(learnt[j]) as nat in bumped && Var(learnt[j]) as int < |act|
    ensures |act2| == |act| && forall v :: 0 <= v < |act| ==> act2[v] == act[v] || act2[v] == act[v] + 1
    ensures forall j :: 0 <= j < |learnt| ==> act2[Var(learnt[j])] == act[Var(learnt[j])] + 1
  {
  }
}
