/**
 * The assignment trail of the `simple-sat` CDCL solver
 * (lib/simple-sat/src/solver.rs), as values: the per-variable assignment,
 * decision levels and reasons, the trail of assigned literals and the
 * decision-level markers `trail_lim`. `pos` is a ghost bookkeeping sequence
 * giving, for every assigned variable, its position on the trail.
 *
 * `TrailOk` is the invariant the solver keeps: every trail literal is True,
 * sits where `pos` says, carries the level its position lies in, and has
 * either a reason clause whose first literal it is and whose other
 * literals were falsified earlier on the trail, or no reason, in which case
 * it opens its level (a decision) or lies on level 0.
 */
module SolverTrail {
  import opened Wrappers
  import opened LBool
  import opened SatLit
  import opened Assignment

  datatype TrailState = TrailState(
    values: seq<LBool>,
    levels: seq<nat>,
    reasons: seq<Option<nat>>,
    trail: seq<Lit>,
    lim: seq<nat>,
    pos: seq<nat>)

  // ---------- levels of trail positions ----------

  /** The decision level of trail position `i`: the number of levels opened at or before it. */
  function LevelAt(lim: seq<nat>, i: nat): (r: nat)
    ensures r <= |lim|
  {
    if |lim| == 0 then 0 else LevelAt(lim[..|lim| - 1], i) + (if lim[|lim| - 1] <= i then 1 else 0)
  }

  predicate Sorted(lim: seq<nat>)
  {
    forall a, b :: 0 <= a < b < |lim| ==> lim[a] <= lim[b]
  }

  /** On sorted markers, position `i` lies at level `k` or below exactly when it comes before marker `k`. */
  lemma {:induction false} LevelAtBelow(lim: seq<nat>, i: nat, k: nat)
    requires Sorted(lim) && k < |lim|
    ensures LevelAt(lim, i) <= k <==> i < lim[k]
  {
    var init := lim[..|lim| - 1];
    assert Sorted(init);
    if k < |lim| - 1 {
      LevelAtBelow(init, i, k);
    } else if |init| > 0 {
      LevelAtBelow(init, i, |init| - 1);
    }
  }

  /** Positions at or after every marker lie on the last level. */
  lemma {:induction false} LevelAtAll(lim: seq<nat>, i: nat)
    requires forall k :: 0 <= k < |lim| ==> lim[k] <= i
    ensures LevelAt(lim, i) == |lim|
  {
    if |lim| > 0 {
      LevelAtAll(lim[..|lim| - 1], i);
    }
  }

  lemma LevelAtSnoc(lim: seq<nat>, x: nat, i: nat)
    ensures LevelAt(lim + [x], i) == LevelAt(lim, i) + (if x <= i then 1 else 0)
  {
    assert (lim + [x])[..|lim|] == lim;
  }

  /** Cutting the markers back to `l` keeps the level of every position before marker `l`. */
  lemma {:induction false} LevelAtTruncate(lim: seq<nat>, l: nat, i: nat)
    requires Sorted(lim) && l < |lim| && i < lim[l]
    ensures LevelAt(lim[..l], i) == LevelAt(lim, i)
    decreases |lim|
  {
    var init := lim[..|lim| - 1];
    assert Sorted(init);
    if l < |lim| - 1 {
      assert init[..l] == lim[..l];
      LevelAtTruncate(init, l, i);
    } else {
      assert init == lim[..l];
    }
  }

  // ---------- the invariant ----------

  /** The lengths agree with the number of variables and every trail literal names a variable. */
  ghost predicate Shaped(t: TrailState)
  {
    var n := |t.values|;
    && |t.levels| == n && |t.reasons| == n && |t.pos| == n
    && (forall i :: 0 <= i < |t.trail| ==> Var(t.trail[i]) as int < n)
    && Sorted(t.lim)
    && (forall k :: 0 <= k < |t.lim| ==> t.lim[k] <= |t.trail|)
  }

  /** Literal `q` of a reason for trail position `i` is False and was assigned before `i`. */
  ghost predicate EarlierFalse(t: TrailState, q: Lit, i: nat)
  {
    Var(q) as int < |t.values| && |t.pos| == |t.values|
    && LitValue(t.values, q) == False && t.pos[Var(q)] < i
  }

  /** Clause `c` is a valid reason for literal `l` at trail position `i`. */
  ghost predicate ReasonOk(db: seq<seq<Lit>>, t: TrailState, c: nat, l: Lit, i: nat)
  {
    c < |db| && |db[c]| >= 1 && db[c][0] == l
    && forall j :: 1 <= j < |db[c]| ==> EarlierFalse(t, db[c][j], i)
  }

  /** Trail position `i` is consistent with the assignment, the levels and its reason. */
  ghost predicate EntryOk(db: seq<seq<Lit>>, t: TrailState, i: nat)
    requires Shaped(t) && i < |t.trail|
  {
    var l := t.trail[i];
    var v := Var(l);
    && LitValue(t.values, l) == True
    && t.pos[v] == i
    && t.levels[v] == LevelAt(t.lim, i)
    && match t.reasons[v]
       case Some(c) => ReasonOk(db, t, c, l, i)
       case None => t.levels[v] > 0 ==> t.lim[t.levels[v] - 1] == i
  }

  /** An assigned variable sits on the trail where `pos` says. */
  ghost predicate OnTrail(t: TrailState, v: nat)
    requires Shaped(t) && v < |t.values|
  {
    t.values[v] != Undef ==> t.pos[v] < |t.trail| && Var(t.trail[t.pos[v]]) as int == v
  }

  ghost predicate TrailOk(db: seq<seq<Lit>>, t: TrailState)
  {
    && Shaped(t)
    && (forall i :: 0 <= i < |t.trail| ==> EntryOk(db, t, i))
    && (forall v :: 0 <= v < |t.values| ==> OnTrail(t, v))
  }

  /** The variables of a sequence of literals. */
  function VarsOf(s: seq<Lit>): set<nat>
  {
    set i | 0 <= i < |s| :: Var(s[i]) as nat
  }

  /** Distinct trail positions hold distinct variables. */
  lemma TrailDistinct(db: seq<seq<Lit>>, t: TrailState, i: nat, j: nat)
    requires TrailOk(db, t) && i < |t.trail| && j < |t.trail| && i != j
    ensures Var(t.trail[i]) != Var(t.trail[j])
  {
    assert EntryOk(db, t, i) && EntryOk(db, t, j);
  }

  /** A variable that is not assigned does not occur on the trail. */
  lemma UndefNotOnTrail(db: seq<seq<Lit>>, t: TrailState, v: nat, i: nat)
    requires TrailOk(db, t) && v < |t.values| && t.values[v] == Undef && i < |t.trail|
    ensures Var(t.trail[i]) as int != v
  {
    assert EntryOk(db, t, i);
  }

  // ---------- enqueueing ----------

  /** `unchecked_enqueue(l, reason)`: `l` becomes True at the current level and is pushed on the trail. */
  function Enqueued(t: TrailState, l: Lit, reason: Option<nat>): (r: TrailState)
    requires Shaped(t) && Var(l) as int < |t.values|
  {
    var v := Var(l);
    TrailState(
      t.values[v := FromBool(!Negated(l))],
      t.levels[v := |t.lim|],
      t.reasons[v := reason],
      t.trail + [l],
      t.lim,
      t.pos[v := |t.trail|])
  }

  /** What a new trail entry needs of its reason: a valid reason clause, or none on level 0 or at the start of the current level. */
  ghost predicate NewReasonOk(db: seq<seq<Lit>>, t: TrailState, l: Lit, reason: Option<nat>)
  {
    match reason
    case Some(c) => ReasonOk(db, t, c, l, |t.trail|)
    case None => |t.lim| > 0 ==> t.lim[|t.lim| - 1] == |t.trail|
  }

  lemma EnqueuedOk(db: seq<seq<Lit>>, t: TrailState, l: Lit, reason: Option<nat>)
    requires TrailOk(db, t) && Var(l) as int < |t.values| && LitValue(t.values, l) == Undef
    requires NewReasonOk(db, t, l, reason)
    ensures TrailOk(db, Enqueued(t, l, reason))
  {
    var t2 := Enqueued(t, l, reason);
    var v := Var(l);
    var n := |t.trail|;
    LevelAtAll(t.lim, n);
    assert Shaped(t2);
    forall i | 0 <= i < |t2.trail|
      ensures EntryOk(db, t2, i)
    {
      if i < n {
        assert EntryOk(db, t, i);
        UndefNotOnTrail(db, t, v as nat, i);
        var u := Var(t.trail[i]);
        if t.reasons[u].Some? {
          var c := t.reasons[u].value;
          forall j | 1 <= j < |db[c]|
            ensures EarlierFalse(t2, db[c][j], i)
          {
            assert EarlierFalse(t, db[c][j], i);
          }
        }
      } else {
        assert t2.trail[i] == l;
        if reason.Some? {
          var c := reason.value;
          forall j | 1 <= j < |db[c]|
            ensures EarlierFalse(t2, db[c][j], i)
          {
            assert EarlierFalse(t, db[c][j], i);
          }
        }
      }
    }
    forall u | 0 <= u < |t2.values|
      ensures OnTrail(t2, u)
    {
      if u != v as int {
        assert OnTrail(t, u);
      }
    }
  }

  // ---------- opening a level ----------

  /** `new_decision_level`: the current trail length becomes the start of a new level. */
  lemma NewLevelOk(db: seq<seq<Lit>>, t: TrailState)
    requires TrailOk(db, t)
    ensures TrailOk(db, t.(lim := t.lim + [|t.trail|]))
  {
    var t2 := t.(lim := t.lim + [|t.trail|]);
    assert Shaped(t2);
    forall i | 0 <= i < |t2.trail|
      ensures EntryOk(db, t2, i)
    {
      assert EntryOk(db, t, i);
      LevelAtSnoc(t.lim, |t.trail|, i);
      var u := Var(t.trail[i]);
      if t.reasons[u].Some? {
        var c := t.reasons[u].value;
        forall j | 1 <= j < |db[c]|
          ensures EarlierFalse(t2, db[c][j], i)
        {
          assert EarlierFalse(t, db[c][j], i);
        }
      }
    }
    forall u | 0 <= u < |t2.values|
      ensures OnTrail(t2, u)
    {
      assert OnTrail(t, u);
    }
  }

  // ---------- backtracking ----------

  /** The assignment after unassigning every variable of `removed`. */
  function Unassigned(values: seq<LBool>, removed: set<nat>): (r: seq<LBool>)
    ensures |r| == |values|
    ensures forall v :: 0 <= v < |values| ==> r[v] == if v in removed then Undef else values[v]
  {
    seq(|values|, v requires 0 <= v < |values| => if v in removed then Undef else values[v])
  }

  /** `backtrack(level)` below the current level: the trail and the markers are cut back to the start of level `level + 1`. */
  function Backtracked(t: TrailState, level: nat): (r: TrailState)
    requires Shaped(t) && level < |t.lim|
  {
    var cut := t.lim[level];
    TrailState(
      Unassigned(t.values, VarsOf(t.trail[cut..])),
      t.levels,
      t.reasons,
      t.trail[..cut],
      t.lim[..level],
      t.pos)
  }

  /** A variable assigned before the cut is not among the removed ones. */
  lemma KeptNotRemoved(db: seq<seq<Lit>>, t: TrailState, cut: nat, v: nat)
    requires TrailOk(db, t) && cut <= |t.trail| && v < |t.values| && t.values[v] != Undef && t.pos[v] < cut
    ensures v !in VarsOf(t.trail[cut..])
  {
    assert OnTrail(t, v);
    forall i | 0 <= i < |t.trail[cut..]|
      ensures Var(t.trail[cut..][i]) as nat != v
    {
      assert t.trail[cut..][i] == t.trail[cut + i];
      assert EntryOk(db, t, cut + i);
    }
  }

  /** A variable on the trail at or after the cut is among the removed ones. */
  lemma InRemoved(t: TrailState, cut: nat, i: nat)
    requires cut <= |t.trail| && i < |t.trail|
    ensures cut <= i ==> Var(t.trail[i]) as nat in VarsOf(t.trail[cut..])
  {
    if cut <= i {
      assert t.trail[cut..][i - cut] == t.trail[i];
    }
  }

  lemma BacktrackedOk(db: seq<seq<Lit>>, t: TrailState, level: nat)
    requires TrailOk(db, t) && level < |t.lim|
    ensures TrailOk(db, Backtracked(t, level))
  {
    var t2 := Backtracked(t, level);
    var cut := t.lim[level];
    var removed := VarsOf(t.trail[cut..]);
    assert Sorted(t2.lim);
    assert Shaped(t2);
    forall i | 0 <= i < |t2.trail|
      ensures EntryOk(db, t2, i)
    {
      assert t2.trail[i] == t.trail[i];
      assert EntryOk(db, t, i);
      var u := Var(t.trail[i]);
      KeptNotRemoved(db, t, cut, u as nat);
      LevelAtTruncate(t.lim, level, i);
      if t.reasons[u].Some? {
        var c := t.reasons[u].value;
        forall j | 1 <= j < |db[c]|
          ensures EarlierFalse(t2, db[c][j], i)
        {
          assert EarlierFalse(t, db[c][j], i);
          KeptNotRemoved(db, t, cut, Var(db[c][j]) as nat);
        }
      } else if t.levels[u] > 0 {
        LevelAtBelow(t.lim, i, level);
      }
    }
    forall u | 0 <= u < |t2.values|
      ensures OnTrail(t2, u)
    {
      assert OnTrail(t, u);
      if t2.values[u] != Undef {
        InRemoved(t, cut, t.pos[u]);
      }
    }
  }

  /**
   * After backtracking to `level`, a variable assigned on a level at or
   * below `level` keeps its value and its trail position, and one assigned
   * above `level` is unassigned.
   */
  lemma BacktrackedValue(db: seq<seq<Lit>>, t: TrailState, level: nat, v: nat)
    requires TrailOk(db, t) && level < |t.lim| && v < |t.values| && t.values[v] != Undef
    ensures t.levels[v] <= level ==> Backtracked(t, level).values[v] == t.values[v] && t.pos[v] < t.lim[level]
    ensures t.levels[v] > level ==> Backtracked(t, level).values[v] == Undef
  {
    assert OnTrail(t, v);
    var i := t.pos[v];
    assert EntryOk(db, t, i);
    LevelAtBelow(t.lim, i, level);
    if t.levels[v] <= level {
      KeptNotRemoved(db, t, t.lim[level], v);
    } else {
      assert t.trail[t.lim[level]..][i - t.lim[level]] == t.trail[i];
    }
  }

  // ---------- changes outside the trail ----------

  /** A clause whose first literal is not True is no assigned variable's reason, so its literals may be reordered. */
  lemma ReorderOk(db: seq<seq<Lit>>, t: TrailState, c: nat, lits: seq<Lit>)
    requires TrailOk(db, t) && c < |db| && |db[c]| >= 1
    requires Var(db[c][0]) as int < |t.values| && LitValue(t.values, db[c][0]) != True
    ensures TrailOk(db[c := lits], t)
  {
    var db2 := db[c := lits];
    forall i | 0 <= i < |t.trail|
      ensures EntryOk(db2, t, i)
    {
      assert EntryOk(db, t, i);
      var u := Var(t.trail[i]);
      if t.reasons[u].Some? {
        var r := t.reasons[u].value;
        assert r != c;
        assert db2[r] == db[r];
        forall j | 1 <= j < |db2[r]|
          ensures EarlierFalse(t, db2[r][j], i)
        {
          assert EarlierFalse(t, db[r][j], i);
        }
      }
    }
    forall u | 0 <= u < |t.values|
      ensures OnTrail(t, u)
    {
    }
  }

  /** A new clause in the store is no reason yet. */
  lemma AppendClauseOk(db: seq<seq<Lit>>, t: TrailState, lits: seq<Lit>)
    requires TrailOk(db, t)
    ensures TrailOk(db + [lits], t)
  {
    var db2 := db + [lits];
    forall i | 0 <= i < |t.trail|
      ensures EntryOk(db2, t, i)
    {
      assert EntryOk(db, t, i);
      var u := Var(t.trail[i]);
      if t.reasons[u].Some? {
        var r := t.reasons[u].value;
        assert db2[r] == db[r];
        forall j | 1 <= j < |db2[r]|
          ensures EarlierFalse(t, db2[r][j], i)
        {
          assert EarlierFalse(t, db[r][j], i);
        }
      }
    }
    forall u | 0 <= u < |t.values|
      ensures OnTrail(t, u)
    {
    }
  }

  /** `new_var`: one more variable, unassigned, on level 0 without a reason. */
  function WithNewVar(t: TrailState): TrailState
  {
    t.(values := t.values + [Undef], levels := t.levels + [0], reasons := t.reasons + [None], pos := t.pos + [0])
  }

  lemma NewVarOk(db: seq<seq<Lit>>, t: TrailState)
    requires TrailOk(db, t)
    ensures TrailOk(db, WithNewVar(t))
  {
    var t2 := WithNewVar(t);
    assert Shaped(t2);
    forall i | 0 <= i < |t2.trail|
      ensures EntryOk(db, t2, i)
    {
      assert EntryOk(db, t, i);
      var u := Var(t.trail[i]);
      if t.reasons[u].Some? {
        var c := t.reasons[u].value;
        forall j | 1 <= j < |db[c]|
          ensures EarlierFalse(t2, db[c][j], i)
        {
          assert EarlierFalse(t, db[c][j], i);
        }
      }
    }
    forall u | 0 <= u < |t2.values|
      ensures OnTrail(t2, u)
    {
      if u < |t.values| {
        assert OnTrail(t, u);
      }
    }
  }

  // ---------- growth during propagation ----------

  /** An assigned variable of `t0` keeps its value and level in `t1`. */
  ghost predicate KeepsVar(t0: TrailState, t1: TrailState, v: nat)
  {
    v < |t0.values| && v < |t0.levels| && t0.values[v] != Undef ==>
      v < |t1.values| && v < |t1.levels| && t1.values[v] == t0.values[v] && t1.levels[v] == t0.levels[v]
  }

  /** `t1` only adds assignments to `t0`, at the end of its trail and on its current level. */
  ghost predicate Grows(t0: TrailState, t1: TrailState)
  {
    && |t1.values| == |t0.values|
    && |t0.trail| <= |t1.trail| && t1.trail[..|t0.trail|] == t0.trail
    && t1.lim == t0.lim
    && forall v: nat :: KeepsVar(t0, t1, v)
  }

  lemma GrowsRefl(t: TrailState)
    ensures Grows(t, t)
  {
    assert t.trail[..|t.trail|] == t.trail;
    forall v: nat
      ensures KeepsVar(t, t, v)
    {
    }
  }

  lemma GrowsTrans(t0: TrailState, t1: TrailState, t2: TrailState)
    requires Grows(t0, t1) && Grows(t1, t2)
    ensures Grows(t0, t2)
  {
    assert t2.trail[..|t0.trail|] == t2.trail[..|t1.trail|][..|t0.trail|];
    forall v: nat
      ensures KeepsVar(t0, t2, v)
    {
      assert KeepsVar(t0, t1, v);
      if v < |t1.values| {
        assert KeepsVar(t1, t2, v);
      }
    }
  }

  /** Enqueueing an unassigned literal grows the trail state. */
  lemma EnqueuedGrows(t: TrailState, l: Lit, reason: Option<nat>)
    requires Shaped(t) && Var(l) as int < |t.values| && LitValue(t.values, l) == Undef
    ensures Grows(t, Enqueued(t, l, reason))
  {
    var t2 := Enqueued(t, l, reason);
    assert t2.trail[..|t.trail|] == t.trail;
    forall v: nat
      ensures KeepsVar(t, t2, v)
    {
    }
  }

  // ---------- the trail is no longer than the number of variables ----------

  /** The variables below `n`. */
  function Below(n: nat): (r: set<nat>)
    ensures |r| == n && forall v: nat :: v in r <==> v < n
  {
    if n == 0 then {}
    else
      var b := Below(n - 1);
      assert n - 1 !in b;
      b + {n - 1}
  }

  lemma {:induction false} DistinctVarsCard(s: seq<Lit>)
    requires forall i, j :: 0 <= i < j < |s| ==> Var(s[i]) != Var(s[j])
    ensures |VarsOf(s)| == |s|
  {
    if |s| > 0 {
      var init := s[..|s| - 1];
      DistinctVarsCard(init);
      assert VarsOf(s) == VarsOf(init) + {Var(s[|s| - 1]) as nat};
    }
  }

  /** Every variable is on the trail at most once, so the trail is no longer than the number of variables. */
  lemma TrailBound(db: seq<seq<Lit>>, t: TrailState)
    requires TrailOk(db, t)
    ensures |t.trail| <= |t.values|
  {
    forall i, j | 0 <= i < j < |t.trail|
      ensures Var(t.trail[i]) != Var(t.trail[j])
    {
      TrailDistinct(db, t, i, j);
    }
    DistinctVarsCard(t.trail);
    var all := Below(|t.values|);
    var used := VarsOf(t.trail);
    assert used <= all;
    assert all == used + (all - used);
    assert |all| == |used| + |all - used|;
  }
}
