/**
 * The CDCL solver of `simple-sat` (lib/simple-sat/src/solver.rs).
 *
 * Clauses live in a clause store `db`; a clause reference (`Rc<Clause>` in
 * the source) is an index into it, so the in-place literal swaps that
 * propagation performs through the shared `Rc` are updates of one entry
 * of `db`, seen by every watcher of that clause. `clauses` and `learnts`
 * list the references of the original and the learnt clauses. The fields
 * `assignment`, `var_data` (level and reason), `trail` and `trail_lim` of
 * the source together form the trail state `ts`, whose `pos` component is
 * bookkeeping (the trail position of every assigned variable) that the
 * source does not keep. The decision heap is modelled by its contents,
 * `inHeap`, and its pop order by the solver's comparator on activities.
 */
module Solver {
  import opened Wrappers
  import opened LBool
  import opened SatLit
  import opened Assignment
  import opened SolverTrail
  import opened Watch
  import IdxHeap
  import SolverAnalyze
  import SatUtils

  /** What `propagate` ends with; `DebugAbort` is the failed `debug_assert` on the watched literal. */
  datatype PropResult = NoConflict | Conflict(cref: nat) | DebugAbort

  // ---------- shape of the clause store and the watch lists ----------

  /** A stored clause is non-empty and names only existing variables. */
  predicate ClauseOk(c: seq<Lit>, n: nat)
  {
    |c| >= 1 && forall j :: 0 <= j < |c| ==> Var(c[j]) as int < n
  }

  predicate DbOk(db: seq<seq<Lit>>, n: nat)
  {
    forall c :: 0 <= c < |db| ==> ClauseOk(db[c], n)
  }

  /** A watcher names a stored clause of at least two literals and an existing blocker variable. */
  predicate WatcherOk(w: Watcher, db: seq<seq<Lit>>, n: nat)
  {
    w.cref < |db| && |db[w.cref]| >= 2 && Var(w.blocker) as int < n
  }

  predicate ListOk(ws: seq<Watcher>, db: seq<seq<Lit>>, n: nat)
  {
    forall k :: 0 <= k < |ws| ==> WatcherOk(ws[k], db, n)
  }

  predicate WatchesOk(watches: seq<seq<Watcher>>, db: seq<seq<Lit>>, n: nat)
  {
    forall i :: 0 <= i < |watches| ==> ListOk(watches[i], db, n)
  }

  predicate RefsOk(refs: seq<nat>, db: seq<seq<Lit>>)
  {
    forall k :: 0 <= k < |refs| ==> refs[k] < |db|
  }

  /** Every unassigned variable is in the decision heap. */
  predicate HeapOk(inHeap: seq<bool>, values: seq<LBool>)
  {
    |inHeap| == |values| && forall v :: 0 <= v < |values| && values[v] == Undef ==> inHeap[v]
  }

  /** The same, except for variable `x`, which the decision just taken out of the heap is about to assign. */
  predicate HeapOkBut(inHeap: seq<bool>, values: seq<LBool>, x: nat)
  {
    |inHeap| == |values| && forall v :: 0 <= v < |values| && values[v] == Undef && v != x ==> inHeap[v]
  }

  /** One more than the largest variable of `lits` (the source's 1-based `max_var`). */
  function MaxVar(lits: seq<Lit>): (m: nat)
    ensures forall j :: 0 <= j < |lits| ==> Var(lits[j]) as int < m
    ensures |lits| > 0 ==> exists j :: 0 <= j < |lits| && m == Var(lits[j]) as int + 1
  {
    if |lits| == 0 then 0
    else
      var m0 := MaxVar(lits[..|lits| - 1]);
      var x := Var(lits[|lits| - 1]) as nat + 1;
      assert forall j :: 0 <= j < |lits| - 1 ==> lits[j] == lits[..|lits| - 1][j];
      if x > m0 then x else m0
  }

  /** The watch lists after `attach_clause(cref)`: a watcher on each of the first two literals, blocked by the other. */
  function Attached(watches: seq<seq<Watcher>>, cref: nat, c: seq<Lit>): seq<seq<Watcher>>
    requires |c| >= 2 && Index(c[0]) < |watches| && Index(c[1]) < |watches|
  {
    Pushed(Pushed(watches, c[0], Watcher(cref, c[1])), c[1], Watcher(cref, c[0]))
  }

  /** The heap contents after `insert_var_order` of every variable in `vars`. */
  function Reinserted(inHeap: seq<bool>, vars: set<nat>): (r: seq<bool>)
    ensures |r| == |inHeap|
    ensures forall v :: 0 <= v < |inHeap| ==> r[v] == (v in vars || inHeap[v])
  {
    seq(|inHeap|, v requires 0 <= v < |inHeap| => v in vars || inHeap[v])
  }

  /**
   * `watchlist.init(var)` of a fresh variable `v`, which grows the lists to
   * cover both of its literals, appends exactly two empty lists.
   */
  lemma InitAppends(watches: seq<seq<Watcher>>, v: u32)
    requires |watches| == 2 * v as int && v as int <= I32Max
    ensures IdxVec.Grown(IdxVec.Grown(watches, Index(New(v, false)), []), Index(New(v, true)), []) == watches + [[], []]
  {
    NewRoundTrip(v, false);
    NewRoundTrip(v, true);
  }

  /** A new variable keeps the clause store, the watch lists and the heap well formed. */
  lemma NewVarShapes(db: seq<seq<Lit>>, watches: seq<seq<Watcher>>, n: nat)
    requires DbOk(db, n) && WatchesOk(watches, db, n)
    ensures DbOk(db, n + 1) && WatchesOk(watches + [[], []], db, n + 1)
  {
    forall c | 0 <= c < |db|
      ensures ClauseOk(db[c], n + 1)
    {
      assert ClauseOk(db[c], n);
    }
    forall i | 0 <= i < |watches + [[], []]|
      ensures ListOk((watches + [[], []])[i], db, n + 1)
    {
      if i < |watches| {
        assert ListOk(watches[i], db, n);
        assert (watches + [[], []])[i] == watches[i];
      }
    }
  }

  /** `s` padded with `d` up to length `n`. */
  function Widened<T>(s: seq<T>, n: nat, d: T): (r: seq<T>)
    ensures |r| == if n > |s| then n else |s|
    ensures forall i :: 0 <= i < |s| ==> r[i] == s[i]
    ensures forall i :: |s| <= i < |r| ==> r[i] == d
  {
    if n > |s| then s + seq(n - |s|, _ => d) else s
  }

  lemma WidenedSnoc<T>(s: seq<T>, n: nat, d: T)
    requires n >= |s|
    ensures Widened(s, n + 1, d) == Widened(s, n, d) + [d]
  {
  }

  /** Appending a clause over existing variables keeps the store, the watch lists and the references well formed. */
  lemma AppendShapes(db: seq<seq<Lit>>, watches: seq<seq<Watcher>>, refs: seq<nat>, lits: seq<Lit>, n: nat)
    requires DbOk(db, n) && WatchesOk(watches, db, n) && RefsOk(refs, db) && ClauseOk(lits, n)
    ensures DbOk(db + [lits], n) && WatchesOk(watches, db + [lits], n)
    ensures RefsOk(refs, db + [lits]) && RefsOk(refs + [|db|], db + [lits])
  {
    var db2 := db + [lits];
    forall c | 0 <= c < |db2|
      ensures ClauseOk(db2[c], n)
    {
      if c < |db| {
        assert ClauseOk(db[c], n) && db2[c] == db[c];
      }
    }
    forall i | 0 <= i < |watches|
      ensures ListOk(watches[i], db2, n)
    {
      forall k | 0 <= k < |watches[i]|
        ensures WatcherOk(watches[i][k], db2, n)
      {
        assert ListOk(watches[i], db, n);
        assert WatcherOk(watches[i][k], db, n);
      }
    }
  }

  // ---------- propagation on values ----------

  /** Every literal of `c` is False. */
  ghost predicate Falsified(values: seq<LBool>, c: seq<Lit>)
  {
    forall j :: 0 <= j < |c| ==> Var(c[j]) as int < |values| && LitValue(values, c[j]) == False
  }

  /** `c` with the literals at `i` and `j` exchanged (`ptr::swap` on the clause). */
  function Swapped(c: seq<Lit>, i: nat, j: nat): (r: seq<Lit>)
    requires i < |c| && j < |c|
    ensures |r| == |c| && r[i] == c[j] && r[j] == c[i]
    ensures forall k :: 0 <= k < |c| && k != i && k != j ==> r[k] == c[k]
    ensures multiset(r) == multiset(c)
  {
    c[i := c[j]][j := c[i]]
  }

  /** `db1` holds the clauses of `db0`, each with its literals possibly reordered. */
  ghost predicate Reordered(db0: seq<seq<Lit>>, db1: seq<seq<Lit>>)
  {
    |db1| == |db0| && forall c :: 0 <= c < |db0| ==> multiset(db1[c]) == multiset(db0[c])
  }

  lemma ReorderedTrans(db0: seq<seq<Lit>>, db1: seq<seq<Lit>>, db2: seq<seq<Lit>>)
    requires Reordered(db0, db1) && Reordered(db1, db2)
    ensures Reordered(db0, db2)
  {
    forall c | 0 <= c < |db0|
      ensures multiset(db2[c]) == multiset(db0[c])
    {
      assert multiset(db1[c]) == multiset(db0[c]);
    }
  }

  /** Reordering the clauses keeps every watcher well formed. */
  lemma ReorderedListOk(ws: seq<Watcher>, db0: seq<seq<Lit>>, db1: seq<seq<Lit>>, n: nat)
    requires Reordered(db0, db1) && ListOk(ws, db0, n)
    ensures ListOk(ws, db1, n)
  {
    forall k | 0 <= k < |ws|
      ensures WatcherOk(ws[k], db1, n)
    {
      assert WatcherOk(ws[k], db0, n);
      var c := ws[k].cref;
      assert |db1[c]| == |multiset(db1[c])| == |multiset(db0[c])| == |db0[c]|;
    }
  }

  /** A reordering of a well-formed clause is well formed. */
  lemma PermutedClauseOk(c: seq<Lit>, lits: seq<Lit>, n: nat)
    requires ClauseOk(c, n) && multiset(lits) == multiset(c)
    ensures ClauseOk(lits, n)
  {
    assert |lits| == |multiset(lits)| == |multiset(c)| == |c|;
    forall j | 0 <= j < |lits|
      ensures Var(lits[j]) as int < n
    {
      assert lits[j] in multiset(lits);
      assert lits[j] in c;
    }
  }

  /** Replacing a clause by a reordering of it keeps the store, the watch lists and the references well formed. */
  lemma RewriteShapes(db: seq<seq<Lit>>, watches: seq<seq<Watcher>>, clauses: seq<nat>, learnts: seq<nat>,
                      cref: nat, lits: seq<Lit>, n: nat)
    requires DbOk(db, n) && WatchesOk(watches, db, n) && RefsOk(clauses, db) && RefsOk(learnts, db)
    requires cref < |db| && multiset(lits) == multiset(db[cref])
    ensures Reordered(db, db[cref := lits])
    ensures DbOk(db[cref := lits], n) && WatchesOk(watches, db[cref := lits], n)
    ensures RefsOk(clauses, db[cref := lits]) && RefsOk(learnts, db[cref := lits])
  {
    var db2 := db[cref := lits];
    assert ClauseOk(db[cref], n);
    PermutedClauseOk(db[cref], lits, n);
    forall c | 0 <= c < |db2|
      ensures ClauseOk(db2[c], n)
    {
      if c != cref {
        assert ClauseOk(db[c], n);
      }
    }
    forall i | 0 <= i < |watches|
      ensures ListOk(watches[i], db2, n)
    {
      assert ListOk(watches[i], db, n);
      ReorderedListOk(watches[i], db, db2, n);
    }
  }

  /** Pushing a well-formed watcher keeps the watch lists well formed. */
  lemma PushedOk(watches: seq<seq<Watcher>>, db: seq<seq<Lit>>, n: nat, l: Lit, w: Watcher)
    requires WatchesOk(watches, db, n) && Index(l) < |watches| && WatcherOk(w, db, n)
    ensures WatchesOk(Pushed(watches, l, w), db, n)
  {
    var ws := Pushed(watches, l, w);
    forall i | 0 <= i < |ws|
      ensures ListOk(ws[i], db, n)
    {
      assert ListOk(watches[i], db, n);
    }
  }

  /** Replacing a watch list by a well-formed one keeps the watch lists well formed. */
  lemma ReplacedOk(watches: seq<seq<Watcher>>, db: seq<seq<Lit>>, n: nat, i: nat, ws: seq<Watcher>)
    requires WatchesOk(watches, db, n) && i < |watches| && ListOk(ws, db, n)
    ensures WatchesOk(watches[i := ws], db, n)
  {
    var w2 := watches[i := ws];
    forall j | 0 <= j < |w2|
      ensures ListOk(w2[j], db, n)
    {
      assert ListOk(watches[j], db, n);
    }
  }

  /** What the inner loop of `propagate` keeps across one watcher visit. */
  lemma VisitShapes(db0: seq<seq<Lit>>, db1: seq<seq<Lit>>, db2: seq<seq<Lit>>,
                    t0: TrailState, t1: TrailState, t2: TrailState, ws: seq<Watcher>, kept: seq<Watcher>, n: nat)
    requires Reordered(db0, db1) && Reordered(db1, db2) && Grows(t0, t1) && Grows(t1, t2)
    requires ListOk(ws, db1, n) && ListOk(kept, db1, n)
    ensures Reordered(db0, db2) && Grows(t0, t2) && ListOk(ws, db2, n) && ListOk(kept, db2, n)
  {
    ReorderedTrans(db0, db1, db2);
    GrowsTrans(t0, t1, t2);
    ReorderedListOk(ws, db1, db2, n);
    ReorderedListOk(kept, db1, db2, n);
  }

  /** The solver invariant, apart from the decision heap. */
  ghost predicate CoreOk(db: seq<seq<Lit>>, clauses: seq<nat>, learnts: seq<nat>, watches: seq<seq<Watcher>>,
                         t: TrailState, activity: seq<int>, qhead: nat, n: nat)
  {
    && n <= I32Max + 1
    && |t.values| == n && |activity| == n
    && |watches| == 2 * n
    && DbOk(db, n)
    && WatchesOk(watches, db, n)
    && RefsOk(clauses, db) && RefsOk(learnts, db)
    && TrailOk(db, t)
    && qhead <= |t.trail|
    && (|t.lim| > 0 ==> t.lim[|t.lim| - 1] <= qhead)
  }

  lemma IndexBound(l: Lit, n: nat)
    requires Var(l) as int < n
    ensures Index(l) < 2 * n
  {
  }

  class Solver {
    var db: seq<seq<Lit>>
    var clauses: seq<nat>
    var learnts: seq<nat>
    var watches: seq<seq<Watcher>>
    var ts: TrailState
    var qhead: nat
    var ok: bool
    var nextVar: nat
    var activity: seq<int>
    var inHeap: seq<bool>

    ghost predicate Valid()
      reads this
    {
      CoreOk(db, clauses, learnts, watches, ts, activity, qhead, nextVar) && HeapOk(inHeap, ts.values)
    }

    /** `Solver::new`: no variables, no clauses, not yet unsatisfiable. */
    constructor ()
      ensures Valid() && ok && nextVar == 0 && db == [] && clauses == [] && learnts == []
      ensures ts.trail == [] && ts.lim == [] && qhead == 0
    {
      db := [];
      clauses := [];
      learnts := [];
      watches := [];
      ts := TrailState([], [], [], [], [], []);
      qhead := 0;
      ok := true;
      nextVar := 0;
      activity := [];
      inHeap := [];
      new;
      assert Sorted(ts.lim);
    }

    /** `value_var`. */
    function ValueVar(v: u32): LBool
      reads this
      requires v as int < |ts.values|
    {
      ts.values[v]
    }

    /** `value(lit)`: the variable's value xor-ed with the literal's polarity. */
    function Value(l: Lit): (r: LBool)
      reads this
      requires Var(l) as int < |ts.values|
      ensures r == LitValue(ts.values, l)
    {
      Xor(ValueVar(Var(l)), Negated(l))
    }

    /** `decision_level`: the number of level markers. */
    function DecisionLevel(): (d: nat)
      reads this
      ensures d == |ts.lim|
    {
      |ts.lim|
    }

    /** `new_var`: a fresh unassigned variable, with empty watch lists, level 0, no reason, activity 0, in the heap. */
    method NewVar() returns (v: u32)
      requires Valid() && nextVar <= I32Max
      modifies this
      ensures Valid()
      ensures v as int == old(nextVar) && nextVar == old(nextVar) + 1
      ensures watches == old(watches) + [[], []] && ts == WithNewVar(old(ts))
      ensures activity == old(activity) + [0] && inHeap == old(inHeap) + [true]
      ensures db == old(db) && clauses == old(clauses) && learnts == old(learnts)
      ensures qhead == old(qhead) && ok == old(ok)
    {
      NewVarShapes(db, watches, nextVar);
      NewVarOk(db, ts);
      v := nextVar as u32;
      nextVar := nextVar + 1;
      // `watchlist.init(var)`; see InitAppends
      watches := watches + [[], []];
      ts := WithNewVar(ts);
      activity := activity + [0];
      inHeap := inHeap + [true];
    }

    /** The loop of `add_clause` that creates every missing variable up to the 1-based `maxVar`. */
    method NewVarsUpTo(maxVar: nat)
      requires Valid() && maxVar <= I32Max + 1
      modifies this
      ensures Valid()
      ensures nextVar == if maxVar > old(nextVar) then maxVar else old(nextVar)
      ensures ts == old(ts).(values := Widened(old(ts.values), nextVar, Undef),
                             levels := Widened(old(ts.levels), nextVar, 0),
                             reasons := Widened(old(ts.reasons), nextVar, None),
                             pos := Widened(old(ts.pos), nextVar, 0))
      ensures activity == Widened(old(activity), nextVar, 0) && inHeap == Widened(old(inHeap), nextVar, true)
      ensures watches == Widened(old(watches), 2 * nextVar, [])
      ensures db == old(db) && clauses == old(clauses) && learnts == old(learnts)
      ensures qhead == old(qhead) && ok == old(ok)
    {
      while nextVar < maxVar
        invariant Valid() && old(nextVar) <= nextVar
        invariant nextVar <= if maxVar > old(nextVar) then maxVar else old(nextVar)
        invariant ts == old(ts).(values := Widened(old(ts.values), nextVar, Undef),
                                 levels := Widened(old(ts.levels), nextVar, 0),
                                 reasons := Widened(old(ts.reasons), nextVar, None),
                                 pos := Widened(old(ts.pos), nextVar, 0))
        invariant activity == Widened(old(activity), nextVar, 0) && inHeap == Widened(old(inHeap), nextVar, true)
        invariant watches == Widened(old(watches), 2 * nextVar, [])
        invariant db == old(db) && clauses == old(clauses) && learnts == old(learnts)
        invariant qhead == old(qhead) && ok == old(ok)
        decreases maxVar - nextVar
      {
        ghost var n := nextVar;
        WidenedSnoc(old(ts.values), n, Undef);
        WidenedSnoc(old(ts.levels), n, 0);
        WidenedSnoc(old(ts.reasons), n, None);
        WidenedSnoc(old(ts.pos), n, 0);
        WidenedSnoc(old(activity), n, 0);
        WidenedSnoc(old(inHeap), n, true);
        WidenedSnoc(old(watches), 2 * n, []);
        WidenedSnoc(old(watches), 2 * n + 1, []);
        var _ := NewVar();
      }
    }

    /** `new_decision_level`: the current trail length opens a new level. */
    method NewDecisionLevel()
      requires Valid() && qhead == |ts.trail|
      modifies this
      ensures Valid()
      ensures ts == old(ts).(lim := old(ts.lim) + [|ts.trail|])
      ensures db == old(db) && clauses == old(clauses) && learnts == old(learnts) && watches == old(watches)
      ensures qhead == old(qhead) && ok == old(ok) && nextVar == old(nextVar)
      ensures activity == old(activity) && inHeap == old(inHeap)
    {
      NewLevelOk(db, ts);
      ts := ts.(lim := ts.lim + [|ts.trail|]);
    }

    /**
     * `unchecked_enqueue(lit, reason)`: `lit` becomes True, records the
     * current level and the reason, and is pushed on the trail (the
     * `debug_assert` demands that `lit` is unassigned). The variable may be
     * missing from the heap, as the just-picked decision variable is.
     */
    method UncheckedEnqueue(l: Lit, reason: Option<nat>)
      requires CoreOk(db, clauses, learnts, watches, ts, activity, qhead, nextVar)
      requires HeapOkBut(inHeap, ts.values, Var(l) as nat)
      requires Var(l) as int < nextVar && LitValue(ts.values, l) == Undef
      requires NewReasonOk(db, ts, l, reason)
      modifies this
      ensures Valid()
      ensures ts == Enqueued(old(ts), l, reason)
      ensures LitValue(ts.values, l) == True && ts.levels[Var(l)] == |ts.lim|
      ensures ts.reasons[Var(l)] == reason && ts.trail == old(ts.trail) + [l]
      ensures db == old(db) && clauses == old(clauses) && learnts == old(learnts) && watches == old(watches)
      ensures qhead == old(qhead) && ok == old(ok) && nextVar == old(nextVar)
      ensures activity == old(activity) && inHeap == old(inHeap)
    {
      EnqueuedOk(db, ts, l, reason);
      var v := Var(l);
      ts := TrailState(
        ts.values[v := FromBool(!Negated(l))],
        ts.levels[v := |ts.lim|],
        ts.reasons[v := reason],
        ts.trail + [l],
        ts.lim,
        ts.pos[v := |ts.trail|]);
      assert ts == Enqueued(old(ts), l, reason);
    }

    /**
     * `enqueue(lit, reason)`: an unassigned literal is enqueued and the call
     * succeeds; a True literal changes nothing and succeeds; a False literal
     * changes nothing and fails.
     */
    method Enqueue(l: Lit, reason: Option<nat>) returns (b: bool)
      requires Valid() && Var(l) as int < nextVar
      requires LitValue(ts.values, l) == Undef ==> NewReasonOk(db, ts, l, reason)
      modifies this
      ensures Valid()
      ensures old(LitValue(ts.values, l)) == Undef ==> b && ts == Enqueued(old(ts), l, reason)
      ensures old(LitValue(ts.values, l)) != Undef ==> ts == old(ts) && (b <==> old(LitValue(ts.values, l)) == True)
      ensures db == old(db) && clauses == old(clauses) && learnts == old(learnts) && watches == old(watches)
      ensures qhead == old(qhead) && ok == old(ok) && nextVar == old(nextVar)
      ensures activity == old(activity) && inHeap == old(inHeap)
    {
      match Value(l)
      case Undef =>
        UncheckedEnqueue(l, reason);
        b := true;
      case True =>
        b := true;
      case False =>
        b := false;
    }

    /**
     * `backtrack(level)`: below the current level, every variable assigned
     * after the start of level `level + 1` is unassigned and put back in the
     * heap, `qhead` and the trail are cut back to that start and the markers
     * to `level`; otherwise nothing changes. The source asserts that a
     * non-zero target lies below the current level.
     */
    method Backtrack(level: nat)
      requires Valid() && (level > 0 ==> |ts.lim| > level)
      modifies this
      ensures Valid()
      ensures |old(ts.lim)| > level ==>
        && ts == Backtracked(old(ts), level)
        && qhead == old(ts.lim)[level] == |ts.trail|
        && |ts.lim| == level
        && inHeap == Reinserted(old(inHeap), VarsOf(old(ts.trail)[old(ts.lim)[level]..]))
      ensures |old(ts.lim)| <= level ==> ts == old(ts) && qhead == old(qhead) && inHeap == old(inHeap)
      ensures db == old(db) && clauses == old(clauses) && learnts == old(learnts) && watches == old(watches)
      ensures ok == old(ok) && nextVar == old(nextVar) && activity == old(activity)
    {
      if |ts.lim| > level {
        var cut := ts.lim[level];
        var values := ts.values;
        var heap := inHeap;
        var i := |ts.trail|;
        while i > cut
          invariant cut <= i <= |ts.trail|
          invariant values == Unassigned(ts.values, VarsOf(ts.trail[i..]))
          invariant heap == Reinserted(inHeap, VarsOf(ts.trail[i..]))
          decreases i
        {
          i := i - 1;
          var v := Var(ts.trail[i]);
          assert ts.trail[i..] == [ts.trail[i]] + ts.trail[i + 1..];
          assert VarsOf(ts.trail[i..]) == VarsOf(ts.trail[i + 1..]) + {v as nat};
          values := values[v := Undef];
          heap := heap[v := true];
        }
        BacktrackedOk(db, ts, level);
        assert level > 0 ==> ts.lim[level - 1] <= cut;
        ts := TrailState(values, ts.levels, ts.reasons, ts.trail[..cut], ts.lim[..level], ts.pos);
        inHeap := heap;
        qhead := cut;
      }
    }

    /** `attach_clause(cref)`: the clause is watched on its first two literals, each blocked by the other. */
    method AttachClause(cref: nat)
      requires Valid() && cref < |db| && |db[cref]| >= 2
      modifies this
      ensures Valid() && db == old(db)
      ensures Index(db[cref][0]) < |old(watches)| && Index(db[cref][1]) < |old(watches)|
      ensures watches == Attached(old(watches), cref, db[cref])
      ensures ts == old(ts) && clauses == old(clauses) && learnts == old(learnts)
      ensures qhead == old(qhead) && ok == old(ok) && nextVar == old(nextVar)
      ensures activity == old(activity) && inHeap == old(inHeap)
    {
      var c := db[cref];
      assert ClauseOk(c, nextVar);
      IndexBound(c[0], nextVar);
      IndexBound(c[1], nextVar);
      var w0 := Watcher(cref, c[1]);
      var w1 := Watcher(cref, c[0]);
      assert WatcherOk(w0, db, nextVar) && WatcherOk(w1, db, nextVar);
      var ws := watches[Index(c[0]) := watches[Index(c[0])] + [w0]];
      ws := ws[Index(c[1]) := ws[Index(c[1])] + [w1]];
      assert WatchesOk(ws, db, nextVar) by {
        forall i | 0 <= i < |ws|
          ensures ListOk(ws[i], db, nextVar)
        {
          assert ListOk(watches[i], db, nextVar);
        }
      }
      watches := ws;
    }

    /** The part of `add_clause` that stores the clause among the original clauses. */
    method StoreClause(lits: seq<Lit>)
      requires Valid() && ClauseOk(lits, nextVar)
      modifies this
      ensures Valid()
      ensures db == old(db) + [lits] && clauses == old(clauses) + [|old(db)|]
      ensures ts == old(ts) && learnts == old(learnts) && watches == old(watches)
      ensures qhead == old(qhead) && ok == old(ok) && nextVar == old(nextVar)
      ensures activity == old(activity) && inHeap == old(inHeap)
    {
      AppendShapes(db, watches, clauses, lits, nextVar);
      AppendShapes(db, watches, learnts, lits, nextVar);
      AppendClauseOk(db, ts, lits);
      clauses := clauses + [|db|];
      db := db + [lits];
    }

    /**
     * `add_clause(lits)` at level 0 on a non-empty clause: an unsatisfiable
     * solver refuses it; otherwise the missing variables are created, the
     * clause is stored, and it is watched when it has two literals or more,
     * or its literal is enqueued when it is a unit, which makes the solver
     * unsatisfiable when that literal is already False. The result is the
     * new `ok`.
     */
    method AddClause(lits: seq<Lit>) returns (r: bool)
      requires Valid() && |ts.lim| == 0 && |lits| > 0
      modifies this
      ensures Valid() && r == ok
      ensures !old(ok) ==> !r && unchanged(this)
      ensures old(ok) ==>
        && nextVar == (if MaxVar(lits) > old(nextVar) then MaxVar(lits) else old(nextVar))
        && db == old(db) + [lits] && clauses == old(clauses) + [|old(db)|] && learnts == old(learnts)
        && ts.lim == [] && qhead == old(qhead)
        && activity == Widened(old(activity), nextVar, 0)
      ensures old(ok) && |lits| >= 2 ==>
        && r && ts.trail == old(ts.trail) && ts.values == Widened(old(ts.values), nextVar, Undef)
        && watches == Attached(Widened(old(watches), 2 * nextVar, []), |old(db)|, lits)
      ensures old(ok) && |lits| == 1 ==>
        && watches == Widened(old(watches), 2 * nextVar, [])
        && (r <==> LitValue(Widened(old(ts.values), nextVar, Undef), lits[0]) != False)
        && (LitValue(Widened(old(ts.values), nextVar, Undef), lits[0]) == Undef ==>
              ts.trail == old(ts.trail) + [lits[0]] && LitValue(ts.values, lits[0]) == True)
        && (LitValue(Widened(old(ts.values), nextVar, Undef), lits[0]) != Undef ==>
              ts.trail == old(ts.trail) && ts.values == Widened(old(ts.values), nextVar, Undef))
    {
      if !ok {
        return false;
      }
      var maxVar := MaxVar(lits);
      NewVarsUpTo(maxVar);
      var cref := |db|;
      assert ClauseOk(lits, nextVar);
      StoreClause(lits);
      if |lits| >= 2 {
        AttachClause(cref);
      } else {
        var b := Enqueue(lits[0], None);
        if !b {
          ok := false;
        }
      }
      r := ok;
    }
  

    /**
     * The in-place literal swaps of `propagate`: clause `cref`, whose first
     * literal is not True and which is therefore nobody's reason, takes the
     * reordering `lits` of its own literals.
     */
    method Rewrite(cref: nat, lits: seq<Lit>)
      requires Valid() && cref < |db| && |db[cref]| >= 2 && multiset(lits) == multiset(db[cref])
      requires Var(db[cref][0]) as int < nextVar && LitValue(ts.values, db[cref][0]) != True
      modifies this
      ensures Valid() && db == old(db)[cref := lits] && Reordered(old(db), db)
      ensures ts == old(ts) && clauses == old(clauses) && learnts == old(learnts) && watches == old(watches)
      ensures qhead == old(qhead) && ok == old(ok) && nextVar == old(nextVar)
      ensures activity == old(activity) && inHeap == old(inHeap)
    {
      ReorderOk(db, ts, cref, lits);
      RewriteShapes(db, watches, clauses, learnts, cref, lits, nextVar);
      db := db[cref := lits];
    }

    /** The search of `propagate` for a literal of `c`, after the two watched ones, that is not False. */
    method FindNonFalse(c: seq<Lit>) returns (k: Option<nat>)
      requires forall j :: 0 <= j < |c| ==> Var(c[j]) as int < |ts.values|
      ensures k.None? ==> forall j :: 2 <= j < |c| ==> LitValue(ts.values, c[j]) == False
      ensures k.Some? ==> 2 <= k.value < |c| && LitValue(ts.values, c[k.value]) != False
      ensures k.Some? ==> forall j :: 2 <= j < k.value ==> LitValue(ts.values, c[j]) == False
    {
      if |c| <= 2 {
        return None;
      }
      for i := 2 to |c|
        invariant forall j :: 2 <= j < i ==> LitValue(ts.values, c[j]) == False
      {
        if Value(c[i]) != False {
          return Some(i);
        }
      }
      return None;
    }

    /**
     * The watcher move of `propagate`: in clause `cref`, reordered to `c` with
     * the False literal `f` at position 1, the non-False literal at `i`
     * takes position 1 and the watcher, blocked by the first literal, is
     * pushed to its watch list.
     */
    method MoveWatch(f: Lit, cref: nat, c: seq<Lit>, i: nat)
      requires Valid() && cref < |db| && |db[cref]| >= 2 && multiset(c) == multiset(db[cref])
      requires Var(db[cref][0]) as int < nextVar && LitValue(ts.values, db[cref][0]) != True
      requires 2 <= i < |c| && c[1] == f && Var(c[i]) as int < nextVar && LitValue(ts.values, c[i]) != False
      requires Var(f) as int < nextVar && LitValue(ts.values, f) == False
      modifies this
      ensures Valid() && Reordered(old(db), db)
      ensures db == old(db)[cref := Swapped(c, 1, i)]
      ensures watches == Pushed(old(watches), c[i], Watcher(cref, c[0]))
      ensures watches[Index(f)] == old(watches)[Index(f)]
      ensures ts == old(ts) && clauses == old(clauses) && learnts == old(learnts)
      ensures qhead == old(qhead) && ok == old(ok) && nextVar == old(nextVar)
      ensures activity == old(activity) && inHeap == old(inHeap)
    {
      var c2 := Swapped(c, 1, i);
      var w2 := Watcher(cref, c[0]);
      ReorderOk(db, ts, cref, c2);
      RewriteShapes(db, watches, clauses, learnts, cref, c2, nextVar);
      var db2 := db[cref := c2];
      IndexBound(c2[1], nextVar);
      PushedOk(watches, db2, nextVar, c2[1], w2);
      db, watches := db2, Pushed(watches, c2[1], w2);
    }

    /**
     * The last case of a watcher visit in `propagate`: clause `cref`,
     * reordered to `c`, has every literal False except perhaps the first,
     * which is not True. An unassigned first literal is enqueued with the
     * clause as reason; otherwise the clause is the conflict.
     */
    method Settle(cref: nat, c: seq<Lit>) returns (r: PropResult)
      requires Valid() && cref < |db| && |db[cref]| >= 2 && multiset(c) == multiset(db[cref])
      requires Var(db[cref][0]) as int < nextVar && LitValue(ts.values, db[cref][0]) != True
      requires |c| >= 2 && Var(c[0]) as int < nextVar && LitValue(ts.values, c[0]) != True
      requires forall j :: 1 <= j < |c| ==> Var(c[j]) as int < nextVar && LitValue(ts.values, c[j]) == False
      modifies this
      ensures Valid() && Grows(old(ts), ts) && db == old(db)[cref := c] && Reordered(old(db), db)
      ensures watches == old(watches) && clauses == old(clauses) && learnts == old(learnts)
      ensures qhead == old(qhead) && ok == old(ok) && nextVar == old(nextVar)
      ensures activity == old(activity) && inHeap == old(inHeap)
      ensures r != DebugAbort
      ensures r.NoConflict? <==> LitValue(old(ts.values), c[0]) == Undef
      ensures r.NoConflict? ==> ts == Enqueued(old(ts), c[0], Some(cref)) && LitValue(ts.values, c[0]) == True
      ensures r.Conflict? ==> r.cref == cref && ts == old(ts) && Falsified(ts.values, db[cref])
    {
      ReorderOk(db, ts, cref, c);
      RewriteShapes(db, watches, clauses, learnts, cref, c, nextVar);
      var db2 := db[cref := c];
      var first := c[0];
      if Value(first) == Undef {
        assert NewReasonOk(db2, ts, first, Some(cref)) by {
          forall j | 1 <= j < |c|
            ensures EarlierFalse(ts, c[j], |ts.trail|)
          {
            assert OnTrail(ts, Var(c[j]) as nat);
          }
        }
        EnqueuedOk(db2, ts, first, Some(cref));
        EnqueuedGrows(ts, first, Some(cref));
        db, ts := db2, Enqueued(ts, first, Some(cref));
        r := NoConflict;
      } else {
        GrowsRefl(ts);
        db := db2;
        r := Conflict(cref);
      }
    }

    /**
     * One watcher `w` of the False literal `f` in `propagate`. The result
     * `keep` is the watcher that stays in the list of `f`, if any. A True
     * blocker keeps `w`. Otherwise `f` is swapped to position 1 of the clause
     * (a clause not watching `f` there is the failed `debug_assert`), and the
     * watcher re-blocked by the first literal stays when that literal is
     * True; otherwise `Relocate` finishes the visit.
     */
    method VisitWatcher(f: Lit, w: Watcher) returns (keep: Option<Watcher>, r: PropResult)
      requires Valid() && WatcherOk(w, db, nextVar)
      requires Var(f) as int < nextVar && LitValue(ts.values, f) == False
      modifies this
      ensures Valid() && Grows(old(ts), ts) && Reordered(old(db), db)
      ensures watches[Index(f)] == old(watches)[Index(f)]
      ensures clauses == old(clauses) && learnts == old(learnts)
      ensures qhead == old(qhead) && ok == old(ok) && nextVar == old(nextVar)
      ensures activity == old(activity) && inHeap == old(inHeap)
      ensures keep.Some? ==> keep.value.cref == w.cref && WatcherOk(keep.value, db, nextVar)
      ensures r.NoConflict? && keep.Some? ==> LitValue(ts.values, keep.value.blocker) == True
      ensures r.Conflict? ==> r.cref == w.cref && keep.Some? && db[r.cref][1] == f && Falsified(ts.values, db[r.cref])
    {
      keep := Some(w);
      r := NoConflict;
      if Value(w.blocker) == True {
        GrowsRefl(ts);
        return;
      }
      var cref := w.cref;
      var c := db[cref];
      assert ClauseOk(c, nextVar);
      var swapped := false;
      if c[0] == f {
        c := Swapped(c, 0, 1);
        swapped := true;
      }
      if c[1] != f {
        GrowsRefl(ts);
        r := DebugAbort;
        return;
      }
      var first := c[0];
      if Value(first) == True {
        if swapped {
          Rewrite(cref, c);
        }
        GrowsRefl(ts);
        keep := Some(Watcher(cref, first));
        return;
      }
      PermutedClauseOk(db[cref], c, nextVar);
      var k := FindNonFalse(c);
      match k
      case Some(i) =>
        GrowsRefl(ts);
        MoveWatch(f, cref, c, i);
        keep := None;
      case None =>
        r := Settle(cref, c);
        keep := Some(Watcher(cref, first));
    }
  

    /** The end of the inner loop of `propagate`: the truncated watch list `ws` replaces list `idx` and `qhead` becomes `q`. */
    method SetWatchList(idx: nat, ws: seq<Watcher>, q: nat)
      requires Valid() && idx < |watches| && ListOk(ws, db, nextVar) && qhead <= q <= |ts.trail|
      modifies this
      ensures Valid() && watches == old(watches)[idx := ws] && qhead == q
      ensures db == old(db) && ts == old(ts) && clauses == old(clauses) && learnts == old(learnts)
      ensures ok == old(ok) && nextVar == old(nextVar) && activity == old(activity) && inHeap == old(inHeap)
    {
      ReplacedOk(watches, db, nextVar, idx, ws);
      watches, qhead := watches[idx := ws], q;
    }

    /**
     * The inner loop of `propagate` over the watchers of the False literal
     * `f`: every watcher is visited, the list of `f` keeps the watchers the
     * visits keep, and after a conflict the rest of the list is kept
     * unvisited and `qhead` jumps to the end of the trail.
     */
    method PropagateLit(f: Lit) returns (r: PropResult)
      requires Valid() && Var(f) as int < nextVar && LitValue(ts.values, f) == False
      modifies this
      ensures Valid() && Grows(old(ts), ts) && Reordered(old(db), db)
      ensures clauses == old(clauses) && learnts == old(learnts)
      ensures ok == old(ok) && nextVar == old(nextVar)
      ensures activity == old(activity) && inHeap == old(inHeap)
      ensures !r.Conflict? ==> qhead == old(qhead)
      ensures r.Conflict? ==>
        && qhead == |ts.trail| && r.cref < |db| && |db[r.cref]| >= 2
        && db[r.cref][1] == f && Falsified(ts.values, db[r.cref])
    {
      var idx := Index(f);
      var ws := watches[idx];
      assert ListOk(ws, db, nextVar);
      var kept: seq<Watcher> := [];
      GrowsRefl(ts);
      r := NoConflict;
      var i := 0;
      while i < |ws|
        invariant 0 <= i <= |ws| && !r.DebugAbort?
        invariant Valid() && Grows(old(ts), ts) && Reordered(old(db), db)
        invariant LitValue(ts.values, f) == False
        invariant ListOk(ws, db, nextVar) && ListOk(kept, db, nextVar)
        invariant watches[idx] == ws
        invariant clauses == old(clauses) && learnts == old(learnts)
        invariant qhead == old(qhead) && ok == old(ok) && nextVar == old(nextVar)
        invariant activity == old(activity) && inHeap == old(inHeap)
        invariant r.Conflict? ==>
          && i == |ws| && r.cref < |db| && |db[r.cref]| >= 2
          && db[r.cref][1] == f && Falsified(ts.values, db[r.cref])
      {
        ghost var db0 := db;
        ghost var ts0 := ts;
        var keep, res := VisitWatcher(f, ws[i]);
        VisitShapes(old(db), db0, db, old(ts), ts0, ts, ws, kept, nextVar);
        assert KeepsVar(ts0, ts, Var(f) as nat);
        i := i + 1;
        if keep.Some? {
          kept := kept + [keep.value];
        }
        match res
        case DebugAbort =>
          return DebugAbort;
        case Conflict(_) =>
          r := res;
          kept := kept + ws[i..];
          i := |ws|;
        case NoConflict =>
      }
      var q := if r.Conflict? then |ts.trail| else qhead;
      SetWatchList(idx, kept, q);
    }

    /**
     * `propagate`: every trail literal from `qhead` on has the watchers of its
     * negation visited, until the queue is empty or a conflict is found. The
     * trail only grows, on the current level, and clauses are only
     * reordered. A conflict clause is entirely False and its literal at
     * position 1 was assigned on the current level.
     */
    method Propagate() returns (r: PropResult)
      requires Valid()
      modifies this
      ensures Valid() && Grows(old(ts), ts) && Reordered(old(db), db)
      ensures clauses == old(clauses) && learnts == old(learnts)
      ensures ok == old(ok) && nextVar == old(nextVar)
      ensures activity == old(activity) && inHeap == old(inHeap)
      ensures r.NoConflict? ==> qhead == |ts.trail|
      ensures r.Conflict? ==>
        && qhead == |ts.trail| && r.cref < |db| && |db[r.cref]| >= 2
        && Falsified(ts.values, db[r.cref])
        && (|ts.lim| > 0 ==> ts.levels[Var(db[r.cref][1])] == |ts.lim|)
    {
      GrowsRefl(ts);
      r := NoConflict;
      TrailBound(db, ts);
      while qhead < |ts.trail|
        invariant Valid() && Grows(old(ts), ts) && Reordered(old(db), db)
        invariant clauses == old(clauses) && learnts == old(learnts)
        invariant ok == old(ok) && nextVar == old(nextVar)
        invariant activity == old(activity) && inHeap == old(inHeap)
        invariant r == NoConflict && |ts.trail| <= nextVar
        decreases nextVar - qhead
      {
        ghost var at := qhead;
        var p := ts.trail[qhead];
        assert EntryOk(db, ts, at);
        if |ts.lim| > 0 {
          LevelAtAll(ts.lim, at);
        }
        qhead := qhead + 1;
        var f := Not(p);
        ghost var db0 := db;
        ghost var ts0 := ts;
        r := PropagateLit(f);
        ReorderedTrans(old(db), db0, db);
        GrowsTrans(old(ts), ts0, ts);
        TrailBound(db, ts);
        if !r.NoConflict? {
          assert KeepsVar(ts0, ts, Var(p) as nat);
          return;
        }
      }
    }

    /**
     * `analyze(conflict)` on the conflict `propagate` reports above level 0:
     * the learnt clause is asserting, the backtrack level is the highest
     * level of its other literals (0 for a unit), and only the activities
     * change, by one for each variable the analysis saw, among them every
     * variable of the learnt clause.
     */
    method Analyze(conflict: nat) returns (learnt: seq<Lit>, bt: nat)
      requires Valid() && |ts.lim| > 0 && conflict < |db| && |db[conflict]| >= 2
      requires Falsified(ts.values, db[conflict]) && ts.levels[Var(db[conflict][1])] == |ts.lim|
      modifies this
      ensures Valid() && SolverAnalyze.Asserting(ts, learnt)
      ensures |learnt| == 1 ==> bt == 0
      ensures |learnt| >= 2 ==>
        && bt == ts.levels[Var(learnt[1])]
        && forall j :: 1 <= j < |learnt| ==> ts.levels[Var(learnt[j])] <= bt
      ensures |activity| == |old(activity)|
      ensures forall v :: 0 <= v < |activity| ==> activity[v] == old(activity)[v] || activity[v] == old(activity)[v] + 1
      ensures forall j :: 0 <= j < |learnt| ==> activity[Var(learnt[j])] == old(activity)[Var(learnt[j])] + 1
      ensures db == old(db) && clauses == old(clauses) && learnts == old(learnts) && watches == old(watches)
      ensures ts == old(ts) && qhead == old(qhead) && ok == old(ok) && nextVar == old(nextVar)
      ensures inHeap == old(inHeap)
    {
      FalsifiedOnTrail(db, ts, db[conflict]);
      assert SolverAnalyze.LevelOf(ts.levels, db[conflict][1]) == |ts.lim|;
      var act;
      learnt, bt, act := SolverAnalyze.AnalyzeConflict(db, ts, conflict, activity);
      activity := act;
    }

    /** The part of the learning step of `search` that stores a learnt clause among the learnt clauses. */
    method StoreLearnt(lits: seq<Lit>)
      requires Valid() && ClauseOk(lits, nextVar)
      modifies this
      ensures Valid()
      ensures db == old(db) + [lits] && learnts == old(learnts) + [|old(db)|]
      ensures ts == old(ts) && clauses == old(clauses) && watches == old(watches)
      ensures qhead == old(qhead) && ok == old(ok) && nextVar == old(nextVar)
      ensures activity == old(activity) && inHeap == old(inHeap)
    {
      AppendShapes(db, watches, clauses, lits, nextVar);
      AppendShapes(db, watches, learnts, lits, nextVar);
      AppendClauseOk(db, ts, lits);
      learnts := learnts + [|db|];
      db := db + [lits];
    }

    /**
     * The learning step of `search`: back to level `bt`, where the first
     * literal of the asserting clause is unassigned again and the others
     * stay False, then a unit is enqueued without a reason, and a longer
     * clause is stored among the learnt clauses, watched, and enqueued as
     * the reason of its first literal.
     */
    method Learn(learnt: seq<Lit>, bt: nat)
      requires Valid() && SolverAnalyze.Asserting(ts, learnt) && bt < |ts.lim|
      requires |learnt| == 1 ==> bt == 0
      requires forall j :: 1 <= j < |learnt| ==> ts.levels[Var(learnt[j])] <= bt
      modifies this
      ensures Valid()
      ensures |ts.lim| == bt && qhead == old(ts.lim)[bt]
      ensures ts.trail == old(ts.trail)[..old(ts.lim)[bt]] + [learnt[0]]
      ensures Var(learnt[0]) as int < |ts.values| && LitValue(ts.values, learnt[0]) == True
      ensures |learnt| == 1 ==> db == old(db) && learnts == old(learnts) && ts.reasons[Var(learnt[0])] == None
      ensures |learnt| >= 2 ==>
        && db == old(db) + [learnt] && learnts == old(learnts) + [|old(db)|]
        && ts.reasons[Var(learnt[0])] == Some(|old(db)|)
      ensures clauses == old(clauses) && ok == old(ok) && nextVar == old(nextVar) && activity == old(activity)
    {
      if |learnt| >= 2 {
        assert SolverAnalyze.LowLit(ts, learnt[1]);
      }
      assert ClauseOk(learnt, nextVar) by {
        forall j | 0 <= j < |learnt|
          ensures Var(learnt[j]) as int < nextVar
        {
          if j > 0 {
            assert SolverAnalyze.LowLit(ts, learnt[j]);
          }
        }
      }
      LearntAfterBacktrack(db, ts, learnt, bt);
      Backtrack(bt);
      var l := learnt[0];
      if |learnt| == 1 {
        UncheckedEnqueue(l, None);
      } else {
        var cref := |db|;
        StoreLearnt(learnt);
        AttachClause(cref);
        assert ReasonOk(db, ts, cref, l, |ts.trail|);
        UncheckedEnqueue(l, Some(cref));
      }
    }

    /** The conflict branch of `search` above level 0: `analyze`, then learning. */
    method LearnFrom(conflict: nat)
      requires Valid() && |ts.lim| > 0 && conflict < |db| && |db[conflict]| >= 2
      requires Falsified(ts.values, db[conflict]) && ts.levels[Var(db[conflict][1])] == |ts.lim|
      modifies this
      ensures Valid()
      ensures clauses == old(clauses) && ok == old(ok) && nextVar == old(nextVar)
      ensures learnts == old(learnts) || learnts == old(learnts) + [|old(db)|]
    {
      var learnt, bt := Analyze(conflict);
      if |learnt| >= 2 {
        assert SolverAnalyze.LowLit(ts, learnt[1]);
      }
      Learn(learnt, bt);
    }

    /**
     * `pick_branching_variable`: the heap is popped in the order of the
     * activity comparator (higher activity first, ties to the smaller
     * variable) until an unassigned variable comes out, which is returned;
     * when the heap runs empty, every variable is assigned. The heap loses
     * exactly the variables at least as good as the one returned.
     */
    method PickBranchingVariable() returns (next: Option<nat>)
      requires Valid()
      modifies this
      ensures db == old(db) && clauses == old(clauses) && learnts == old(learnts) && watches == old(watches)
      ensures ts == old(ts) && qhead == old(qhead) && ok == old(ok) && nextVar == old(nextVar)
      ensures activity == old(activity)
      ensures CoreOk(db, clauses, learnts, watches, ts, activity, qhead, nextVar) && |inHeap| == nextVar
      ensures next.Some? ==>
        && next.value < nextVar && ts.values[next.value] == Undef
        && HeapOkBut(inHeap, ts.values, next.value)
        && (forall u :: 0 <= u < nextVar && ts.values[u] == Undef && u != next.value ==>
              IdxHeap.Better(Order(activity), next.value, u))
        && forall u :: 0 <= u < nextVar ==>
             inHeap[u] == (old(inHeap)[u] && IdxHeap.Better(Order(activity), next.value, u))
      ensures next.None? ==> forall u :: 0 <= u < nextVar ==> ts.values[u] != Undef && !inHeap[u]
    {
      var heap := inHeap;
      var c := Order(activity);
      while true
        invariant unchanged(this)
        invariant |heap| == |inHeap| && forall u :: 0 <= u < |heap| && heap[u] ==> inHeap[u]
        invariant forall u :: 0 <= u < |heap| && inHeap[u] && !heap[u] ==>
          && ts.values[u] != Undef
          && forall w :: 0 <= w < |heap| && heap[w] ==> IdxHeap.Better(c, u, w)
        decreases CountTrue(heap)
      {
        var b := BestIn(heap, c);
        if b.None? {
          inHeap := heap;
          return None;
        }
        var v := b.value;
        CountTrueClear(heap, v);
        ghost var before := heap;
        heap := heap[v := false];
        if ts.values[v] == Undef {
          inHeap := heap;
          forall u | 0 <= u < nextVar
            ensures inHeap[u] == (old(inHeap)[u] && IdxHeap.Better(c, v, u))
          {
            if old(inHeap)[u] && IdxHeap.Better(c, v, u) && u != v && !before[u] {
              IdxHeap.BetterAsymmetric(c, u, v);
            }
          }
          return b;
        }
      }
    }

    /** The decision of `search`: a new level, on which the picked variable is enqueued positive, without a reason. */
    method Decide(v: nat)
      requires CoreOk(db, clauses, learnts, watches, ts, activity, qhead, nextVar)
      requires HeapOkBut(inHeap, ts.values, v) && v < nextVar && ts.values[v] == Undef && qhead == |ts.trail|
      modifies this
      ensures Valid()
      ensures ts.lim == old(ts.lim) + [|old(ts.trail)|] && ts.trail == old(ts.trail) + [New(v as u32, false)]
      ensures ts.values == old(ts.values)[v := True] && ts.reasons[v] == None
      ensures db == old(db) && clauses == old(clauses) && learnts == old(learnts) && watches == old(watches)
      ensures qhead == old(qhead) && ok == old(ok) && nextVar == old(nextVar)
      ensures activity == old(activity) && inHeap == old(inHeap)
    {
      var l := New(v as u32, false);
      NewRoundTrip(v as u32, false);
      NewLevelOk(db, ts);
      ts := ts.(lim := ts.lim + [|ts.trail|]);
      UncheckedEnqueue(l, None);
    }

    /**
     * `search(num_confl)`, for at most `fuel` rounds of its loop: after each
     * propagation, a conflict on level 0 answers Unsat; another conflict is
     * analysed and its clause learnt; without a conflict the search
     * restarts at level 0 once `num_confl > 0` conflicts were met, else it
     * decides on the picked variable, or answers Sat when every variable is
     * assigned. A failed `debug_assert` of `propagate` ends it as Aborted.
     */
    method Search(numConfl: nat, fuel: nat) returns (r: Status)
      requires Valid() && ok
      modifies this
      ensures Valid()
      ensures clauses == old(clauses) && ok == old(ok) && nextVar == old(nextVar)
      ensures |old(learnts)| <= |learnts| && learnts[..|old(learnts)|] == old(learnts)
      ensures r.Sat? ==> qhead == |ts.trail| && forall v :: 0 <= v < nextVar ==> ts.values[v] != Undef
      ensures r.Unsat? ==> |ts.lim| == 0 && exists c :: 0 <= c < |db| && Falsified(ts.values, db[c])
      ensures r.Restart? ==> numConfl > 0 && |ts.lim| == 0 && qhead == |ts.trail|
    {
      var conflicts := 0;
      var steps := fuel;
      while steps > 0
        invariant Valid() && clauses == old(clauses) && ok == old(ok) && nextVar == old(nextVar)
        invariant |old(learnts)| <= |learnts| && learnts[..|old(learnts)|] == old(learnts)
        decreases steps
      {
        steps := steps - 1;
        ghost var learnts0 := learnts;
        var p := Propagate();
        match p
        case DebugAbort =>
          return Aborted;
        case Conflict(c) =>
          conflicts := conflicts + 1;
          if |ts.lim| == 0 {
            return Unsat;
          }
          LearnFrom(c);
          assert learnts[..|learnts0|] == learnts0;
        case NoConflict =>
          if numConfl > 0 && conflicts >= numConfl {
            Backtrack(0);
            return Restart;
          }
          var next := PickBranchingVariable();
          if next.None? {
            return Sat;
          }
          Decide(next.value);
      }
      r := OutOfFuel;
    }

    /**
     * `solve`: an unsatisfiable solver answers Unsat at once; otherwise
     * `search` runs with the Luby restart limits `luby(2, k) * 100` for
     * restarts `k = 0, 1, ...` (at most `fuel` of them, each for at most
     * `searchFuel` rounds) until it answers, and the solver goes back to
     * level 0. A Sat answer comes with the total assignment the search
     * found, before that backtrack; `limits` lists the restart limits the
     * searches ran with, in order.
     */
    method Solve(fuel: nat, searchFuel: nat) returns (r: Status, ghost model: seq<LBool>, ghost limits: seq<nat>)
      requires Valid() && fuel < U32 - 1
      modifies this
      ensures Valid() && |ts.lim| == 0 && !r.Restart?
      ensures !old(ok) ==> r == Unsat && limits == []
      ensures clauses == old(clauses) && ok == old(ok) && nextVar == old(nextVar)
      ensures r.Sat? ==> |model| == nextVar && forall v :: 0 <= v < nextVar ==> model[v] != Undef
      ensures |limits| <= fuel
      ensures forall k :: 0 <= k < |limits| ==> limits[k] == SatUtils.Power(2, SatUtils.LubyExponent(k + 1)) * 100
      ensures old(ok) && !r.OutOfFuel? ==> 0 < |limits|
    {
      model := ts.values;
      limits := [];
      if !ok {
        r := Unsat;
        Backtrack0();
        return;
      }
      r := Restart;
      var k := 0;
      while r.Restart? && k < fuel
        invariant Valid() && clauses == old(clauses) && ok == old(ok) && nextVar == old(nextVar) && k <= fuel
        invariant r.Sat? ==> |model| == nextVar && forall v :: 0 <= v < nextVar ==> model[v] != Undef
        invariant |limits| == k
        invariant forall j :: 0 <= j < k ==> limits[j] == SatUtils.Power(2, SatUtils.LubyExponent(j + 1)) * 100
        invariant k == 0 ==> r.Restart?
        decreases fuel - k
      {
        var base := SatUtils.Luby(2, k);
        PowerOfTwoPositive(SatUtils.LubyExponent(k + 1));
        var numConfl: nat := base * 100;
        r := Search(numConfl, searchFuel);
        model := ts.values;
        limits := limits + [numConfl];
        k := k + 1;
      }
      if r.Restart? {
        r := OutOfFuel;
      }
      Backtrack0();
    }

    /** `backtrack(0)`, from any level. */
    method Backtrack0()
      requires Valid()
      modifies this
      ensures Valid() && |ts.lim| == 0
      ensures db == old(db) && clauses == old(clauses) && learnts == old(learnts) && watches == old(watches)
      ensures ok == old(ok) && nextVar == old(nextVar) && activity == old(activity)
    {
      Backtrack(0);
      assert |ts.lim| == 0;
    }
  }

  /** What `search` and `solve` answer: Some(true), Some(false), None (a restart), and the ends outside the source's semantics. */
  datatype Status = Sat | Unsat | Restart | Aborted | OutOfFuel

  /** The Luby restart factors `2^e` are positive, so every restart limit is. */
  lemma {:induction false} PowerOfTwoPositive(e: nat)
    ensures SatUtils.Power(2, e) >= 1
  {
    if e > 0 {
      PowerOfTwoPositive(e - 1);
    }
  }

  /** The comparator of the solver's decision heap. */
  function Order(act: seq<int>): IdxHeap.Cmp
  {
    IdxHeap.ByActivity(act, true)
  }

  /** The number of variables in the heap. */
  function CountTrue(s: seq<bool>): nat
  {
    if |s| == 0 then 0 else CountTrue(s[..|s| - 1]) + (if s[|s| - 1] then 1 else 0)
  }

  /** Taking a variable out of the heap lowers the count. */
  lemma {:induction false} CountTrueClear(s: seq<bool>, i: nat)
    requires i < |s| && s[i]
    ensures CountTrue(s[i := false]) == CountTrue(s) - 1
  {
    var s2 := s[i := false];
    assert s2[..|s2| - 1] == if i == |s| - 1 then s[..|s| - 1] else s[..|s| - 1][i := false];
    if i < |s| - 1 {
      CountTrueClear(s[..|s| - 1], i);
    }
  }

  /** The best variable in the heap under comparator `c`: better than every other one in it. */
  method BestIn(heap: seq<bool>, c: IdxHeap.Cmp) returns (b: Option<nat>)
    requires c.ByActivity? && c.tieBreak
    ensures b.Some? ==> b.value < |heap| && heap[b.value]
    ensures b.Some? ==> forall u :: 0 <= u < |heap| && heap[u] && u != b.value ==> IdxHeap.Better(c, b.value, u)
    ensures b.None? <==> forall u :: 0 <= u < |heap| ==> !heap[u]
  {
    b := None;
    for u := 0 to |heap|
      invariant b.Some? ==> b.value < u && heap[b.value]
      invariant b.Some? ==> forall w :: 0 <= w < u && heap[w] && w != b.value ==> IdxHeap.Better(c, b.value, w)
      invariant b.None? <==> forall w :: 0 <= w < u ==> !heap[w]
    {
      if heap[u] && (b.None? || IdxHeap.Better(c, u, b.value)) {
        b := Some(u);
      }
    }
  }

  /** A conflict clause that is entirely False was assigned on the trail. */
  lemma FalsifiedOnTrail(db: seq<seq<Lit>>, t: TrailState, c: seq<Lit>)
    requires TrailOk(db, t) && Falsified(t.values, c)
    ensures SolverAnalyze.FalseBefore(t, c, 0, |t.trail|)
  {
    forall j | 0 <= j < |c|
      ensures t.pos[Var(c[j])] < |t.trail|
    {
      assert OnTrail(t, Var(c[j]) as nat);
    }
  }

  /**
   * Backtracking to `bt` unassigns the first literal of an asserting
   * clause, which is on the current level, and keeps the others False and
   * assigned before the cut, as a reason for the first literal needs.
   */
  lemma LearntAfterBacktrack(db: seq<seq<Lit>>, t: TrailState, learnt: seq<Lit>, bt: nat)
    requires TrailOk(db, t) && SolverAnalyze.Asserting(t, learnt) && bt < |t.lim|
    requires forall j :: 1 <= j < |learnt| ==> t.levels[Var(learnt[j])] <= bt
    ensures var t2 := Backtracked(t, bt);
      && LitValue(t2.values, learnt[0]) == Undef
      && forall j :: 1 <= j < |learnt| ==> EarlierFalse(t2, learnt[j], |t2.trail|)
  {
    var t2 := Backtracked(t, bt);
    assert SolverAnalyze.TopLit(t, learnt[0]);
    BacktrackedValue(db, t, bt, Var(learnt[0]) as nat);
    forall j | 1 <= j < |learnt|
      ensures EarlierFalse(t2, learnt[j], |t2.trail|)
    {
      assert SolverAnalyze.LowLit(t, learnt[j]);
      BacktrackedValue(db, t, bt, Var(learnt[j]) as nat);
    }
  }
}
