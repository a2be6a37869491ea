/** A loop that goes through a list and keeps the last candidate that is as good as the one it
    holds: which candidates it can end with if the comparison need not be transitive. */
module Champions {
  import opened Lists

  /** `g(i, j)` if `i` takes the place of `j`. */
  type Relation = (nat, nat) -> bool

  ghost predicate IsTotal(g: Relation, all: set<nat>) {
    forall i, j | i in all && j in all :: g(i, j) || g(j, i)
  }

  /** The candidate that the loop ends with. */
  function Winner(g: Relation, ids: seq<nat>): (w: nat)
    requires ids != []
    ensures w in ids
  {
    var n := |ids| - 1;
    if n == 0 then ids[0]
    else
      var w := Winner(g, ids[..n]);
      if g(ids[n], w) then ids[n] else w
  }

  ghost predicate IsChain(g: Relation, all: set<nat>, chain: seq<nat>) {
    && chain != []
    && (forall k | 0 <= k < |chain| :: chain[k] in all)
    && forall k | 0 <= k < |chain| - 1 :: g(chain[k], chain[k + 1])
  }

  ghost predicate Links(chain: seq<nat>, i: nat, j: nat) {
    chain != [] && chain[0] == i && chain[|chain| - 1] == j
  }

  /** A chain of candidates, each of which takes the place of the next, leads from `i` to `j`. */
  ghost predicate Reaches(g: Relation, all: set<nat>, i: nat, j: nat) {
    exists chain :: IsChain(g, all, chain) && Links(chain, i, j)
  }

  ghost predicate ReachesAll(g: Relation, all: set<nat>, i: nat) {
    i in all && forall j | j in all :: Reaches(g, all, i, j)
  }

  lemma ReachesSelf(g: Relation, all: set<nat>, i: nat)
    requires i in all
    ensures Reaches(g, all, i, i)
  {
    assert IsChain(g, all, [i]) && Links([i], i, i);
  }

  lemma ReachesOn(g: Relation, all: set<nat>, i: nat, k: nat, j: nat)
    requires i in all && g(i, k) && Reaches(g, all, k, j)
    ensures Reaches(g, all, i, j)
  {
    var chain :| IsChain(g, all, chain) && Links(chain, k, j);
    assert IsChain(g, all, [i] + chain) && Links([i] + chain, i, j);
  }

  // ---------------------------------------------------------------------------
  // Winners reach all
  // ---------------------------------------------------------------------------

  lemma {:induction false} WinnerReaches(g: Relation, all: set<nat>, ids: seq<nat>, j: nat)
    requires IsTotal(g, all) && ids != [] && Elements(ids) <= all && j in ids
    ensures Reaches(g, all, Winner(g, ids), j)
  {
    var n := |ids| - 1;
    assert ids[n] in Elements(ids) && j in Elements(ids);
    ReachesSelf(g, all, j);
    if n > 0 {
      var most, w := ids[..n], Winner(g, ids[..n]);
      assert w in Elements(ids) && Elements(most) <= Elements(ids);
      if j in most {
        WinnerReaches(g, all, most, j);
        if g(ids[n], w) {
          ReachesOn(g, all, ids[n], w, j);
        }
      } else if !g(ids[n], w) {
        assert j == ids[n];
        ReachesOn(g, all, w, j, j);
      }
    }
  }

  // ---------------------------------------------------------------------------
  // Those that reach all win
  // ---------------------------------------------------------------------------

  /** A later candidate takes the place of the one at `p`. */
  ghost predicate IsBeaten(g: Relation, ids: seq<nat>, p: nat)
    requires p < |ids|
  {
    exists q | p < q < |ids| :: g(ids[q], ids[p])
  }

  lemma {:induction false} WinnerIsUnbeaten(g: Relation, ids: seq<nat>) returns (p: nat)
    requires ids != []
    ensures p < |ids| && ids[p] == Winner(g, ids) && !IsBeaten(g, ids, p)
  {
    var n := |ids| - 1;
    if n == 0 || g(ids[n], Winner(g, ids[..n])) {
      p := n;
    } else {
      p := WinnerIsUnbeaten(g, ids[..n]);
      assert forall q | p < q < n :: !g(ids[..n][q], ids[..n][p]);
    }
  }

  /** All but the last are beaten. */
  ghost predicate LeadsToLast(g: Relation, ids: seq<nat>) {
    ids != [] && forall p | 0 <= p < |ids| - 1 :: IsBeaten(g, ids, p)
  }

  lemma LastWins(g: Relation, ids: seq<nat>)
    requires LeadsToLast(g, ids)
    ensures Winner(g, ids) == ids[|ids| - 1]
  {
    var p := WinnerIsUnbeaten(g, ids);
  }

  lemma LeadsOn(g: Relation, ids: seq<nat>, x: nat, q: nat)
    requires LeadsToLast(g, ids) && q < |ids| && g(ids[q], x)
    ensures LeadsToLast(g, [x] + ids)
  {
    var more := [x] + ids;
    forall p | 0 <= p < |more| - 1
      ensures IsBeaten(g, more, p)
    {
      if p == 0 {
        assert g(more[q + 1], more[0]);
      } else {
        assert IsBeaten(g, ids, p - 1);
        var q' :| p - 1 < q' < |ids| && g(ids[q'], ids[p - 1]);
        assert g(more[q' + 1], more[p]);
      }
    }
  }

  /** A chain that leaves `ids` does so somewhere. */
  lemma {:induction false} LeavesSomewhere(g: Relation, all: set<nat>, ids: seq<nat>, chain: seq<nat>)
    returns (q: nat, x: nat)
    requires IsChain(g, all, chain) && chain[0] in ids && chain[|chain| - 1] !in ids
    ensures q < |ids| && x in all && x !in ids && g(ids[q], x)
    decreases |chain|
  {
    if chain[1] in ids {
      assert forall k | 0 <= k < |chain| - 2 :: g(chain[1..][k], chain[1..][k + 1]);
      q, x := LeavesSomewhere(g, all, ids, chain[1..]);
    } else {
      q :| 0 <= q < |ids| && ids[q] == chain[0];
      x := chain[1];
    }
  }

  lemma {:induction false} OrderFrom(g: Relation, all: set<nat>, i: nat, ids: seq<nat>) returns (order: seq<nat>)
    requires ReachesAll(g, all, i) && LeadsToLast(g, ids) && ids[|ids| - 1] == i
    requires NoDups(ids) && Elements(ids) <= all
    ensures NoDups(order) && Elements(order) == all && order != [] && Winner(g, order) == i
    decreases all - Elements(ids)
  {
    if Elements(ids) == all {
      LastWins(g, ids);
      order := ids;
    } else {
      var j :| j in all && j !in Elements(ids);
      var chain :| IsChain(g, all, chain) && Links(chain, i, j);
      var q, x := LeavesSomewhere(g, all, ids, chain);
      LeadsOn(g, ids, x, q);
      assert Elements([x] + ids) == Elements(ids) + {x};
      order := OrderFrom(g, all, i, [x] + ids);
    }
  }

  lemma ReacherWins(g: Relation, all: set<nat>, i: nat) returns (order: seq<nat>)
    requires ReachesAll(g, all, i)
    ensures NoDups(order) && Elements(order) == all && order != [] && Winner(g, order) == i
  {
    order := OrderFrom(g, all, i, [i]);
  }

  /** The loop can end with `i`, in some order, exactly if `i` reaches all. */
  lemma WinnersReachAll(g: Relation, all: set<nat>, i: nat)
    requires IsTotal(g, all)
    ensures (exists ids :: NoDups(ids) && Elements(ids) == all && ids != [] && Winner(g, ids) == i)
       <==> ReachesAll(g, all, i)
  {
    if ReachesAll(g, all, i) {
      var ids := ReacherWins(g, all, i);
    }
    forall ids | NoDups(ids) && Elements(ids) == all && ids != [] && Winner(g, ids) == i
      ensures ReachesAll(g, all, i)
    {
      WinnerReachesAll(g, all, ids);
    }
  }

  lemma WinnerReachesAll(g: Relation, all: set<nat>, ids: seq<nat>)
    requires IsTotal(g, all) && Elements(ids) == all && ids != []
    ensures ReachesAll(g, all, Winner(g, ids))
  {
    assert Winner(g, ids) in Elements(ids);
    forall j | j in all
      ensures Reaches(g, all, Winner(g, ids), j)
    {
      WinnerReaches(g, all, ids, j);
    }
  }
}
