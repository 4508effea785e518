/** Which column objects a list of tables holds, independently of the kind
    of object: both copies of the program keep their columns as pointers,
    and a change through one pointer must be seen in exactly one place. */
module Footprint {

  /** No object appears twice. */
  ghost predicate ColumnsDistinct<C>(cs: seq<C>)
  {
    forall k, l :: 0 <= k < |cs| && 0 <= l < |cs| && k != l ==> cs[k] != cs[l]
  }

  /** The objects of all the lists. */
  ghost function AllColumns<C>(ls: seq<seq<C>>): set<C>
  {
    set j, c | 0 <= j < |ls| && c in ls[j] :: c
  }

  /** No object is shared between two places of the lists. */
  ghost predicate NoSharedColumns<C>(ls: seq<seq<C>>)
  {
    forall i, j, k, l ::
      0 <= i < |ls| && 0 <= j < |ls| && 0 <= k < |ls[i]| && 0 <= l < |ls[j]| && (i != j || k != l) ==>
      ls[i][k] != ls[j][l]
  }

  lemma AllColumnsAppend<C>(ls: seq<seq<C>>, l: seq<C>)
    ensures AllColumns(ls + [l]) == AllColumns(ls) + set c | c in l
  {
    forall c | c in AllColumns(ls + [l]) ensures c in AllColumns(ls) || c in l {
      var j :| 0 <= j < |ls| + 1 && c in (ls + [l])[j];
      if j < |ls| { assert c in ls[j]; }
    }
    forall c | c in AllColumns(ls) ensures c in AllColumns(ls + [l]) {
      var j :| 0 <= j < |ls| && c in ls[j];
      assert c in (ls + [l])[j];
    }
    assert forall c :: c in l ==> c in (ls + [l])[|ls|];
  }

  /** Appending a list of distinct objects that are new to the lists keeps
      them free of shared objects. */
  lemma NoSharedAppend<C>(ls: seq<seq<C>>, l: seq<C>)
    requires NoSharedColumns(ls) && ColumnsDistinct(l)
    requires forall c :: c in l ==> c !in AllColumns(ls)
    ensures NoSharedColumns(ls + [l])
  {
    forall j, m | 0 <= j < |ls| && 0 <= m < |ls[j]| ensures ls[j][m] in AllColumns(ls) {
      assert ls[j][m] in ls[j];
    }
    var us := ls + [l];
    forall i, j, k, m |
      0 <= i < |us| && 0 <= j < |us| && 0 <= k < |us[i]| && 0 <= m < |us[j]| && (i != j || k != m)
      ensures us[i][k] != us[j][m]
    {
      if i < |ls| && j < |ls| {
        assert us[i] == ls[i] && us[j] == ls[j];
      } else if i < |ls| {
        assert us[i] == ls[i] && us[j] == l;
      } else if j < |ls| {
        assert us[j] == ls[j] && us[i] == l;
      }
    }
  }
}
