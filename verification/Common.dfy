/** Definitions shared by the models. */
module Common {

  datatype Option<+T> = None | Some(value: T)

  /** The elements of s at i and j differ. */
  predicate Apart(s: seq<nat>, i: nat, j: nat) { i < |s| && j < |s| ==> s[i] != s[j] }

  predicate Distinct(s: seq<nat>) {
    forall i, j {:trigger Apart(s, i, j)} :: 0 <= i < j < |s| ==> Apart(s, i, j)
  }

  lemma AllDiffer(s: seq<nat>)
    requires Distinct(s)
    ensures forall i, j :: 0 <= i < j < |s| ==> s[i] != s[j]
  {
    forall i, j | 0 <= i < j < |s| ensures s[i] != s[j] { assert Apart(s, i, j); }
  }

  lemma DistinctMore(s: seq<nat>, x: nat)
    requires Distinct(s) && x !in s
    ensures Distinct(s + [x]) && Distinct([x] + s)
  {
    forall i, j | 0 <= i < j < |s| + 1 ensures Apart(s + [x], i, j) && Apart([x] + s, i, j) {
      if j < |s| { assert Apart(s, i, j); }
      if i > 0 { assert Apart(s, i - 1, j - 1); }
    }
  }
}
