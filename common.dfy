/** The optional value JavaScript expresses with `null` or `undefined`. */
module Wrappers {
  datatype Option<+T> = None | Some(value: T)
}

/** Sequence helpers shared by the lookups of the registries and scenes. */
module Seqs {
  import opened Wrappers

  /** No element occurs twice. */
  ghost predicate NoDuplicates<T>(s: seq<T>) {
    forall i, j :: 0 <= i < j < |s| ==> s[i] != s[j]
  }

  /** The index of the first element satisfying `p`, as `Array.prototype.findIndex`
      computes it, or `None` when there is none. */
  function FindIndex<T>(s: seq<T>, p: T -> bool): (r: Option<nat>)
    ensures r.Some? ==> r.value < |s| && p(s[r.value])
    ensures r.Some? ==> forall j :: 0 <= j < r.value ==> !p(s[j])
    ensures r.None? <==> forall j :: 0 <= j < |s| ==> !p(s[j])
  {
    if s == [] then None
    else if p(s[0]) then Some(0)
    else match FindIndex(s[1..], p)
      case None => None
      case Some(k) => Some(k + 1)
  }

  /** The first element satisfying `p`, as `Array.prototype.find` returns it. */
  function Find<T>(s: seq<T>, p: T -> bool): (r: Option<T>)
    ensures r.None? <==> forall j :: 0 <= j < |s| ==> !p(s[j])
    ensures r.Some? ==> p(r.value) && r.value in s
    ensures r.Some? ==> exists k :: 0 <= k < |s| && s[k] == r.value && forall j :: 0 <= j < k ==> !p(s[j])
  {
    match FindIndex(s, p)
    case None => None
    case Some(k) => Some(s[k])
  }

  /** When `p` holds of exactly one position, `Find` returns the element there. */
  lemma {:induction false} FindUnique<T>(s: seq<T>, p: T -> bool, k: nat)
    requires k < |s| && p(s[k])
    requires forall j :: 0 <= j < |s| && j != k ==> !p(s[j])
    ensures Find(s, p) == Some(s[k])
  {
    var r := FindIndex(s, p);
    assert r != None;
    assert r.value == k;
  }
}

/** The face a die animation shows on one tick: `Math.floor(Math.random() * 6) + 1`
    for a draw `r` of `Math.random()`. */
module Die {
  function FaceDraw(r: real): (face: int)
    requires 0.0 <= r < 1.0
    ensures 1 <= face <= 6
  {
    (r * 6.0).Floor + 1
  }
}
