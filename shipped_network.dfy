/** The edge list that src/components/interfaces/NeuralMap/Connections.tsx draws for
    the shipped catalog of src/config/projects.ts. */
module ShippedNetwork {
  import opened Wrappers
  import Catalog
  import opened NeuralConnections

  /** The declarations of the shipped catalog, in visiting order. */
  const ShippedDecls: seq<Decl> := [
    Decl(Catalog.LokiTunes, "vocapp"), Decl(Catalog.LokiTunes, "crym"),
    Decl(Catalog.MatrixArena, "vocapp"),
    Decl(Catalog.VocApp, "lokitunes"), Decl(Catalog.VocApp, "matrixarena"),
    Decl(Catalog.BountyHunter, "crym"),
    Decl(Catalog.Crym, "lokitunes"), Decl(Catalog.Crym, "bountyhunter"),
    Decl(Catalog.Podcast, "matrixarena")]

  /** Where each project's declarations end in `ShippedDecls`. */
  const ShippedEnds: seq<nat> := [0, 2, 3, 5, 6, 8, 9]

  /** The declarations of project `k` are its slice of `ShippedDecls`. */
  lemma {:induction false} ShippedDeclsOf(k: nat)
    requires k < 6
    ensures DeclsOf(Catalog.Projects[k]) == ShippedDecls[ShippedEnds[k]..ShippedEnds[k + 1]]
  {
    Catalog.ConnectionsInOrder();
  }

  /** If each project's declarations are its slice `ds[ends[k]..ends[k + 1]]` of a
      non-decreasing `ends`, then the declarations of the first `i` projects are
      `ds[..ends[i]]`. */
  lemma {:induction false} DeclsBySlices(ps: seq<Catalog.Project>, ds: seq<Decl>, ends: seq<nat>, i: nat)
    requires |ends| == |ps| + 1 && ends[0] == 0 && ends[|ps|] <= |ds|
    requires forall j, k :: 0 <= j <= k <= |ps| ==> ends[j] <= ends[k]
    requires forall k :: 0 <= k < |ps| ==> DeclsOf(ps[k]) == ds[ends[k]..ends[k + 1]]
    requires i <= |ps|
    ensures ends[i] <= |ds| && Decls(ps[..i]) == ds[..ends[i]]
  {
    if i == 0 {
      assert ps[..0] == [];
    } else {
      DeclsBySlices(ps, ds, ends, i - 1);
      DeclsSnoc(ps, i - 1);
      assert ds[..ends[i]] == ds[..ends[i - 1]] + ds[ends[i - 1]..ends[i]];
    }
  }

  lemma ShippedDeclsInOrder()
    ensures Decls(Catalog.Projects) == ShippedDecls
  {
    forall k | 0 <= k < 6
      ensures DeclsOf(Catalog.Projects[k]) == ShippedDecls[ShippedEnds[k]..ShippedEnds[k + 1]]
    {
      ShippedDeclsOf(k);
    }
    DeclsBySlices(Catalog.Projects, ShippedDecls, ShippedEnds, 6);
    assert Catalog.Projects[..6] == Catalog.Projects;
  }

  /** The key of each shipped declaration, in visiting order. */
  const ShippedKeys: seq<string> := [
    "lokitunes-vocapp", "crym-lokitunes", "matrixarena-vocapp",
    "lokitunes-vocapp", "matrixarena-vocapp", "bountyhunter-crym",
    "crym-lokitunes", "bountyhunter-crym", "matrixarena-podcast"]

  /** The owner and target ids of the shipped declarations, in visiting order. */
  const ShippedIdPairs: seq<(string, string)> := [
    ("lokitunes", "vocapp"), ("lokitunes", "crym"), ("matrixarena", "vocapp"),
    ("vocapp", "lokitunes"), ("vocapp", "matrixarena"), ("bountyhunter", "crym"),
    ("crym", "lokitunes"), ("crym", "bountyhunter"), ("podcast", "matrixarena")]

  lemma {:induction false} ShippedIds()
    ensures |ShippedIdPairs| == |ShippedDecls|
    ensures forall n :: 0 <= n < |ShippedDecls| ==>
      (ShippedDecls[n].project.id == ShippedIdPairs[n].0 && ShippedDecls[n].targetId == ShippedIdPairs[n].1)
  {
  }

  lemma {:induction false} ShippedKey(n: nat)
    requires n < |ShippedDecls|
    ensures |ShippedKeys| == |ShippedDecls| && DeclKey(ShippedDecls[n]) == ShippedKeys[n]
  {
    ShippedIds();
    assert DeclKey(ShippedDecls[n]) == PairKey(ShippedIdPairs[n].0, ShippedIdPairs[n].1);
    ShippedPairKey(n);
  }

  /** The key of each shipped id pair. */
  lemma {:induction false} ShippedPairKey(n: nat)
    requires n < |ShippedIdPairs|
    ensures |ShippedKeys| == |ShippedIdPairs| && PairKey(ShippedIdPairs[n].0, ShippedIdPairs[n].1) == ShippedKeys[n]
  {
    var (a, b) := ShippedIdPairs[n];
    PairKeyByHead(a, b);
    if n == 0 { assert a + "-" + b == ShippedKeys[0]; }
    else if n == 1 { assert b + "-" + a == ShippedKeys[1]; }
    else if n == 2 { assert a + "-" + b == ShippedKeys[2]; }
    else if n == 3 { assert b + "-" + a == ShippedKeys[3]; }
    else if n == 4 { assert b + "-" + a == ShippedKeys[4]; }
    else if n == 5 { assert a + "-" + b == ShippedKeys[5]; }
    else if n == 6 { assert a + "-" + b == ShippedKeys[6]; }
    else if n == 7 { assert b + "-" + a == ShippedKeys[7]; }
    else { assert b + "-" + a == ShippedKeys[8]; }
  }

  /** The five distinct pairs among the shipped declarations. */
  const ShippedPairs: set<string> :=
    {"lokitunes-vocapp", "crym-lokitunes", "matrixarena-vocapp", "bountyhunter-crym", "matrixarena-podcast"}

  lemma ShippedPairsCount()
    ensures |ShippedPairs| == 5
  {
  }

  lemma {:induction false} ShippedKeySet()
    ensures (set k | 0 <= k < |ShippedDecls| :: DeclKey(ShippedDecls[k])) == ShippedPairs
  {
    var ks := set k | 0 <= k < |ShippedDecls| :: DeclKey(ShippedDecls[k]);
    forall k | 0 <= k < |ShippedDecls|
      ensures DeclKey(ShippedDecls[k]) in ShippedPairs
    {
      ShippedKey(k);
    }
    ShippedKey(0);
    ShippedKey(1);
    ShippedKey(2);
    ShippedKey(5);
    ShippedKey(8);
    assert ShippedKeys[0] in ks && ShippedKeys[1] in ks && ShippedKeys[2] in ks;
    assert ShippedKeys[5] in ks && ShippedKeys[8] in ks;
  }

  /** Every shipped connection names a catalog project. */
  lemma {:induction false} ShippedTargetsFound(k: nat)
    requires k < |ShippedDecls|
    ensures Catalog.FindById(Catalog.Projects, ShippedDecls[k].targetId).Some?
  {
    Catalog.GetProjectByIdFinds(ShippedDecls[k].targetId);
  }

  /** When every target is found, each new key yields exactly one edge. */
  lemma {:induction false} AllFoundCount(catalog: seq<Catalog.Project>, ds: seq<Decl>)
    requires forall k :: 0 <= k < |ds| ==> Catalog.FindById(catalog, ds[k].targetId).Some?
    ensures |Run(catalog, ds).edges| == |Run(catalog, ds).seen|
  {
    if ds != [] {
      var front := ds[..|ds| - 1];
      assert forall k :: 0 <= k < |front| ==> front[k] == ds[k];
      AllFoundCount(catalog, front);
    }
  }

  /** Edges with pairwise distinct keys have as many keys as edges. */
  lemma {:induction false} DistinctKeysCount(es: seq<Edge>)
    requires forall i, j :: 0 <= i < j < |es| ==> EdgeKey(es[i]) != EdgeKey(es[j])
    ensures |set e | e in es :: EdgeKey(e)| == |es|
  {
    if es != [] {
      var front, last := es[..|es| - 1], es[|es| - 1];
      DistinctKeysCount(front);
      var s0 := set e | e in front :: EdgeKey(e);
      assert es == front + [last];
      assert (set e | e in es :: EdgeKey(e)) == s0 + {EdgeKey(last)};
    }
  }

  /** When every target is found, the edges' keys are exactly the keys seen. */
  lemma EdgeKeysAreSeen(catalog: seq<Catalog.Project>, ds: seq<Decl>)
    requires forall k :: 0 <= k < |ds| ==> Catalog.FindById(catalog, ds[k].targetId).Some?
    ensures (set e | e in Run(catalog, ds).edges :: EdgeKey(e)) == Run(catalog, ds).seen
  {
    var r := Run(catalog, ds);
    var keys := set e | e in r.edges :: EdgeKey(e);
    AllFoundCount(catalog, ds);
    RunInvariant(catalog, ds);
    DistinctKeysCount(r.edges);
    assert keys <= r.seen;
    assert |r.seen - keys| == |r.seen| - |keys| == 0;
  }

  /** With the shipped catalog exactly five edges are drawn, one per distinct pair. */
  lemma ShippedConnections()
    ensures |Connections(Catalog.Projects)| == 5
    ensures (set e | e in Connections(Catalog.Projects) :: EdgeKey(e)) == ShippedPairs
  {
    ShippedDeclsInOrder();
    forall k | 0 <= k < |ShippedDecls|
      ensures Catalog.FindById(Catalog.Projects, ShippedDecls[k].targetId).Some?
    {
      ShippedTargetsFound(k);
    }
    AllFoundCount(Catalog.Projects, ShippedDecls);
    RunInvariant(Catalog.Projects, ShippedDecls);
    ShippedKeySet();
    ShippedPairsCount();
    EdgeKeysAreSeen(Catalog.Projects, ShippedDecls);
  }

  /** No shipped id contains a dash. */
  lemma ShippedIdPairsDashFree()
    ensures forall n :: 0 <= n < |ShippedIdPairs| ==> '-' !in ShippedIdPairs[n].0 && '-' !in ShippedIdPairs[n].1
  {
  }

  /** The shipped ids and connection entries contain no dash, so in the shipped
      catalog a connection is skipped only for a pair drawn before it. */
  lemma {:induction false} ShippedDashFree(k: nat)
    requires k < |ShippedDecls|
    ensures DashFreeDecl(ShippedDecls[k])
  {
    ShippedIds();
    ShippedIdPairsDashFree();
  }
}
