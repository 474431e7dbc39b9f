/** The edge list of src/components/interfaces/NeuralMap/Connections.tsx: every
    declared neural-map connection becomes one edge, unless the unordered pair was seen
    before or the target is not in the catalog. */
module NeuralConnections {
  import opened Wrappers
  import Catalog

  /** A drawn connection (the source's `Connection`). */
  datatype Edge = Edge(from: Catalog.Project, to: Catalog.Project,
                       fromPos: Catalog.Position, toPos: Catalog.Position)

  /** One declared connection: a project and one entry of its `connections` list. */
  datatype Decl = Decl(project: Catalog.Project, targetId: string)

  /** The default order of `Array.prototype.sort` on strings: lexicographic by
      character, a proper prefix first. Characters are compared as Unicode scalar
      values, which agrees with JavaScript's UTF-16 code-unit order except between a
      character from U+E000 to U+FFFF and one above U+FFFF. */
  predicate LexLess(a: string, b: string)
    decreases |a|
  {
    if a == [] then b != []
    else if b == [] then false
    else if a[0] != b[0] then a[0] < b[0]
    else LexLess(a[1..], b[1..])
  }

  /** Of two different strings exactly one is below the other; no string is below
      itself. */
  lemma {:induction false} LexTrichotomy(a: string, b: string)
    decreases |a|
    ensures !(LexLess(a, b) && LexLess(b, a))
    ensures a != b ==> LexLess(a, b) || LexLess(b, a)
    ensures !LexLess(a, a)
  {
    if a != [] && b != [] && a[0] == b[0] {
      LexTrichotomy(a[1..], b[1..]);
      if a != b {
        assert a == [a[0]] + a[1..] && b == [b[0]] + b[1..];
      }
    }
    if a != [] {
      LexTrichotomy(a[1..], a[1..]);
    }
  }

  /** The order is transitive, so with `LexTrichotomy` it is a strict total order. */
  lemma {:induction false} LexTransitive(a: string, b: string, c: string)
    decreases |a|
    requires LexLess(a, b) && LexLess(b, c)
    ensures LexLess(a, c)
  {
    if a != [] && b != [] && c != [] && a[0] == b[0] && b[0] == c[0] {
      LexTransitive(a[1..], b[1..], c[1..]);
    }
  }

  /** `[a, b].sort().join('-')`: the two ids in ascending order, joined by a dash. */
  function PairKey(a: string, b: string): string {
    if LexLess(b, a) then b + "-" + a else a + "-" + b
  }

  /** Ids with different first characters are ordered by those characters. */
  lemma PairKeyByHead(a: string, b: string)
    requires a != [] && b != [] && a[0] != b[0]
    ensures PairKey(a, b) == if b[0] < a[0] then b + "-" + a else a + "-" + b
  {
  }

  /** The key does not depend on the order of the pair. */
  lemma PairKeySymmetric(a: string, b: string)
    ensures PairKey(a, b) == PairKey(b, a)
  {
    LexTrichotomy(a, b);
  }

  /** In `x + "-" + y` with a dash-free `x` the first dash is at position `|x|`. */
  lemma FirstDash(x: string, y: string)
    requires '-' !in x
    ensures (x + "-" + y)[|x|] == '-'
    ensures forall i :: 0 <= i < |x| ==> (x + "-" + y)[i] != '-'
  {
    assert forall i :: 0 <= i < |x| ==> (x + "-" + y)[i] == x[i];
  }

  /** Splitting at the first dash: two dash-free heads in front of a dash agree. */
  lemma {:induction false} DashSplit(x: string, y: string, u: string, v: string)
    requires '-' !in x && '-' !in u
    requires x + "-" + y == u + "-" + v
    ensures x == u && y == v
  {
    var s := x + "-" + y;
    FirstDash(x, y);
    FirstDash(u, v);
    assert |x| == |u|;
    assert x == s[..|x|] == u;
    assert y == s[|x| + 1..] == v;
  }

  /** For dash-free ids the key names the unordered pair: equal keys, equal pairs. */
  lemma PairKeyNamesPair(a: string, b: string, c: string, d: string)
    requires '-' !in a && '-' !in b && '-' !in c && '-' !in d
    requires PairKey(a, b) == PairKey(c, d)
    ensures (a == c && b == d) || (a == d && b == c)
  {
    var x, y := if LexLess(b, a) then b else a, if LexLess(b, a) then a else b;
    var u, v := if LexLess(d, c) then d else c, if LexLess(d, c) then c else d;
    DashSplit(x, y, u, v);
  }

  /** The declared connections of one project, in list order. */
  function DeclsOf(p: Catalog.Project): (r: seq<Decl>)
    ensures |r| == |p.mappings.neuralMap.connections|
    ensures forall j :: 0 <= j < |r| ==> r[j] == Decl(p, p.mappings.neuralMap.connections[j])
  {
    var cs := p.mappings.neuralMap.connections;
    seq(|cs|, j requires 0 <= j < |cs| => Decl(p, cs[j]))
  }

  /** All declared connections, project by project and then in list order: the order
      in which the nested loops visit them. */
  function Decls(ps: seq<Catalog.Project>): seq<Decl> {
    if ps == [] then [] else Decls(ps[..|ps| - 1]) + DeclsOf(ps[|ps| - 1])
  }

  /** The loop's two accumulators: `result` and `seen`. */
  datatype Acc = Acc(edges: seq<Edge>, seen: set<string>)

  /** One pass of the inner loop body for declaration `d`. */
  function Step(catalog: seq<Catalog.Project>, acc: Acc, d: Decl): Acc {
    var key := PairKey(d.project.id, d.targetId);
    if key in acc.seen then acc
    else
      var target := Catalog.FindById(catalog, d.targetId);
      if target.None? then Acc(acc.edges, acc.seen + {key})
      else Acc(acc.edges + [Edge(d.project, target.value,
                                 d.project.mappings.neuralMap.position,
                                 target.value.mappings.neuralMap.position)],
               acc.seen + {key})
  }

  /** The accumulators after visiting `ds` in order from empty ones. */
  function Run(catalog: seq<Catalog.Project>, ds: seq<Decl>): Acc {
    if ds == [] then Acc([], {}) else Step(catalog, Run(catalog, ds[..|ds| - 1]), ds[|ds| - 1])
  }

  /** The memoised `connections` value. */
  function Connections(catalog: seq<Catalog.Project>): seq<Edge> {
    Run(catalog, Decls(catalog)).edges
  }

  /** Visiting one more declaration is one more step. */
  lemma RunSnoc(catalog: seq<Catalog.Project>, ds: seq<Decl>, d: Decl)
    ensures Run(catalog, ds + [d]) == Step(catalog, Run(catalog, ds), d)
  {
    assert (ds + [d])[..|ds|] == ds;
  }

  /** Taking one more element of `mine` after `before`. */
  lemma PrefixSnoc(before: seq<Decl>, mine: seq<Decl>, j: nat)
    requires j < |mine|
    ensures before + mine[..j + 1] == (before + mine[..j]) + [mine[j]]
  {
    assert mine[..j + 1] == mine[..j] + [mine[j]];
  }

  /** The declarations of one more project come after those of the ones before it. */
  lemma DeclsSnoc(ps: seq<Catalog.Project>, i: nat)
    requires i < |ps|
    ensures Decls(ps[..i + 1]) == Decls(ps[..i]) + DeclsOf(ps[i])
  {
    assert ps[..i + 1][..i] == ps[..i];
  }

  /** The `useMemo` body: two nested loops over the catalog and each project's
      connection list, filling `result` and `seen`. */
  method BuildConnections(catalog: seq<Catalog.Project>) returns (result: seq<Edge>)
    ensures result == Connections(catalog)
  {
    result := [];
    var seen: set<string> := {};
    var i := 0;
    while i < |catalog|
      invariant 0 <= i <= |catalog|
      invariant Acc(result, seen) == Run(catalog, Decls(catalog[..i]))
    {
      var project := catalog[i];
      var fromPos := project.mappings.neuralMap.position;
      var cs := project.mappings.neuralMap.connections;
      ghost var before := Decls(catalog[..i]);
      ghost var mine := DeclsOf(project);
      assert before + mine[..0] == before;
      var j := 0;
      while j < |cs|
        invariant 0 <= j <= |cs|
        invariant Acc(result, seen) == Run(catalog, before + mine[..j])
      {
        var targetId := cs[j];
        assert mine[j] == Decl(project, targetId);
        var key := PairKey(project.id, targetId);
        if key !in seen {
          seen := seen + {key};
          var target := Catalog.FindById(catalog, targetId);
          if target.Some? {
            var toPos := target.value.mappings.neuralMap.position;
            result := result + [Edge(project, target.value, fromPos, toPos)];
          }
        }
        BodyExtendsRun(catalog, before, mine, j, result, seen);
        j := j + 1;
      }
      assert mine[..|cs|] == mine;
      DeclsSnoc(catalog, i);
      i := i + 1;
    }
    assert catalog[..|catalog|] == catalog;
  }

  /** The inner loop body, case by case, extends the run by the declaration it
      visits. */
  lemma BodyExtendsRun(catalog: seq<Catalog.Project>, before: seq<Decl>, mine: seq<Decl>, j: nat,
                       result: seq<Edge>, seen: set<string>)
    requires j < |mine|
    requires var acc, d := Run(catalog, before + mine[..j]), mine[j];
      && (DeclKey(d) in acc.seen ==> result == acc.edges && seen == acc.seen)
      && (DeclKey(d) !in acc.seen ==> seen == acc.seen + {DeclKey(d)})
      && (DeclKey(d) !in acc.seen && Catalog.FindById(catalog, d.targetId).None? ==> result == acc.edges)
      && (DeclKey(d) !in acc.seen && Catalog.FindById(catalog, d.targetId).Some? ==>
            result == acc.edges + [Edge(d.project, Catalog.FindById(catalog, d.targetId).value,
                                        d.project.mappings.neuralMap.position,
                                        Catalog.FindById(catalog, d.targetId).value.mappings.neuralMap.position)])
    ensures Acc(result, seen) == Run(catalog, before + mine[..j + 1])
  {
    PrefixSnoc(before, mine, j);
    RunSnoc(catalog, before + mine[..j], mine[j]);
  }

  /** The key of a drawn edge. */
  function EdgeKey(e: Edge): string {
    PairKey(e.from.id, e.to.id)
  }

  /** A declaration's key. */
  function DeclKey(d: Decl): string {
    PairKey(d.project.id, d.targetId)
  }

  /** `seen` holds exactly the keys of all visited declarations, whether or not their
      target was found. */
  lemma {:induction false} RunSeen(catalog: seq<Catalog.Project>, ds: seq<Decl>)
    ensures Run(catalog, ds).seen == set k | 0 <= k < |ds| :: DeclKey(ds[k])
  {
    if ds != [] {
      var front := ds[..|ds| - 1];
      RunSeen(catalog, front);
      assert forall k :: 0 <= k < |front| ==> front[k] == ds[k];
      assert (set k | 0 <= k < |ds| :: DeclKey(ds[k])) ==
             (set k | 0 <= k < |front| :: DeclKey(front[k])) + {DeclKey(ds[|ds| - 1])};
    }
  }

  /** At most one edge per declaration; every edge's key is seen, and the edge comes
      from a visited declaration whose target was found, with both positions taken
      from the two projects. */
  lemma {:induction false} RunEdges(catalog: seq<Catalog.Project>, ds: seq<Decl>)
    ensures |Run(catalog, ds).edges| <= |ds|
    ensures forall e :: e in Run(catalog, ds).edges ==>
      EdgeKey(e) in Run(catalog, ds).seen &&
      e.to in catalog &&
      (exists k :: 0 <= k < |ds| && ds[k].project == e.from && ds[k].targetId == e.to.id) &&
      e.fromPos == e.from.mappings.neuralMap.position &&
      e.toPos == e.to.mappings.neuralMap.position
  {
    if ds != [] {
      var front := ds[..|ds| - 1];
      RunEdges(catalog, front);
      assert forall k :: 0 <= k < |front| ==> front[k] == ds[k];
    }
  }

  /** No two edges share a key. */
  lemma {:induction false} RunKeysDistinct(catalog: seq<Catalog.Project>, ds: seq<Decl>)
    ensures forall i, j :: 0 <= i < j < |Run(catalog, ds).edges| ==>
      EdgeKey(Run(catalog, ds).edges[i]) != EdgeKey(Run(catalog, ds).edges[j])
  {
    if ds != [] {
      var front := ds[..|ds| - 1];
      var d := ds[|ds| - 1];
      RunKeysDistinct(catalog, front);
      RunEdges(catalog, front);
      var acc := Run(catalog, front);
      var key := DeclKey(d);
      if key !in acc.seen {
        var target := Catalog.FindById(catalog, d.targetId);
        if target.Some? {
          var e := Edge(d.project, target.value, d.project.mappings.neuralMap.position,
                        target.value.mappings.neuralMap.position);
          var r := Run(catalog, ds).edges;
          assert r == acc.edges + [e];
          assert EdgeKey(e) == key;
          forall i | 0 <= i < |r| - 1
            ensures EdgeKey(r[i]) != EdgeKey(e)
          {
            assert r[i] in acc.edges;
          }
        }
      }
    }
  }

  /** `seen` holds exactly the keys of all visited declarations, whether or not their
      target was found; every edge comes from a visited declaration with a found
      target, with both positions taken from the two projects; no two edges share a
      key; and there are at most as many edges as declarations. */
  lemma RunInvariant(catalog: seq<Catalog.Project>, ds: seq<Decl>)
    ensures Run(catalog, ds).seen == set k | 0 <= k < |ds| :: DeclKey(ds[k])
    ensures |Run(catalog, ds).edges| <= |ds|
    ensures forall e :: e in Run(catalog, ds).edges ==>
      EdgeKey(e) in Run(catalog, ds).seen &&
      e.to in catalog &&
      (exists k :: 0 <= k < |ds| && ds[k].project == e.from && ds[k].targetId == e.to.id) &&
      e.fromPos == e.from.mappings.neuralMap.position &&
      e.toPos == e.to.mappings.neuralMap.position
    ensures forall i, j :: 0 <= i < j < |Run(catalog, ds).edges| ==>
      EdgeKey(Run(catalog, ds).edges[i]) != EdgeKey(Run(catalog, ds).edges[j])
  {
    RunSeen(catalog, ds);
    RunEdges(catalog, ds);
    RunKeysDistinct(catalog, ds);
  }

  /** The positions, in `ds`, of the declarations that produced an edge. */
  function Kept(catalog: seq<Catalog.Project>, ds: seq<Decl>): seq<nat> {
    if ds == [] then []
    else
      var front := ds[..|ds| - 1];
      var d := ds[|ds| - 1];
      if DeclKey(d) !in Run(catalog, front).seen && Catalog.FindById(catalog, d.targetId).Some?
      then Kept(catalog, front) + [|ds| - 1]
      else Kept(catalog, front)
  }

  /** One kept position per edge, each a position of `ds`, strictly increasing. */
  lemma {:induction false} KeptInOrder(catalog: seq<Catalog.Project>, ds: seq<Decl>)
    ensures |Kept(catalog, ds)| == |Run(catalog, ds).edges|
    ensures forall k :: 0 <= k < |Kept(catalog, ds)| ==> Kept(catalog, ds)[k] < |ds|
    ensures forall i, j :: 0 <= i < j < |Kept(catalog, ds)| ==> Kept(catalog, ds)[i] < Kept(catalog, ds)[j]
  {
    if ds != [] {
      KeptInOrder(catalog, ds[..|ds| - 1]);
    }
  }

  /** Edge `k` is drawn from the project of the declaration at kept position `k` to
      that declaration's found target. */
  lemma {:induction false} KeptEdges(catalog: seq<Catalog.Project>, ds: seq<Decl>)
    ensures |Kept(catalog, ds)| == |Run(catalog, ds).edges|
    ensures forall k :: 0 <= k < |Kept(catalog, ds)| ==>
      (Kept(catalog, ds)[k] < |ds| &&
       Run(catalog, ds).edges[k].from == ds[Kept(catalog, ds)[k]].project &&
       Catalog.FindById(catalog, ds[Kept(catalog, ds)[k]].targetId) == Some(Run(catalog, ds).edges[k].to))
  {
    KeptInOrder(catalog, ds);
    if ds != [] {
      var front := ds[..|ds| - 1];
      KeptEdges(catalog, front);
      assert forall k :: 0 <= k < |front| ==> front[k] == ds[k];
    }
  }

  /** Edge order follows declaration order: the edges are the declarations at strictly
      increasing positions, each drawn from its project to the found target. */
  lemma EdgesFollowDecls(catalog: seq<Catalog.Project>, ds: seq<Decl>)
    ensures |Kept(catalog, ds)| == |Run(catalog, ds).edges|
    ensures forall k :: 0 <= k < |Kept(catalog, ds)| ==> Kept(catalog, ds)[k] < |ds|
    ensures forall i, j :: 0 <= i < j < |Kept(catalog, ds)| ==> Kept(catalog, ds)[i] < Kept(catalog, ds)[j]
    ensures forall k :: 0 <= k < |Kept(catalog, ds)| ==>
      Run(catalog, ds).edges[k].from == ds[Kept(catalog, ds)[k]].project &&
      Catalog.FindById(catalog, ds[Kept(catalog, ds)[k]].targetId) == Some(Run(catalog, ds).edges[k].to)
  {
    KeptInOrder(catalog, ds);
    KeptEdges(catalog, ds);
  }

  /** Visiting more declarations only adds edges at the end. */
  lemma {:induction false} RunExtends(catalog: seq<Catalog.Project>, ds: seq<Decl>, more: seq<Decl>)
    ensures Run(catalog, ds).edges <= Run(catalog, ds + more).edges
    ensures Run(catalog, ds).seen <= Run(catalog, ds + more).seen
    decreases |more|
  {
    if more != [] {
      var front := more[..|more| - 1];
      RunExtends(catalog, ds, front);
      PrefixSnoc(ds, more, |more| - 1);
      assert more[..|more|] == more;
      RunSnoc(catalog, ds + front, more[|more| - 1]);
    } else {
      assert ds + more == ds;
    }
  }

  /** Every declaration of a catalog comes from a catalog project's own list. */
  lemma {:induction false} DeclsDeclared(ps: seq<Catalog.Project>)
    ensures forall k :: 0 <= k < |Decls(ps)| ==>
      Decls(ps)[k].project in ps && Decls(ps)[k].targetId in Decls(ps)[k].project.mappings.neuralMap.connections
    ensures |Decls(ps)| == Total(ps)
  {
    if ps != [] {
      var front := ps[..|ps| - 1];
      DeclsDeclared(front);
      var r := Decls(ps);
      forall k | 0 <= k < |r|
        ensures r[k].project in ps && r[k].targetId in r[k].project.mappings.neuralMap.connections
      {
        if k < |Decls(front)| {
          assert r[k] == Decls(front)[k];
          assert r[k].project in front;
        } else {
          assert r[k] == DeclsOf(ps[|ps| - 1])[k - |Decls(front)|];
        }
      }
    }
  }

  /** The total number of declared connections. */
  function Total(ps: seq<Catalog.Project>): nat {
    if ps == [] then 0 else Total(ps[..|ps| - 1]) + |ps[|ps| - 1].mappings.neuralMap.connections|
  }

  /** What the component draws: every edge starts at a catalog project's position,
      ends at the position of a catalog project that the starting project lists, no
      two edges share a key, and there are at most as many edges as declared
      connections. */
  lemma ConnectionsWellFormed(catalog: seq<Catalog.Project>)
    ensures |Connections(catalog)| <= Total(catalog)
    ensures forall e :: e in Connections(catalog) ==>
      e.from in catalog && e.to in catalog &&
      e.to.id in e.from.mappings.neuralMap.connections &&
      e.fromPos == e.from.mappings.neuralMap.position &&
      e.toPos == e.to.mappings.neuralMap.position
    ensures forall i, j :: 0 <= i < j < |Connections(catalog)| ==>
      EdgeKey(Connections(catalog)[i]) != EdgeKey(Connections(catalog)[j])
  {
    var ds := Decls(catalog);
    RunInvariant(catalog, ds);
    DeclsDeclared(catalog);
  }

  /** No unordered pair of projects is drawn twice, in either direction. */
  lemma UnorderedPairsOnce(catalog: seq<Catalog.Project>, i: nat, j: nat)
    requires i < j < |Connections(catalog)|
    ensures var a, b := Connections(catalog)[i], Connections(catalog)[j];
      !(a.from.id == b.from.id && a.to.id == b.to.id) &&
      !(a.from.id == b.to.id && a.to.id == b.from.id)
  {
    ConnectionsWellFormed(catalog);
    var a, b := Connections(catalog)[i], Connections(catalog)[j];
    if a.from.id == b.to.id && a.to.id == b.from.id {
      PairKeySymmetric(a.from.id, a.to.id);
    }
  }

  /** Two id pairs name the same unordered pair. */
  predicate SamePair(a: string, b: string, c: string, d: string) {
    (a == c && b == d) || (a == d && b == c)
  }

  /** A declaration whose ids contain no dash. */
  predicate DashFreeDecl(d: Decl) {
    '-' !in d.project.id && '-' !in d.targetId
  }

  /** With dash-free ids a declaration is skipped as seen exactly when the same
      unordered pair was declared before it; the key never merges two pairs. */
  lemma SeenIffSamePair(catalog: seq<Catalog.Project>, ds: seq<Decl>, d: Decl)
    requires forall k :: 0 <= k < |ds| ==> DashFreeDecl(ds[k])
    requires DashFreeDecl(d)
    ensures DeclKey(d) in Run(catalog, ds).seen <==>
      exists k :: 0 <= k < |ds| && SamePair(ds[k].project.id, ds[k].targetId, d.project.id, d.targetId)
  {
    RunInvariant(catalog, ds);
    if DeclKey(d) in Run(catalog, ds).seen {
      var k :| 0 <= k < |ds| && DeclKey(ds[k]) == DeclKey(d);
      PairKeyNamesPair(ds[k].project.id, ds[k].targetId, d.project.id, d.targetId);
    }
    if exists k :: 0 <= k < |ds| && SamePair(ds[k].project.id, ds[k].targetId, d.project.id, d.targetId) {
      var k :| 0 <= k < |ds| && SamePair(ds[k].project.id, ds[k].targetId, d.project.id, d.targetId);
      PairKeySymmetric(d.project.id, d.targetId);
      assert DeclKey(ds[k]) == DeclKey(d);
    }
  }
}
