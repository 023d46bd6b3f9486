/**
 Replacement graph of the standard catalog (knowledge/standards.py): the depth-first
 cycle search and the catalog it guards.
 */
module Standards {
  import opened Common

  // ---------------------------------------------------------------------
  // Graphs and cycles
  // ---------------------------------------------------------------------

  type Graph = map<string, seq<string>>

  /** An edge of the graph restricted to known nodes. */
  predicate Edge(g: Graph, a: string, b: string) {
    a in g && b in g && b in g[a]
  }

  ghost predicate IsPath(g: Graph, p: seq<string>) {
    && |p| >= 2
    && forall i :: 0 <= i < |p| - 1 ==> Edge(g, p[i], p[i + 1])
  }

  /** `b` can be reached from `a` over at least one edge. */
  ghost predicate Reaches(g: Graph, a: string, b: string) {
    exists p :: IsPath(g, p) && p[0] == a && p[|p| - 1] == b
  }

  ghost predicate OnCycle(g: Graph, a: string) {
    Reaches(g, a, a)
  }

  ghost predicate Cyclic(g: Graph) {
    exists a :: a in g && OnCycle(g, a)
  }

  lemma EdgeReaches(g: Graph, a: string, b: string)
    requires Edge(g, a, b)
    ensures Reaches(g, a, b)
  {
    var p := [a, b];
    assert IsPath(g, p) && p[0] == a && p[|p| - 1] == b;
  }

  lemma ReachesThenEdge(g: Graph, a: string, b: string, c: string)
    requires Reaches(g, a, b) && Edge(g, b, c)
    ensures Reaches(g, a, c)
  {
    var p :| IsPath(g, p) && p[0] == a && p[|p| - 1] == b;
    var q := p + [c];
    assert IsPath(g, q) && q[0] == a && q[|q| - 1] == c;
  }

  /** A cycle through `a` leaves `a` over an edge to a node on the same cycle. */
  lemma CycleMovesOn(g: Graph, a: string)
    requires OnCycle(g, a)
    ensures exists b :: Edge(g, a, b) && OnCycle(g, b)
  {
    var p :| IsPath(g, p) && p[0] == a && p[|p| - 1] == a;
    var b := p[1];
    var q := p[1..] + [b];
    assert Edge(g, p[0], p[1]);
    forall i | 0 <= i < |q| - 1
      ensures Edge(g, q[i], q[i + 1])
    {
      if i + 2 < |p| {
        assert Edge(g, p[i + 1], p[i + 2]);
      }
    }
    assert IsPath(g, q) && q[0] == b && q[|q| - 1] == b;
  }

  // ---------------------------------------------------------------------
  // The search
  // ---------------------------------------------------------------------

  /** What the search knows about the finished nodes: none of them is on a cycle. */
  ghost predicate Settled(g: Graph, visited: set<string>) {
    forall v :: v in visited ==> v in g && !OnCycle(g, v)
  }

  /** The nested `visit`: `visiting` is the current stack, `visited` the finished nodes. */
  method Visit(g: Graph, node: string, visiting: set<string>, visited: set<string>)
    returns (cyclic: bool, visited': set<string>)
    requires node in g && visiting <= g.Keys
    requires forall u :: u in visiting ==> Reaches(g, u, node)
    requires Settled(g, visited)
    ensures cyclic ==> Cyclic(g)
    ensures !cyclic ==> visited <= visited' && node in visited' && Settled(g, visited')
    decreases g.Keys - visiting, node in g
  {
    visited' := visited;
    if node in visiting {
      return true, visited';
    }
    if node in visited {
      return false, visited';
    }
    var targets := g[node];
    var i := 0;
    while i < |targets|
      invariant 0 <= i <= |targets|
      invariant visited <= visited' && Settled(g, visited')
      invariant forall j :: 0 <= j < i && targets[j] in g ==> targets[j] in visited'
    {
      if targets[i] in g {
        assert Edge(g, node, targets[i]);
        EdgeReaches(g, node, targets[i]);
        forall u | u in visiting ensures Reaches(g, u, targets[i]) {
          ReachesThenEdge(g, u, node, targets[i]);
        }
        var found;
        found, visited' := Visit(g, targets[i], visiting + {node}, visited');
        if found {
          return true, visited';
        }
      }
      i := i + 1;
    }
    if OnCycle(g, node) {
      CycleMovesOn(g, node);
      assert false;
    }
    visited' := visited' + {node};
    cyclic := false;
  }

  /** `_has_cycle`'s search over the whole graph: sound and complete. */
  method HasCycle(g: Graph) returns (cyclic: bool)
    ensures cyclic <==> Cyclic(g)
  {
    var visited: set<string> := {};
    var pending := g.Keys;
    while pending != {}
      invariant pending <= g.Keys
      invariant Settled(g, visited) && g.Keys - pending <= visited
      decreases pending
    {
      var node :| node in pending;
      var found;
      found, visited := Visit(g, node, {}, visited);
      if found {
        return true;
      }
      pending := pending - {node};
    }
    cyclic := false;
  }

  // ---------------------------------------------------------------------
  // The catalog
  // ---------------------------------------------------------------------

  /** The immutable payload a version identifier is computed from; the descriptive fields
      are one opaque text. */
  datatype Draft = Draft(
    scope: Scope, standardType: string, identifier: string, details: string, supersedes: seq<string>)

  datatype StandardVersion = StandardVersion(draft: Draft, versionId: string)

  datatype Code =
    | ScopeDenied | ImmutableConflict | ReplacementCycle
    | ReplacementScopeDenied | ReplacementMissing | LineageMismatch

  function KeyFor(s: Scope, versionId: string): seq<KeyPart> {
    ScopeKey(s) + [KeyText(versionId)]
  }

  type Versions = map<seq<KeyPart>, StandardVersion>

  lemma KeyForInjective(a: Scope, x: string, b: Scope, y: string)
    requires KeyFor(a, x) == KeyFor(b, y)
    ensures a == b && x == y
  {
    var k, l := KeyFor(a, x), KeyFor(b, y);
    assert |a.roles| == |b.roles|;
    assert k[|k| - 1] == KeyText(x) && l[|l| - 1] == KeyText(y);
    assert k[0] == KeyId(a.tenant) && l[0] == KeyId(b.tenant);
    assert k[1] == KeyId(a.project) && l[1] == KeyId(b.project);
    assert k[2] == KeyId(a.user) && l[2] == KeyId(b.user);
    assert k[3] == KeyText(a.permissionVersion) && l[3] == KeyText(b.permissionVersion);
    forall i | 0 <= i < |a.roles| ensures a.roles[i] == b.roles[i] {
      assert k[4 + i] == KeyText(a.roles[i]) && l[4 + i] == KeyText(b.roles[i]);
    }
    assert a.roles == b.roles;
  }

  /** `list_for_scope`'s prefix scan. Keys hold a variable number of role codes, so the
      scan also meets versions of scopes whose role list extends this one's. */
  function Scan(vs: Versions, scope: Scope): set<StandardVersion> {
    set k | k in vs && ScopeKey(scope) <= k :: vs[k]
  }

  ghost predicate Injective(digest: Draft -> string) {
    forall a, b :: digest(a) == digest(b) ==> a == b
  }

  /** The dictionary from identifiers to replacement targets of some versions. */
  ghost predicate IsGraphOf(scan: set<StandardVersion>, g: Graph) {
    && (forall v :: v in scan ==> v.versionId in g && g[v.versionId] == v.draft.supersedes)
    && (forall id :: id in g ==> exists v :: v in scan && v.versionId == id)
  }

  /** What registration keeps of every catalog. */
  ghost predicate CatalogInv(vs: Versions, digest: Draft -> string) {
    && (forall k :: k in vs ==>
          k == KeyFor(vs[k].draft.scope, vs[k].versionId) && vs[k].versionId == digest(vs[k].draft))
    && (forall k, t :: k in vs && t in vs[k].draft.supersedes ==> Resolves(vs, vs[k], t))
    && (forall s, g :: IsGraphOf(Scan(vs, s), g) ==> !Cyclic(g))
  }

  /** A replaced identifier names a registered version of the same scope and lineage. */
  ghost predicate Resolves(vs: Versions, v: StandardVersion, target: string) {
    var k := KeyFor(v.draft.scope, target);
    && k in vs
    && vs[k].draft.standardType == v.draft.standardType
    && vs[k].draft.identifier == v.draft.identifier
  }

  /** The first failing replacement target from position `i` on. */
  function TargetProblem(vs: Versions, scope: Scope, v: StandardVersion, i: nat): Option<Code>
    requires i <= |v.draft.supersedes|
    decreases |v.draft.supersedes| - i
  {
    if i == |v.draft.supersedes| then None
    else
      var target := v.draft.supersedes[i];
      var k := KeyFor(scope, target);
      if k !in vs then
        if exists l :: l in vs && vs[l].versionId == target then Some(ReplacementScopeDenied)
        else Some(ReplacementMissing)
      else if vs[k].draft.standardType != v.draft.standardType || vs[k].draft.identifier != v.draft.identifier then
        Some(LineageMismatch)
      else TargetProblem(vs, scope, v, i + 1)
  }

  lemma {:induction false} NoTargetProblem(vs: Versions, v: StandardVersion, i: nat)
    requires i <= |v.draft.supersedes|
    requires TargetProblem(vs, v.draft.scope, v, i) == None
    ensures forall j :: i <= j < |v.draft.supersedes| ==> Resolves(vs, v, v.draft.supersedes[j])
    decreases |v.draft.supersedes| - i
  {
    if i < |v.draft.supersedes| {
      NoTargetProblem(vs, v, i + 1);
    }
  }

  /** A cycle never meets a node nothing points to. */
  lemma CycleAvoidsSource(g: Graph, node: string, targets: seq<string>)
    requires node !in g && node !in targets
    requires forall a :: a in g ==> node !in g[a]
    ensures Cyclic(g[node := targets]) ==> Cyclic(g)
  {
    var g' := g[node := targets];
    if Cyclic(g') {
      var a :| a in g' && OnCycle(g', a);
      var p :| IsPath(g', p) && p[0] == a && p[|p| - 1] == a;
      forall i | 0 <= i < |p| ensures p[i] != node {
        var j := if i > 0 then i - 1 else |p| - 2;
        assert Edge(g', p[j], p[j + 1]);
      }
      forall i | 0 <= i < |p| - 1 ensures Edge(g, p[i], p[i + 1]) {
        assert Edge(g', p[i], p[i + 1]);
      }
      assert Edge(g, p[0], p[1]);
      assert IsPath(g, p) && OnCycle(g, a);
    }
  }

  /** With injective identifiers a new version's identifier is nowhere in the catalog: not
      as a version and not as a replacement target, under any scope. */
  lemma NewIdIsUnknown(vs: Versions, digest: Draft -> string, v: StandardVersion)
    requires Injective(digest) && CatalogInv(vs, digest)
    requires v.versionId == digest(v.draft) && KeyFor(v.draft.scope, v.versionId) !in vs
    ensures forall k :: k in vs ==> vs[k].versionId != v.versionId && v.versionId !in vs[k].draft.supersedes
  {
    forall k | k in vs
      ensures vs[k].versionId != v.versionId
      ensures v.versionId !in vs[k].draft.supersedes
    {
      if v.versionId in vs[k].draft.supersedes {
        assert Resolves(vs, vs[k], v.versionId);
        var l := KeyFor(vs[k].draft.scope, v.versionId);
        KeyForInjective(vs[l].draft.scope, vs[l].versionId, vs[k].draft.scope, v.versionId);
      }
    }
  }

  /** A set of versions with an acyclic graph stays acyclic when a version nobody
      replaces joins it. */
  lemma JoinKeepsAcyclic(scan: set<StandardVersion>, v: StandardVersion, g: Graph)
    requires v.versionId !in v.draft.supersedes
    requires forall w :: w in scan ==> w.versionId != v.versionId && v.versionId !in w.draft.supersedes
    requires forall g0 :: IsGraphOf(scan, g0) ==> !Cyclic(g0)
    requires IsGraphOf(scan + {v}, g)
    ensures !Cyclic(g)
  {
    var g0 := g - {v.versionId};
    assert v in scan + {v};
    forall w | w in scan ensures w.versionId in g0 && g0[w.versionId] == w.draft.supersedes {
      assert w in scan + {v};
    }
    forall id | id in g0 ensures exists w :: w in scan && w.versionId == id {
      var w :| w in scan + {v} && w.versionId == id;
    }
    assert IsGraphOf(scan, g0);
    CycleAvoidsSource(g0, v.versionId, v.draft.supersedes);
    assert g == g0[v.versionId := v.draft.supersedes];
  }

  lemma ScanOfStore(vs: Versions, key: seq<KeyPart>, v: StandardVersion, s: Scope)
    requires key !in vs
    ensures Scan(vs[key := v], s) == if ScopeKey(s) <= key then Scan(vs, s) + {v} else Scan(vs, s)
  {
    var vs', prefix := vs[key := v], ScopeKey(s);
    assert forall k :: k in vs ==> vs'[k] == vs[k];
    assert forall k :: k in vs' && prefix <= k ==> k == key || k in vs;
    forall w | w in Scan(vs, s) ensures w in Scan(vs', s) {
      var k :| k in vs && prefix <= k && vs[k] == w;
      assert k in vs' && vs'[k] == w;
    }
    if prefix <= key {
      assert key in vs' && vs'[key] == v;
      assert v in Scan(vs', s);
    }
  }

  /** Any scan of the catalog with the new version is acyclic. */
  lemma ExtendedScanAcyclic(vs: Versions, digest: Draft -> string, v: StandardVersion, s: Scope, g: Graph)
    requires Injective(digest) && CatalogInv(vs, digest)
    requires v.versionId == digest(v.draft) && KeyFor(v.draft.scope, v.versionId) !in vs
    requires v.versionId !in v.draft.supersedes
    requires IsGraphOf(Scan(vs[KeyFor(v.draft.scope, v.versionId) := v], s), g)
    ensures !Cyclic(g)
  {
    var key := KeyFor(v.draft.scope, v.versionId);
    ScanOfStore(vs, key, v, s);
    if ScopeKey(s) <= key {
      NewIdIsUnknown(vs, digest, v);
      JoinKeepsAcyclic(Scan(vs, s), v, g);
    }
  }

  /** Storing a version whose targets all resolve keeps the catalog invariant. */
  lemma StoreKeepsInv(vs: Versions, digest: Draft -> string, v: StandardVersion)
    requires Injective(digest) && CatalogInv(vs, digest)
    requires v.versionId == digest(v.draft) && KeyFor(v.draft.scope, v.versionId) !in vs
    requires v.versionId !in v.draft.supersedes
    requires TargetProblem(vs, v.draft.scope, v, 0) == None
    ensures CatalogInv(vs[KeyFor(v.draft.scope, v.versionId) := v], digest)
  {
    var key := KeyFor(v.draft.scope, v.versionId);
    var vs' := vs[key := v];
    NoTargetProblem(vs, v, 0);
    forall k, t | k in vs' && t in vs'[k].draft.supersedes ensures Resolves(vs', vs'[k], t) {
      assert Resolves(vs, vs'[k], t);
    }
    forall s, g | IsGraphOf(Scan(vs', s), g) ensures !Cyclic(g) {
      ExtendedScanAcyclic(vs, digest, v, s, g);
    }
  }

  lemma AddToGraph(scan: set<StandardVersion>, v: StandardVersion, g: Graph)
    requires IsGraphOf(scan, g)
    requires forall w :: w in scan ==> w.versionId != v.versionId
    ensures IsGraphOf(scan + {v}, g[v.versionId := v.draft.supersedes])
  {
    var g' := g[v.versionId := v.draft.supersedes];
    forall id | id in g' ensures exists w :: w in scan + {v} && w.versionId == id {
      if id == v.versionId {
        assert v in scan + {v};
      } else {
        var w :| w in scan && w.versionId == id;
        assert w in scan + {v};
      }
    }
  }

  class StandardCatalog {
    var versions: Versions
    ghost const digest: Draft -> string

    ghost predicate Valid()
      reads this
    {
      Injective(digest) && CatalogInv(versions, digest)
    }

    constructor (ghost digest: Draft -> string)
      requires Injective(digest)
      ensures Valid() && versions == map[] && this.digest == digest
    {
      versions := map[];
      this.digest := digest;
      new;
      forall s, g | IsGraphOf(Scan(versions, s), g) ensures !Cyclic(g) {
        assert g.Keys == {};
      }
    }

    /** The graph `_has_cycle` searches: the scan, then the candidate's own entry. */
    method BuildGraph(scope: Scope, candidate: StandardVersion) returns (g: Graph)
      requires forall v, w ::
        v in Scan(versions, scope) && w in Scan(versions, scope) && v.versionId == w.versionId ==> v == w
      requires forall v :: v in Scan(versions, scope) ==> v.versionId != candidate.versionId
      ensures IsGraphOf(Scan(versions, scope) + {candidate}, g)
    {
      g := map[];
      var scan := Scan(versions, scope);
      var pending := scan;
      while pending != {}
        invariant pending <= scan && IsGraphOf(scan - pending, g)
        decreases pending
      {
        var v :| v in pending;
        pending := pending - {v};
        assert scan - pending == scan - pending - {v} + {v};
        AddToGraph(scan - pending - {v}, v, g);
        g := g[v.versionId := v.draft.supersedes];
      }
      assert scan - pending == scan;
      AddToGraph(scan, candidate, g);
      g := g[candidate.versionId := candidate.draft.supersedes];
    }

    /** Registration: the cycle error is unreachable, a failure stores nothing and a success
        stores exactly the version under its own key. */
    method Register(scope: Scope, version: StandardVersion) returns (r: Result<StandardVersion, Code>)
      requires Valid()
      requires version.versionId == digest(version.draft)     // StandardVersion.validate_identity
      requires version.versionId !in version.draft.supersedes   // StandardVersion.validate_identity
      modifies this
      ensures Valid()
      ensures r != Err(ReplacementCycle)
      ensures r.Err? ==> versions == old(versions)
      ensures r.Ok? ==> r.value == version && versions == old(versions)[KeyFor(scope, version.versionId) := version]
      ensures r.Ok? <==>
                && version.draft.scope == scope
                && (KeyFor(scope, version.versionId) in old(versions)
                    || old(TargetProblem(versions, scope, version, 0)) == None)
    {
      if version.draft.scope != scope {
        return Err(ScopeDenied);
      }
      var key := KeyFor(scope, version.versionId);
      if key in versions {
        var existing := versions[key];
        KeyForInjective(existing.draft.scope, existing.versionId, scope, version.versionId);
        if existing != version {
          assert false;
          return Err(ImmutableConflict);
        }
        assert versions == versions[key := version];
        return Ok(existing);
      }
      if version.versionId in version.draft.supersedes {
        assert false;
        return Err(ReplacementCycle);
      }
      var problem := TargetProblem(versions, scope, version, 0);
      if problem.Some? {
        TargetProblemIsNoCycle(versions, scope, version, 0);
        return Err(problem.value);
      }
      NewIdIsUnknown(versions, digest, version);
      var g := BuildGraph(scope, version);
      ScanOfStore(versions, key, version, scope);
      ExtendedScanAcyclic(versions, digest, version, scope, g);
      var cyclic := HasCycle(g);
      if cyclic {
        assert false;
        return Err(ReplacementCycle);
      }
      StoreKeepsInv(versions, digest, version);
      versions := versions[key := version];
      r := Ok(version);
    }
  }

  lemma {:induction false} TargetProblemIsNoCycle(vs: Versions, scope: Scope, v: StandardVersion, i: nat)
    requires i <= |v.draft.supersedes|
    ensures TargetProblem(vs, scope, v, i) != Some(ReplacementCycle)
    decreases |v.draft.supersedes| - i
  {
    if i < |v.draft.supersedes| {
      TargetProblemIsNoCycle(vs, scope, v, i + 1);
    }
  }
}
