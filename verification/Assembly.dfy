/**
 The context assembler of context/assembly.py: candidates the caller may see are grouped by
 content, merged, ordered, and taken greedily, protected ones first.
 */
module Assembly {
  import opened Common
  import opened Listing
  import Timestamp

  // ---------------------------------------------------------------------
  // Data
  // ---------------------------------------------------------------------

  datatype Classification = Public | Internal | Confidential | Restricted

  function Degree(c: Classification): nat {
    match c case Public => 0 case Internal => 1 case Confidential => 2 case Restricted => 3
  }

  datatype Access = Access(
    scope: Scope, userOnly: bool, roles: set<string>, permissions: set<string>, classification: Classification)

  /** A candidate; `content` is its canonical text and `hash` that text's SHA-256 as a number. */
  datatype Candidate = Candidate(
    id: string, access: Access, content: string, hash: nat, relevance: real, protected: bool, observed: int,
    provenance: string)

  datatype Policy = Policy(minimumRelevance: real, maxItems: nat, maxBytes: nat)

  datatype Request = Request(
    scope: Scope, candidates: seq<Candidate>, permissions: set<string>, clearance: Classification, policy: Policy)

  datatype Source = Source(id: string, provenance: string, observed: int)

  datatype Entry = Entry(
    content: string, hash: nat, classification: Classification, relevance: real, protected: bool, size: nat,
    sources: seq<Source>)

  datatype Reason =
    | TenantDenied | ProjectDenied | UserDenied | VersionStale | RoleDenied | PermissionDenied | ClassificationDenied
    | Irrelevant | Selected | Deduplicated | BudgetExcluded | LimitExcluded

  datatype Decision = Decision(id: string, reason: Reason)

  datatype Failure = ProtectedOverflow

  function RoleSet(scope: Scope): set<string> {
    set role | role in scope.roles
  }

  /** _access_reason: the first check that denies. */
  function AccessReason(a: Access, r: Request): Option<Reason> {
    if a.scope.tenant != r.scope.tenant then Some(TenantDenied)
    else if a.scope.project != r.scope.project then Some(ProjectDenied)
    else if a.userOnly && a.scope.user != r.scope.user then Some(UserDenied)
    else if a.scope.permissionVersion != r.scope.permissionVersion then Some(VersionStale)
    else if !(a.roles <= RoleSet(r.scope)) then Some(RoleDenied)
    else if !(a.permissions <= r.permissions) then Some(PermissionDenied)
    else if Degree(a.classification) > Degree(r.clearance) then Some(ClassificationDenied)
    else None
  }

  /** Why a candidate is not eligible; a protected one is never irrelevant. */
  function Denial(c: Candidate, r: Request): Option<Reason> {
    if AccessReason(c.access, r).Some? then AccessReason(c.access, r)
    else if !c.protected && c.relevance < r.policy.minimumRelevance then Some(Irrelevant)
    else None
  }

  /** What the request contract and the content check promise: identifiers are unique and the
      hash stands for the content. */
  ghost predicate ValidCandidates(candidates: seq<Candidate>) {
    && (forall i, j :: 0 <= i < j < |candidates| ==> candidates[i].id != candidates[j].id)
    && (forall i, j :: 0 <= i < |candidates| && 0 <= j < |candidates| ==>
          (candidates[i].hash == candidates[j].hash <==> candidates[i].content == candidates[j].content))
  }

  // ---------------------------------------------------------------------
  // The order of texts and entries
  // ---------------------------------------------------------------------

  lemma {:induction false} TextTotal(a: string, b: string)
    ensures a != b ==> Timestamp.TextLess(a, b) || Timestamp.TextLess(b, a)
    ensures !(Timestamp.TextLess(a, b) && Timestamp.TextLess(b, a))
    decreases |a|
  {
    if a != "" && b != "" {
      TextTotal(a[1..], b[1..]);
      assert a == [a[0]] + a[1..] && b == [b[0]] + b[1..];
    }
  }

  lemma {:induction false} TextTransitive(a: string, b: string, c: string)
    requires Timestamp.TextLess(a, b) && Timestamp.TextLess(b, c)
    ensures Timestamp.TextLess(a, c)
    decreases |a|
  {
    if a != "" && a[0] == b[0] && b[0] == c[0] {
      TextTransitive(a[1..], b[1..], c[1..]);
    }
  }

  predicate ById(a: Candidate, b: Candidate) {
    Timestamp.TextLess(a.id, b.id)
  }

  lemma ByIdOrders(group: set<Candidate>)
    requires forall a, b :: a in group && b in group && a.id == b.id ==> a == b
    ensures Orders(ById, group)
  {
    forall a, b | a in group && b in group
      ensures !ById(a, a) && (a != b ==> ById(a, b) || ById(b, a))
    {
      TextTotal(a.id, a.id);
      TextTotal(a.id, b.id);
    }
    forall a, b, c | a in group && b in group && c in group && ById(a, b) && ById(b, c) ensures ById(a, c) {
      TextTransitive(a.id, b.id, c.id);
    }
  }

  function Latest(sources: seq<Source>): int {
    if sources == [] then 0
    else if |sources| == 1 then sources[0].observed
    else
      var rest := Latest(sources[..|sources| - 1]);
      if sources[|sources| - 1].observed > rest then sources[|sources| - 1].observed else rest
  }

  /** Protected first, then by relevance, then by latest observation, then by hash. */
  predicate Ahead(e: Entry, f: Entry) {
    if e.protected != f.protected then e.protected
    else if e.relevance != f.relevance then e.relevance > f.relevance
    else if Latest(e.sources) != Latest(f.sources) then Latest(e.sources) > Latest(f.sources)
    else e.hash < f.hash
  }

  lemma AheadOrders(entries: set<Entry>)
    requires forall e, f :: e in entries && f in entries && e.hash == f.hash ==> e == f
    ensures Orders(Ahead, entries)
  {
    hide Latest;
    forall a, b, c | a in entries && b in entries && c in entries && Ahead(a, b) && Ahead(b, c) ensures Ahead(a, c) {
    }
  }

  // ---------------------------------------------------------------------
  // Entries
  // ---------------------------------------------------------------------

  function Labels(ordered: seq<Candidate>): seq<Source> {
    seq(|ordered|, i requires 0 <= i < |ordered| => Source(ordered[i].id, ordered[i].provenance, ordered[i].observed))
  }

  /** `e` is what `_merge_group` makes of a group, whatever order the group is given in. */
  ghost predicate IsEntry(e: Entry, group: set<Candidate>) {
    && group != {} && (forall c :: c in group ==> c.content == e.content && c.hash == e.hash)
    && e.size == |e.content|
    && (exists c :: c in group && c.access.classification == e.classification)
    && (forall c :: c in group ==> Degree(c.access.classification) <= Degree(e.classification))
    && (exists c :: c in group && c.relevance == e.relevance) && (forall c :: c in group ==> c.relevance <= e.relevance)
    && (e.protected <==> exists c :: c in group && c.protected)
    && exists ordered :: IsListing(ordered, group, ById) && e.sources == Labels(ordered)
  }

  lemma EntryUnique(e: Entry, f: Entry, group: set<Candidate>)
    requires IsEntry(e, group) && IsEntry(f, group)
    requires forall a, b :: a in group && b in group && a.id == b.id ==> a == b
    ensures e == f
  {
    ByIdOrders(group);
    var o :| IsListing(o, group, ById) && e.sources == Labels(o);
    var p :| IsListing(p, group, ById) && f.sources == Labels(p);
    ListingUnique(o, p, group, ById);
    var c :| c in group;
  }

  /** The maxima over a group: classification, relevance, and whether anything is protected. */
  ghost predicate Summary(classification: Classification, relevance: real, protected: bool, ordered: seq<Candidate>) {
    && (exists i :: 0 <= i < |ordered| && ordered[i].access.classification == classification)
    && (forall i :: 0 <= i < |ordered| ==> Degree(ordered[i].access.classification) <= Degree(classification))
    && (exists i :: 0 <= i < |ordered| && ordered[i].relevance == relevance)
    && (forall i :: 0 <= i < |ordered| ==> ordered[i].relevance <= relevance)
    && (protected <==> exists i :: 0 <= i < |ordered| && ordered[i].protected)
  }

  method Summarise(ordered: seq<Candidate>) returns (classification: Classification, relevance: real, protected: bool)
    requires ordered != []
    ensures Summary(classification, relevance, protected, ordered)
  {
    classification, relevance, protected :=
      ordered[0].access.classification, ordered[0].relevance, ordered[0].protected;
    var i := 1;
    ghost var a, b, c := 0, 0, 0;
    while i < |ordered|
      invariant 1 <= i <= |ordered| && 0 <= a < i && 0 <= b < i && 0 <= c < i
      invariant ordered[a].access.classification == classification
      invariant forall j :: 0 <= j < i ==> Degree(ordered[j].access.classification) <= Degree(classification)
      invariant ordered[b].relevance == relevance && forall j :: 0 <= j < i ==> ordered[j].relevance <= relevance
      invariant ordered[c].protected == protected && forall j :: 0 <= j < i && ordered[j].protected ==> protected
    {
      if Degree(ordered[i].access.classification) > Degree(classification) {
        classification, a := ordered[i].access.classification, i;
      }
      if ordered[i].relevance > relevance {
        relevance, b := ordered[i].relevance, i;
      }
      if ordered[i].protected {
        protected, c := true, i;
      }
      i := i + 1;
    }
  }

  lemma SummaryIsEntry(e: Entry, group: set<Candidate>, ordered: seq<Candidate>)
    requires group != {} && IsListing(ordered, group, ById)
      && Summary(e.classification, e.relevance, e.protected, ordered)
    requires forall c :: c in group ==> c.content == e.content && c.hash == e.hash
    requires e.size == |e.content| && e.sources == Labels(ordered)
    ensures IsEntry(e, group)
  {
    hide ById; hide Degree; hide Labels;
    forall c | c in group ensures exists i :: 0 <= i < |ordered| && ordered[i] == c {
      assert c in ordered;
    }
    forall i | 0 <= i < |ordered| ensures ordered[i] in group {
    }
  }

  /** _merge_group. */
  method MergeGroup(group: set<Candidate>) returns (e: Entry)
    requires group != {} && forall a, b :: a in group && b in group ==> a.content == b.content && a.hash == b.hash
    requires forall a, b :: a in group && b in group && a.id == b.id ==> a == b
    ensures IsEntry(e, group)
  {
    hide ById; hide Degree; hide Labels; hide Summary; hide IsEntry; hide Orders;
    ByIdOrders(group);
    var ordered := List(group, ById);
    assert ordered != [] by { var c :| c in group; assert c in ordered; }
    var first := ordered[0];
    assert first in group;
    var classification, relevance, protected := Summarise(ordered);
    e := Entry(first.content, first.hash, classification, relevance, protected, |first.content|, Labels(ordered));
    SummaryIsEntry(e, group, ordered);
  }

  function GroupOf(eligible: set<Candidate>, hash: nat): set<Candidate> {
    set c | c in eligible && c.hash == hash
  }

  /** The entries of a set of eligible candidates: one for each content. */
  ghost predicate AreEntries(entries: set<Entry>, eligible: set<Candidate>) {
    && (forall e :: e in entries ==> IsEntry(e, GroupOf(eligible, e.hash)))
    && (forall c :: c in eligible ==> Covered(entries, c.hash))
  }

  ghost predicate Covered(entries: set<Entry>, hash: nat) {
    exists e :: e in entries && e.hash == hash
  }

  ghost predicate UniqueIds(eligible: set<Candidate>) {
    forall a, b :: a in eligible && b in eligible && a.id == b.id ==> a == b
  }

  lemma EntriesUnique(E: set<Entry>, F: set<Entry>, eligible: set<Candidate>)
    requires UniqueIds(eligible) && AreEntries(E, eligible) && AreEntries(F, eligible)
    ensures E == F
  {
    EntriesWithin(E, F, eligible);
    EntriesWithin(F, E, eligible);
  }

  lemma EntriesWithin(E: set<Entry>, F: set<Entry>, eligible: set<Candidate>)
    requires UniqueIds(eligible) && AreEntries(E, eligible) && AreEntries(F, eligible)
    ensures E <= F
  {
    hide IsEntry;
    forall e | e in E ensures e in F {
      EntryHasCandidate(e, GroupOf(eligible, e.hash));
      var c :| c in GroupOf(eligible, e.hash);
      var f :| f in F && f.hash == c.hash;
      EntryUnique(e, f, GroupOf(eligible, e.hash));
    }
  }

  lemma EntryHasCandidate(e: Entry, group: set<Candidate>)
    requires IsEntry(e, group)
    ensures exists c :: c in group
  {
  }

  lemma HashNamesEntry(entries: set<Entry>, eligible: set<Candidate>)
    requires UniqueIds(eligible) && AreEntries(entries, eligible)
    ensures forall e, f :: e in entries && f in entries && e.hash == f.hash ==> e == f
  {
    hide IsEntry;
    forall e, f | e in entries && f in entries && e.hash == f.hash ensures e == f {
      EntryUnique(e, f, GroupOf(eligible, e.hash));
    }
  }

  // ---------------------------------------------------------------------
  // Greedy selection
  // ---------------------------------------------------------------------

  function Bytes(entries: seq<Entry>): nat {
    if entries == [] then 0 else Bytes(entries[..|entries| - 1]) + entries[|entries| - 1].size
  }

  /** Why an entry is left out, given what is selected already. */
  function Exclusion(p: Policy, selected: seq<Entry>, e: Entry): Option<Reason> {
    if |selected| >= p.maxItems then Some(LimitExcluded)
    else if Bytes(selected) + e.size > p.maxBytes then Some(BudgetExcluded)
    else None
  }

  function Kept(p: Policy, ordered: seq<Entry>): seq<Entry> {
    if ordered == [] then []
    else
      var before, e := Kept(p, ordered[..|ordered| - 1]), ordered[|ordered| - 1];
      if Exclusion(p, before, e).Some? then before else before + [e]
  }

  function Protected(ordered: seq<Entry>): seq<Entry> {
    if ordered == [] then []
    else
      var before, e := Protected(ordered[..|ordered| - 1]), ordered[|ordered| - 1];
      if e.protected then before + [e] else before
  }

  predicate ProtectedFits(p: Policy, ordered: seq<Entry>) {
    |Protected(ordered)| <= p.maxItems && Bytes(Protected(ordered)) <= p.maxBytes
  }

  lemma BytesAppend(entries: seq<Entry>, e: Entry)
    ensures Bytes(entries + [e]) == Bytes(entries) + e.size
  {
    assert (entries + [e])[..|entries|] == entries;
  }

  lemma {:induction false} KeptWithinLimits(p: Policy, ordered: seq<Entry>)
    ensures |Kept(p, ordered)| <= p.maxItems && Bytes(Kept(p, ordered)) <= p.maxBytes
  {
    if ordered != [] {
      var n := |ordered| - 1;
      KeptWithinLimits(p, ordered[..n]);
      BytesAppend(Kept(p, ordered[..n]), ordered[n]);
    }
  }

  lemma {:induction false} KeptAmong(p: Policy, ordered: seq<Entry>)
    ensures forall e :: e in Kept(p, ordered) ==> e in ordered
  {
    hide Exclusion;
    if ordered != [] {
      var n := |ordered| - 1;
      KeptAmong(p, ordered[..n]);
      assert ordered == ordered[..n] + [ordered[n]];
    }
  }

  lemma {:induction false} BytesGrow(entries: seq<Entry>, n: nat)
    requires n <= |entries|
    ensures Bytes(entries[..n]) <= Bytes(entries)
    decreases |entries|
  {
    if n < |entries| {
      BytesGrow(entries[..|entries| - 1], n);
      assert entries[..|entries| - 1][..n] == entries[..n];
    } else {
      assert entries[..n] == entries;
    }
  }

  /** Every entry left out would break a limit even if it were tried again at the end. */
  lemma KeptIsMaximal(p: Policy, ordered: seq<Entry>, i: nat)
    requires i < |ordered|
    ensures ordered[i] in Kept(p, ordered) || Exclusion(p, Kept(p, ordered), ordered[i]).Some?
  {
    hide Bytes;
    var before, all := Kept(p, ordered[..i]), Kept(p, ordered);
    KeptExtends(p, ordered, i);
    KeptExtends(p, ordered, i + 1);
    assert ordered[..i + 1][..i] == ordered[..i];
    var after := Kept(p, ordered[..i + 1]);
    assert after == if Exclusion(p, before, ordered[i]).Some? then before else before + [ordered[i]];
    hide Kept;
    if Exclusion(p, before, ordered[i]).Some? {
      assert all[..|before|] == before;
      BytesGrow(all, |before|);
    } else {
      assert all[|before|] == after[|before|] == ordered[i];
    }
  }

  /** Selection only grows along the order. */
  lemma {:induction false} KeptExtends(p: Policy, ordered: seq<Entry>, n: nat)
    requires n <= |ordered|
    ensures Kept(p, ordered[..n]) <= Kept(p, ordered)
    decreases |ordered|
  {
    if n == |ordered| {
      assert ordered[..n] == ordered;
    } else {
      var init := ordered[..|ordered| - 1];
      KeptExtends(p, init, n);
      assert init[..n] == ordered[..n];
    }
  }

  lemma {:induction false} FittingKept(p: Policy, entries: seq<Entry>)
    requires |entries| <= p.maxItems && Bytes(entries) <= p.maxBytes
    ensures Kept(p, entries) == entries
  {
    if entries != [] {
      var init, last := entries[..|entries| - 1], entries[|entries| - 1];
      FittingKept(p, init);
      assert entries == init + [last];
    }
  }

  predicate ProtectedFirst(ordered: seq<Entry>) {
    forall i, j :: 0 <= i < j < |ordered| && ordered[j].protected ==> ordered[i].protected
  }

  lemma {:induction false} ProtectedPrefix(ordered: seq<Entry>)
    requires ProtectedFirst(ordered)
    ensures Protected(ordered) <= ordered
    ensures forall e :: e in ordered && e.protected ==> e in Protected(ordered)
    ensures |Protected(ordered)| < |ordered| ==> !ordered[|Protected(ordered)|].protected
  {
    if ordered != [] {
      var init, last := ordered[..|ordered| - 1], ordered[|ordered| - 1];
      assert ordered == init + [last];
      ProtectedPrefix(init);
    }
  }

  /** If the protected entries fit at all, every one of them is selected. */
  lemma ProtectedKept(p: Policy, ordered: seq<Entry>)
    requires ProtectedFirst(ordered) && ProtectedFits(p, ordered)
    ensures forall e :: e in ordered && e.protected ==> e in Kept(p, ordered)
  {
    var protected := Protected(ordered);
    ProtectedPrefix(ordered);
    FittingKept(p, protected);
    assert ordered[..|protected|] == protected;
    KeptExtends(p, ordered, |protected|);
    forall e | e in protected ensures e in Kept(p, ordered) {
      var i :| 0 <= i < |protected| && protected[i] == e;
      assert Kept(p, ordered)[i] == e;
    }
  }

  // ---------------------------------------------------------------------
  // Decisions
  // ---------------------------------------------------------------------

  /** The decisions on ineligible candidates, in the order of the candidates. */
  function Denials(r: Request, candidates: seq<Candidate>): seq<Decision> {
    if candidates == [] then []
    else
      var before, c := Denials(r, candidates[..|candidates| - 1]), candidates[|candidates| - 1];
      if Denial(c, r).Some? then before + [Decision(c.id, Denial(c, r).value)] else before
  }

  function EligibleOf(r: Request, candidates: seq<Candidate>): set<Candidate> {
    set c | c in candidates && Denial(c, r).None?
  }

  /** The decisions on the sources of one entry. */
  function EntryDecisions(e: Entry, exclusion: Option<Reason>): seq<Decision> {
    seq(|e.sources|, i requires 0 <= i < |e.sources| =>
      Decision(e.sources[i].id, if exclusion.Some? then exclusion.value else if i == 0 then Selected else Deduplicated))
  }

  function SelectionDecisions(p: Policy, ordered: seq<Entry>): seq<Decision> {
    if ordered == [] then []
    else
      var init, e := ordered[..|ordered| - 1], ordered[|ordered| - 1];
      SelectionDecisions(p, init) + EntryDecisions(e, Exclusion(p, Kept(p, init), e))
  }

  /** `ordered` is the sorted list of the request's entries. */
  ghost predicate IsOrder(r: Request, ordered: seq<Entry>) {
    exists entries :: AreEntries(entries, EligibleOf(r, r.candidates)) && IsListing(ordered, entries, Ahead)
  }

  ghost predicate IsSelection(r: Request, ordered: seq<Entry>, result: Result<seq<Entry>, Failure>,
        decisions: seq<Decision>) {
    && IsOrder(r, ordered)
    && result == (if ProtectedFits(r.policy, ordered) then Ok(Kept(r.policy, ordered)) else Err(ProtectedOverflow))
    && (result.Ok? ==> decisions == Denials(r, r.candidates) + SelectionDecisions(r.policy, ordered))
  }

  // ---------------------------------------------------------------------
  // _select_entries
  // ---------------------------------------------------------------------

  method Filter(r: Request) returns (eligible: set<Candidate>, decisions: seq<Decision>)
    ensures eligible == EligibleOf(r, r.candidates) && decisions == Denials(r, r.candidates)
  {
    eligible, decisions := {}, [];
    var i := 0;
    while i < |r.candidates|
      invariant 0 <= i <= |r.candidates|
      invariant eligible == EligibleOf(r, r.candidates[..i]) && decisions == Denials(r, r.candidates[..i])
    {
      var c := r.candidates[i];
      assert r.candidates[..i + 1] == r.candidates[..i] + [c];
      if Denial(c, r).Some? {
        decisions := decisions + [Decision(c.id, Denial(c, r).value)];
      } else {
        eligible := eligible + {c};
      }
      i := i + 1;
    }
    assert r.candidates[..i] == r.candidates;
  }

  method MergeAll(eligible: set<Candidate>) returns (entries: set<Entry>)
    requires UniqueIds(eligible)
    requires forall a, b :: a in eligible && b in eligible && a.hash == b.hash ==> a.content == b.content
    ensures AreEntries(entries, eligible)
  {
    hide IsEntry; hide GroupOf; hide UniqueIds; hide Covered;
    entries := {};
    var hashes := set c | c in eligible :: c.hash;
    var pending := hashes;
    while pending != {}
      invariant pending <= hashes
      invariant forall e :: e in entries ==> IsEntry(e, GroupOf(eligible, e.hash))
      invariant forall h :: h in hashes && h !in pending ==> Covered(entries, h)
      decreases pending
    {
      var hash :| hash in pending;
      var e := MergeHash(eligible, hash);
      CoversMore(entries, e);
      entries := entries + {e};
      pending := pending - {hash};
    }
  }

  lemma CoversMore(entries: set<Entry>, e: Entry)
    ensures Covered(entries + {e}, e.hash)
    ensures forall h :: Covered(entries, h) ==> Covered(entries + {e}, h)
  {
    assert e in entries + {e};
    forall h | Covered(entries, h) ensures Covered(entries + {e}, h) {
      var f :| f in entries && f.hash == h;
      assert f in entries + {e};
    }
  }

  method MergeHash(eligible: set<Candidate>, hash: nat) returns (e: Entry)
    requires UniqueIds(eligible) && exists c :: c in eligible && c.hash == hash
    requires forall a, b :: a in eligible && b in eligible && a.hash == b.hash ==> a.content == b.content
    ensures e.hash == hash && IsEntry(e, GroupOf(eligible, hash))
  {
    var group := GroupOf(eligible, hash);
    ghost var c :| c in eligible && c.hash == hash;
    assert c in group;
    e := MergeGroup(group);
  }

  /** TaskContextAssembler._select_entries. */
  method SelectEntries(r: Request) returns (result: Result<seq<Entry>, Failure>, decisions: seq<Decision>)
    requires ValidCandidates(r.candidates)
    ensures exists ordered :: IsSelection(r, ordered, result, decisions)
  {
    hide AreEntries; hide IsListing; hide Exclusion; hide EntryDecisions; hide Ahead; hide Orders; hide UniqueIds;
    hide EligibleOf;
    hide ProtectedFits; hide Denials;
    var eligible;
    eligible, decisions := Filter(r);
    EligibleUnique(r);
    var entries := MergeAll(eligible);
    HashNamesEntry(entries, eligible);
    AheadOrders(entries);
    var sorted := List(entries, Ahead);
    assert IsOrder(r, sorted);
    if !ProtectedFits(r.policy, sorted) {
      assert IsSelection(r, sorted, Err(ProtectedOverflow), decisions);
      return Err(ProtectedOverflow), decisions;
    }
    var selected: seq<Entry> := [];
    var i := 0;
    while i < |sorted|
      invariant 0 <= i <= |sorted|
      invariant selected == Kept(r.policy, sorted[..i])
      invariant decisions == Denials(r, r.candidates) + SelectionDecisions(r.policy, sorted[..i])
    {
      var e := sorted[i];
      assert sorted[..i + 1][..i] == sorted[..i];
      var exclusion := Exclusion(r.policy, selected, e);
      decisions := decisions + EntryDecisions(e, exclusion);
      if exclusion.None? {
        selected := selected + [e];
      }
      i := i + 1;
    }
    assert sorted[..i] == sorted;
    result := Ok(selected);
    assert IsSelection(r, sorted, result, decisions);
  }

  lemma EligibleUnique(r: Request)
    requires ValidCandidates(r.candidates)
    ensures UniqueIds(EligibleOf(r, r.candidates))
    ensures forall a, b :: a in EligibleOf(r, r.candidates) && b in EligibleOf(r, r.candidates) && a.hash == b.hash ==>
      a.content == b.content
  {
    var cs := r.candidates;
    forall a, b | a in EligibleOf(r, cs) && b in EligibleOf(r, cs)
      ensures (a.id == b.id ==> a == b) && (a.hash == b.hash ==> a.content == b.content)
    {
      var i :| 0 <= i < |cs| && cs[i] == a;
      var j :| 0 <= j < |cs| && cs[j] == b;
    }
  }

  // ---------------------------------------------------------------------
  // What a selection promises
  // ---------------------------------------------------------------------

  lemma OrderUnique(r: Request, r': Request, ordered: seq<Entry>, ordered': seq<Entry>)
    requires UniqueIds(EligibleOf(r, r.candidates)) && EligibleOf(r, r.candidates) == EligibleOf(r', r'.candidates)
    requires IsOrder(r, ordered) && IsOrder(r', ordered')
    ensures ordered == ordered'
  {
    hide AreEntries; hide IsListing; hide UniqueIds; hide EligibleOf; hide Ahead; hide Orders;
    var eligible := EligibleOf(r, r.candidates);
    var E :| AreEntries(E, eligible) && IsListing(ordered, E, Ahead);
    var F :| AreEntries(F, eligible) && IsListing(ordered', F, Ahead);
    EntriesUnique(E, F, eligible);
    HashNamesEntry(E, eligible);
    AheadOrders(E);
    ListingUnique(ordered, ordered', E, Ahead);
  }

  lemma {:induction false} DenialsListed(r: Request, candidates: seq<Candidate>, d: Decision)
    ensures d in Denials(r, candidates) <==>
      exists c :: c in candidates && Denial(c, r).Some? && d == Decision(c.id, Denial(c, r).value)
  {
    hide Denial;
    if candidates != [] {
      var init, last := candidates[..|candidates| - 1], candidates[|candidates| - 1];
      assert candidates == init + [last];
      DenialsListed(r, init, d);
    }
  }

  /** The order of the candidates does not matter: the same entries are selected in the same
      order, and every candidate gets the same decision. */
  lemma OrderFree(r: Request, candidates: seq<Candidate>, ordered: seq<Entry>, ordered': seq<Entry>,
                  result: Result<seq<Entry>, Failure>, result': Result<seq<Entry>, Failure>,
                  decisions: seq<Decision>, decisions': seq<Decision>)
    requires ValidCandidates(r.candidates) && multiset(candidates) == multiset(r.candidates)
    requires IsSelection(r, ordered, result, decisions)
      && IsSelection(r.(candidates := candidates), ordered', result', decisions')
    ensures result == result'
    ensures result.Ok? ==> forall d :: d in decisions <==> d in decisions'
  {
    hide Denial; hide IsOrder; hide Kept; hide ProtectedFits; hide SelectionDecisions; hide Denials;
    hide ValidCandidates;
    var r' := r.(candidates := candidates);
    forall c ensures (c in candidates <==> c in r.candidates) && Denial(c, r') == Denial(c, r) {
      assert c in candidates <==> c in multiset(candidates);
      SameDenial(r, r', c);
    }
    EligibleUnique(r);
    OrderUnique(r, r', ordered, ordered');
    if result.Ok? {
      forall d ensures d in Denials(r, r.candidates) <==> d in Denials(r', candidates) {
        DenialsListed(r, r.candidates, d);
        DenialsListed(r', candidates, d);
      }
    }
  }

  lemma SameDenial(r: Request, r': Request, c: Candidate)
    requires r' == r.(candidates := r'.candidates)
    ensures Denial(c, r') == Denial(c, r)
  {
  }

  /** Both limits hold, every eligible protected candidate is kept, and nothing more would fit. */
  lemma SelectionSafe(r: Request, ordered: seq<Entry>, selected: seq<Entry>, decisions: seq<Decision>)
    requires IsSelection(r, ordered, Ok(selected), decisions)
    ensures |selected| <= r.policy.maxItems && Bytes(selected) <= r.policy.maxBytes
    ensures forall c ::
      c in EligibleOf(r, r.candidates) && c.protected ==> exists e :: e in selected && e.content == c.content
    ensures forall e :: e in ordered && e !in selected ==>
              |selected| >= r.policy.maxItems || Bytes(selected) + e.size > r.policy.maxBytes
    ensures forall c :: c in EligibleOf(r, r.candidates) ==> exists e :: e in ordered && e.content == c.content
  {
    hide Kept; hide EligibleOf; hide Bytes; hide SelectionDecisions; hide Denials; hide IsListing; hide AreEntries;
    hide ProtectedFirst;
    var eligible := EligibleOf(r, r.candidates);
    var entries: set<Entry> :| AreEntries(entries, eligible) && IsListing(ordered, entries, Ahead);
    KeptWithinLimits(r.policy, ordered);
    OrderedProtectedFirst(ordered, entries);
    ProtectedKept(r.policy, ordered);
    OrderedCovers(ordered, entries, eligible);
    forall e | e in ordered && e !in selected
      ensures |selected| >= r.policy.maxItems || Bytes(selected) + e.size > r.policy.maxBytes
    {
      var i :| 0 <= i < |ordered| && ordered[i] == e;
      KeptIsMaximal(r.policy, ordered, i);
    }
  }

  lemma OrderedProtectedFirst(ordered: seq<Entry>, entries: set<Entry>)
    requires IsListing(ordered, entries, Ahead)
    ensures ProtectedFirst(ordered)
  {
    hide Latest;
    forall i, j | 0 <= i < j < |ordered| && ordered[j].protected ensures ordered[i].protected {
      assert Ahead(ordered[i], ordered[j]);
    }
  }

  lemma OrderedCovers(ordered: seq<Entry>, entries: set<Entry>, eligible: set<Candidate>)
    requires AreEntries(entries, eligible) && IsListing(ordered, entries, Ahead)
    ensures forall c ::
      c in eligible ==> exists e :: e in ordered && e.content == c.content && (c.protected ==> e.protected)
  {
    hide IsEntry;
    forall c | c in eligible
      ensures exists e :: e in ordered && e.content == c.content && (c.protected ==> e.protected)
    {
      var e :| e in entries && e.hash == c.hash;
      EntryOfCandidate(e, eligible, c);
      assert e in ordered;
    }
  }

  lemma EntryOfCandidate(e: Entry, eligible: set<Candidate>, c: Candidate)
    requires IsEntry(e, GroupOf(eligible, e.hash)) && c in eligible && c.hash == e.hash
    ensures e.content == c.content && (c.protected ==> e.protected)
  {
    assert c in GroupOf(eligible, e.hash);
  }

  /** What the caller may see, all conditions together. */
  predicate Visible(a: Access, r: Request) {
    && a.scope.tenant == r.scope.tenant && a.scope.project == r.scope.project
    && (a.userOnly ==> a.scope.user == r.scope.user) && a.scope.permissionVersion == r.scope.permissionVersion
    && (forall role :: role in a.roles ==> role in r.scope.roles)
    && (forall permission :: permission in a.permissions ==> permission in r.permissions)
    && Degree(a.classification) <= Degree(r.clearance)
  }

  /** A candidate passes the filter exactly when the caller may see it and it is protected or relevant enough. */
  lemma EligibleIffVisible(c: Candidate, r: Request)
    ensures Denial(c, r).None? <==> Visible(c.access, r) && (c.protected || c.relevance >= r.policy.minimumRelevance)
  {
    if c.access.roles <= RoleSet(r.scope) {
      assert forall role :: role in c.access.roles ==> role in RoleSet(r.scope);
    }
    if forall role :: role in c.access.roles ==> role in r.scope.roles {
      assert forall role :: role in c.access.roles ==> role in RoleSet(r.scope);
    }
  }

  /** Default deny: every source of a selected entry is a candidate the caller may see, with
      exactly that content, and no selected entry is above the caller's clearance. */
  lemma SelectedAreVisible(r: Request, ordered: seq<Entry>, selected: seq<Entry>, decisions: seq<Decision>, e: Entry)
    requires IsSelection(r, ordered, Ok(selected), decisions) && e in selected
    ensures Degree(e.classification) <= Degree(r.clearance)
    ensures forall i :: 0 <= i < |e.sources| ==>
              exists c :: c in r.candidates && c.id == e.sources[i].id && c.content == e.content && Visible(c.access, r)
  {
    hide Kept; hide SelectionDecisions; hide Denials; hide ProtectedFits; hide Denial; hide Visible; hide Ahead;
    var eligible := EligibleOf(r, r.candidates);
    var entries: set<Entry> :| AreEntries(entries, eligible) && IsListing(ordered, entries, Ahead);
    KeptAmong(r.policy, ordered);
    assert e in entries;
    EntrySources(e, GroupOf(eligible, e.hash));
    forall c | c in GroupOf(eligible, e.hash) ensures c in r.candidates && Visible(c.access, r) {
      EligibleIffVisible(c, r);
    }
    var top :| top in GroupOf(eligible, e.hash) && top.access.classification == e.classification;
    Cleared(top.access, r);
  }

  lemma Cleared(a: Access, r: Request)
    requires Visible(a, r)
    ensures Degree(a.classification) <= Degree(r.clearance)
  {
  }

  lemma EntrySources(e: Entry, group: set<Candidate>)
    requires IsEntry(e, group)
    ensures forall i ::
      0 <= i < |e.sources| ==> exists c :: c in group && c.id == e.sources[i].id && c.content == e.content
    ensures exists c :: c in group && c.access.classification == e.classification
  {
    hide ById;
    var ordered: seq<Candidate> :| IsListing(ordered, group, ById) && e.sources == Labels(ordered);
    forall i | 0 <= i < |e.sources|
      ensures exists c :: c in group && c.id == e.sources[i].id && c.content == e.content
    {
      assert ordered[i] in group;
    }
  }

  // ---------------------------------------------------------------------
  // One decision for each candidate
  // ---------------------------------------------------------------------

  ghost predicate DistinctDecisions(ds: seq<Decision>) {
    forall i, j :: 0 <= i < j < |ds| ==> ds[i].id != ds[j].id
  }

  ghost predicate Decided(ds: seq<Decision>, id: string) {
    exists i :: 0 <= i < |ds| && ds[i].id == id
  }

  lemma DecidedAppend(a: seq<Decision>, b: seq<Decision>, id: string)
    ensures Decided(a + b, id) <==> Decided(a, id) || Decided(b, id)
  {
    var all := a + b;
    if Decided(a, id) {
      var i :| 0 <= i < |a| && a[i].id == id;
      assert all[i].id == id;
    }
    if Decided(b, id) {
      var i :| 0 <= i < |b| && b[i].id == id;
      assert all[|a| + i].id == id;
    }
  }

  lemma DistinctAppend(a: seq<Decision>, b: seq<Decision>)
    requires DistinctDecisions(a) && DistinctDecisions(b) && forall id :: Decided(a, id) ==> !Decided(b, id)
    ensures DistinctDecisions(a + b)
  {
    var all := a + b;
    forall i, j | 0 <= i < j < |all| ensures all[i].id != all[j].id {
      if i < |a| <= j {
        assert Decided(a, a[i].id) && Decided(b, b[j - |a|].id);
      }
    }
  }

  ghost predicate HasId(candidates: set<Candidate>, id: string) {
    exists c :: c in candidates && c.id == id
  }

  function DeniedOf(r: Request, candidates: seq<Candidate>): set<Candidate> {
    set c | c in candidates && Denial(c, r).Some?
  }

  lemma {:induction false} DenialIds(r: Request, candidates: seq<Candidate>)
    requires forall i, j :: 0 <= i < j < |candidates| ==> candidates[i].id != candidates[j].id
    ensures DistinctDecisions(Denials(r, candidates))
    ensures forall id :: Decided(Denials(r, candidates), id) <==> HasId(DeniedOf(r, candidates), id)
  {
    hide Denial;
    if candidates != [] {
      var n := |candidates| - 1;
      var init, c := candidates[..n], candidates[n];
      assert candidates == init + [c];
      DenialIds(r, init);
      NewId(r, init, c);
      if Denial(c, r).Some? {
        var one := [Decision(c.id, Denial(c, r).value)];
        assert DeniedOf(r, candidates) == DeniedOf(r, init) + {c};
        DecidedOne(one[0]);
        DistinctAppend(Denials(r, init), one);
        forall id ensures Decided(Denials(r, candidates), id) <==> HasId(DeniedOf(r, candidates), id) {
          DecidedAppend(Denials(r, init), one, id);
          HasIdAdd(DeniedOf(r, init), c, id);
        }
      } else {
        assert DeniedOf(r, candidates) == DeniedOf(r, init);
      }
    }
  }

  lemma NewId(r: Request, init: seq<Candidate>, c: Candidate)
    requires var all := init + [c]; forall i, j :: 0 <= i < j < |all| ==> all[i].id != all[j].id
    ensures !HasId(DeniedOf(r, init), c.id)
  {
    var all := init + [c];
    forall d | d in DeniedOf(r, init) ensures d.id != c.id {
      var i :| 0 <= i < |init| && init[i] == d;
      assert all[i].id != all[|init|].id;
    }
  }

  lemma DecidedOne(d: Decision)
    ensures DistinctDecisions([d]) && forall id :: Decided([d], id) <==> id == d.id
  {
    assert [d][0].id == d.id;
  }

  lemma HasIdAdd(candidates: set<Candidate>, c: Candidate, id: string)
    ensures HasId(candidates + {c}, id) <==> HasId(candidates, id) || c.id == id
  {
    if HasId(candidates, id) {
      var d :| d in candidates && d.id == id;
      assert d in candidates + {c};
    }
    if c.id == id {
      assert c in candidates + {c};
    }
  }

  /** The sources of an entry are its group, once each. */
  lemma EntryIds(e: Entry, group: set<Candidate>, exclusion: Option<Reason>)
    requires IsEntry(e, group)
    ensures DistinctDecisions(EntryDecisions(e, exclusion))
    ensures forall id :: Decided(EntryDecisions(e, exclusion), id) <==> HasId(group, id)
  {
    hide ById; hide IsListing; hide DistinctDecisions; hide Decided; hide HasId; hide Labels; hide EntryDecisions;
    var ordered: seq<Candidate> :| IsListing(ordered, group, ById) && e.sources == Labels(ordered);
    var ds := EntryDecisions(e, exclusion);
    SourceIds(e, ordered, exclusion);
    ListedOnce(ordered, group, ds);
    forall id ensures Decided(ds, id) <==> HasId(group, id) {
      ListedId(ordered, group, ds, id);
    }
  }

  lemma SourceIds(e: Entry, ordered: seq<Candidate>, exclusion: Option<Reason>)
    requires e.sources == Labels(ordered)
    ensures var ds := EntryDecisions(e, exclusion);
            |ds| == |ordered| && forall i :: 0 <= i < |ds| ==> ds[i].id == ordered[i].id
  {
  }

  lemma ListedOnce(ordered: seq<Candidate>, group: set<Candidate>, ds: seq<Decision>)
    requires IsListing(ordered, group, ById) && |ds| == |ordered|
      && forall i :: 0 <= i < |ds| ==> ds[i].id == ordered[i].id
    ensures DistinctDecisions(ds)
  {
    forall i, j | 0 <= i < j < |ds| ensures ds[i].id != ds[j].id {
      assert ById(ordered[i], ordered[j]);
      TextTotal(ordered[i].id, ordered[i].id);
    }
  }

  lemma ListedId(ordered: seq<Candidate>, group: set<Candidate>, ds: seq<Decision>, id: string)
    requires IsListing(ordered, group, ById) && |ds| == |ordered|
      && forall i :: 0 <= i < |ds| ==> ds[i].id == ordered[i].id
    ensures Decided(ds, id) <==> HasId(group, id)
  {
    hide ById;
    if Decided(ds, id) {
      var i :| 0 <= i < |ds| && ds[i].id == id;
      assert ordered[i] in group;
    }
    if HasId(group, id) {
      var c :| c in group && c.id == id;
      assert c in ordered;
      var i :| 0 <= i < |ordered| && ordered[i] == c;
      assert ds[i].id == id;
    }
  }

  /** The eligible candidates whose content is among these entries. */
  function CoveredBy(entries: seq<Entry>, eligible: set<Candidate>): set<Candidate> {
    set c | c in eligible && exists i :: 0 <= i < |entries| && entries[i].hash == c.hash
  }

  lemma {:induction false} SelectionIds(p: Policy, ordered: seq<Entry>, eligible: set<Candidate>)
    requires UniqueIds(eligible)
      && forall i :: 0 <= i < |ordered| ==> IsEntry(ordered[i], GroupOf(eligible, ordered[i].hash))
    requires forall i, j :: 0 <= i < j < |ordered| ==> ordered[i].hash != ordered[j].hash
    ensures DistinctDecisions(SelectionDecisions(p, ordered))
    ensures forall id :: Decided(SelectionDecisions(p, ordered), id) <==> HasId(CoveredBy(ordered, eligible), id)
  {
    hide IsEntry; hide EntryDecisions; hide Exclusion; hide DistinctDecisions; hide Decided; hide HasId;
    hide CoveredBy; hide UniqueIds;
    hide GroupOf; hide SelectionDecisions; hide Kept;
    if ordered == [] {
      NothingDecided(p, eligible);
    } else {
      var n := |ordered| - 1;
      var init, e := ordered[..n], ordered[n];
      var exclusion := Exclusion(p, Kept(p, init), e);
      var group := GroupOf(eligible, e.hash);
      SelectionIds(p, init, eligible);
      EntryIds(e, group, exclusion);
      CoveredStep(init, e, eligible);
      assert ordered == init + [e];
      SelectionStep(p, init, e);
      DistinctAppend(SelectionDecisions(p, init), EntryDecisions(e, exclusion));
      forall id ensures Decided(SelectionDecisions(p, ordered), id) <==> HasId(CoveredBy(ordered, eligible), id) {
        DecidedAppend(SelectionDecisions(p, init), EntryDecisions(e, exclusion), id);
      }
    }
  }

  lemma NothingDecided(p: Policy, eligible: set<Candidate>)
    ensures DistinctDecisions(SelectionDecisions(p, []))
    ensures forall id :: Decided(SelectionDecisions(p, []), id) <==> HasId(CoveredBy([], eligible), id)
  {
    assert CoveredBy([], eligible) == {};
  }

  lemma SelectionStep(p: Policy, init: seq<Entry>, e: Entry)
    ensures SelectionDecisions(p, init + [e]) ==
      SelectionDecisions(p, init) + EntryDecisions(e, Exclusion(p, Kept(p, init), e))
  {
    hide EntryDecisions; hide Exclusion;
    assert (init + [e])[..|init|] == init;
  }

  lemma CoveredStep(init: seq<Entry>, e: Entry, eligible: set<Candidate>)
    requires UniqueIds(eligible) && forall i :: 0 <= i < |init| ==> init[i].hash != e.hash
    ensures forall id :: HasId(CoveredBy(init + [e], eligible), id) <==>
      HasId(CoveredBy(init, eligible), id) || HasId(GroupOf(eligible, e.hash), id)
    ensures forall id :: HasId(CoveredBy(init, eligible), id) ==> !HasId(GroupOf(eligible, e.hash), id)
  {
    var all := init + [e];
    assert all[|init|] == e && forall i :: 0 <= i < |init| ==> all[i] == init[i];
    forall c
      ensures c in CoveredBy(all, eligible) <==> c in CoveredBy(init, eligible) || c in GroupOf(eligible, e.hash)
    {
    }
  }

  /** Every candidate gets exactly one decision, and nobody else gets any. */
  lemma EachDecidedOnce(r: Request, ordered: seq<Entry>, selected: seq<Entry>, decisions: seq<Decision>)
    requires ValidCandidates(r.candidates) && IsSelection(r, ordered, Ok(selected), decisions)
    ensures DistinctDecisions(decisions)
    ensures forall id :: Decided(decisions, id) <==> exists c :: c in r.candidates && c.id == id
  {
    hide Kept; hide SelectionDecisions; hide Denials; hide IsEntry; hide Denial; hide DistinctDecisions; hide Decided;
    hide ProtectedFits;
    var eligible, denied := EligibleOf(r, r.candidates), DeniedOf(r, r.candidates);
    var entries: set<Entry> :| AreEntries(entries, eligible) && IsListing(ordered, entries, Ahead);
    EligibleUnique(r);
    HashNamesEntry(entries, eligible);
    OrderedHashes(ordered, entries);
    SelectionIds(r.policy, ordered, eligible);
    DenialIds(r, r.candidates);
    AllCovered(ordered, entries, eligible);
    IdsApart(r);
    DistinctAppend(Denials(r, r.candidates), SelectionDecisions(r.policy, ordered));
    forall id ensures Decided(decisions, id) <==> exists c :: c in r.candidates && c.id == id {
      DecidedAppend(Denials(r, r.candidates), SelectionDecisions(r.policy, ordered), id);
    }
  }

  lemma OrderedHashes(ordered: seq<Entry>, entries: set<Entry>)
    requires IsListing(ordered, entries, Ahead)
      && forall e, f :: e in entries && f in entries && e.hash == f.hash ==> e == f
    ensures forall i, j :: 0 <= i < j < |ordered| ==> ordered[i].hash != ordered[j].hash
  {
    hide Latest;
    forall i, j | 0 <= i < j < |ordered| ensures ordered[i].hash != ordered[j].hash {
      assert ordered[i] in entries && ordered[j] in entries && Ahead(ordered[i], ordered[j]);
    }
  }

  lemma AllCovered(ordered: seq<Entry>, entries: set<Entry>, eligible: set<Candidate>)
    requires AreEntries(entries, eligible) && IsListing(ordered, entries, Ahead)
    ensures CoveredBy(ordered, eligible) == eligible
  {
    hide IsEntry;
    forall c | c in eligible ensures c in CoveredBy(ordered, eligible) {
      var e :| e in entries && e.hash == c.hash;
      var i :| 0 <= i < |ordered| && ordered[i] == e;
    }
  }

  lemma IdsApart(r: Request)
    requires ValidCandidates(r.candidates)
    ensures forall id :: HasId(DeniedOf(r, r.candidates), id) ==> !HasId(EligibleOf(r, r.candidates), id)
    ensures forall id :: (exists c :: c in r.candidates && c.id == id) <==>
              HasId(DeniedOf(r, r.candidates), id) || HasId(EligibleOf(r, r.candidates), id)
  {
    hide Denial;
    var cs := r.candidates;
    forall c, d | c in DeniedOf(r, cs) && d in EligibleOf(r, cs) ensures c.id != d.id {
      var i :| 0 <= i < |cs| && cs[i] == c;
      var j :| 0 <= j < |cs| && cs[j] == d;
    }
    forall id | exists c :: c in cs && c.id == id ensures HasId(DeniedOf(r, cs), id) || HasId(EligibleOf(r, cs), id) {
      var c :| c in cs && c.id == id;
      assert c in DeniedOf(r, cs) || c in EligibleOf(r, cs);
    }
  }
}
