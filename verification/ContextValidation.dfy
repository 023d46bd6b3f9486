/**
 The retention validator of context/validation.py and its fallback ladder: a candidate that
 loses too much is compressed again from the raw events at the next lower level.
 */
module ContextValidation {
  import opened Common
  import opened Compression

  // ---------------------------------------------------------------------
  // Atoms
  // ---------------------------------------------------------------------

  /** A named scalar of some content. */
  datatype Pair = Pair(name: string, value: Json)

  datatype Atom = Atom(eventId: string, pair: Pair, critical: bool)

  const CRITICAL_NAMES := [
    "instruction", "security", "permission", "tenant", "conflict", "unresolved", "open_issue", "standard", "clause",
    "value", "unit", "citation", "source_hash", "sha256", "tool_error", "error", "approval", "decision"]

  /** _flatten. */
  function Flatten(value: Json, name: string): seq<Pair>
    decreases value
  {
    match value
    case List(items) => FlattenItems(items, name)
    case Object(fields) => FlattenFields(fields)
    case _ => [Pair(name, value)]
  }

  function FlattenItems(items: seq<Json>, name: string): seq<Pair>
    decreases items
  {
    if items == [] then [] else Flatten(items[0], name) + FlattenItems(items[1..], name)
  }

  function FlattenFields(fields: seq<Field>): seq<Pair>
    decreases fields
  {
    if fields == [] then [] else Flatten(fields[0].value, fields[0].key) + FlattenFields(fields[1..])
  }

  function Lower(c: char): char {
    if 'A' <= c <= 'Z' then ((c as int) - ('A' as int) + ('a' as int)) as char else c
  }

  predicate Contains(text: string, marker: string) {
    marker <= text || (text != [] && Contains(text[1..], marker))
  }

  predicate CriticalName(name: string) {
    var lowered := seq(|name|, i requires 0 <= i < |name| => Lower(name[i]));
    exists k :: 0 <= k < |CRITICAL_NAMES| && Contains(lowered, CRITICAL_NAMES[k])
  }

  /** _extract_atoms. */
  function Extract(e: Event): seq<Atom> {
    var pairs := Flatten(e.content, "root");
    seq(|pairs|, i requires 0 <= i < |pairs| =>
      Atom(e.id, pairs[i], e.protected || CriticalName(pairs[i].name) || pairs[i].value.Number?))
  }

  function Atoms(events: seq<Event>): seq<Atom> {
    if events == [] then [] else Atoms(events[..|events| - 1]) + Extract(events[|events| - 1])
  }

  /** Events that an artifact reference makes recoverable. */
  function Recovered(items: seq<Item>): set<string> {
    set i, k | 0 <= i < |items| && items[i].kind == ArtifactReference
      && 0 <= k < |items[i].sources| :: items[i].sources[k]
  }

  /** The pairs a candidate still contains, with multiplicity. */
  function Supply(items: seq<Item>): multiset<Pair> {
    if items == [] then multiset{}
    else Supply(items[..|items| - 1]) + multiset(Flatten(items[|items| - 1].content, "root"))
  }

  /** The pairs the raw atoms ask for, with multiplicity. */
  function Demand(atoms: seq<Atom>, recovered: set<string>): multiset<Pair> {
    if atoms == [] then multiset{}
    else Demand(atoms[..|atoms| - 1], recovered) + Asks(atoms[|atoms| - 1], recovered)
  }

  function Asks(atom: Atom, recovered: set<string>): multiset<Pair> {
    if atom.eventId in recovered then multiset{} else multiset{atom.pair}
  }

  // ---------------------------------------------------------------------
  // Retention
  // ---------------------------------------------------------------------

  datatype Retention = Retention(retained: seq<Atom>, missing: seq<Atom>, available: multiset<Pair>)

  /** Each atom is recovered, or takes one available pair, or is missing. */
  function Scan(atoms: seq<Atom>, recovered: set<string>, supply: multiset<Pair>): Retention {
    if atoms == [] then Retention([], [], supply)
    else
      var s, atom := Scan(atoms[..|atoms| - 1], recovered, supply), atoms[|atoms| - 1];
      if atom.eventId in recovered then s.(retained := s.retained + [atom])
      else if s.available[atom.pair] > 0 then
        s.(retained := s.retained + [atom], available := s.available[atom.pair := s.available[atom.pair] - 1])
      else s.(missing := s.missing + [atom])
  }

  function CountPair(atoms: seq<Atom>, pair: Pair): nat {
    if atoms == [] then 0
    else CountPair(atoms[..|atoms| - 1], pair) + (if atoms[|atoms| - 1].pair == pair then 1 else 0)
  }

  /** For every pair exactly the excess of demand over supply goes missing, whatever the order. */
  lemma {:induction false} MissingIsExcess(atoms: seq<Atom>, recovered: set<string>, supply: multiset<Pair>, pair: Pair)
    ensures var s, d := Scan(atoms, recovered, supply), Demand(atoms, recovered)[pair];
            && CountPair(s.missing, pair) == (if d <= supply[pair] then 0 else d - supply[pair])
            && s.available[pair] == (if d <= supply[pair] then supply[pair] - d else 0)
  {
    if atoms != [] {
      var init, last := atoms[..|atoms| - 1], atoms[|atoms| - 1];
      MissingIsExcess(init, recovered, supply, pair);
      var s := Scan(init, recovered, supply);
      assert (s.missing + [last])[..|s.missing|] == s.missing;
      assert Asks(last, recovered)[pair] == if last.eventId !in recovered && last.pair == pair then 1 else 0;
    }
  }

  /** Nothing is missing exactly when the candidate supplies every pair as often as it is asked for. */
  lemma NothingMissingIff(atoms: seq<Atom>, recovered: set<string>, supply: multiset<Pair>)
    ensures Scan(atoms, recovered, supply).missing == [] <==> Demand(atoms, recovered) <= supply
  {
    var missing := Scan(atoms, recovered, supply).missing;
    if missing == [] {
      forall pair ensures Demand(atoms, recovered)[pair] <= supply[pair] {
        MissingIsExcess(atoms, recovered, supply, pair);
      }
    } else {
      var pair := missing[|missing| - 1].pair;
      MissingIsExcess(atoms, recovered, supply, pair);
      assert CountPair(missing, pair) > 0;
    }
  }

  lemma {:induction false} AllRetained(atoms: seq<Atom>, recovered: set<string>, supply: multiset<Pair>)
    requires Scan(atoms, recovered, supply).missing == []
    ensures Scan(atoms, recovered, supply).retained == atoms
  {
    if atoms != [] {
      AllRetained(atoms[..|atoms| - 1], recovered, supply);
      assert atoms == atoms[..|atoms| - 1] + [atoms[|atoms| - 1]];
    }
  }

  // ---------------------------------------------------------------------
  // Reports
  // ---------------------------------------------------------------------

  datatype RetentionPolicy = RetentionPolicy(noncritical: real, maxDegradation: real)

  predicate ValidRetention(p: RetentionPolicy) {
    0.98 <= p.noncritical <= 1.0 && 0.0 <= p.maxDegradation <= 3.0
  }

  datatype Report = Report(
    level: Level, accepted: bool, criticalTotal: nat, criticalRetained: nat, noncriticalTotal: nat,
    noncriticalRetained: nat, degradation: real, missing: seq<Atom>)

  datatype ValidationRequest = ValidationRequest(
    request: Request, candidate: Compressed, policy: RetentionPolicy, baseline: real, scores: map<Level, real>)

  function CountCritical(atoms: seq<Atom>): nat {
    if atoms == [] then 0 else CountCritical(atoms[..|atoms| - 1]) + (if atoms[|atoms| - 1].critical then 1 else 0)
  }

  function Ratio(retained: nat, total: nat): real {
    if total == 0 then 1.0 else retained as real / total as real
  }

  function Degradation(v: ValidationRequest, level: Level): real {
    if level == C0 || level == C1 then 0.0
    else if level !in v.scores then 100.0
    else if v.baseline - v.scores[level] > 0.0 then v.baseline - v.scores[level] else 0.0
  }

  lemma {:induction false} CriticalBounded(atoms: seq<Atom>)
    ensures CountCritical(atoms) <= |atoms|
  {
    if atoms != [] {
      CriticalBounded(atoms[..|atoms| - 1]);
    }
  }

  function MakeReport(v: ValidationRequest, level: Level, atoms: seq<Atom>, retained: seq<Atom>,
        missing: seq<Atom>): Report {
    CriticalBounded(atoms);
    CriticalBounded(retained);
    var criticalTotal, criticalRetained := CountCritical(atoms), CountCritical(retained);
    var noncriticalTotal, noncriticalRetained := |atoms| - criticalTotal, |retained| - criticalRetained;
    var degradation := Degradation(v, level);
    var accepted := Ratio(criticalRetained, criticalTotal) >= 1.0
                    && Ratio(noncriticalRetained, noncriticalTotal) >= v.policy.noncritical
                    && degradation <= v.policy.maxDegradation;
    Report(level, accepted, criticalTotal, criticalRetained, noncriticalTotal, noncriticalRetained, degradation,
      missing)
  }

  function ReportOf(v: ValidationRequest, c: Compressed): Report {
    var atoms := Atoms(v.request.events);
    var s := Scan(atoms, Recovered(c.items), Supply(c.items));
    MakeReport(v, c.level, atoms, s.retained, s.missing)
  }

  /** _evaluate: one pass over the atoms, taking pairs from a counter. */
  method Evaluate(v: ValidationRequest, c: Compressed) returns (report: Report)
    ensures report == ReportOf(v, c)
  {
    var atoms := Atoms(v.request.events);
    var recovered := Recovered(c.items);
    var available := Supply(c.items);
    var retained, missing: seq<Atom> := [], [];
    var i := 0;
    while i < |atoms|
      invariant 0 <= i <= |atoms|
      invariant Retention(retained, missing, available) == Scan(atoms[..i], recovered, Supply(c.items))
    {
      assert atoms[..i + 1][..i] == atoms[..i];
      var atom := atoms[i];
      if atom.eventId in recovered {
        retained := retained + [atom];
      } else if available[atom.pair] > 0 {
        retained := retained + [atom];
        available := available[atom.pair := available[atom.pair] - 1];
      } else {
        missing := missing + [atom];
      }
      i := i + 1;
    }
    assert atoms[..i] == atoms;
    report := MakeReport(v, c.level, atoms, retained, missing);
  }

  // ---------------------------------------------------------------------
  // Lossless candidates are accepted
  // ---------------------------------------------------------------------

  predicate DistinctContents(events: seq<Event>) {
    forall i, j ::
      0 <= i < j < |events| && !events[i].protected && !events[j].protected ==> events[i].content != events[j].content
  }

  function Singletons(events: seq<Event>): seq<seq<Event>> {
    seq(|events|, i requires 0 <= i < |events| => [events[i]])
  }

  lemma {:induction false} DistinctGroups(events: seq<Event>)
    requires UniqueIds(events) && DistinctContents(events)
    ensures Groups(events) == Singletons(events)
  {
    if events != [] {
      var init, last := events[..|events| - 1], events[|events| - 1];
      assert events == init + [last];
      DistinctGroups(init);
      LastIsNew(init, last);
      NewGroup(init, last);
      assert Singletons(events) == Singletons(init) + [[last]];
    }
  }

  lemma {:induction false} LastIsNew(events: seq<Event>, last: Event)
    requires UniqueIds(events + [last]) && DistinctContents(events + [last])
    ensures Compression.KeyOf(last) !in Order(events)
  {
    if events != [] {
      var init, e := events[..|events| - 1], events[|events| - 1];
      var all := events + [last];
      assert all[|events| - 1] == e && all[|events|] == last;
      assert forall i :: 0 <= i < |init| ==> (init + [last])[i] == all[i];
      LastIsNew(init, last);
      assert all[|events| - 1].id != all[|events|].id;
    }
  }

  lemma NewGroup(events: seq<Event>, e: Event)
    requires Compression.KeyOf(e) !in Order(events)
    ensures Groups(events + [e]) == Groups(events) + [[e]]
  {
    OrderKeys(events);
    var all, order, key := events + [e], Order(events), Compression.KeyOf(e);
    assert all[..|events|] == events;
    assert Order(all) == order + [key];
    forall i | 0 <= i < |order| ensures GroupOf(all, order[i]) == GroupOf(events, order[i]) {
      assert order[i] in order;
    }
    assert GroupOf(all, key) == [e];
  }

  /** An item that keeps its event: the same content, or a reference to its artifact. */
  ghost predicate Keeps(item: Item, e: Event) {
    item.content == e.content || (item.kind == ArtifactReference && e.id in item.sources)
  }

  lemma KeptItems(events: seq<Event>)
    requires UniqueIds(events) && DistinctContents(events)
    ensures Groups(events) == Singletons(events)
    ensures forall i :: 0 <= i < |events| ==>
      Keeps(RawItems(Groups(events))[i], events[i]) && Keeps(LosslessItems(Groups(events))[i], events[i])
  {
    DistinctGroups(events);
    forall i | 0 <= i < |events| ensures Keeps(LosslessItems(Singletons(events))[i], events[i]) {
      assert Ids([events[i]]) == [events[i].id];
    }
  }

  lemma DemandLast(atoms: seq<Atom>, last: Atom, recovered: set<string>)
    ensures Demand(atoms + [last], recovered) == Demand(atoms, recovered) + Asks(last, recovered)
  {
    assert (atoms + [last])[..|atoms|] == atoms;
  }

  lemma {:induction false} DemandAppend(a: seq<Atom>, b: seq<Atom>, recovered: set<string>)
    ensures Demand(a + b, recovered) == Demand(a, recovered) + Demand(b, recovered)
  {
    if b == [] {
      assert Demand(b, recovered) == multiset{};
      hide Demand;
      assert a + b == a;
    } else {
      hide Asks; hide Demand;
      var init, last := b[..|b| - 1], b[|b| - 1];
      assert a + b == (a + init) + [last] && b == init + [last];
      DemandAppend(a, init, recovered);
      DemandLast(a + init, last, recovered);
      DemandLast(init, last, recovered);
    }
  }

  lemma {:induction false} EventDemand(pairs: seq<Pair>, atoms: seq<Atom>, recovered: set<string>)
    requires |pairs| == |atoms| && forall i :: 0 <= i < |atoms| ==> atoms[i].pair == pairs[i]
    ensures Demand(atoms, recovered) <= multiset(pairs)
  {
    if atoms != [] {
      var n := |atoms| - 1;
      EventDemand(pairs[..n], atoms[..n], recovered);
      assert Asks(atoms[n], recovered) <= multiset{pairs[n]};
      hide Asks;
      assert multiset(pairs) == multiset(pairs[..n]) + multiset{pairs[n]} by {
        assert pairs == pairs[..n] + [pairs[n]];
      }
    }
  }

  lemma {:induction false} RecoveredDemand(atoms: seq<Atom>, recovered: set<string>)
    requires forall i :: 0 <= i < |atoms| ==> atoms[i].eventId in recovered
    ensures Demand(atoms, recovered) == multiset{}
  {
    if atoms != [] {
      RecoveredDemand(atoms[..|atoms| - 1], recovered);
    }
  }

  /** Items that keep their events one by one supply all that is asked for. */
  lemma {:induction false} KeptSupply(events: seq<Event>, items: seq<Item>, recovered: set<string>)
    requires |items| == |events| && forall i :: 0 <= i < |events| ==> Keeps(items[i], events[i])
    requires forall i ::
      0 <= i < |items| && items[i].kind == ArtifactReference ==> forall id :: id in items[i].sources ==> id in recovered
    ensures Demand(Atoms(events), recovered) <= Supply(items)
  {
    if events != [] {
      var n := |events| - 1;
      hide Keeps;
      KeptSupply(events[..n], items[..n], recovered);
      DemandAppend(Atoms(events[..n]), Extract(events[n]), recovered);
      LastSupply(events[n], items[n], recovered);
    }
  }

  lemma LastSupply(e: Event, item: Item, recovered: set<string>)
    requires Keeps(item, e) && (item.kind == ArtifactReference ==> forall id :: id in item.sources ==> id in recovered)
    ensures Demand(Extract(e), recovered) <= multiset(Flatten(item.content, "root"))
  {
    hide CriticalName; hide Flatten;
    EventDemand(Flatten(e.content, "root"), Extract(e), recovered);
    if item.content != e.content {
      RecoveredDemand(Extract(e), recovered);
    }
  }

  /** If unprotected contents are pairwise distinct, every C0 or C1 compression is accepted. */
  lemma LosslessAccepted(v: ValidationRequest, r: Request, adapter: Option<Adapter>, c: Compressed)
    requires r.limit >= 1 && CompressionOf(r, adapter) == Ok(c) && (c.level == C0 || c.level == C1)
    requires r.events == v.request.events && UniqueIds(r.events) && DistinctContents(r.events)
      && ValidRetention(v.policy)
    ensures ReportOf(v, c).accepted && ReportOf(v, c).missing == []
  {
    hide Scan; hide Supply; hide Demand; hide Atoms; hide Groups; hide UniqueIds; hide DistinctContents;
    hide CountCritical; hide RawItems; hide LosslessItems;
    KeptItems(r.events);
    LosslessSizes(r.events);
    var atoms, recovered, supply := Atoms(r.events), Recovered(c.items), Supply(c.items);
    RecoveredSources(c.items);
    KeptSupply(r.events, c.items, recovered);
    NothingMissingIff(atoms, recovered, supply);
    AllRetained(atoms, recovered, supply);
    FullReport(v, c.level, atoms);
    hide MakeReport; hide ValidRetention;
  }

  lemma FullRatio(n: nat)
    ensures Ratio(n, n) == 1.0
  {
  }

  /** A lossless report that retains every atom is accepted under every legal policy. */
  lemma FullReport(v: ValidationRequest, level: Level, atoms: seq<Atom>)
    requires ValidRetention(v.policy) && (level == C0 || level == C1)
    ensures MakeReport(v, level, atoms, atoms, []).accepted && MakeReport(v, level, atoms, atoms, []).missing == []
  {
    hide CountCritical; hide Ratio;
    CriticalBounded(atoms);
    FullRatio(CountCritical(atoms));
    FullRatio(|atoms| - CountCritical(atoms));
  }

  lemma LosslessSizes(events: seq<Event>)
    requires Groups(events) == Singletons(events)
    ensures |RawItems(Groups(events))| == |events| && |LosslessItems(Groups(events))| == |events|
  {
  }

  lemma RecoveredSources(items: seq<Item>)
    ensures forall i :: 0 <= i < |items| && items[i].kind == ArtifactReference ==>
      forall id :: id in items[i].sources ==> id in Recovered(items)
  {
    forall i, id | 0 <= i < |items| && items[i].kind == ArtifactReference && id in items[i].sources
      ensures id in Recovered(items)
    {
      var k :| 0 <= k < |items[i].sources| && items[i].sources[k] == id;
    }
  }
}
