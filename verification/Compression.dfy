/**
 The C0-C3 compression pipeline of context/compression.py: duplicate events are grouped, tool
 logs may become artifact references, and at the upper levels one semantic summary replaces
 the events that are neither protected nor recent.
 */
module Compression {
  import opened Common

  // ---------------------------------------------------------------------
  // Data
  // ---------------------------------------------------------------------

  /** JSON values in canonical form: the fields of an object are listed in key order. `Digest`
      is the text of a value's hash. */
  datatype Json =
    | Null | Flag(flag: bool) | Number(digits: string) | Text(text: string) | Digest(hashed: Json)
    | List(items: seq<Json>) | Object(fields: seq<Field>)

  datatype Field = Field(key: string, value: Json)

  datatype Level = C0 | C1 | C2 | C3

  datatype Kind =
    SystemInstruction | UserTurn | AssistantTurn | ProjectFact | Retrieval | ToolLog | Decision | OpenIssue

  datatype Artifact = Artifact(id: string, sha256: string, mediaType: string)

  datatype Event = Event(
    id: string, taskId: Uuid, scope: Scope, kind: Kind, content: Json, tokens: nat, protected: bool,
    artifact: Option<Artifact>)

  datatype ItemKind = RawEvent | ArtifactReference | SemanticSummary

  datatype Item = Item(kind: ItemKind, sources: seq<string>, content: Json, tokens: nat, protected: bool)

  datatype Policy = Policy(
    c1: real, c2: real, c3: real, recentTurns: nat, c2SummaryTokens: nat, c3DigestTokens: nat, maxSemantic: nat)

  datatype Checkpoint = Checkpoint(id: Uuid, taskId: Uuid, scope: Scope, artifactScope: Scope)

  datatype Request = Request(
    taskId: Uuid, scope: Scope, events: seq<Event>, activeTokens: nat, limit: nat, used: nat,
    checkpoint: Option<Checkpoint>, policy: Policy)

  /** The hash of the raw events stands for the events themselves. */
  datatype Compressed = Compressed(
    taskId: Uuid, scope: Scope, level: Level, rawEvents: seq<Event>, items: seq<Item>,
    inputTokens: nat, outputTokens: nat, used: nat, checkpointId: Option<Uuid>, ready: bool)

  datatype Code =
    | EventScopeMismatch | SemanticLimit | CompressorUnavailable | CheckpointRequired | CheckpointScopeMismatch
    | AdapterFailed | SourceMismatch | OutputOverflow | NoReduction

  datatype SemanticRequest = SemanticRequest(level: Level, events: seq<Event>, maxTokens: nat)

  datatype Semantic = Semantic(content: Json, sources: seq<string>, tokens: nat, versions: seq<Field>)

  /** The semantic compressor; `None` is an exception it raised. */
  type Adapter = SemanticRequest -> Option<Semantic>

  /** Event identifiers are unique. */
  predicate UniqueIds(events: seq<Event>) {
    forall i, j :: 0 <= i < j < |events| ==> events[i].id != events[j].id
  }

  predicate ValidPolicy(p: Policy) {
    0.0 < p.c1 < p.c2 < p.c3 < 1.0 && p.recentTurns >= 1 && 1 <= p.maxSemantic <= 2
  }

  const MAX_CONTEXT: nat := 10_000_000

  predicate ValidEvent(e: Event) {
    e.id != "" && e.tokens >= 1 && ValidScope(e.scope)
  }

  predicate ValidCheckpoint(c: Checkpoint) {
    ValidScope(c.scope) && ValidScope(c.artifactScope)
  }

  /** What the request contract promises. */
  predicate ValidRequest(r: Request) {
    && r.events != [] && UniqueIds(r.events) && (forall i :: 0 <= i < |r.events| ==> ValidEvent(r.events[i]))
    && 1 <= r.activeTokens <= MAX_CONTEXT && 1 <= r.limit <= MAX_CONTEXT && r.used <= 2
    && ValidScope(r.scope) && ValidPolicy(r.policy) && (r.checkpoint.Some? ==> ValidCheckpoint(r.checkpoint.value))
  }

  /** What the contract of items promises. */
  predicate ValidItem(item: Item) {
    && item.sources != [] && item.tokens >= 1
    && (forall i, j :: 0 <= i < j < |item.sources| ==> item.sources[i] != item.sources[j])
  }

  /** What the contract of results promises; a C3 result names its checkpoint. */
  predicate ValidResult(c: Compressed) {
    && ValidScope(c.scope) && c.items != [] && (forall i :: 0 <= i < |c.items| ==> ValidItem(c.items[i]))
    && c.inputTokens >= 1 && c.outputTokens >= 1 && c.used <= 2 && (c.level == C3 ==> c.checkpointId.Some?)
  }

  // ---------------------------------------------------------------------
  // Level selection
  // ---------------------------------------------------------------------

  function Pressure(tokens: nat, limit: nat): real
    requires limit >= 1
  {
    tokens as real / limit as real
  }

  function LevelFor(policy: Policy, pressure: real): Level {
    if pressure < policy.c1 then C0
    else if pressure < policy.c2 then C1
    else if pressure <= policy.c3 then C2
    else C3
  }

  function SelectLevel(r: Request): Level
    requires r.limit >= 1
  {
    LevelFor(r.policy, Pressure(r.activeTokens, r.limit))
  }

  // ---------------------------------------------------------------------
  // Groups of duplicate events
  // ---------------------------------------------------------------------

  /** Protected events stand alone; the others are grouped by content. */
  datatype GroupKey = Alone(id: string) | Same(content: Json)

  function KeyOf(e: Event): GroupKey {
    if e.protected then Alone(e.id) else Same(e.content)
  }

  /** Keys in the order of their first event. */
  function Order(events: seq<Event>): seq<GroupKey> {
    if events == [] then []
    else
      var before, key := Order(events[..|events| - 1]), KeyOf(events[|events| - 1]);
      if key in before then before else before + [key]
  }

  function GroupOf(events: seq<Event>, key: GroupKey): seq<Event> {
    if events == [] then []
    else
      var before, last := GroupOf(events[..|events| - 1], key), events[|events| - 1];
      if KeyOf(last) == key then before + [last] else before
  }

  function Groups(events: seq<Event>): seq<seq<Event>> {
    var order := Order(events);
    seq(|order|, i requires 0 <= i < |order| => GroupOf(events, order[i]))
  }

  function Ids(events: seq<Event>): seq<string> {
    seq(|events|, i requires 0 <= i < |events| => events[i].id)
  }

  function Total(events: seq<Event>): nat {
    if events == [] then 0 else Total(events[..|events| - 1]) + events[|events| - 1].tokens
  }

  function RawItem(group: seq<Event>): Item
    requires group != []
  {
    Item(RawEvent, Ids(group), group[0].content, group[0].tokens, group[0].protected)
  }

  function ReferenceContent(e: Event, a: Artifact): Json {
    Object([Field("artifact_id", Text(a.id)), Field("artifact_sha256", Text(a.sha256)),
            Field("media_type", Text(a.mediaType)), Field("source_event_sha256", Digest(e.content))])
  }

  predicate Recoverable(e: Event) {
    e.kind == ToolLog && !e.protected && e.artifact.Some?
  }

  /** The C1 item of a group: a reference when its first event is a recoverable tool log. */
  function LosslessItem(group: seq<Event>): Item
    requires group != []
  {
    var first := group[0];
    if Recoverable(first) then
      Item(ArtifactReference, Ids(group), ReferenceContent(first, first.artifact.value),
           if first.tokens < 80 then first.tokens else 80, first.protected)
    else RawItem(group)
  }

  lemma {:induction false} OrderKeys(events: seq<Event>)
    ensures forall i, j :: 0 <= i < j < |Order(events)| ==> Order(events)[i] != Order(events)[j]
    ensures forall key :: GroupOf(events, key) != [] <==> key in Order(events)
  {
    if events != [] {
      OrderKeys(events[..|events| - 1]);
    }
  }

  function RawItems(groups: seq<seq<Event>>): seq<Item>
    requires forall i :: 0 <= i < |groups| ==> groups[i] != []
  {
    seq(|groups|, i requires 0 <= i < |groups| => RawItem(groups[i]))
  }

  function LosslessItems(groups: seq<seq<Event>>): seq<Item>
    requires forall i :: 0 <= i < |groups| ==> groups[i] != []
  {
    seq(|groups|, i requires 0 <= i < |groups| => LosslessItem(groups[i]))
  }

  lemma GroupsNonEmpty(events: seq<Event>)
    ensures forall i :: 0 <= i < |Groups(events)| ==> Groups(events)[i] != []
  {
    OrderKeys(events);
    forall i | 0 <= i < |Groups(events)| ensures Groups(events)[i] != [] {
      assert Order(events)[i] in Order(events);
    }
  }

  /** _deduplicate_raw_events: one raw item for each group, in order of first events. */
  method Deduplicate(events: seq<Event>) returns (items: seq<Item>)
    ensures forall i :: 0 <= i < |Groups(events)| ==> Groups(events)[i] != []
    ensures items == RawItems(Groups(events))
  {
    var grouped, order := GroupEvents(events);
    GroupsNonEmpty(events);
    items := [];
    var i := 0;
    while i < |order|
      invariant 0 <= i <= |order| && |items| == i
      invariant forall j :: 0 <= j < i ==> items[j] == RawItem(Groups(events)[j])
    {
      assert order[i] in order && grouped[order[i]] == Groups(events)[i];
      items := items + [RawItem(grouped[order[i]])];
      i := i + 1;
    }
  }

  /** The grouping dictionary and the order of its keys. */
  method GroupEvents(events: seq<Event>) returns (grouped: map<GroupKey, seq<Event>>, order: seq<GroupKey>)
    ensures order == Order(events)
    ensures forall key :: key in grouped <==> key in order
    ensures forall key :: key in grouped ==> grouped[key] == GroupOf(events, key)
  {
    grouped, order := map[], [];
    var i := 0;
    while i < |events|
      invariant 0 <= i <= |events|
      invariant order == Order(events[..i])
      invariant forall key :: key in grouped <==> key in order
      invariant forall key :: key in grouped ==> grouped[key] == GroupOf(events[..i], key)
    {
      var key := KeyOf(events[i]);
      assert events[..i + 1][..i] == events[..i];
      OrderKeys(events[..i]);
      if key !in grouped {
        order := order + [key];
        grouped := grouped[key := []];
      }
      grouped := grouped[key := grouped[key] + [events[i]]];
      i := i + 1;
    }
    assert events[..i] == events;
  }

  /** _lossless_c1: walks the events again and emits each group at its first event. */
  method LosslessC1(events: seq<Event>) returns (items: seq<Item>)
    ensures forall i :: 0 <= i < |Groups(events)| ==> Groups(events)[i] != []
    ensures items == LosslessItems(Groups(events))
  {
    hide GroupOf; hide KeyOf; hide Ids; hide ReferenceContent;
    var grouped, order := GroupEvents(events);
    GroupsNonEmpty(events);
    items := [];
    ghost var emittedOrder: seq<GroupKey> := [];
    var emitted: set<GroupKey> := {};
    var i := 0;
    while i < |events|
      invariant 0 <= i <= |events|
      invariant emittedOrder == Order(events[..i]) && emittedOrder <= order
      invariant forall key :: key in emitted <==> key in emittedOrder
      invariant |items| == |emittedOrder|
      invariant forall j :: 0 <= j < |items| ==> items[j] == LosslessItem(Groups(events)[j])
    {
      var event := events[i];
      var key := KeyOf(event);
      assert events[..i + 1][..i] == events[..i];
      OrderExtends(events, i + 1);
      if key !in emitted {
        emitted := emitted + {key};
        emittedOrder := emittedOrder + [key];
        assert order[|items|] == key;
        var group := grouped[key];
        assert group == Groups(events)[|items|] && group[0] == event by { FirstOfGroup(events, i); }
        var item :=
          if Recoverable(event) then
            Item(ArtifactReference, Ids(group), ReferenceContent(event, event.artifact.value),
                 if event.tokens < 80 then event.tokens else 80, event.protected)
          else RawItem(group);
        items := items + [item];
      }
      i := i + 1;
    }
    assert events[..i] == events;
  }

  lemma {:induction false} OrderExtends(events: seq<Event>, n: nat)
    requires n <= |events|
    ensures Order(events[..n]) <= Order(events)
    decreases |events|
  {
    if n == |events| {
      assert events[..n] == events;
    } else {
      var init := events[..|events| - 1];
      OrderExtends(init, n);
      assert init[..n] == events[..n];
    }
  }

  /** The first event with a key begins its group. */
  lemma {:induction false} FirstOfGroup(events: seq<Event>, i: nat)
    requires i < |events| && KeyOf(events[i]) !in Order(events[..i])
    ensures GroupOf(events, KeyOf(events[i])) != [] && GroupOf(events, KeyOf(events[i]))[0] == events[i]
    decreases |events|
  {
    var init := events[..|events| - 1];
    if i == |events| - 1 {
      OrderKeys(init);
      assert events[..i] == init;
    } else {
      assert init[..i] == events[..i];
      FirstOfGroup(init, i);
    }
  }

  // ---------------------------------------------------------------------
  // Grouping conserves events and tokens
  // ---------------------------------------------------------------------

  /** The identifiers in all groups, with multiplicity. */
  ghost function GroupIds(groups: seq<seq<Event>>): multiset<string> {
    if groups == [] then multiset{} else GroupIds(groups[..|groups| - 1]) + multiset(Ids(groups[|groups| - 1]))
  }

  ghost function GroupTotal(groups: seq<seq<Event>>): nat {
    if groups == [] then 0 else GroupTotal(groups[..|groups| - 1]) + Total(groups[|groups| - 1])
  }

  lemma IdsAppend(events: seq<Event>, e: Event)
    ensures Ids(events + [e]) == Ids(events) + [e.id]
    ensures Total(events + [e]) == Total(events) + e.tokens
  {
    assert (events + [e])[..|events|] == events;
  }

  lemma {:induction false} GroupExtended(groups: seq<seq<Event>>, j: nat, e: Event)
    requires j < |groups|
    ensures GroupIds(groups[j := groups[j] + [e]]) == GroupIds(groups) + multiset{e.id}
    ensures GroupTotal(groups[j := groups[j] + [e]]) == GroupTotal(groups) + e.tokens
  {
    var n := |groups| - 1;
    var extended := groups[j := groups[j] + [e]];
    if j == n {
      IdsAppend(groups[j], e);
      assert extended[..n] == groups[..n];
    } else {
      GroupExtended(groups[..n], j, e);
      assert extended[..n] == groups[..n][j := groups[..n][j] + [e]];
    }
  }

  lemma GroupAdded(groups: seq<seq<Event>>, e: Event)
    ensures GroupIds(groups + [[e]]) == GroupIds(groups) + multiset{e.id}
    ensures GroupTotal(groups + [[e]]) == GroupTotal(groups) + e.tokens
  {
    assert (groups + [[e]])[..|groups|] == groups;
    IdsAppend([], e);
    assert [] + [e] == [e];
  }

  /** One more event joins its group, or starts a new last group. */
  lemma GroupsStep(events: seq<Event>, e: Event)
    ensures (exists j ::
      0 <= j < |Groups(events)| && Groups(events + [e]) == Groups(events)[j := Groups(events)[j] + [e]])
            || Groups(events + [e]) == Groups(events) + [[e]]
  {
    var all, order, key := events + [e], Order(events), KeyOf(e);
    var groups, groups' := Groups(events), Groups(all);
    assert all[..|events|] == events;
    OrderKeys(events);
    assert Order(all) == if key in order then order else order + [key];
    forall k ensures GroupOf(all, k) == if k == key then GroupOf(events, k) + [e] else GroupOf(events, k) {
    }
    hide Order; hide GroupOf; hide KeyOf;
    if key in order {
      var j :| 0 <= j < |order| && order[j] == key;
      assert groups' == groups[j := groups[j] + [e]];
    } else {
      forall i | 0 <= i < |order| ensures groups'[i] == groups[i] {
        assert order[i] in order;
      }
      assert groups'[|order|] == [e];
      assert groups' == groups + [[e]];
    }
  }

  lemma {:induction false} GroupsConserve(events: seq<Event>)
    ensures GroupIds(Groups(events)) == multiset(Ids(events))
    ensures GroupTotal(Groups(events)) == Total(events)
  {
    if events != [] {
      var init, last := events[..|events| - 1], events[|events| - 1];
      assert events == init + [last];
      GroupsConserve(init);
      IdsAppend(init, last);
      GroupsStep(init, last);
      if Groups(events) == Groups(init) + [[last]] {
        GroupAdded(Groups(init), last);
      } else {
        var j :| 0 <= j < |Groups(init)| && Groups(events) == Groups(init)[j := Groups(init)[j] + [last]];
        GroupExtended(Groups(init), j, last);
      }
    }
  }

  // ---------------------------------------------------------------------
  // Items cover groups
  // ---------------------------------------------------------------------

  /** The source identifiers of all items, with multiplicity. */
  ghost function Sources(items: seq<Item>): multiset<string> {
    if items == [] then multiset{} else Sources(items[..|items| - 1]) + multiset(items[|items| - 1].sources)
  }

  function Tokens(items: seq<Item>): nat {
    if items == [] then 0 else Tokens(items[..|items| - 1]) + items[|items| - 1].tokens
  }

  ghost predicate CoversGroup(item: Item, group: seq<Event>) {
    item.sources == Ids(group) && item.tokens <= Total(group)
  }

  lemma {:induction false} CoversAll(items: seq<Item>, groups: seq<seq<Event>>)
    requires |items| == |groups| && forall i :: 0 <= i < |items| ==> CoversGroup(items[i], groups[i])
    ensures Sources(items) == GroupIds(groups) && Tokens(items) <= GroupTotal(groups)
  {
    if items != [] {
      CoversAll(items[..|items| - 1], groups[..|groups| - 1]);
    }
  }

  lemma {:induction false} FirstBelowTotal(group: seq<Event>)
    requires group != []
    ensures group[0].tokens <= Total(group)
  {
    if |group| > 1 {
      FirstBelowTotal(group[..|group| - 1]);
    }
  }

  /** Deduplication and C1 keep every event exactly once and never grow. */
  lemma ItemsConserve(events: seq<Event>)
    requires forall i :: 0 <= i < |Groups(events)| ==> Groups(events)[i] != []
    ensures Sources(RawItems(Groups(events))) == multiset(Ids(events))
      && Tokens(RawItems(Groups(events))) <= Total(events)
    ensures Sources(LosslessItems(Groups(events))) == multiset(Ids(events))
      && Tokens(LosslessItems(Groups(events))) <= Total(events)
  {
    var groups := Groups(events);
    GroupsConserve(events);
    forall i | 0 <= i < |groups|
      ensures CoversGroup(RawItem(groups[i]), groups[i]) && CoversGroup(LosslessItem(groups[i]), groups[i])
    {
      FirstBelowTotal(groups[i]);
    }
    CoversAll(RawItems(groups), groups);
    CoversAll(LosslessItems(groups), groups);
  }

  // ---------------------------------------------------------------------
  // compress
  // ---------------------------------------------------------------------

  predicate Conversation(e: Event) {
    e.kind == UserTurn || e.kind == AssistantTurn
  }

  function Turns(events: seq<Event>): seq<string> {
    if events == [] then []
    else Turns(events[..|events| - 1]) + (if Conversation(events[|events| - 1]) then [events[|events| - 1].id] else [])
  }

  /** _recent_turn_ids. */
  function RecentTurns(events: seq<Event>, count: nat): seq<string> {
    var turns := Turns(events);
    if |turns| <= count then turns else turns[|turns| - count..]
  }

  /** The events kept as they are at a semantic level. */
  predicate Retains(r: Request, level: Level, e: Event) {
    e.protected || (level == C2 && e.id in RecentTurns(r.events, r.policy.recentTurns))
  }

  function Retained(r: Request, level: Level, events: seq<Event>): seq<Event> {
    if events == [] then []
    else
      var init, last := events[..|events| - 1], events[|events| - 1];
      Retained(r, level, init) + (if Retains(r, level, last) then [last] else [])
  }

  function Eligible(r: Request, level: Level, events: seq<Event>): seq<Event> {
    if events == [] then []
    else
      var init, last := events[..|events| - 1], events[|events| - 1];
      Eligible(r, level, init) + (if Retains(r, level, last) then [] else [last])
  }

  function Finished(r: Request, level: Level, items: seq<Item>, increment: nat,
        checkpointId: Option<Uuid>): Compressed {
    Compressed(r.taskId, r.scope, level, r.events, items, Total(r.events), Tokens(items), r.used + increment,
      checkpointId, level == C0 || level == C1)
  }

  predicate InScope(r: Request) {
    forall i :: 0 <= i < |r.events| ==> r.events[i].taskId == r.taskId && r.events[i].scope == r.scope
  }

  /** _validate_checkpoint. */
  function CheckedCheckpoint(r: Request): Result<Uuid, Code> {
    match r.checkpoint
    case None => Err(CheckpointRequired)
    case Some(c) =>
      if c.taskId != r.taskId || c.scope != r.scope || c.artifactScope != r.scope then Err(CheckpointScopeMismatch)
      else Ok(c.id)
  }

  /** _validate_semantic_result. */
  function CheckedSummary(request: SemanticRequest, summary: Option<Semantic>): Result<Item, Code> {
    match summary
    case None => Err(AdapterFailed)
    case Some(s) =>
      if s.sources != Ids(request.events) then Err(SourceMismatch)
      else if s.tokens > request.maxTokens then Err(OutputOverflow)
      else if s.tokens >= Total(request.events) then Err(NoReduction)
      else Ok(Item(SemanticSummary, s.sources, Object([Field("summary", s.content)] + s.versions), s.tokens, false))
  }

  /** What `compress` answers, by the groups and the split of the events. */
  ghost function CompressionOf(r: Request, adapter: Option<Adapter>): Result<Compressed, Code>
    requires r.limit >= 1
  {
    var level := SelectLevel(r);
    GroupsNonEmpty(r.events);
    if !InScope(r) then Err(EventScopeMismatch)
    else if level == C0 then Ok(Finished(r, level, RawItems(Groups(r.events)), 0, None))
    else if level == C1 then Ok(Finished(r, level, LosslessItems(Groups(r.events)), 0, None))
    else if r.used >= r.policy.maxSemantic then Err(SemanticLimit)
    else if adapter.None? then Err(CompressorUnavailable)
    else if level == C3 && CheckedCheckpoint(r).Err? then Err(CheckedCheckpoint(r).error)
    else
      var checkpointId := if level == C3 then Some(CheckedCheckpoint(r).value) else None;
      var retained, eligible := Retained(r, level, r.events), Eligible(r, level, r.events);
      GroupsNonEmpty(retained);
      var kept := RawItems(Groups(retained));
      if eligible == [] then Ok(Finished(r, level, kept, 0, checkpointId))
      else
        var request :=
          SemanticRequest(level, eligible, if level == C2 then r.policy.c2SummaryTokens else r.policy.c3DigestTokens);
        var summary := CheckedSummary(request, adapter.value(request));
        if summary.Err? then Err(summary.error) else Ok(Finished(r, level, kept + [summary.value], 1, checkpointId))
  }

  method Compress(r: Request, adapter: Option<Adapter>) returns (result: Result<Compressed, Code>)
    requires r.limit >= 1
    ensures result == CompressionOf(r, adapter)
  {
    if !InScope(r) {
      return Err(EventScopeMismatch);
    }
    var level := SelectLevel(r);
    if level == C0 {
      var items := Deduplicate(r.events);
      return Ok(Finished(r, level, items, 0, None));
    }
    if level == C1 {
      var items := LosslessC1(r.events);
      return Ok(Finished(r, level, items, 0, None));
    }
    if r.used >= r.policy.maxSemantic {
      return Err(SemanticLimit);
    }
    if adapter.None? {
      return Err(CompressorUnavailable);
    }
    var checkpointId := None;
    var limit := r.policy.c2SummaryTokens;
    if level == C3 {
      var checked := CheckedCheckpoint(r);
      if checked.Err? {
        return Err(checked.error);
      }
      checkpointId := Some(checked.value);
      limit := r.policy.c3DigestTokens;
    }
    var retained, eligible := Retained(r, level, r.events), Eligible(r, level, r.events);
    var items := Deduplicate(retained);
    if eligible == [] {
      return Ok(Finished(r, level, items, 0, checkpointId));
    }
    var request := SemanticRequest(level, eligible, limit);
    var summary := CheckedSummary(request, adapter.value(request));
    if summary.Err? {
      return Err(summary.error);
    }
    return Ok(Finished(r, level, items + [summary.value], 1, checkpointId));
  }

  // ---------------------------------------------------------------------
  // compress conserves
  // ---------------------------------------------------------------------

  lemma SplitStep(r: Request, level: Level, init: seq<Event>, last: Event)
    ensures Retained(r, level, init + [last]) == if Retains(r, level, last) then Retained(r, level, init) + [last]
      else Retained(r, level, init)
    ensures Eligible(r, level, init + [last]) == if Retains(r, level, last) then Eligible(r, level, init)
      else Eligible(r, level, init) + [last]
  {
    hide Retains;
    assert (init + [last])[..|init|] == init;
  }

  lemma {:induction false} SplitConserves(r: Request, level: Level, events: seq<Event>)
    ensures multiset(Ids(Retained(r, level, events))) + multiset(Ids(Eligible(r, level, events))) ==
      multiset(Ids(events))
    ensures Total(Retained(r, level, events)) + Total(Eligible(r, level, events)) == Total(events)
  {
    hide Retains; hide Ids; hide Total;
    NoIds();
    if events != [] {
      var init, last := events[..|events| - 1], events[|events| - 1];
      hide Retained; hide Eligible;
      assert events == init + [last];
      SplitConserves(r, level, init);
      SplitStep(r, level, init, last);
      IdsAppend(init, last);
      IdsAppend(Retained(r, level, init), last);
      IdsAppend(Eligible(r, level, init), last);
    }
  }

  lemma ItemsAppend(items: seq<Item>, item: Item)
    ensures Sources(items + [item]) == Sources(items) + multiset(item.sources)
    ensures Tokens(items + [item]) == Tokens(items) + item.tokens
  {
    assert (items + [item])[..|items|] == items;
  }

  /** _validate_binding. */
  ghost predicate Bound(r: Request, c: Compressed) {
    c.taskId == r.taskId && c.scope == r.scope && c.rawEvents == r.events && Sources(c.items) == multiset(Ids(r.events))
  }

  /** At every level each raw event occurs in exactly one item exactly once, the output never
      costs more tokens than the input and strictly fewer after a semantic step; so whatever
      the compressor answers passes the validator's binding check. */
  lemma CompressionConserves(r: Request, adapter: Option<Adapter>, c: Compressed)
    requires r.limit >= 1 && CompressionOf(r, adapter) == Ok(c)
    ensures Bound(r, c)
    ensures c.inputTokens == Total(r.events) && c.outputTokens == Tokens(c.items) <= c.inputTokens
    ensures c.used > r.used ==> c.outputTokens < c.inputTokens
    ensures c.level == SelectLevel(r) && c.used <= r.used + 1
    ensures c.used > r.used ==> r.used < r.policy.maxSemantic && (c.level == C2 || c.level == C3)
  {
    hide Retained; hide Eligible; hide RawItems; hide LosslessItems; hide Groups; hide Sources; hide Tokens; hide Ids;
    hide Total;
    var level := SelectLevel(r);
    GroupsNonEmpty(r.events);
    ItemsConserve(r.events);
    if level == C2 || level == C3 {
      var retained, eligible := Retained(r, level, r.events), Eligible(r, level, r.events);
      SplitConserves(r, level, r.events);
      GroupsNonEmpty(retained);
      ItemsConserve(retained);
      if eligible == [] {
        NoIds();
      } else {
        ItemsAppend(RawItems(Groups(retained)), c.items[|c.items| - 1]);
      }
    }
  }

  lemma NoIds()
    ensures Ids([]) == [] && Total([]) == 0
  {
  }

  /** Identifiers are unique, so no item repeats a source and no two items share one. */
  lemma SourcesUnique(items: seq<Item>, events: seq<Event>, i: nat, id: string)
    requires UniqueIds(events) && Sources(items) == multiset(Ids(events)) && i < |items|
    ensures multiset(items[i].sources)[id] <= 1
    ensures forall j :: i < j < |items| && id in items[i].sources ==> id !in items[j].sources
  {
    IdOnce(events, id);
    SourceOnce(items, i, id);
    forall j | i < j < |items|
      ensures multiset(items[i].sources)[id] + multiset(items[j].sources)[id] <= Sources(items)[id]
    {
      SourceTwice(items, i, j, id);
    }
  }

  lemma {:induction false} IdOnce(events: seq<Event>, id: string)
    requires UniqueIds(events)
    ensures multiset(Ids(events))[id] <= 1
  {
    if events != [] {
      var init, last := events[..|events| - 1], events[|events| - 1];
      assert events == init + [last];
      IdsAppend(init, last);
      IdOnce(init, id);
      forall k | 0 <= k < |init| ensures Ids(init)[k] != last.id {
        assert events[k].id != events[|events| - 1].id;
      }
      assert last.id !in Ids(init);
    }
  }

  lemma {:induction false} SourceOnce(items: seq<Item>, i: nat, id: string)
    requires i < |items|
    ensures multiset(items[i].sources)[id] <= Sources(items)[id]
  {
    if i < |items| - 1 {
      SourceOnce(items[..|items| - 1], i, id);
    }
  }

  lemma {:induction false} SourceTwice(items: seq<Item>, i: nat, j: nat, id: string)
    requires i < j < |items|
    ensures multiset(items[i].sources)[id] + multiset(items[j].sources)[id] <= Sources(items)[id]
  {
    if j < |items| - 1 {
      SourceTwice(items[..|items| - 1], i, j, id);
    } else {
      SourceOnce(items[..j], i, id);
    }
  }

  // ---------------------------------------------------------------------
  // What is kept verbatim
  // ---------------------------------------------------------------------

  /** Some item carries the event's own content and names it as a source. */
  ghost predicate Verbatim(items: seq<Item>, e: Event) {
    exists i :: 0 <= i < |items| && items[i].kind == RawEvent && e.id in items[i].sources
      && items[i].content == e.content
  }

  lemma {:induction false} InGroup(events: seq<Event>, i: nat)
    requires i < |events|
    ensures events[i] in GroupOf(events, KeyOf(events[i])) && KeyOf(events[i]) in Order(events)
    decreases |events|
  {
    var init := events[..|events| - 1];
    if i < |init| {
      InGroup(init, i);
    }
  }

  lemma {:induction false} GroupHasKey(events: seq<Event>, key: GroupKey)
    ensures forall k :: 0 <= k < |GroupOf(events, key)| ==>
              KeyOf(GroupOf(events, key)[k]) == key && GroupOf(events, key)[k] in events
  {
    if events != [] {
      GroupHasKey(events[..|events| - 1], key);
      assert events == events[..|events| - 1] + [events[|events| - 1]];
    }
  }

  /** Deduplication keeps every event's content under its identifier. */
  lemma DeduplicatedVerbatim(events: seq<Event>, i: nat)
    requires i < |events| && UniqueIds(events) && forall k :: 0 <= k < |Groups(events)| ==> Groups(events)[k] != []
    ensures Verbatim(RawItems(Groups(events)), events[i])
    ensures events[i].protected ==> Verbatim(LosslessItems(Groups(events)), events[i])
  {
    var e := events[i];
    InGroup(events, i);
    GroupHasKey(events, KeyOf(e));
    var j :| 0 <= j < |Order(events)| && Order(events)[j] == KeyOf(e);
    var group := Groups(events)[j];
    var k :| 0 <= k < |group| && group[k] == e;
    assert Ids(group)[k] == e.id;
    assert KeyOf(group[0]) == KeyOf(e) && group[0] in events;
    SameKeySameContent(events, group[0], e);
    assert RawItems(Groups(events))[j] == RawItem(group);
    assert LosslessItems(Groups(events))[j] == LosslessItem(group);
  }

  lemma SameKeySameContent(events: seq<Event>, a: Event, b: Event)
    requires UniqueIds(events) && a in events && b in events && KeyOf(a) == KeyOf(b)
    ensures a.content == b.content && a.protected == b.protected
  {
    var i :| 0 <= i < |events| && events[i] == a;
    var j :| 0 <= j < |events| && events[j] == b;
  }

  lemma {:induction false} RetainedMembers(r: Request, level: Level, events: seq<Event>)
    ensures forall e :: e in Retained(r, level, events) <==> e in events && Retains(r, level, e)
    ensures UniqueIds(events) ==> UniqueIds(Retained(r, level, events))
  {
    hide Retains;
    if events != [] {
      var init, last := events[..|events| - 1], events[|events| - 1];
      assert events == init + [last];
      RetainedMembers(r, level, init);
      var kept := Retained(r, level, init);
      if UniqueIds(events) {
        forall i | 0 <= i < |kept| ensures kept[i].id != last.id {
          assert kept[i] in init;
          var k :| 0 <= k < |init| && init[k] == kept[i];
          assert events[k].id != events[|events| - 1].id;
        }
      }
    }
  }

  /** At every level protected events survive with their own content, at C2 also the most recent turns. */
  lemma ProtectedSurvive(r: Request, adapter: Option<Adapter>, c: Compressed, i: nat)
    requires ValidRequest(r) && CompressionOf(r, adapter) == Ok(c) && i < |r.events|
    requires r.events[i].protected || (c.level == C2 && r.events[i].id in RecentTurns(r.events, r.policy.recentTurns))
    ensures Verbatim(c.items, r.events[i])
  {
    hide Retained; hide Eligible; hide RawItems; hide LosslessItems; hide Groups; hide RecentTurns; hide Verbatim;
    hide CheckedSummary;
    var level, e := SelectLevel(r), r.events[i];
    GroupsNonEmpty(r.events);
    DeduplicatedVerbatim(r.events, i);
    if level == C2 || level == C3 {
      var retained := Retained(r, level, r.events);
      GroupsNonEmpty(retained);
      RetainedMembers(r, level, r.events);
      assert e in retained;
      var k :| 0 <= k < |retained| && retained[k] == e;
      DeduplicatedVerbatim(retained, k);
      var kept := RawItems(Groups(retained));
      if c.items != kept {
        VerbatimAppend(kept, c.items[|c.items| - 1], e);
      }
    }
  }

  lemma VerbatimAppend(items: seq<Item>, item: Item, e: Event)
    requires Verbatim(items, e)
    ensures Verbatim(items + [item], e)
  {
    var i :| 0 <= i < |items| && items[i].kind == RawEvent && e.id in items[i].sources && items[i].content == e.content;
    assert (items + [item])[i] == items[i];
  }
}
