/**
 The parser quality gate and the bounded fallback of knowledge/fallback.py: pages that fail the
 gate are replaced by the next parser's pages, at most twice.
 */
module ParserFallback {
  import opened Common

  // ---------------------------------------------------------------------
  // Data
  // ---------------------------------------------------------------------

  const MAX_PAGES: nat := 2_000
  const MAX_BLOCKS: nat := 200_000
  const MAX_MARKDOWN: nat := 50_000_000
  const CORRUPTED: char := '\U{FFFD}'

  datatype Page = Page(index: nat, width: real, height: real)

  /** A block; bounding box, level and asset path are one opaque text. */
  datatype Block = Block(order: nat, page: nat, kind: string, text: Option<string>, layout: string)

  datatype Identity = Identity(scope: Scope, artifactId: Uuid, sourceSha256: string, mediaType: string)

  datatype Document = Document(
    identity: Identity, parser: string, markdown: string, pages: seq<Page>, blocks: seq<Block>, calls: nat)

  /** What the document contract demands. */
  predicate ValidDocument(d: Document) {
    && 1 <= |d.pages| <= MAX_PAGES && 1 <= |d.blocks| <= MAX_BLOCKS && |d.markdown| <= MAX_MARKDOWN
    && (forall i :: 0 <= i < |d.pages| ==> d.pages[i].index < MAX_PAGES)
    && (forall i :: 0 <= i < |d.blocks| ==> d.blocks[i].page < MAX_PAGES)
  }

  datatype Expectation = Expectation(count: nat, drawings: set<nat>, tables: set<nat>, formulas: set<nat>, minimum: nat)

  predicate ValidExpectation(e: Expectation) {
    && 1 <= e.count <= MAX_PAGES && e.minimum >= 1
    && (forall i :: i in e.drawings ==> i < e.count)
    && (forall i :: i in e.tables ==> i < e.count)
    && (forall i :: i in e.formulas ==> i < e.count)
  }

  /** Which characters count as alphanumeric. */
  type Alphabet = char -> bool

  // ---------------------------------------------------------------------
  // What the gate sees of a page
  // ---------------------------------------------------------------------

  /** Sums over blocks; `texts` counts the blocks with a non-empty text. */
  datatype Stats = Stats(
    meaningful: nat, corrupted: nat, length: nat, tables: nat, formulas: nat, blocks: nat, texts: nat)

  const NO_STATS := Stats(0, 0, 0, 0, 0, 0, 0)

  function Add(a: Stats, b: Stats): Stats {
    Stats(a.meaningful + b.meaningful, a.corrupted + b.corrupted, a.length + b.length, a.tables + b.tables,
          a.formulas + b.formulas, a.blocks + b.blocks, a.texts + b.texts)
  }

  function Count(text: string, p: char -> bool): nat {
    if text == [] then 0 else Count(text[..|text| - 1], p) + (if p(text[|text| - 1]) then 1 else 0)
  }

  function TextOf(b: Block): string {
    if b.text.Some? then b.text.value else ""
  }

  function IsCorrupted(c: char): bool {
    c == CORRUPTED
  }

  function BlockStats(alnum: Alphabet, b: Block): Stats {
    Stats(Count(TextOf(b), alnum), Count(TextOf(b), IsCorrupted), |TextOf(b)|,
          if b.kind == "table" then 1 else 0, if b.kind == "equation" then 1 else 0,
          1, if TextOf(b) == "" then 0 else 1)
  }

  /** What the blocks of one page add up to. */
  function PageStats(alnum: Alphabet, blocks: seq<Block>, page: nat): Stats {
    if blocks == [] then NO_STATS
    else Add(PageStats(alnum, blocks[..|blocks| - 1], page), Contribution(alnum, blocks[|blocks| - 1], page))
  }

  function Contribution(alnum: Alphabet, b: Block, page: nat): Stats {
    if b.page == page then BlockStats(alnum, b) else NO_STATS
  }

  predicate Present(pages: seq<Page>, page: nat) {
    exists i :: 0 <= i < |pages| && pages[i].index == page
  }

  datatype Reason =
    | PageMissing | TextTooSparse | CorruptedText | TableMissing | FormulaMissing
    | PageCoverageLow | TableCoverageLow | FormulaCoverageLow

  function Reasons(e: Expectation, page: nat, present: bool, s: Stats): set<Reason> {
    (if !present then {PageMissing} else {})
    + (if page !in e.drawings && present && s.meaningful < e.minimum then {TextTooSparse} else {})
    + (if s.corrupted as real / (if s.length < 1 then 1 else s.length) as real > 0.01 then {CorruptedText} else {})
    + (if page in e.tables && s.tables == 0 then {TableMissing} else {})
    + (if page in e.formulas && s.formulas == 0 then {FormulaMissing} else {})
  }

  function PageReasons(alnum: Alphabet, d: Document, e: Expectation, page: nat): set<Reason> {
    Reasons(e, page, Present(d.pages, page), PageStats(alnum, d.blocks, page))
  }

  /** The pages the gate rejects. */
  function Failed(alnum: Alphabet, d: Document, e: Expectation): set<nat> {
    set page: nat | 0 <= page < e.count && PageReasons(alnum, d, e, page) != {}
  }

  // ---------------------------------------------------------------------
  // Coverage
  // ---------------------------------------------------------------------

  function PresentPages(d: Document, count: nat): set<nat> {
    set page: nat | 0 <= page < count && Present(d.pages, page)
  }

  function Share(part: nat, whole: nat): real
    requires whole >= 1
  {
    part as real / whole as real
  }

  /** _coverage: the share of expected pages that have such a block. */
  function Coverage(expected: set<nat>, having: set<nat>): real {
    if expected == {} then 1.0 else Share(|expected * having|, |expected|)
  }

  function TablePages(alnum: Alphabet, d: Document, e: Expectation): set<nat> {
    set page | page in e.tables && PageStats(alnum, d.blocks, page).tables > 0
  }

  function FormulaPages(alnum: Alphabet, d: Document, e: Expectation): set<nat> {
    set page | page in e.formulas && PageStats(alnum, d.blocks, page).formulas > 0
  }

  /** The page reasons of the first `n` pages together. */
  function ReasonsUpTo(alnum: Alphabet, d: Document, e: Expectation, n: nat): set<Reason> {
    if n == 0 then {} else ReasonsUpTo(alnum, d, e, n - 1) + PageReasons(alnum, d, e, n - 1)
  }

  function CoverageReasons(alnum: Alphabet, d: Document, e: Expectation): set<Reason>
    requires e.count >= 1
  {
    (if Share(|PresentPages(d, e.count)|, e.count) < 0.95 then {PageCoverageLow} else {})
    + (if Coverage(e.tables, TablePages(alnum, d, e)) < 0.95 then {TableCoverageLow} else {})
    + (if Coverage(e.formulas, FormulaPages(alnum, d, e)) < 0.95 then {FormulaCoverageLow} else {})
  }

  datatype Decision = Decision(pass: bool, failed: seq<nat>, reasons: set<Reason>)

  /** The rejected pages in ascending order. */
  function FailedUpTo(alnum: Alphabet, d: Document, e: Expectation, n: nat): seq<nat> {
    if n == 0 then []
    else FailedUpTo(alnum, d, e, n - 1) + (if PageReasons(alnum, d, e, n - 1) != {} then [n - 1] else [])
  }

  function DecisionOf(alnum: Alphabet, d: Document, e: Expectation): Decision
    requires e.count >= 1
  {
    var reasons := ReasonsUpTo(alnum, d, e, e.count) + CoverageReasons(alnum, d, e);
    Decision(reasons == {}, FailedUpTo(alnum, d, e, e.count), reasons)
  }

  lemma {:induction false} FailedListed(alnum: Alphabet, d: Document, e: Expectation, n: nat)
    ensures forall page :: page in FailedUpTo(alnum, d, e, n) <==> 0 <= page < n && PageReasons(alnum, d, e, page) != {}
    ensures ReasonsUpTo(alnum, d, e, n) == {} <==> FailedUpTo(alnum, d, e, n) == []
  {
    hide PageReasons;
    if n > 0 {
      FailedListed(alnum, d, e, n - 1);
    }
  }

  lemma {:induction false} FailedAscend(alnum: Alphabet, d: Document, e: Expectation, n: nat)
    ensures var failed := FailedUpTo(alnum, d, e, n);
            forall i, j :: 0 <= i < j < |failed| ==> failed[i] < failed[j]
  {
    hide PageReasons;
    if n > 0 {
      FailedAscend(alnum, d, e, n - 1);
      FailedListed(alnum, d, e, n - 1);
      var before := FailedUpTo(alnum, d, e, n - 1);
      assert forall i :: 0 <= i < |before| ==> before[i] in before;
    }
  }

  lemma {:induction false} NoneFailed(alnum: Alphabet, d: Document, e: Expectation, n: nat)
    requires forall page: nat :: page < n ==> PageReasons(alnum, d, e, page) == {}
    ensures FailedUpTo(alnum, d, e, n) == []
  {
    if n > 0 {
      NoneFailed(alnum, d, e, n - 1);
    }
  }

  lemma {:induction false} AllPresent(d: Document, n: nat)
    requires forall page: nat :: page < n ==> Present(d.pages, page)
    ensures |PresentPages(d, n)| == n
  {
    if n > 0 {
      AllPresent(d, n - 1);
      assert PresentPages(d, n) == PresentPages(d, n - 1) + {n - 1};
    }
  }

  lemma WholeShare(n: nat)
    requires n >= 1
    ensures Share(n, n) == 1.0
  {
    var r := n as real;
    assert r / r == 1.0;
  }

  /** The coverage thresholds never decide alone: a document without failed pages covers everything. */
  lemma NoFailureNoGap(alnum: Alphabet, d: Document, e: Expectation)
    requires ValidExpectation(e) && Failed(alnum, d, e) == {}
    ensures CoverageReasons(alnum, d, e) == {}
  {
    hide PageStats; hide Present;
    forall page: nat | page < e.count
      ensures Present(d.pages, page) && (page in e.tables ==> PageStats(alnum, d.blocks, page).tables > 0)
              && (page in e.formulas ==> PageStats(alnum, d.blocks, page).formulas > 0)
    {
      assert page !in Failed(alnum, d, e);
      NoReason(e, page, Present(d.pages, page), PageStats(alnum, d.blocks, page));
    }
    AllPresent(d, e.count);
    WholeShare(e.count);
    assert Share(|PresentPages(d, e.count)|, e.count) == 1.0;
    assert e.tables * TablePages(alnum, d, e) == e.tables;
    assert e.formulas * FormulaPages(alnum, d, e) == e.formulas;
    FullCoverage(e.tables, TablePages(alnum, d, e));
    FullCoverage(e.formulas, FormulaPages(alnum, d, e));
  }

  lemma NoReason(e: Expectation, page: nat, present: bool, s: Stats)
    requires Reasons(e, page, present, s) == {}
    ensures present && (page in e.tables ==> s.tables > 0) && (page in e.formulas ==> s.formulas > 0)
  {
    assert PageMissing !in Reasons(e, page, present, s);
    assert TableMissing !in Reasons(e, page, present, s);
    assert FormulaMissing !in Reasons(e, page, present, s);
  }

  lemma FullCoverage(expected: set<nat>, having: set<nat>)
    requires expected * having == expected
    ensures Coverage(expected, having) == 1.0
  {
    if expected != {} {
      NonEmptySize(expected);
    }
  }

  lemma NonEmptySize(s: set<nat>)
    requires s != {}
    ensures |s| >= 1
  {
  }

  /** A decision passes exactly when no page failed. */
  lemma PassIffNoFailure(alnum: Alphabet, d: Document, e: Expectation)
    requires ValidExpectation(e)
    ensures DecisionOf(alnum, d, e).pass <==> Failed(alnum, d, e) == {}
    ensures forall page :: page in DecisionOf(alnum, d, e).failed <==> page in Failed(alnum, d, e)
    ensures DecisionOf(alnum, d, e).pass <==> DecisionOf(alnum, d, e).failed == []
  {
    hide PageReasons; hide CoverageReasons; hide ReasonsUpTo; hide FailedUpTo;
    FailedListed(alnum, d, e, e.count);
    if Failed(alnum, d, e) == {} {
      NoFailureNoGap(alnum, d, e);
      forall page: nat | page < e.count ensures PageReasons(alnum, d, e, page) == {} {
        assert page !in Failed(alnum, d, e);
      }
      NoneFailed(alnum, d, e, e.count);
    } else {
      var page :| page in Failed(alnum, d, e);
      assert page in FailedUpTo(alnum, d, e, e.count);
    }
  }

  // ---------------------------------------------------------------------
  // The gate
  // ---------------------------------------------------------------------

  function BlocksOn(blocks: seq<Block>, page: nat): seq<Block> {
    if blocks == [] then []
    else
      var before, b := BlocksOn(blocks[..|blocks| - 1], page), blocks[|blocks| - 1];
      if b.page == page then before + [b] else before
  }

  function JoinTexts(blocks: seq<Block>): string {
    if blocks == [] then "" else JoinTexts(blocks[..|blocks| - 1]) + TextOf(blocks[|blocks| - 1])
  }

  predicate HasKind(blocks: seq<Block>, kind: string) {
    exists i :: 0 <= i < |blocks| && blocks[i].kind == kind
  }

  lemma {:induction false} CountAppend(a: string, b: string, p: char -> bool)
    ensures Count(a + b, p) == Count(a, p) + Count(b, p)
  {
    if b == [] {
      assert a + b == a;
    } else {
      var n := |b| - 1;
      CountAppend(a, b[..n], p);
      assert (a + b)[..|a| + n] == a + b[..n];
    }
  }

  /** The gate's numbers for one page, from its joined text and its block kinds. */
  ghost predicate Summarises(alnum: Alphabet, s: Stats, on: seq<Block>) {
    var text := JoinTexts(on);
    && s.meaningful == Count(text, alnum) && s.corrupted == Count(text, IsCorrupted) && s.length == |text|
    && (s.tables > 0 <==> HasKind(on, "table")) && (s.formulas > 0 <==> HasKind(on, "equation"))
  }

  lemma SummaryStep(alnum: Alphabet, s: Stats, on: seq<Block>, b: Block)
    requires Summarises(alnum, s, on)
    ensures Summarises(alnum, Add(s, BlockStats(alnum, b)), on + [b])
  {
    hide Count; hide HasKind;
    assert (on + [b])[..|on|] == on;
    CountAppend(JoinTexts(on), TextOf(b), alnum);
    CountAppend(JoinTexts(on), TextOf(b), IsCorrupted);
    KindAppend(on, b, "table");
    KindAppend(on, b, "equation");
  }

  lemma BlocksOnLast(blocks: seq<Block>, b: Block, page: nat)
    ensures BlocksOn(blocks + [b], page) == if b.page == page then BlocksOn(blocks, page) + [b]
      else BlocksOn(blocks, page)
  {
    assert (blocks + [b])[..|blocks|] == blocks;
  }

  lemma {:induction false} StatsOfText(alnum: Alphabet, blocks: seq<Block>, page: nat)
    ensures Summarises(alnum, PageStats(alnum, blocks, page), BlocksOn(blocks, page))
  {
    if blocks != [] {
      hide Summarises; hide Add; hide BlockStats; hide PageStats; hide BlocksOn;
      var init, b := blocks[..|blocks| - 1], blocks[|blocks| - 1];
      assert blocks == init + [b];
      StatsOfText(alnum, init, page);
      StatsLast(alnum, init, b, page);
      BlocksOnLast(init, b, page);
      SummaryStep(alnum, PageStats(alnum, init, page), BlocksOn(init, page), b);
      AddCommutes(PageStats(alnum, init, page), NO_STATS, NO_STATS);
    }
  }

  lemma KindAppend(blocks: seq<Block>, b: Block, kind: string)
    ensures HasKind(blocks + [b], kind) <==> HasKind(blocks, kind) || b.kind == kind
  {
    var all := blocks + [b];
    if HasKind(blocks, kind) {
      var i :| 0 <= i < |blocks| && blocks[i].kind == kind;
      assert all[i].kind == kind;
    }
    if b.kind == kind {
      assert all[|blocks|].kind == kind;
    }
  }

  /** The blocks of every page, in order. */
  method BlocksByPage(blocks: seq<Block>) returns (byPage: map<nat, seq<Block>>)
    ensures forall page :: (if page in byPage then byPage[page] else []) == BlocksOn(blocks, page)
  {
    byPage := map[];
    var i := 0;
    while i < |blocks|
      invariant 0 <= i <= |blocks|
      invariant forall page :: (if page in byPage then byPage[page] else []) == BlocksOn(blocks[..i], page)
    {
      var b := blocks[i];
      assert blocks[..i + 1][..i] == blocks[..i];
      var before := if b.page in byPage then byPage[b.page] else [];
      byPage := byPage[b.page := before + [b]];
      i := i + 1;
    }
    assert blocks[..i] == blocks;
  }

  /** ParserQualityGate.evaluate. */
  method Evaluate(alnum: Alphabet, d: Document, e: Expectation) returns (decision: Decision)
    requires ValidExpectation(e)
    ensures decision == DecisionOf(alnum, d, e)
  {
    hide Reasons; hide PageStats; hide CoverageReasons; hide BlocksOn; hide JoinTexts; hide Count;
    var byPage := BlocksByPage(d.blocks);
    var failed: seq<nat> := [];
    var reasons: set<Reason> := {};
    var page := 0;
    while page < e.count
      invariant 0 <= page <= e.count
      invariant failed == FailedUpTo(alnum, d, e, page) && reasons == ReasonsUpTo(alnum, d, e, page)
    {
      var blocks := if page in byPage then byPage[page] else [];
      var text := JoinTexts(blocks);
      var tables, formulas := HasKind(blocks, "table"), HasKind(blocks, "equation");
      var seen := Stats(Count(text, alnum), Count(text, IsCorrupted), |text|,
                        if tables then 1 else 0, if formulas then 1 else 0, |blocks|, if text == "" then 0 else 1);
      var found := Reasons(e, page, Present(d.pages, page), seen);
      StatsOfText(alnum, d.blocks, page);
      SameReasons(e, page, Present(d.pages, page), PageStats(alnum, d.blocks, page), seen);
      if found != {} {
        failed := failed + [page];
      }
      reasons := reasons + found;
      page := page + 1;
    }
    reasons := reasons + CoverageReasons(alnum, d, e);
    decision := Decision(reasons == {}, failed, reasons);
  }

  lemma SameReasons(e: Expectation, page: nat, present: bool, s: Stats, t: Stats)
    requires s.meaningful == t.meaningful && s.corrupted == t.corrupted && s.length == t.length
    requires (s.tables > 0 <==> t.tables > 0) && (s.formulas > 0 <==> t.formulas > 0)
    ensures Reasons(e, page, present, s) == Reasons(e, page, present, t)
  {
  }

  /** A page is good: present, with enough text unless it is a drawing, at most one corrupted
      character in a hundred, and the expected table and formula. */
  ghost predicate GoodPage(alnum: Alphabet, d: Document, e: Expectation, page: nat) {
    var on := BlocksOn(d.blocks, page);
    var text := JoinTexts(on);
    && Present(d.pages, page)
    && (page in e.drawings || Count(text, alnum) >= e.minimum)
    && 100 * Count(text, IsCorrupted) <= (if |text| < 1 then 1 else |text|)
    && (page in e.tables ==> HasKind(on, "table"))
    && (page in e.formulas ==> HasKind(on, "equation"))
  }

  lemma GoodIffNoReason(alnum: Alphabet, d: Document, e: Expectation, page: nat)
    ensures PageReasons(alnum, d, e, page) == {} <==> GoodPage(alnum, d, e, page)
  {
    hide PageStats; hide BlocksOn; hide JoinTexts; hide Count; hide HasKind; hide Present;
    var s, present := PageStats(alnum, d.blocks, page), Present(d.pages, page);
    StatsOfText(alnum, d.blocks, page);
    CorruptedShare(s.corrupted, if s.length < 1 then 1 else s.length);
    ReasonsEmptyIff(e, page, present, s);
  }

  lemma CorruptedShare(corrupted: nat, length: nat)
    requires length >= 1
    ensures corrupted as real / length as real > 0.01 <==> 100 * corrupted > length
  {
    var c, l := corrupted as real, length as real;
    assert c / l * l == c;
    ProductOrder(c / l, 0.01, l);
    assert c > 0.01 * l <==> 100.0 * c > l;
    assert 100.0 * c == (100 * corrupted) as real;
  }

  lemma ProductOrder(a: real, b: real, l: real)
    requires l > 0.0
    ensures a > b <==> a * l > b * l
  {
    var d := a - b;
    assert d * l == a * l - b * l;
    if d > 0.0 {
      assert d * l > 0.0;
    } else {
      assert -d * l >= 0.0;
    }
  }

  lemma ReasonsEmptyIff(e: Expectation, page: nat, present: bool, s: Stats)
    ensures Reasons(e, page, present, s) == {} <==>
            && present && (page in e.drawings || s.meaningful >= e.minimum)
            && !(s.corrupted as real / (if s.length < 1 then 1 else s.length) as real > 0.01)
            && (page in e.tables ==> s.tables > 0) && (page in e.formulas ==> s.formulas > 0)
  {
    var reasons := Reasons(e, page, present, s);
    if reasons == {} {
      assert PageMissing !in reasons && TextTooSparse !in reasons && CorruptedText !in reasons
             && TableMissing !in reasons && FormulaMissing !in reasons;
    }
  }

  /** A document passes the gate exactly when every expected page is good. */
  lemma PassMeansGood(alnum: Alphabet, d: Document, e: Expectation)
    requires ValidExpectation(e)
    ensures DecisionOf(alnum, d, e).pass <==> forall page: nat :: page < e.count ==> GoodPage(alnum, d, e, page)
  {
    hide DecisionOf; hide GoodPage; hide PageReasons;
    PassIffNoFailure(alnum, d, e);
    forall page: nat | page < e.count ensures GoodPage(alnum, d, e, page) <==> page !in Failed(alnum, d, e) {
      GoodIffNoReason(alnum, d, e, page);
    }
  }

  // ---------------------------------------------------------------------
  // Merging two documents
  // ---------------------------------------------------------------------

  predicate Precedes(a: Block, b: Block) {
    a.page < b.page || (a.page == b.page && a.order <= b.order)
  }

  /** Puts a block behind every block that does not come after it. */
  function Insert(sorted: seq<Block>, b: Block): seq<Block> {
    if sorted == [] || Precedes(sorted[|sorted| - 1], b) then sorted + [b]
    else Insert(sorted[..|sorted| - 1], b) + [sorted[|sorted| - 1]]
  }

  /** The stable order by page and then by order within the document. */
  function Sort(blocks: seq<Block>): seq<Block> {
    if blocks == [] then [] else Insert(Sort(blocks[..|blocks| - 1]), blocks[|blocks| - 1])
  }

  function Renumber(blocks: seq<Block>): seq<Block> {
    seq(|blocks|, i requires 0 <= i < |blocks| => blocks[i].(order := i))
  }

  function Choose(blocks: seq<Block>, replaced: set<nat>, inside: bool): seq<Block> {
    if blocks == [] then []
    else
      var before, b := Choose(blocks[..|blocks| - 1], replaced, inside), blocks[|blocks| - 1];
      if (b.page in replaced) == inside then before + [b] else before
  }

  function MergedBlocks(a: Document, b: Document, replaced: set<nat>): seq<Block> {
    Renumber(Sort(Choose(a.blocks, replaced, false) + Choose(b.blocks, replaced, true)))
  }

  /** The page dictionary after some pages were entered, later ones winning. */
  function Enter(dictionary: map<nat, Page>, pages: seq<Page>, replaced: set<nat>, inside: bool): map<nat, Page> {
    if pages == [] then dictionary
    else
      var before, page := Enter(dictionary, pages[..|pages| - 1], replaced, inside), pages[|pages| - 1];
      if (page.index in replaced) == inside then before[page.index := page] else before
  }

  /** The dictionary's pages below `n` in index order. */
  function InOrder(dictionary: map<nat, Page>, n: nat): seq<Page> {
    if n == 0 then []
    else if n - 1 in dictionary then InOrder(dictionary, n - 1) + [dictionary[n - 1]]
    else InOrder(dictionary, n - 1)
  }

  function MergedPages(a: Document, b: Document, replaced: set<nat>): seq<Page> {
    InOrder(Enter(Enter(map[], a.pages, replaced, false), b.pages, replaced, true), MAX_PAGES)
  }

  function Markdown(blocks: seq<Block>): string {
    if blocks == [] then ""
    else
      var before, text := Markdown(blocks[..|blocks| - 1]), TextOf(blocks[|blocks| - 1]);
      if text == "" then before else if before == "" then text else before + "\n\n" + text
  }

  datatype MergeError = IdentityMismatch | InvalidDocument

  function Merged(a: Document, b: Document, replaced: set<nat>): Document {
    var blocks := MergedBlocks(a, b, replaced);
    Document(a.identity, "fallback-merge", Markdown(blocks), MergedPages(a, b, replaced), blocks,
             if a.calls + b.calls > 3 then 3 else a.calls + b.calls)
  }

  /** _merge_documents; the constructor of the merged document refuses one without pages or blocks. */
  function Merge(a: Document, b: Document, replaced: set<nat>): Result<Document, MergeError> {
    if a.identity != b.identity then Err(IdentityMismatch)
    else if !ValidDocument(Merged(a, b, replaced)) then Err(InvalidDocument)
    else Ok(Merged(a, b, replaced))
  }

  // ---------------------------------------------------------------------
  // What a merge keeps of each page
  // ---------------------------------------------------------------------

  lemma AddCommutes(a: Stats, b: Stats, c: Stats)
    ensures Add(Add(a, b), c) == Add(Add(a, c), b) && Add(Add(a, b), c) == Add(a, Add(b, c))
    ensures Add(a, NO_STATS) == a && Add(NO_STATS, a) == a
  {
  }

  lemma StatsLast(alnum: Alphabet, blocks: seq<Block>, b: Block, page: nat)
    ensures PageStats(alnum, blocks + [b], page) == Add(PageStats(alnum, blocks, page), Contribution(alnum, b, page))
  {
    assert (blocks + [b])[..|blocks|] == blocks;
  }

  lemma {:induction false} StatsInsert(alnum: Alphabet, sorted: seq<Block>, b: Block, page: nat)
    ensures PageStats(alnum, Insert(sorted, b), page) ==
      Add(PageStats(alnum, sorted, page), Contribution(alnum, b, page))
  {
    hide PageStats; hide Contribution; hide Add; hide Precedes;
    StatsLast(alnum, sorted, b, page);
    if sorted != [] && !Precedes(sorted[|sorted| - 1], b) {
      var init, last := sorted[..|sorted| - 1], sorted[|sorted| - 1];
      StatsInsert(alnum, init, b, page);
      StatsLast(alnum, Insert(init, b), last, page);
      StatsLast(alnum, init, last, page);
      assert sorted == init + [last];
      AddCommutes(PageStats(alnum, init, page), Contribution(alnum, b, page), Contribution(alnum, last, page));
    }
  }

  lemma {:induction false} StatsSort(alnum: Alphabet, blocks: seq<Block>, page: nat)
    ensures PageStats(alnum, Sort(blocks), page) == PageStats(alnum, blocks, page)
  {
    hide PageStats; hide Contribution; hide Add; hide Insert;
    if blocks == [] {
      assert Sort(blocks) == blocks;
    } else {
      var init, last := blocks[..|blocks| - 1], blocks[|blocks| - 1];
      calc {
        PageStats(alnum, Sort(blocks), page);
        PageStats(alnum, Insert(Sort(init), last), page);
        { StatsInsert(alnum, Sort(init), last, page); }
        Add(PageStats(alnum, Sort(init), page), Contribution(alnum, last, page));
        { StatsSort(alnum, init, page); }
        Add(PageStats(alnum, init, page), Contribution(alnum, last, page));
        { StatsLast(alnum, init, last, page); }
        PageStats(alnum, init + [last], page);
        { assert blocks == init + [last]; }
        PageStats(alnum, blocks, page);
      }
    }
  }

  lemma {:induction false} StatsRenumber(alnum: Alphabet, blocks: seq<Block>, page: nat)
    ensures PageStats(alnum, Renumber(blocks), page) == PageStats(alnum, blocks, page)
  {
    if blocks != [] {
      var init, last := blocks[..|blocks| - 1], blocks[|blocks| - 1];
      hide BlockStats; hide Add;
      StatsRenumber(alnum, init, page);
      assert Renumber(blocks)[..|blocks| - 1] == Renumber(init);
      SameStats(alnum, last, last.(order := |blocks| - 1));
    }
  }

  lemma SameStats(alnum: Alphabet, a: Block, b: Block)
    requires a.kind == b.kind && a.text == b.text
    ensures BlockStats(alnum, a) == BlockStats(alnum, b)
  {
  }

  lemma StatsEmpty(alnum: Alphabet, page: nat)
    ensures PageStats(alnum, [], page) == NO_STATS
  {
  }

  lemma {:induction false} StatsAppend(alnum: Alphabet, a: seq<Block>, b: seq<Block>, page: nat)
    ensures PageStats(alnum, a + b, page) == Add(PageStats(alnum, a, page), PageStats(alnum, b, page))
  {
    hide Contribution; hide Add; hide PageStats;
    if b == [] {
      assert a + b == a;
      StatsEmpty(alnum, page);
      AddCommutes(PageStats(alnum, a, page), NO_STATS, NO_STATS);
    } else {
      var init, last := b[..|b| - 1], b[|b| - 1];
      StatsAppend(alnum, a, init, page);
      assert a + b == (a + init) + [last];
      assert b == init + [last];
      StatsLast(alnum, a + init, last, page);
      StatsLast(alnum, init, last, page);
      AddCommutes(PageStats(alnum, a, page), PageStats(alnum, init, page), Contribution(alnum, last, page));
    }
  }

  lemma ChooseLast(blocks: seq<Block>, b: Block, replaced: set<nat>, inside: bool)
    ensures Choose(blocks + [b], replaced, inside) ==
            if (b.page in replaced) == inside then Choose(blocks, replaced, inside) + [b]
              else Choose(blocks, replaced, inside)
  {
    assert (blocks + [b])[..|blocks|] == blocks;
  }

  lemma {:induction false} StatsChoose(alnum: Alphabet, blocks: seq<Block>, replaced: set<nat>, inside: bool, page: nat)
    ensures PageStats(alnum, Choose(blocks, replaced, inside), page) ==
            if (page in replaced) == inside then PageStats(alnum, blocks, page) else NO_STATS
  {
    hide BlockStats; hide Add; hide PageStats;
    if blocks == [] {
      StatsEmpty(alnum, page);
    } else {
      hide Choose;
      var init, last := blocks[..|blocks| - 1], blocks[|blocks| - 1];
      assert blocks == init + [last];
      StatsChoose(alnum, init, replaced, inside, page);
      ChooseLast(init, last, replaced, inside);
      StatsLast(alnum, Choose(init, replaced, inside), last, page);
      StatsLast(alnum, init, last, page);
      AddCommutes(PageStats(alnum, init, page), NO_STATS, NO_STATS);
      AddCommutes(NO_STATS, NO_STATS, NO_STATS);
    }
  }

  /** Each page of a merge has the blocks' statistics of the document it was taken from. */
  lemma MergedStats(alnum: Alphabet, a: Document, b: Document, replaced: set<nat>, page: nat)
    ensures PageStats(alnum, MergedBlocks(a, b, replaced), page) ==
            PageStats(alnum, if page in replaced then b.blocks else a.blocks, page)
  {
    hide PageStats; hide Sort; hide Choose; hide Renumber;
    var kept, taken := Choose(a.blocks, replaced, false), Choose(b.blocks, replaced, true);
    StatsRenumber(alnum, Sort(kept + taken), page);
    StatsSort(alnum, kept + taken, page);
    StatsAppend(alnum, kept, taken, page);
    StatsChoose(alnum, a.blocks, replaced, false, page);
    StatsChoose(alnum, b.blocks, replaced, true, page);
  }

  lemma {:induction false} EnterKeys(dictionary: map<nat, Page>, pages: seq<Page>, replaced: set<nat>, inside: bool,
        page: nat)
    ensures page in Enter(dictionary, pages, replaced, inside) <==>
            page in dictionary || (((page in replaced) == inside) && Present(pages, page))
    ensures forall i :: i in Enter(dictionary, pages, replaced, inside) && i !in dictionary ==>
              Enter(dictionary, pages, replaced, inside)[i].index == i
    ensures forall i :: i in dictionary ==>
              (i in Enter(dictionary, pages, replaced, inside)
               && (Enter(dictionary, pages, replaced, inside)[i] == dictionary[i]
                  || Enter(dictionary, pages, replaced, inside)[i].index == i))
  {
    if pages != [] {
      var init, last := pages[..|pages| - 1], pages[|pages| - 1];
      EnterKeys(dictionary, init, replaced, inside, page);
      PresentLast(init, last, page);
      assert pages == init + [last];
    }
  }

  lemma PresentLast(pages: seq<Page>, last: Page, page: nat)
    ensures Present(pages + [last], page) <==> Present(pages, page) || last.index == page
  {
    var all := pages + [last];
    if Present(pages, page) {
      var i :| 0 <= i < |pages| && pages[i].index == page;
      assert all[i].index == page;
    }
    if last.index == page {
      assert all[|pages|].index == page;
    }
  }

  lemma {:induction false} OrderedPresent(dictionary: map<nat, Page>, n: nat, page: nat)
    requires forall i :: i in dictionary ==> dictionary[i].index == i
    ensures Present(InOrder(dictionary, n), page) <==> page < n && page in dictionary
  {
    if n > 0 {
      OrderedPresent(dictionary, n - 1, page);
      if n - 1 in dictionary {
        PresentLast(InOrder(dictionary, n - 1), dictionary[n - 1], page);
      }
    }
  }

  /** A page is present in a merge exactly when it is present in the document it was taken from. */
  lemma MergedPresent(a: Document, b: Document, replaced: set<nat>, page: nat)
    requires page < MAX_PAGES
    ensures Present(MergedPages(a, b, replaced), page) <==> Present(if page in replaced then b.pages else a.pages, page)
  {
    hide Enter; hide InOrder; hide Present;
    var first := Enter(map[], a.pages, replaced, false);
    EnterKeys(map[], a.pages, replaced, false, page);
    EnterKeys(first, b.pages, replaced, true, page);
    OrderedPresent(Enter(first, b.pages, replaced, true), MAX_PAGES, page);
  }

  /** The merge replaces failed pages by the fallback's, so exactly the pages fail that failed in both. */
  lemma MergeIntersects(alnum: Alphabet, a: Document, b: Document, e: Expectation)
    requires ValidExpectation(e)
    ensures Failed(alnum, Merged(a, b, Failed(alnum, a, e)), e) == Failed(alnum, a, e) * Failed(alnum, b, e)
  {
    hide PageStats; hide MergedBlocks; hide MergedPages; hide Present; hide Markdown; hide Reasons;
    var replaced := Failed(alnum, a, e);
    forall page: nat | page < e.count
      ensures PageReasons(alnum, Merged(a, b, replaced), e, page) ==
        PageReasons(alnum, if page in replaced then b else a, e, page)
    {
      MergedStats(alnum, a, b, replaced, page);
      MergedPresent(a, b, replaced, page);
    }
  }

  // ---------------------------------------------------------------------
  // When a merge is a document at all
  // ---------------------------------------------------------------------

  /** Some page survives the merge, from one side or the other. */
  ghost predicate SomePage(a: Document, b: Document, replaced: set<nat>) {
    (exists page: nat :: page !in replaced && Present(a.pages, page))
      || (exists page: nat :: page in replaced && Present(b.pages, page))
  }

  ghost predicate SomeBlock(a: Document, b: Document, replaced: set<nat>) {
    || (exists i :: 0 <= i < |a.blocks| && a.blocks[i].page !in replaced)
    || (exists i :: 0 <= i < |b.blocks| && b.blocks[i].page in replaced)
  }

  lemma {:induction false} OrderedBelow(dictionary: map<nat, Page>, n: nat)
    requires forall i :: i in dictionary ==> dictionary[i].index == i
    ensures |InOrder(dictionary, n)| <= n
    ensures forall i :: 0 <= i < |InOrder(dictionary, n)| ==> InOrder(dictionary, n)[i].index < n
  {
    if n > 0 {
      OrderedBelow(dictionary, n - 1);
    }
  }

  lemma MergedPageList(a: Document, b: Document, replaced: set<nat>)
    requires ValidDocument(a) && ValidDocument(b)
    ensures |MergedPages(a, b, replaced)| <= MAX_PAGES
    ensures forall i :: 0 <= i < |MergedPages(a, b, replaced)| ==> MergedPages(a, b, replaced)[i].index < MAX_PAGES
    ensures MergedPages(a, b, replaced) != [] <==> SomePage(a, b, replaced)
  {
    var pages := MergedPages(a, b, replaced);
    var first := Enter(map[], a.pages, replaced, false);
    EnterKeys(map[], a.pages, replaced, false, 0);
    EnterKeys(first, b.pages, replaced, true, 0);
    OrderedBelow(Enter(first, b.pages, replaced, true), MAX_PAGES);
    hide MergedPages;
    if pages != [] {
      var page := pages[0].index;
      assert Present(pages, page);
      MergedPresent(a, b, replaced, page);
    }
    if SomePage(a, b, replaced) {
      var page: nat :| if page in replaced then Present(b.pages, page) else Present(a.pages, page);
      PresentBelow(if page in replaced then b else a, page);
      MergedPresent(a, b, replaced, page);
    }
  }

  lemma PresentBelow(d: Document, page: nat)
    requires ValidDocument(d) && Present(d.pages, page)
    ensures page < MAX_PAGES
  {
  }

  lemma {:induction false} ChosenBlocks(blocks: seq<Block>, replaced: set<nat>, inside: bool)
    ensures Choose(blocks, replaced, inside) != [] <==>
      exists i :: 0 <= i < |blocks| && (blocks[i].page in replaced) == inside
    ensures |Choose(blocks, replaced, inside)| <= |blocks|
    ensures forall b :: b in Choose(blocks, replaced, inside) ==> b in blocks
  {
    if blocks != [] {
      var init, last := blocks[..|blocks| - 1], blocks[|blocks| - 1];
      ChosenBlocks(init, replaced, inside);
      if (last.page in replaced) == inside {
        assert blocks[|blocks| - 1] == last;
      } else if i :| 0 <= i < |blocks| && (blocks[i].page in replaced) == inside {
        assert init[i] == blocks[i];
      }
      assert forall i :: 0 <= i < |init| ==> init[i] == blocks[i];
    }
  }

  /** Sorting permutes the blocks into page order, and by order within a page. */
  lemma {:induction false} SortFacts(blocks: seq<Block>)
    ensures multiset(Sort(blocks)) == multiset(blocks) && |Sort(blocks)| == |blocks|
    ensures forall i, j :: 0 <= i < j < |Sort(blocks)| ==> Precedes(Sort(blocks)[i], Sort(blocks)[j])
  {
    if blocks != [] {
      var init, last := blocks[..|blocks| - 1], blocks[|blocks| - 1];
      SortFacts(init);
      InsertPermutes(Sort(init), last);
      InsertOrders(Sort(init), last);
      hide Insert; hide Precedes;
      assert multiset(blocks) == multiset(init) + multiset{last} by { assert blocks == init + [last]; }
    }
  }

  lemma {:induction false} InsertPermutes(sorted: seq<Block>, b: Block)
    ensures multiset(Insert(sorted, b)) == multiset(sorted) + multiset{b} && |Insert(sorted, b)| == |sorted| + 1
    ensures forall x :: x in Insert(sorted, b) <==> x in sorted || x == b
  {
    hide Precedes;
    if sorted != [] && !Precedes(sorted[|sorted| - 1], b) {
      var init, last := sorted[..|sorted| - 1], sorted[|sorted| - 1];
      InsertPermutes(init, b);
      assert sorted == init + [last];
    }
  }

  lemma {:induction false} InsertOrders(sorted: seq<Block>, b: Block)
    requires forall i, j :: 0 <= i < j < |sorted| ==> Precedes(sorted[i], sorted[j])
    ensures forall i, j :: 0 <= i < j < |Insert(sorted, b)| ==> Precedes(Insert(sorted, b)[i], Insert(sorted, b)[j])
  {
    if sorted != [] {
      var init, last := sorted[..|sorted| - 1], sorted[|sorted| - 1];
      if Precedes(last, b) {
        assert Insert(sorted, b) == sorted + [b];
      } else {
        InsertOrders(init, b);
        InsertPermutes(init, b);
        var inserted := Insert(init, b);
        assert Insert(sorted, b) == inserted + [last];
        hide Insert;
        forall x | x in inserted ensures Precedes(x, last) {
          if x != b {
            var i :| 0 <= i < |init| && init[i] == x;
          }
        }
      }
    }
  }

  /** A merge of two documents of one source is refused exactly when no page or no block
      survives, or when the surviving blocks or their text are too many. */
  lemma MergeOkIff(a: Document, b: Document, replaced: set<nat>)
    requires ValidDocument(a) && ValidDocument(b) && a.identity == b.identity
    ensures var kept, taken := Choose(a.blocks, replaced, false), Choose(b.blocks, replaced, true);
            Merge(a, b, replaced).Ok? <==>
              && SomePage(a, b, replaced) && SomeBlock(a, b, replaced)
              && |kept| + |taken| <= MAX_BLOCKS && |Markdown(MergedBlocks(a, b, replaced))| <= MAX_MARKDOWN
  {
    hide MergedPages; hide Sort; hide Choose; hide Markdown; hide SomePage;
    var kept, taken := Choose(a.blocks, replaced, false), Choose(b.blocks, replaced, true);
    var sorted := Sort(kept + taken);
    MergedPageList(a, b, replaced);
    SortFacts(kept + taken);
    ChosenBlocks(a.blocks, replaced, false);
    ChosenBlocks(b.blocks, replaced, true);
    MergedBlockPages(a, b, replaced);
  }

  lemma MergedBlockPages(a: Document, b: Document, replaced: set<nat>)
    requires ValidDocument(a) && ValidDocument(b)
    ensures var blocks := MergedBlocks(a, b, replaced);
            forall i :: 0 <= i < |blocks| ==> blocks[i].page < MAX_PAGES
  {
    hide Sort; hide Choose;
    var kept, taken := Choose(a.blocks, replaced, false), Choose(b.blocks, replaced, true);
    var sorted := Sort(kept + taken);
    SortFacts(kept + taken);
    ChosenBlocks(a.blocks, replaced, false);
    ChosenBlocks(b.blocks, replaced, true);
    forall i | 0 <= i < |sorted| ensures sorted[i].page < MAX_PAGES {
      assert sorted[i] in multiset(kept + taken);
      assert sorted[i] in kept || sorted[i] in taken;
    }
  }

  /** Two pages, the first a drawing: the primary parse lost the text of page 1, the fallback
      saw only the drawing, and nothing is left to merge. */
  lemma MergeCanBeEmpty(alnum: Alphabet, identity: Identity)
    ensures var e := Expectation(2, {0}, {}, {}, 50);
            var a, b := DrawingAnd(identity, 1), DrawingAnd(identity, 0);
            && ValidExpectation(e) && ValidDocument(a) && ValidDocument(b)
            && Merge(a, b, Failed(alnum, a, e)) == Err(InvalidDocument)
  {
    hide PageStats; hide Merged;
    var e := Expectation(2, {0}, {}, {}, 50);
    var a, b := DrawingAnd(identity, 1), DrawingAnd(identity, 0);
    assert a.pages[0].index == 0 && a.pages[1].index == 1;
    BlankPage(alnum, a.blocks[0], 0);
    BlankPage(alnum, a.blocks[0], 1);
    assert a.blocks == [a.blocks[0]];
    assert TextTooSparse in PageReasons(alnum, a, e, 1);
    assert PageReasons(alnum, a, e, 0) == {};
    assert Failed(alnum, a, e) == {1};
    MergeOkIff(a, b, {1});
  }

  /** A document of two pages with one picture. */
  function DrawingAnd(identity: Identity, page: nat): Document {
    Document(identity, "mineru", "", [Page(0, 1.0, 1.0), Page(1, 1.0, 1.0)], [Block(0, page, "image", None, "")], 1)
  }

  lemma BlankPage(alnum: Alphabet, b: Block, page: nat)
    requires b.kind == "image" && b.text == None
    ensures PageStats(alnum, [b], page) == NO_STATS.(blocks := if b.page == page then 1 else 0)
  {
    hide PageStats; hide BlockStats; hide Add;
    BlankBlock(alnum, b);
    StatsEmpty(alnum, page);
    assert [] + [b] == [b];
    StatsLast(alnum, [], b, page);
    AddCommutes(if b.page == page then NO_STATS.(blocks := 1) else NO_STATS, NO_STATS, NO_STATS);
  }

  lemma BlankBlock(alnum: Alphabet, b: Block)
    requires b.kind == "image" && b.text == None
    ensures BlockStats(alnum, b) == NO_STATS.(blocks := 1)
  {
  }
}
