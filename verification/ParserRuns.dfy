/**
 Whole runs of the parser pipeline: which answers make every merge a document, and where the
 pipeline then ends. The conditions speak about the three answers only.
 */
module ParserRuns {
  import opened Common
  import opened ParserFallback
  import opened ParserPipeline

  // ---------------------------------------------------------------------
  // Totals of a document, page by page
  // ---------------------------------------------------------------------

  function Total(alnum: Alphabet, blocks: seq<Block>): Stats {
    if blocks == [] then NO_STATS
    else Add(Total(alnum, blocks[..|blocks| - 1]), BlockStats(alnum, blocks[|blocks| - 1]))
  }

  /** The statistics of the first `n` pages together. */
  function OverPages(alnum: Alphabet, blocks: seq<Block>, n: nat): Stats {
    if n == 0 then NO_STATS else Add(OverPages(alnum, blocks, n - 1), PageStats(alnum, blocks, n - 1))
  }

  lemma {:induction false} OverPagesLast(alnum: Alphabet, blocks: seq<Block>, b: Block, n: nat)
    ensures OverPages(alnum, blocks + [b], n) ==
            if b.page < n then Add(OverPages(alnum, blocks, n), BlockStats(alnum, b)) else OverPages(alnum, blocks, n)
  {
    hide Add; hide BlockStats; hide PageStats;
    if n > 0 {
      hide OverPages;
      OverPagesLast(alnum, blocks, b, n - 1);
      OverPagesStep(alnum, blocks, n);
      OverPagesStep(alnum, blocks + [b], n);
      StatsLast(alnum, blocks, b, n - 1);
      var before, page, more := OverPages(alnum, blocks, n - 1), PageStats(alnum, blocks, n - 1), BlockStats(alnum, b);
      if b.page == n - 1 {
        AddCommutes(before, page, more);
      } else if b.page < n {
        AddCommutes(page, NO_STATS, NO_STATS);
        AddCommutes(before, more, page);
      } else {
        AddCommutes(page, NO_STATS, NO_STATS);
      }
    }
  }

  lemma OverPagesStep(alnum: Alphabet, blocks: seq<Block>, n: nat)
    requires n > 0
    ensures OverPages(alnum, blocks, n) == Add(OverPages(alnum, blocks, n - 1), PageStats(alnum, blocks, n - 1))
  {
  }

  lemma {:induction false} NoBlocksOverPages(alnum: Alphabet, n: nat)
    ensures OverPages(alnum, [], n) == NO_STATS
  {
    if n > 0 {
      NoBlocksOverPages(alnum, n - 1);
    }
  }

  /** Adding up by pages is adding up by blocks. */
  lemma {:induction false} TotalOverPages(alnum: Alphabet, blocks: seq<Block>, n: nat)
    requires forall i :: 0 <= i < |blocks| ==> blocks[i].page < n
    ensures OverPages(alnum, blocks, n) == Total(alnum, blocks)
  {
    if blocks == [] {
      NoBlocksOverPages(alnum, n);
    } else {
      hide Add; hide BlockStats; hide OverPages;
      var init, last := blocks[..|blocks| - 1], blocks[|blocks| - 1];
      TotalOverPages(alnum, init, n);
      OverPagesLast(alnum, init, last, n);
      assert blocks == init + [last];
    }
  }

  /** The length of texts joined by a blank line. */
  function JoinedLength(length: nat, texts: nat): nat {
    if texts == 0 then 0 else length + 2 * (texts - 1)
  }

  /** The totals give the number of blocks and the length of the markdown. */
  lemma {:induction false} TotalFacts(alnum: Alphabet, blocks: seq<Block>)
    ensures var t := Total(alnum, blocks);
            && t.blocks == |blocks| && |Markdown(blocks)| == JoinedLength(t.length, t.texts)
            && (t.texts == 0 <==> Markdown(blocks) == "") && (t.texts == 0 ==> t.length == 0)
  {
    if blocks != [] {
      TotalFacts(alnum, blocks[..|blocks| - 1]);
    }
  }

  // ---------------------------------------------------------------------
  // Where each page of the current document comes from
  // ---------------------------------------------------------------------

  /** The page failed in every one of these documents. */
  ghost predicate FailsInAll(alnum: Alphabet, e: Expectation, docs: seq<Document>, page: nat) {
    forall i :: 0 <= i < |docs| ==> page in Failed(alnum, docs[i], e)
  }

  /** The document a page is taken from: the latest one, if the page failed in all before it. */
  ghost function SourceOf(alnum: Alphabet, e: Expectation, docs: seq<Document>, page: nat): Document
    requires docs != []
  {
    var n := |docs| - 1;
    if n == 0 || FailsInAll(alnum, e, docs[..n], page) then docs[n] else SourceOf(alnum, e, docs[..n], page)
  }

  /** The statistics of the first `n` pages, each from its own document. */
  ghost function Patchwork(alnum: Alphabet, e: Expectation, docs: seq<Document>, n: nat): Stats
    requires docs != []
  {
    if n == 0 then NO_STATS
    else Add(Patchwork(alnum, e, docs, n - 1), PageStats(alnum, SourceOf(alnum, e, docs, n - 1).blocks, n - 1))
  }

  ghost predicate PageThere(alnum: Alphabet, e: Expectation, docs: seq<Document>, page: nat)
    requires docs != []
  {
    page < MAX_PAGES && Present(SourceOf(alnum, e, docs, page).pages, page)
  }

  /** Taken page by page, the documents give at least one page and one block, and neither too
      many blocks nor too much text. */
  ghost predicate Assembles(alnum: Alphabet, e: Expectation, docs: seq<Document>)
    requires docs != []
  {
    var t := Patchwork(alnum, e, docs, MAX_PAGES);
    && (exists page :: PageThere(alnum, e, docs, page))
    && 1 <= t.blocks <= MAX_BLOCKS && JoinedLength(t.length, t.texts) <= MAX_MARKDOWN
  }

  /** Each page of `d` is as in the document it is taken from. */
  ghost predicate Carries(alnum: Alphabet, e: Expectation, docs: seq<Document>, d: Document) {
    && docs != [] && d.identity == docs[0].identity
    && (forall page :: page in Failed(alnum, d, e) <==> FailsInAll(alnum, e, docs, page))
    && (forall page: nat :: page < MAX_PAGES ==> CarriesPage(alnum, e, docs, d, page))
  }

  ghost predicate CarriesPage(alnum: Alphabet, e: Expectation, docs: seq<Document>, d: Document, page: nat)
    requires docs != []
  {
    var source := SourceOf(alnum, e, docs, page);
    (Present(d.pages, page) <==> Present(source.pages, page))
      && PageStats(alnum, d.blocks, page) == PageStats(alnum, source.blocks, page)
  }

  lemma CarriesOne(alnum: Alphabet, e: Expectation, d: Document)
    ensures Carries(alnum, e, [d], d)
  {
    hide PageStats; hide Present; hide Failed;
    assert [d][0] == d;
  }

  /** A merge carries one document more. */
  lemma CarriesMerge(alnum: Alphabet, e: Expectation, docs: seq<Document>, current: Document, d: Document)
    requires ValidExpectation(e) && Carries(alnum, e, docs, current)
    ensures Carries(alnum, e, docs + [d], Merged(current, d, Failed(alnum, current, e)))
  {
    hide PageStats; hide Present; hide Failed; hide MergedBlocks; hide MergedPages; hide Markdown;
    var all, failed := docs + [d], Failed(alnum, current, e);
    var merged := Merged(current, d, failed);
    assert all[..|docs|] == docs && all[|docs|] == d && all[0] == docs[0];
    MergeIntersects(alnum, current, d, e);
    forall page ensures page in Failed(alnum, merged, e) <==> FailsInAll(alnum, e, all, page) {
      assert forall i :: 0 <= i < |docs| ==> all[i] == docs[i];
      if FailsInAll(alnum, e, all, page) {
        assert page in Failed(alnum, all[|docs|], e);
        forall i | 0 <= i < |docs| ensures page in Failed(alnum, docs[i], e) {
          assert page in Failed(alnum, all[i], e);
        }
      }
    }
    forall page: nat | page < MAX_PAGES ensures CarriesPage(alnum, e, all, merged, page) {
      assert CarriesPage(alnum, e, docs, current, page);
      MergedStats(alnum, current, d, failed, page);
      MergedPresent(current, d, failed, page);
    }
  }

  /** Page by page the totals are those of the patchwork. */
  lemma {:induction false} PatchworkTotals(alnum: Alphabet, e: Expectation, docs: seq<Document>, d: Document, n: nat)
    requires docs != [] && n <= MAX_PAGES && forall page: nat :: page < n ==> CarriesPage(alnum, e, docs, d, page)
    ensures OverPages(alnum, d.blocks, n) == Patchwork(alnum, e, docs, n)
  {
    hide PageStats; hide Add; hide SourceOf; hide Present;
    if n > 0 {
      PatchworkTotals(alnum, e, docs, d, n - 1);
      assert CarriesPage(alnum, e, docs, d, n - 1);
    }
  }

  /** A merge is a document exactly when the patchwork of all documents up to it assembles. */
  lemma MergeAssembles(alnum: Alphabet, e: Expectation, docs: seq<Document>, current: Document, d: Document)
    requires ValidExpectation(e) && Carries(alnum, e, docs, current) && ValidDocument(current) && ValidDocument(d)
    ensures ValidDocument(Merged(current, d, Failed(alnum, current, e))) <==> Assembles(alnum, e, docs + [d])
  {
    hide PageStats; hide Present; hide Failed; hide MergedBlocks; hide MergedPages; hide Markdown; hide SourceOf;
    hide Patchwork;
    hide Total; hide OverPages; hide Carries; hide CarriesPage;
    var all, failed := docs + [d], Failed(alnum, current, e);
    var merged := Merged(current, d, failed);
    CarriesMerge(alnum, e, docs, current, d);
    CarriedPages(alnum, e, all, merged);
    PatchworkTotals(alnum, e, all, merged, MAX_PAGES);
    MergedBlockPages(current, d, failed);
    TotalOverPages(alnum, merged.blocks, MAX_PAGES);
    TotalFacts(alnum, merged.blocks);
    MergedPageList(current, d, failed);
    PagesPresent(merged.pages);
    forall page: nat | page < MAX_PAGES ensures PageThere(alnum, e, all, page) <==> Present(merged.pages, page) {
      CarriedThere(alnum, e, all, merged, page);
    }
  }

  lemma CarriedPages(alnum: Alphabet, e: Expectation, docs: seq<Document>, d: Document)
    requires Carries(alnum, e, docs, d)
    ensures forall page: nat :: page < MAX_PAGES ==> CarriesPage(alnum, e, docs, d, page)
  {
    hide CarriesPage; hide Failed;
  }

  lemma CarriedThere(alnum: Alphabet, e: Expectation, docs: seq<Document>, d: Document, page: nat)
    requires docs != [] && page < MAX_PAGES && CarriesPage(alnum, e, docs, d, page)
    ensures PageThere(alnum, e, docs, page) <==> Present(d.pages, page)
  {
    hide PageStats; hide Present; hide SourceOf;
  }

  lemma PagesPresent(pages: seq<Page>)
    requires forall i :: 0 <= i < |pages| ==> pages[i].index < MAX_PAGES
    ensures pages != [] <==> exists page: nat :: page < MAX_PAGES && Present(pages, page)
  {
    if pages != [] {
      assert Present(pages, pages[0].index);
    }
  }

  // ---------------------------------------------------------------------
  // When a run goes through
  // ---------------------------------------------------------------------

  /** The documents parsed before stage `n`. */
  function ParsedBefore(answers: Answers, n: nat): seq<Document>
    requires n <= 3
  {
    if n == 0 then []
    else
      var before, answer := ParsedBefore(answers, n - 1), AnswerAt(answers, STAGES[n - 1]);
      if answer.Parsed? then before + [answer.document] else before
  }

  /** Stage `n` parsed a document and some page failed in all documents before it. */
  ghost predicate MergeReached(alnum: Alphabet, e: Expectation, answers: Answers, n: nat)
    requires n < 3
  {
    && AnswerAt(answers, STAGES[n]).Parsed?
    && FailedInAll(alnum, e, answers, n).Some? && FailedInAll(alnum, e, answers, n).value != {}
  }

  /** That document is of the same source as the first, and the patchwork up to it assembles. */
  ghost predicate MergeHolds(alnum: Alphabet, e: Expectation, answers: Answers, n: nat)
    requires n < 3 && AnswerAt(answers, STAGES[n]).Parsed?
  {
    var docs := ParsedBefore(answers, n + 1);
    docs[|docs| - 1].identity == docs[0].identity && Assembles(alnum, e, docs)
  }

  /** Every merge the answers lead to holds. */
  ghost predicate RunsThrough(alnum: Alphabet, e: Expectation, answers: Answers, n: nat) {
    forall m :: n <= m < 3 && MergeReached(alnum, e, answers, m) ==> MergeHolds(alnum, e, answers, m)
  }

  /** What the parsers return is a document. */
  ghost predicate ValidAnswers(answers: Answers) {
    forall stage: Stage :: AnswerAt(answers, stage).Parsed? ==> ValidDocument(AnswerAt(answers, stage).document)
  }

  /** The current document carries what was parsed so far. */
  ghost predicate Holds(alnum: Alphabet, e: Expectation, answers: Answers, n: nat, current: Option<Document>)
    requires n <= 3
  {
    match current
    case None => ParsedBefore(answers, n) == []
    case Some(d) => ValidDocument(d) && Carries(alnum, e, ParsedBefore(answers, n), d)
  }

  /** Absorbing an answer fails exactly when it needs a merge that does not hold. */
  lemma AbsorbOkIff(alnum: Alphabet, e: Expectation, answers: Answers, n: nat, current: Option<Document>)
    requires ValidExpectation(e) && ValidAnswers(answers) && n < 3
    requires Tracks(alnum, e, answers, n, current) && Holds(alnum, e, answers, n, current)
      && !Settled(alnum, e, answers, n)
    ensures var next := Absorb(alnum, e, current, AnswerAt(answers, STAGES[n]));
            && (next.Ok? <==> (MergeReached(alnum, e, answers, n) ==> MergeHolds(alnum, e, answers, n)))
            && (next.Ok? ==> Holds(alnum, e, answers, n + 1, next.value))
  {
    hide DecisionOf; hide Failed; hide Merged; hide ValidDocument; hide Assembles; hide Carries; hide FailedInAll;
    var answer := AnswerAt(answers, STAGES[n]);
    if answer.Parsed? {
      var d := answer.document;
      if current.Some? {
        var docs := ParsedBefore(answers, n);
        FailedAsSet(alnum, current.value, e);
        CarriedIdentity(alnum, e, docs, current.value);
        MergeAssembles(alnum, e, docs, current.value, d);
        CarriesMerge(alnum, e, docs, current.value, d);
      } else {
        CarriesOne(alnum, e, d);
        assert [] + [d] == [d];
      }
    }
  }

  lemma CarriedIdentity(alnum: Alphabet, e: Expectation, docs: seq<Document>, d: Document)
    requires Carries(alnum, e, docs, d)
    ensures docs != [] && d.identity == docs[0].identity
  {
  }

  /** Once settled, no later stage reaches a merge. */
  lemma {:induction false} SettledStays(alnum: Alphabet, e: Expectation, answers: Answers, n: nat, m: nat)
    requires n <= m <= 3 && Settled(alnum, e, answers, n)
    ensures Settled(alnum, e, answers, m)
  {
    hide Failed;
    if n < m {
      SettledStays(alnum, e, answers, n, m - 1);
      var none: set<nat> := {};
      var answer := AnswerAt(answers, STAGES[m - 1]);
      if answer.Parsed? {
        assert none * Failed(alnum, answer.document, e) == none;
      }
    }
  }

  lemma {:induction false} FromOkIff(
    alnum: Alphabet, e: Expectation, answers: Answers, n: nat, current: Option<Document>, attempts: seq<Attempt>,
    calls: nat)
    requires ValidExpectation(e) && ValidAnswers(answers) && n <= 3
    requires Tracks(alnum, e, answers, n, current) && Holds(alnum, e, answers, n, current)
      && !Settled(alnum, e, answers, n)
    ensures From(alnum, e, answers, n, current, attempts, calls).Ok? <==> RunsThrough(alnum, e, answers, n)
    decreases 3 - n
  {
    hide DecisionOf; hide Failed; hide Absorb; hide AttemptOf; hide FailedInAll; hide AtMostThree; hide PhysicalCalls;
    hide MergeHolds;
    hide Holds; hide ValidAnswers;
    if n < 3 {
      var answer := AnswerAt(answers, STAGES[n]);
      var next := Absorb(alnum, e, current, answer);
      AbsorbOkIff(alnum, e, answers, n, current);
      if next.Ok? {
        AbsorbTracks(alnum, e, answers, n, current);
        if next.value.Some? {
          FailedAsSet(alnum, next.value.value, e);
        }
        if answer.Parsed? && next.value.Some? && DecisionOf(alnum, next.value.value, e).pass {
          forall m | n < m < 3 ensures !MergeReached(alnum, e, answers, m) {
            SettledStays(alnum, e, answers, n + 1, m);
          }
        } else {
          NotYetSettled(alnum, e, answers, n);
          FromOkIff(alnum, e, answers, n + 1, next.value, attempts + [AttemptOf(alnum, e, STAGES[n], answer)],
            calls + PhysicalCalls(answer));
        }
      }
    }
  }

  /** The run gives an outcome, and does not fail on a merge, exactly when no parser is asked,
      the artifact being of another scope, or every merge the answers lead to is of one source
      and assembles. */
  lemma RunOkIff(alnum: Alphabet, e: Expectation, scope: Scope, artifactScope: Scope, answers: Answers)
    requires ValidExpectation(e) && ValidAnswers(answers)
    ensures RunOf(alnum, e, scope, artifactScope, answers).Ok? <==>
            artifactScope != scope || RunsThrough(alnum, e, answers, 0)
  {
    hide Failed; hide From; hide RunsThrough;
    FromOkIff(alnum, e, answers, 0, None, [], 0);
  }

  /** If every merge the answers lead to is of one source and assembles, the pipeline is ready
      at exactly the first stage by which the parsed documents have no failed page in common,
      with a document no page of which fails; without such a stage the source goes to manual
      review. */
  lemma ReadyAtFirstSettledStage(alnum: Alphabet, e: Expectation, scope: Scope, answers: Answers)
    requires ValidExpectation(e) && ValidAnswers(answers) && RunsThrough(alnum, e, answers, 0)
    ensures var result := RunOf(alnum, e, scope, scope, answers);
            && result.Ok?
            && match result.value
               case Ready(stage, d, decision, _, _) =>
                 && Settled(alnum, e, answers, Rank(stage)) && Failed(alnum, d, e) == {}
                 && (forall m: nat :: m < Rank(stage) ==> !Settled(alnum, e, answers, m))
               case ManualReview(_, _, _) => forall m: nat :: m <= 3 ==> !Settled(alnum, e, answers, m)
  {
    hide Failed; hide From; hide RunsThrough;
    RunOkIff(alnum, e, scope, scope, answers);
    FromSettles(alnum, e, answers, 0, None, [], 0);
  }

  /** The run can fail instead: the primary parse lost the text of page 1, the OCR saw only the
      drawing on page 0, and whatever the third parser would say, no document is left. */
  lemma RunCanFail(alnum: Alphabet, identity: Identity, scope: Scope, third: Parse)
    ensures var e := Expectation(2, {0}, {}, {}, 50);
            var answers := Answers(Parsed(DrawingAnd(identity, 1)), Parsed(DrawingAnd(identity, 0)), third);
            && ValidExpectation(e) && ValidDocument(DrawingAnd(identity, 1)) && ValidDocument(DrawingAnd(identity, 0))
            && RunOf(alnum, e, scope, scope, answers) == Err(InvalidDocument)
  {
    hide DecisionOf; hide Failed; hide Merge; hide AttemptOf; hide AtMostThree; hide PhysicalCalls; hide DrawingAnd;
    var e := Expectation(2, {0}, {}, {}, 50);
    var a, b := DrawingAnd(identity, 1), DrawingAnd(identity, 0);
    var answers := Answers(Parsed(a), Parsed(b), third);
    MergeCanBeEmpty(alnum, identity);
    FailedAsSet(alnum, a, e);
    DrawingFails(alnum, identity);
    var first := AttemptOf(alnum, e, Primary, answers.primary);
    assert Absorb(alnum, e, None, answers.primary) == Ok(Some(a));
    assert From(alnum, e, answers, 0, None, [], 0) ==
           From(alnum, e, answers, 1, Some(a), [] + [first], 0 + PhysicalCalls(answers.primary));
    assert Absorb(alnum, e, Some(a), answers.ocr) == Err(InvalidDocument);
  }

  lemma DrawingFails(alnum: Alphabet, identity: Identity)
    ensures Failed(alnum, DrawingAnd(identity, 1), Expectation(2, {0}, {}, {}, 50)) != {}
  {
    hide PageStats;
    var e, a := Expectation(2, {0}, {}, {}, 50), DrawingAnd(identity, 1);
    assert a.blocks == [a.blocks[0]] && a.pages[1].index == 1;
    BlankPage(alnum, a.blocks[0], 1);
    assert TextTooSparse in PageReasons(alnum, a, e, 1);
    assert 1 in Failed(alnum, a, e);
  }
}
