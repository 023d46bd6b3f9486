/** The fallback pipeline of knowledge/fallback.py: primary parse, OCR, independent OCR, each at most once. */
module ParserPipeline {
  import opened Common
  import opened ParserFallback

  function PagesOf(failed: seq<nat>): set<nat> {
    set page | page in failed
  }

  /** _merge_documents, filling its dictionary and block list page by page. */
  method MergeDocuments(a: Document, b: Document, failed: seq<nat>) returns (merged: Result<Document, MergeError>)
    ensures merged == Merge(a, b, PagesOf(failed))
  {
    if a.identity != b.identity {
      return Err(IdentityMismatch);
    }
    var replaced := PagesOf(failed);
    var pages := EnterPages(map[], a.pages, replaced, false);
    pages := EnterPages(pages, b.pages, replaced, true);
    var kept := ChooseBlocks(a.blocks, replaced, false);
    var taken := ChooseBlocks(b.blocks, replaced, true);
    var blocks := Renumber(Sort(kept + taken));
    var document := Document(a.identity, "fallback-merge", Markdown(blocks), InOrder(pages, MAX_PAGES), blocks,
      if a.calls + b.calls > 3 then 3 else a.calls + b.calls);
    return if ValidDocument(document) then Ok(document) else Err(InvalidDocument);
  }

  method EnterPages(dictionary: map<nat, Page>, pages: seq<Page>, replaced: set<nat>, inside: bool)
    returns (entered: map<nat, Page>)
    ensures entered == Enter(dictionary, pages, replaced, inside)
  {
    entered := dictionary;
    var i := 0;
    while i < |pages|
      invariant 0 <= i <= |pages| && entered == Enter(dictionary, pages[..i], replaced, inside)
    {
      assert pages[..i + 1][..i] == pages[..i];
      if (pages[i].index in replaced) == inside {
        entered := entered[pages[i].index := pages[i]];
      }
      i := i + 1;
    }
    assert pages[..i] == pages;
  }

  method ChooseBlocks(blocks: seq<Block>, replaced: set<nat>, inside: bool) returns (chosen: seq<Block>)
    ensures chosen == Choose(blocks, replaced, inside)
  {
    chosen := [];
    var i := 0;
    while i < |blocks|
      invariant 0 <= i <= |blocks| && chosen == Choose(blocks[..i], replaced, inside)
    {
      assert blocks[..i + 1][..i] == blocks[..i];
      if (blocks[i].page in replaced) == inside {
        chosen := chosen + [blocks[i]];
      }
      i := i + 1;
    }
    assert blocks[..i] == blocks;
  }

  // ---------------------------------------------------------------------
  // Stages
  // ---------------------------------------------------------------------

  /** What a parser answered: a document or an error code. */
  datatype Parse = Parsed(document: Document) | Unparsed(code: string)

  datatype Stage = Primary | MineruOcr | IndependentOcr

  datatype Attempt = Attempt(stage: Stage, decision: Option<Decision>)

  datatype Outcome =
    | Ready(stage: Stage, document: Document, decision: Decision, attempts: seq<Attempt>, calls: nat)
    | ManualReview(code: string, attempts: seq<Attempt>, calls: nat)

  /** The three parsers' answers, in the order they are asked. */
  datatype Answers = Answers(primary: Parse, ocr: Parse, independent: Parse)

  function AnswerAt(answers: Answers, stage: Stage): Parse {
    match stage case Primary => answers.primary case MineruOcr => answers.ocr case IndependentOcr => answers.independent
  }

  function Rank(stage: Stage): nat {
    match stage case Primary => 1 case MineruOcr => 2 case IndependentOcr => 3
  }

  const STAGES := [Primary, MineruOcr, IndependentOcr]

  function PhysicalCalls(p: Parse): nat {
    match p case Parsed(d) => d.calls case Unparsed(_) => 1
  }

  function AtMostThree(n: nat): nat {
    if n > 3 then 3 else n
  }

  /** The document after one more answer: failed pages replaced, or the answer itself. */
  function Absorb(alnum: Alphabet, e: Expectation, current: Option<Document>, answer: Parse)
    : Result<Option<Document>, MergeError>
    requires ValidExpectation(e)
  {
    match answer
    case Unparsed(_) => Ok(current)
    case Parsed(d) =>
      if current.Some? && DecisionOf(alnum, current.value, e).failed != [] then
        match Merge(current.value, d, PagesOf(DecisionOf(alnum, current.value, e).failed))
        case Err(error) => Err(error)
        case Ok(m) => Ok(Some(m))
      else Ok(Some(d))
  }

  function AttemptOf(alnum: Alphabet, e: Expectation, stage: Stage, answer: Parse): Attempt
    requires ValidExpectation(e)
  {
    Attempt(stage, match answer case Parsed(d) => Some(DecisionOf(alnum, d, e)) case Unparsed(_) => None)
  }

  /** The pipeline from its `n`-th stage on. */
  function From(alnum: Alphabet, e: Expectation, answers: Answers, n: nat, current: Option<Document>,
        attempts: seq<Attempt>, calls: nat)
    : Result<Outcome, MergeError>
    requires ValidExpectation(e) && n <= 3
    decreases 3 - n
  {
    if n == 3 then Ok(ManualReview("PARSER_FALLBACK_EXHAUSTED", attempts, AtMostThree(calls)))
    else
      var stage := STAGES[n];
      var answer := AnswerAt(answers, stage);
      var attempts', calls' := attempts + [AttemptOf(alnum, e, stage, answer)], calls + PhysicalCalls(answer);
      match Absorb(alnum, e, current, answer)
      case Err(error) => Err(error)
      case Ok(next) =>
        if answer.Parsed? && next.Some? && DecisionOf(alnum, next.value, e).pass then
          Ok(Ready(stage, next.value, DecisionOf(alnum, next.value, e), attempts', AtMostThree(calls')))
        else From(alnum, e, answers, n + 1, next, attempts', calls')
  }

  function RunOf(alnum: Alphabet, e: Expectation, scope: Scope, artifactScope: Scope,
        answers: Answers): Result<Outcome, MergeError>
    requires ValidExpectation(e)
  {
    if artifactScope != scope then Ok(ManualReview("PARSER_SCOPE_DENIED", [Attempt(Primary, None)], 0))
    else From(alnum, e, answers, 0, None, [], 0)
  }

  /** One stage: the attempt it records, and the document after it. */
  method RunStage(alnum: Alphabet, e: Expectation, stage: Stage, answer: Parse, current: Option<Document>)
    returns (attempt: Attempt, next: Result<Option<Document>, MergeError>, decision: Option<Decision>)
    requires ValidExpectation(e)
    ensures attempt == AttemptOf(alnum, e, stage, answer)
    ensures next == Absorb(alnum, e, current, answer)
    ensures next.Ok? && answer.Parsed? ==> next.value.Some? && decision == Some(DecisionOf(alnum, next.value.value, e))
    ensures answer.Unparsed? ==> decision == None
  {
    if answer.Unparsed? {
      return Attempt(stage, None), Ok(current), None;
    }
    var quality := ParserFallback.Evaluate(alnum, answer.document, e);
    attempt := Attempt(stage, Some(quality));
    if current.Some? {
      var before := ParserFallback.Evaluate(alnum, current.value, e);
      if before.failed != [] {
        var merged := MergeDocuments(current.value, answer.document, before.failed);
        if merged.Err? {
          return attempt, Err(merged.error), None;
        }
        quality := ParserFallback.Evaluate(alnum, merged.value, e);
        return attempt, Ok(Some(merged.value)), Some(quality);
      }
    }
    return attempt, Ok(Some(answer.document)), Some(quality);
  }

  /** ParserFallbackPipeline.run. */
  method Run(alnum: Alphabet, e: Expectation, scope: Scope, artifactScope: Scope, answers: Answers)
    returns (outcome: Result<Outcome, MergeError>)
    requires ValidExpectation(e)
    ensures outcome == RunOf(alnum, e, scope, artifactScope, answers)
  {
    hide Absorb; hide AttemptOf; hide DecisionOf; hide AtMostThree; hide PhysicalCalls;
    if artifactScope != scope {
      return Ok(ManualReview("PARSER_SCOPE_DENIED", [Attempt(Primary, None)], 0));
    }
    var calls := PhysicalCalls(answers.primary);
    var first, current, decision := RunStage(alnum, e, Primary, answers.primary, None);
    if current.Err? {
      return Err(current.error);
    }
    assert [] + [first] == [first];
    if decision.Some? && decision.value.pass {
      return Ok(Ready(Primary, current.value.value, decision.value, [first], AtMostThree(calls)));
    }
    assert RunOf(alnum, e, scope, artifactScope, answers) ==
      From(alnum, e, answers, 1, current.value, [first], calls);
    calls := calls + PhysicalCalls(answers.ocr);
    var second, afterOcr, ocrDecision := RunStage(alnum, e, MineruOcr, answers.ocr, current.value);
    assert [first] + [second] == [first, second];
    if afterOcr.Err? {
      return Err(afterOcr.error);
    }
    if ocrDecision.Some? && ocrDecision.value.pass {
      return Ok(Ready(MineruOcr, afterOcr.value.value, ocrDecision.value, [first, second], AtMostThree(calls)));
    }
    assert RunOf(alnum, e, scope, artifactScope, answers) ==
      From(alnum, e, answers, 2, afterOcr.value, [first, second], calls);
    calls := calls + PhysicalCalls(answers.independent);
    var third, last, lastDecision := RunStage(alnum, e, IndependentOcr, answers.independent, afterOcr.value);
    assert [first, second] + [third] == [first, second, third];
    if last.Err? {
      return Err(last.error);
    }
    if lastDecision.Some? && lastDecision.value.pass {
      return Ok(Ready(IndependentOcr, last.value.value, lastDecision.value, [first, second, third],
        AtMostThree(calls)));
    }
    assert RunOf(alnum, e, scope, artifactScope, answers) ==
      From(alnum, e, answers, 3, last.value, [first, second, third], calls);
    return Ok(ManualReview("PARSER_FALLBACK_EXHAUSTED", [first, second, third], AtMostThree(calls)));
  }

  // ---------------------------------------------------------------------
  // Ready at the first stage where the failures have nothing in common
  // ---------------------------------------------------------------------

  /** The pages that failed in every document parsed before stage `n`, if any was. */
  ghost function FailedInAll(alnum: Alphabet, e: Expectation, answers: Answers, n: nat): Option<set<nat>>
    requires n <= 3
  {
    if n == 0 then None
    else
      var before, answer := FailedInAll(alnum, e, answers, n - 1), AnswerAt(answers, STAGES[n - 1]);
      match answer
      case Unparsed(_) => before
      case Parsed(d) => Some(if before.Some? then before.value * Failed(alnum, d, e) else Failed(alnum, d, e))
  }

  /** The current document fails exactly on the pages that failed everywhere so far. */
  ghost predicate Tracks(alnum: Alphabet, e: Expectation, answers: Answers, n: nat, current: Option<Document>)
    requires n <= 3
  {
    var failed := FailedInAll(alnum, e, answers, n);
    current.Some? == failed.Some? && (current.Some? ==> Failed(alnum, current.value, e) == failed.value)
  }

  lemma FailedAsSet(alnum: Alphabet, d: Document, e: Expectation)
    requires ValidExpectation(e)
    ensures PagesOf(DecisionOf(alnum, d, e).failed) == Failed(alnum, d, e)
    ensures DecisionOf(alnum, d, e).failed == [] <==> Failed(alnum, d, e) == {}
    ensures DecisionOf(alnum, d, e).pass <==> Failed(alnum, d, e) == {}
  {
    hide DecisionOf; hide Failed;
    PassIffNoFailure(alnum, d, e);
  }

  lemma AbsorbTracks(alnum: Alphabet, e: Expectation, answers: Answers, n: nat, current: Option<Document>)
    requires ValidExpectation(e) && n < 3 && Tracks(alnum, e, answers, n, current)
    requires current.Some? ==> Failed(alnum, current.value, e) != {}
    ensures var next := Absorb(alnum, e, current, AnswerAt(answers, STAGES[n]));
            next.Ok? ==> Tracks(alnum, e, answers, n + 1, next.value)
  {
    hide DecisionOf; hide Failed; hide Merged; hide ValidDocument;
    var answer := AnswerAt(answers, STAGES[n]);
    if current.Some? {
      FailedAsSet(alnum, current.value, e);
      if answer.Parsed? {
        MergeIntersects(alnum, current.value, answer.document, e);
      }
    }
  }

  /** Stage `n` settles it: the failures of the documents parsed by then have no page in common. */
  ghost predicate Settled(alnum: Alphabet, e: Expectation, answers: Answers, n: nat)
    requires n <= 3
  {
    FailedInAll(alnum, e, answers, n) == Some({})
  }

  lemma {:induction false} FromSettles(
    alnum: Alphabet, e: Expectation, answers: Answers, n: nat, current: Option<Document>, attempts: seq<Attempt>,
    calls: nat)
    requires ValidExpectation(e) && n <= 3 && Tracks(alnum, e, answers, n, current) && !Settled(alnum, e, answers, n)
    ensures var result := From(alnum, e, answers, n, current, attempts, calls);
            result.Ok? ==>
              match result.value
              case Ready(stage, d, decision, _, _) =>
                && n < Rank(stage) && Settled(alnum, e, answers, Rank(stage)) && Failed(alnum, d, e) == {}
                && (forall m :: n <= m < Rank(stage) ==> !Settled(alnum, e, answers, m))
              case ManualReview(_, _, _) => forall m :: n <= m <= 3 ==> !Settled(alnum, e, answers, m)
    decreases 3 - n
  {
    hide DecisionOf; hide Failed; hide Absorb; hide AttemptOf; hide FailedInAll; hide AtMostThree; hide PhysicalCalls;
    if n < 3 {
      var answer := AnswerAt(answers, STAGES[n]);
      var next := Absorb(alnum, e, current, answer);
      AbsorbTracks(alnum, e, answers, n, current);
      if next.Ok? {
        if next.value.Some? {
          FailedAsSet(alnum, next.value.value, e);
        }
        if !(answer.Parsed? && next.value.Some? && DecisionOf(alnum, next.value.value, e).pass) {
          NotYetSettled(alnum, e, answers, n);
          FromSettles(alnum, e, answers, n + 1, next.value, attempts + [AttemptOf(alnum, e, STAGES[n], answer)],
            calls + PhysicalCalls(answer));
        }
      }
    }
  }

  lemma NotYetSettled(alnum: Alphabet, e: Expectation, answers: Answers, n: nat)
    requires n < 3
    ensures AnswerAt(answers, STAGES[n]).Unparsed? ==>
      FailedInAll(alnum, e, answers, n + 1) == FailedInAll(alnum, e, answers, n)
  {
  }
}
