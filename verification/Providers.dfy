/** The chat providers over a model: the guards that decide which generated answers reach the user. */
module Providers {
  import opened Prelude
  import opened Sorting
  import opened Composer

  /** How an answer's text is read: the evidence ids it cites in brackets, the case folding of each character, and
      whether it shows hidden reasoning. The patterns themselves are not modelled. */
  datatype Reader = Reader(cited: string -> set<string>, fold: char -> string, hidden: string -> bool)

  const PROHIBITED_MODEL_OUTPUT_TERMS := ["매수", "매도", "목표가", "진입가", "손절가", "수익 보장"]

  predicate IsProhibited(reader: Reader, answer: string) {
    ContainsAny(Folded(answer, reader.fold), PROHIBITED_MODEL_OUTPUT_TERMS)
  }

  datatype Failure =
    Misconfigured | RequestFailed | EmptyAnswer | UnsafeAnswer | UnsupportedCitations | NothingToCite | NoCitations
  | InvalidCitations

  /** The citation check, in the order of its three errors. */
  function Validate(cited: set<string>, allowed: set<string>): Option<Failure> {
    if !(cited <= allowed) then Some(UnsupportedCitations)
    else if allowed == {} then Some(NothingToCite)
    else if cited == {} then Some(NoCitations)
    else None
  }

  /** An answer passes exactly when it cites something, and nothing outside the allowed ids. */
  lemma ValidateIsExact(cited: set<string>, allowed: set<string>)
    ensures Validate(cited, allowed).None? <==> cited != {} && cited <= allowed
  {}

  /** The guard's terms are the ones the composer replaces. */
  lemma GuardMatchesRules(text: string)
    ensures ContainsAny(text, PROHIBITED_MODEL_OUTPUT_TERMS) <==> !Free(text, RULES)
  {
    assert RULES[0].term == PROHIBITED_MODEL_OUTPUT_TERMS[5] && RULES[1].term == PROHIBITED_MODEL_OUTPUT_TERMS[2];
    assert RULES[2].term == PROHIBITED_MODEL_OUTPUT_TERMS[3] && RULES[3].term == PROHIBITED_MODEL_OUTPUT_TERMS[4];
    assert RULES[4].term == PROHIBITED_MODEL_OUTPUT_TERMS[0] && RULES[5].term == PROHIBITED_MODEL_OUTPUT_TERMS[1];
  }

  predicate InTerm(c: char) {
    exists i :: 0 <= i < |RULES| && c in RULES[i].term
  }

  /** Hangul and the space have no case: a term's characters fold to themselves, and no other character folds to text
      with one of them, or to nothing. */
  ghost predicate TermsAreCaseless(fold: char -> string) {
    && (forall c :: InTerm(c) ==> fold(c) == [c])
    && (forall c :: !InTerm(c) ==> fold(c) != "" && forall k :: 0 <= k < |fold(c)| ==> !InTerm(fold(c)[k]))
  }

  ghost predicate OfTermCharacters(u: string) {
    u != "" && forall k :: 0 <= k < |u| ==> InTerm(u[k])
  }

  lemma {:induction false} FoldKeepsPrefix(text: string, fold: char -> string, u: string, k: nat)
    requires TermsAreCaseless(fold) && OfTermCharacters(u) && k <= |u|
    ensures u[k..] <= Folded(text, fold) <==> u[k..] <= text
    decreases |text|
  {
    if k < |u| && text != "" {
      var rest := Folded(text[1..], fold);
      if InTerm(text[0]) {
        FoldKeepsPrefix(text[1..], fold, u, k + 1);
        TailOfPrefix(u, k, text);
        TailOfPrefix(u, k, [text[0]] + rest);
        assert ([text[0]] + rest)[1..] == rest;
      } else {
        assert (fold(text[0]) + rest)[0] == fold(text[0])[0];
        assert u[k..][0] == u[k];
      }
    }
  }

  lemma {:induction false} SkipForeign(x: string, j: nat, rest: string, u: string)
    requires u != "" && j <= |x| && forall k :: 0 <= k < |x| ==> x[k] != u[0]
    ensures Occurs(u, x[j..] + rest) <==> Occurs(u, rest)
    decreases |x| - j
  {
    var here := x[j..] + rest;
    if j == |x| {
      assert here == rest;
    } else {
      assert here[0] == x[j] && here[1..] == x[j + 1..] + rest;
      SkipForeign(x, j + 1, rest, u);
    }
  }

  lemma {:induction false} FoldKeepsTerms(text: string, fold: char -> string, u: string)
    requires TermsAreCaseless(fold) && OfTermCharacters(u)
    ensures Occurs(u, Folded(text, fold)) <==> Occurs(u, text)
  {
    if text != "" {
      var x, rest := fold(text[0]), Folded(text[1..], fold);
      FoldKeepsTerms(text[1..], fold, u);
      FoldKeepsPrefix(text, fold, u, 0);
      assert u[0..] == u;
      if InTerm(text[0]) {
        assert ([text[0]] + rest)[1..] == rest;
      } else {
        SkipForeign(x, 0, rest, u);
        assert x[0..] + rest == x + rest;
      }
    }
  }

  lemma FoldKeepsFree(text: string, fold: char -> string)
    requires TermsAreCaseless(fold)
    ensures Free(Folded(text, fold), RULES) <==> Free(text, RULES)
  {
    forall i | 0 <= i < |RULES| ensures Occurs(RULES[i].term, Folded(text, fold)) <==> Occurs(RULES[i].term, text) {
      RulesCompatible();
      assert OfTermCharacters(RULES[i].term);
      FoldKeepsTerms(text, fold, RULES[i].term);
    }
  }

  /** The output guard, on the folded answer, blocks exactly the answers that hold one of the six terms. */
  lemma GuardIsExact(reader: Reader, answer: string)
    requires TermsAreCaseless(reader.fold)
    ensures IsProhibited(reader, answer) <==> !Free(answer, RULES)
  {
    GuardMatchesRules(Folded(answer, reader.fold));
    FoldKeepsFree(answer, reader.fold);
  }

  /** So it passes every neutralised text. */
  lemma NeutralizedPassesGuard(reader: Reader, text: string)
    requires TermsAreCaseless(reader.fold)
    ensures !IsProhibited(reader, Neutralize(text))
  {
    NeutralizeFrees(text);
    GuardIsExact(reader, Neutralize(text));
  }

  ghost function UsedIds(response: Response): set<string> {
    set id | id in response.usedIds
  }

  /** What the providers are asked. */
  datatype Request = Request(message: string, reasonIds: seq<string>, evidence: seq<Item>, texts: Texts)

  function Baseline(reader: Reader, request: Request): Response {
    Compose(request.message, reader.fold, request.reasonIds, request.evidence, request.texts)
  }

  /** Which of the three texts answers, on the folded message itself: one that holds a certainty term is refused, one
      that holds a trade, price or stop term is redirected, and only one that holds none gets the summary. */
  lemma BaselineAnswersExactly(reader: Reader, request: Request)
    ensures var m, r := Folded(request.message, reader.fold), Baseline(reader, request);
            var certain := Holds(m, CERTAINTY_TERMS);
            var trade := Holds(m, TRADE_DECISION_TERMS);
            var target := Holds(m, TARGET_PRICE_TERMS);
            var entry := Holds(m, ENTRY_STOP_TERMS);
            && (certain ==> r.policy == Refused && r.answer == request.texts.blocked)
            && (!certain && (trade || target || entry) ==> r.answer == request.texts.redirected)
            && (!certain && trade ==> r.policy == Redirected("trade_decision"))
            && (!certain && !trade && target ==> r.policy == Redirected("target_price"))
            && (!certain && !trade && !target && entry ==> r.policy == Redirected("entry_or_risk_price"))
            && (!certain && !trade && !target && !entry ==> r.policy == Allowed && r.answer == request.texts.summary)
  {
    var m := Folded(request.message, reader.fold);
    ContainsAnyAt(m, CERTAINTY_TERMS);
    ContainsAnyAt(m, TRADE_DECISION_TERMS);
    ContainsAnyAt(m, TARGET_PRICE_TERMS);
    ContainsAnyAt(m, ENTRY_STOP_TERMS);
  }

  /** A message that the baseline allows, and so every message that reaches a model, holds none of the six terms that
      answers may not hold either. */
  lemma AllowedMessageIsFree(reader: Reader, request: Request)
    requires TermsAreCaseless(reader.fold) && Baseline(reader, request).policy.Allowed?
    ensures Free(request.message, RULES) && Neutralize(request.message) == request.message
  {
    AllowedIsFree(Folded(request.message, reader.fold));
    FoldKeepsFree(request.message, reader.fold);
    NeutralizeFrees(request.message);
  }

  function IdsIn(ids: seq<string>): set<string> {
    set id | id in ids
  }

  /** The baseline's ids are the evidence's; there are none only when there is no evidence. */
  lemma BaselineWithin(reader: Reader, request: Request)
    ensures IdsIn(Baseline(reader, request).usedIds) <= IdSet(request.evidence)
    ensures Baseline(reader, request).usedIds == [] <==> request.evidence == []
  {
    var citations := Baseline(reader, request).citations;
    CitationsWithin(request.reasonIds, request.evidence);
    forall id | id in Baseline(reader, request).usedIds ensures id in IdSet(request.evidence) {
      var i :| 0 <= i < |citations| && citations[i].evidenceId == id;
      assert citations[i] in citations;
    }
  }

  // ---- AgentCore ----

  const MAX_AGENTCORE_RUNTIME_ATTEMPTS := 2

  /** A runtime target, and the timeout in seconds if it is finite. */
  datatype AgentCoreSettings = AgentCoreSettings(hasTarget: bool, timeout: Option<real>)

  predicate AgentCoreConfigured(settings: AgentCoreSettings) {
    settings.hasTarget && settings.timeout.Some? && 1.0 <= settings.timeout.value <= 30.0
  }

  function CitedItems(evidence: seq<Item>, cited: set<string>): seq<Item> {
    if evidence == [] then []
    else
      var last := evidence[|evidence| - 1];
      CitedItems(evidence[..|evidence| - 1], cited) + if last.id in cited then [last] else []
  }

  /** The evidence items the answer cites; the baseline's citations when it cites none. */
  function AnswerCitations(cited: set<string>, evidence: seq<Item>, fallback: seq<Citation>): seq<Citation> {
    var selected := Image(CitedItems(evidence, cited), CitationOf);
    if cited == {} || selected == [] then fallback else selected
  }

  lemma {:induction false} CitedItemsExact(evidence: seq<Item>, cited: set<string>)
    ensures forall x :: x in CitedItems(evidence, cited) <==> x in evidence && x.id in cited
  {
    if evidence != [] {
      var n := |evidence| - 1;
      CitedItemsExact(evidence[..n], cited);
      assert evidence == evidence[..n] + [evidence[n]];
    }
  }

  /** The guard lets an answer through exactly when it cites something and only the request's evidence; then the list it
      returns is the cited items and its ids are the cited ids. The fallback list never passes. */
  lemma AgentCitationsExact(cited: set<string>, reader: Reader, request: Request)
    ensures var list := AnswerCitations(cited, request.evidence, Baseline(reader, request).citations);
            && (Validate(cited, IdsIn(CitationIds(list))).None? <==> cited != {} && cited <= IdSet(request.evidence))
            && (Validate(cited, IdsIn(CitationIds(list))).None? ==>
                  IdsIn(CitationIds(list)) == cited && list == Image(CitedItems(request.evidence, cited), CitationOf))
  {
    var evidence, fallback := request.evidence, Baseline(reader, request).citations;
    var items := CitedItems(evidence, cited);
    var list := AnswerCitations(cited, evidence, fallback);
    CitedItemsExact(evidence, cited);
    BaselineWithin(reader, request);
    assert CitationIds(fallback) == Baseline(reader, request).usedIds;
    if items == [] {
      assert cited * IdSet(evidence) == {};
    } else if cited != {} {
      ItemIds(items, cited, evidence);
    }
  }

  lemma ItemIds(items: seq<Item>, cited: set<string>, evidence: seq<Item>)
    requires forall x :: x in items <==> x in evidence && x.id in cited
    ensures IdsIn(CitationIds(Image(items, CitationOf))) == cited * IdSet(evidence)
  {
    var list := Image(items, CitationOf);
    forall i | 0 <= i < |items| ensures CitationIds(list)[i] == items[i].id {
      assert list[i] == CitationOf(items[i]);
    }
    forall id | id in CitationIds(list) ensures id in cited * IdSet(evidence) {
      var i :| 0 <= i < |list| && CitationIds(list)[i] == id;
      assert items[i] in items;
    }
    forall id | id in cited * IdSet(evidence) ensures id in CitationIds(list) {
      var x :| x in evidence && x.id == id;
      assert x in items;
      var i :| 0 <= i < |items| && items[i] == x;
      assert CitationIds(list)[i] == id;
    }
  }

  /** The outcome of each attempt: the extracted answer, empty when the runtime reported no success, or None when the
      request failed. */
  type Outcomes = attempts: seq<Option<string>> | |attempts| >= MAX_AGENTCORE_RUNTIME_ATTEMPTS
    witness [None, None]

  method InvokeRuntime(outcomes: Outcomes) returns (answer: Option<string>, calls: nat)
    ensures answer == if outcomes[0].Some? then outcomes[0] else outcomes[1]
    ensures calls == if outcomes[0].Some? then 1 else 2
  {
    calls := 0;
    for attempt := 1 to MAX_AGENTCORE_RUNTIME_ATTEMPTS + 1
      invariant calls == attempt - 1
      invariant forall k :: 0 <= k < calls ==> outcomes[k].None?
    {
      calls := calls + 1;
      if outcomes[attempt - 1].Some? || attempt >= MAX_AGENTCORE_RUNTIME_ATTEMPTS {
        return outcomes[attempt - 1], calls;
      }
    }
    return None, calls;
  }

  predicate Acceptable(reader: Reader, answer: string, allowed: set<string>) {
    && answer != ""
    && !IsProhibited(reader, answer)
    && reader.cited(answer) != {}
    && reader.cited(answer) <= allowed
  }

  /** What an answer must be to be returned: not empty, free of the six terms, citing something and only what is
      allowed. */
  lemma AcceptableIsExact(reader: Reader, answer: string, allowed: set<string>)
    requires TermsAreCaseless(reader.fold)
    ensures Acceptable(reader, answer, allowed)
       <==> answer != "" && Free(answer, RULES) && reader.cited(answer) != {} && reader.cited(answer) <= allowed
  {
    GuardIsExact(reader, answer);
  }

  method AgentCoreCompose(settings: AgentCoreSettings, reader: Reader, request: Request, outcomes: Outcomes)
    returns (r: Result<Response, Failure>, calls: nat)
    ensures AgentCoreConfigured(settings)
       <==> settings.hasTarget && settings.timeout.Some? && 1.0 <= settings.timeout.value <= 30.0
    ensures r == Err(Misconfigured) <==> !AgentCoreConfigured(settings)
    ensures AgentCoreConfigured(settings) && !Baseline(reader, request).policy.Allowed? ==>
              r == Ok(Baseline(reader, request))
    ensures calls == if !AgentCoreConfigured(settings) || !Baseline(reader, request).policy.Allowed? then 0
                     else if outcomes[0].Some? then 1 else 2
    // With an allowed message the runtime's answer is returned exactly when it is acceptable and shows no reasoning.
    ensures calls > 0 ==>
              var answer := if outcomes[0].Some? then outcomes[0] else outcomes[1];
              && (answer.None? ==> r == Err(RequestFailed))
              && (answer.Some? && reader.hidden(answer.value) && answer.value != "" ==>
                    r == Ok(Baseline(reader, request)))
              && (answer.Some? && !(reader.hidden(answer.value) && answer.value != "") ==>
                    && (r.Ok? <==> Acceptable(reader, answer.value, IdSet(request.evidence)))
                    && (answer.value == "" ==> r == Err(EmptyAnswer))
                    && (answer.value != "" && IsProhibited(reader, answer.value) ==> r == Err(UnsafeAnswer))
                    && (answer.value != "" && !IsProhibited(reader, answer.value) && r.Err? ==>
                          r == Err(InvalidCitations))
                    && (r.Ok? ==>
                          && r.value.answer == answer.value
                          && UsedIds(r.value) == reader.cited(answer.value)
                          && r.value.citations
                               == Image(CitedItems(request.evidence, reader.cited(answer.value)), CitationOf)
                          && r.value.usedIds == CitationIds(r.value.citations)))
  {
    calls := 0;
    if !AgentCoreConfigured(settings) { return Err(Misconfigured), 0; }
    var baseline := Baseline(reader, request);
    if !baseline.policy.Allowed? { return Ok(baseline), 0; }
    var response;
    response, calls := InvokeRuntime(outcomes);
    if response.None? { return Err(RequestFailed), calls; }
    var answer := response.value;
    if answer == "" { return Err(EmptyAnswer), calls; }
    if reader.hidden(answer) { return Ok(baseline), calls; }
    if IsProhibited(reader, answer) { return Err(UnsafeAnswer), calls; }
    var cited := reader.cited(answer);
    var list := AnswerCitations(cited, request.evidence, baseline.citations);
    AgentCitationsExact(cited, reader, request);
    if Validate(cited, IdsIn(CitationIds(list))).Some? { return Err(InvalidCitations), calls; }
    return Ok(Response(answer, list, baseline.policy, CitationIds(list))), calls;
  }

  // ---- Bedrock ----

  datatype BedrockSettings =
    BedrockSettings(modelId: string, maxTokens: int, temperature: Option<real>, timeout: Option<real>)

  predicate BedrockConfigured(settings: BedrockSettings) {
    && settings.modelId != ""
    && 64 <= settings.maxTokens <= 1200
    && settings.temperature.Some? && 0.0 <= settings.temperature.value <= 1.0
    && settings.timeout.Some? && 1.0 <= settings.timeout.value <= 30.0
  }

  function RequestAnswer(reader: Reader, outcome: Option<string>): Result<string, Failure> {
    if outcome.None? then Err(RequestFailed)
    else if outcome.value == "" then Err(EmptyAnswer)
    else if IsProhibited(reader, outcome.value) then Err(UnsafeAnswer)
    else Ok(outcome.value)
  }

  predicate Passes(reader: Reader, outcome: Option<string>, allowed: set<string>) {
    outcome.Some? && Acceptable(reader, outcome.value, allowed)
  }

  /** An answer came that is not empty and that the term guard lets through. */
  predicate Sayable(reader: Reader, outcome: Option<string>) {
    outcome.Some? && outcome.value != "" && !IsProhibited(reader, outcome.value)
  }

  /** One retry, only for citations: an answer that fails another guard is final. */
  method BedrockCompose(settings: BedrockSettings, reader: Reader, request: Request, outcomes: Outcomes)
    returns (r: Result<Response, Failure>, calls: nat)
    ensures BedrockConfigured(settings)
       <==> settings.modelId != "" && 64 <= settings.maxTokens <= 1200
            && settings.temperature.Some? && 0.0 <= settings.temperature.value <= 1.0
            && settings.timeout.Some? && 1.0 <= settings.timeout.value <= 30.0
    ensures r == Err(Misconfigured) <==> !BedrockConfigured(settings)
    ensures BedrockConfigured(settings) && !Baseline(reader, request).policy.Allowed? ==>
              r == Ok(Baseline(reader, request))
    ensures calls == 0 <==> !BedrockConfigured(settings) || !Baseline(reader, request).policy.Allowed?
    ensures calls > 0 ==>
              var baseline := Baseline(reader, request);
              var allowed, first := IdsIn(baseline.usedIds), outcomes[0];
              var last := if calls == 1 then outcomes[0] else outcomes[1];
              && calls == (if Sayable(reader, first) && !Passes(reader, first, allowed) then 2 else 1)
              && (r.Ok? <==> Passes(reader, last, allowed))
              && (last.None? ==> r == Err(RequestFailed))
              && (last == Some("") ==> r == Err(EmptyAnswer))
              && (last.Some? && last.value != "" && IsProhibited(reader, last.value) ==> r == Err(UnsafeAnswer))
              && (Sayable(reader, last) && r.Err? ==>
                    r.error == if !(reader.cited(last.value) <= allowed) then UnsupportedCitations
                               else if request.evidence == [] then NothingToCite else NoCitations)
              && (r.Ok? ==> r.value == baseline.(answer := last.value))
  {
    calls := 0;
    if !BedrockConfigured(settings) { return Err(Misconfigured), 0; }
    var baseline := Baseline(reader, request);
    if !baseline.policy.Allowed? { return Ok(baseline), 0; }
    BaselineWithin(reader, request);
    var allowed := IdsIn(baseline.usedIds);
    assert allowed == {} <==> request.evidence == [] by {
      if baseline.usedIds != [] { assert baseline.usedIds[0] in allowed; }
    }
    var answer := RequestAnswer(reader, outcomes[0]);
    calls := 1;
    if answer.Err? { return Err(answer.error), calls; }
    ValidateIsExact(reader.cited(answer.value), allowed);
    if Validate(reader.cited(answer.value), allowed).Some? {
      answer := RequestAnswer(reader, outcomes[1]);
      calls := 2;
      if answer.Err? { return Err(answer.error), calls; }
      ValidateIsExact(reader.cited(answer.value), allowed);
      var failure := Validate(reader.cited(answer.value), allowed);
      if failure.Some? { return Err(failure.value), calls; }
    }
    return Ok(Response(answer.value, baseline.citations, baseline.policy, baseline.usedIds)), calls;
  }

  /** AgentCore's term and citation guards accept every answer that Bedrock's accept, and neither accepts any when there
      is no evidence. */
  lemma BedrockIsStricter(reader: Reader, request: Request, answer: string)
    ensures Acceptable(reader, answer, IdsIn(Baseline(reader, request).usedIds)) ==>
              Acceptable(reader, answer, IdSet(request.evidence))
    ensures request.evidence == [] ==> !Acceptable(reader, answer, IdSet(request.evidence))
  {
    BaselineWithin(reader, request);
  }
}
