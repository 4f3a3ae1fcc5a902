/**
  What a run is charged for its model calls (src/apexcrew/domain/model.py, lines 188-241 and 435-589), the price
  that is reserved before a call (src/apexcrew/domain/authority.py, lines 628-648) and the price that the
  adapter reports (src/apexcrew/adapters/model/deepseek_responses.py, lines 119-145). Money is exact.
*/
module Ledger {
  import opened Wrappers

  type ModelId = string

  /** Calls, tokens and dollars: the run's counters, and the amounts that are reserved or charged. */
  datatype Amounts = Amounts(calls: int, inputTokens: int, outputTokens: int, costUsd: real)

  const ZERO := Amounts(0, 0, 0, 0.0)

  function Plus(a: Amounts, b: Amounts): Amounts {
    Amounts(a.calls + b.calls, a.inputTokens + b.inputTokens, a.outputTokens + b.outputTokens, a.costUsd + b.costUsd)
  }

  predicate AtMost(a: Amounts, b: Amounts) {
    a.calls <= b.calls && a.inputTokens <= b.inputTokens && a.outputTokens <= b.outputTokens && a.costUsd <= b.costUsd
  }

  function AfterReserve(counters: Amounts, amounts: Amounts): Amounts { Plus(counters, amounts) }

  function AfterSettle(counters: Amounts, reserved: Amounts, charged: Amounts): Amounts {
    Amounts(
      counters.calls - reserved.calls + charged.calls,
      counters.inputTokens - reserved.inputTokens + charged.inputTokens,
      counters.outputTokens - reserved.outputTokens + charged.outputTokens,
      counters.costUsd - reserved.costUsd + charged.costUsd)
  }

  // ---------- Attempts ----------

  datatype ModelRequest = ModelRequest(
    requestedModelId: ModelId,
    allowedModelIds: set<ModelId>,
    maxInputTokens: nat,
    maxOutputTokens: nat,
    reservedCostUsd: real)

  datatype Intent = Intent(request: ModelRequest, reserved: Amounts)

  datatype Usage = Usage(inputTokens: nat, outputTokens: nat, costUsd: real)

  datatype Completion = Completion(requestedModelId: ModelId, returnedModelId: ModelId, usage: Option<Usage>)

  datatype Kind = COMPLETED | KNOWN_CLOSED_REJECTION | UNKNOWN_OUTCOME

  datatype ProviderResult = ProviderResult(kind: Kind, completion: Option<Completion>, usage: Option<Usage>)

  datatype Outcome = Completed | RequestedModelMismatch | ReturnedModelMismatch | KnownClosedRejection | Indeterminate

  datatype Settlement = Settlement(outcome: Outcome, charged: Amounts)

  datatype SettlementError = CompletedRequiresCompletion | ClosedForbidsCompletion

  function UsageCharge(intent: Intent, usage: Option<Usage>): Amounts {
    match usage
    case None => intent.reserved
    case Some(u) => Amounts(1, u.inputTokens, u.outputTokens, u.costUsd)
  }

  /** A mismatch is charged the tokens that were reported, but the whole price that was reserved. */
  function MismatchCharge(intent: Intent, usage: Option<Usage>): Amounts {
    match usage
    case None => intent.reserved
    case Some(u) => Amounts(1, u.inputTokens, u.outputTokens, intent.reserved.costUsd)
  }

  function SettleCompletion(intent: Intent, completion: Completion): Settlement {
    if completion.requestedModelId != intent.request.requestedModelId then
      Settlement(RequestedModelMismatch, MismatchCharge(intent, completion.usage))
    else if completion.returnedModelId !in intent.request.allowedModelIds then
      Settlement(ReturnedModelMismatch, MismatchCharge(intent, completion.usage))
    else Settlement(Completed, UsageCharge(intent, completion.usage))
  }

  function FromResult(intent: Intent, result: ProviderResult): Result<Settlement, SettlementError> {
    if result.kind == COMPLETED then
      match result.completion
      case None => Err(CompletedRequiresCompletion)
      case Some(completion) => Ok(SettleCompletion(intent, completion))
    else if result.completion.Some? then Err(ClosedForbidsCompletion)
    else Ok(Settlement(if result.kind == KNOWN_CLOSED_REJECTION then KnownClosedRejection else Indeterminate,
                       UsageCharge(intent, result.usage)))
  }

  // ---------- Conservation ----------

  /** An attempt in the journal: open, or closed for good with what it was charged. */
  datatype Attempt = Reserved(intent: Intent) | Closed(intent: Intent, settlement: Settlement)

  function Weight(a: Attempt): Amounts {
    match a
    case Reserved(intent) => intent.reserved
    case Closed(_, settlement) => settlement.charged
  }

  /** What closed attempts were charged plus what open ones have reserved. */
  function Total(attempts: seq<Attempt>): Amounts {
    if attempts == [] then ZERO else Plus(Total(attempts[..|attempts| - 1]), Weight(attempts[|attempts| - 1]))
  }

  lemma {:induction false} TotalAfterSettlement(attempts: seq<Attempt>, id: nat, closed: Attempt)
    requires id < |attempts|
    ensures Total(attempts[id := closed]) == AfterSettle(Total(attempts), Weight(attempts[id]), Weight(closed))
    decreases |attempts|
  {
    var n := |attempts| - 1;
    var after := attempts[id := closed];
    if id == n {
      assert after[..n] == attempts[..n];
    } else {
      assert after[..n] == attempts[..n][id := closed];
      TotalAfterSettlement(attempts[..n], id, closed);
    }
  }

  /** The journal of one run: its counters, and its attempts in the order of their reservation. */
  datatype Book = Book(counters: Amounts, attempts: seq<Attempt>)

  datatype Operation = ReserveAttempt(intent: Intent) | SettleAttempt(id: nat, result: ProviderResult)

  predicate Settles(book: Book, id: nat, result: ProviderResult) {
    id < |book.attempts| && book.attempts[id].Reserved? && FromResult(book.attempts[id].intent, result).Ok?
  }

  /** Attempts are reserved up to the ceilings and settled once; anything else changes nothing. */
  function Perform(book: Book, op: Operation, ceilings: Amounts): Book {
    match op
    case ReserveAttempt(intent) =>
      var after := AfterReserve(book.counters, intent.reserved);
      if AtMost(after, ceilings) then Book(after, book.attempts + [Reserved(intent)]) else book
    case SettleAttempt(id, result) =>
      if !Settles(book, id, result) then book
      else
        var intent := book.attempts[id].intent;
        var settlement := FromResult(intent, result).value;
        Book(AfterSettle(book.counters, intent.reserved, settlement.charged),
          book.attempts[id := Closed(intent, settlement)])
  }

  function History(ops: seq<Operation>, ceilings: Amounts): Book {
    if ops == [] then Book(ZERO, []) else Perform(History(ops[..|ops| - 1], ceilings), ops[|ops| - 1], ceilings)
  }

  lemma {:induction false} PerformConserves(book: Book, op: Operation, ceilings: Amounts)
    requires book.counters == Total(book.attempts)
    ensures Perform(book, op, ceilings).counters == Total(Perform(book, op, ceilings).attempts)
  {
    match op {
      case ReserveAttempt(intent) =>
        var longer := book.attempts + [Reserved(intent)];
        assert longer[..|longer| - 1] == book.attempts;
      case SettleAttempt(id, result) =>
        if Settles(book, id, result) {
          var intent := book.attempts[id].intent;
          TotalAfterSettlement(book.attempts, id, Closed(intent, FromResult(intent, result).value));
        }
    }
  }

  /** Over any history the counters are the charges of closed attempts plus the reservations of open ones. */
  lemma {:induction false} CountersAreConserved(ops: seq<Operation>, ceilings: Amounts)
    ensures History(ops, ceilings).counters == Total(History(ops, ceilings).attempts)
  {
    if ops != [] {
      CountersAreConserved(ops[..|ops| - 1], ceilings);
      PerformConserves(History(ops[..|ops| - 1], ceilings), ops[|ops| - 1], ceilings);
    }
  }

  datatype JournalError = BindingMismatch | AlreadySettled | Malformed(error: SettlementError)

  class ModelJournal {
    const ceilings: Amounts
    var counters: Amounts
    var attempts: seq<Attempt>

    constructor (ceilings: Amounts)
      ensures this.ceilings == ceilings && Contents() == Book(ZERO, [])
    {
      this.ceilings := ceilings;
      counters, attempts := ZERO, [];
    }

    function Contents(): Book
      reads this
    {
      Book(counters, attempts)
    }

    method Reserve(intent: Intent) returns (id: Option<nat>)
      modifies this
      ensures Contents() == Perform(old(Contents()), Operation.ReserveAttempt(intent), ceilings)
      ensures id == if |attempts| > |old(attempts)| then Some(|old(attempts)|) else None
    {
      var after := AfterReserve(counters, intent.reserved);
      if !AtMost(after, ceilings) { return None; }
      id := Some(|attempts|);
      counters := after;
      attempts := attempts + [Reserved(intent)];
    }

    method Settle(id: nat, result: ProviderResult) returns (r: Result<Settlement, JournalError>)
      modifies this
      ensures Contents() == Perform(old(Contents()), Operation.SettleAttempt(id, result), ceilings)
      ensures r.Ok? <==> Settles(old(Contents()), id, result)
      ensures r.Ok? ==> attempts[id] == Closed(old(attempts)[id].intent, r.value)
      ensures r == Err(AlreadySettled) ==> id < |old(attempts)| && old(attempts)[id].Closed?
      ensures r == Err(BindingMismatch) <==> id >= |old(attempts)|
    {
      if id >= |attempts| { return Err(BindingMismatch); }
      var intent := attempts[id].intent;
      var settled := FromResult(intent, result);
      if settled.Err? { return Err(Malformed(settled.error)); }
      if attempts[id].Closed? { return Err(AlreadySettled); }
      attempts := attempts[id := Closed(intent, settled.value)];
      counters := AfterSettle(counters, intent.reserved, settled.value.charged);
      r := Ok(settled.value);
    }
  }

  // ---------- Prices ----------

  type Pricing = map<ModelId, (real, real)>

  predicate Nonnegative(pricing: Pricing) { forall m | m in pricing :: pricing[m].0 >= 0.0 && pricing[m].1 >= 0.0 }

  function Price(input: nat, output: nat, rates: (real, real)): real {
    (input as real * rates.0 + output as real * rates.1) / 1_000_000.0
  }

  /** The price of the request's maxima for the dearest allowed model. */
  ghost predicate IsWorstPrice(request: ModelRequest, pricing: Pricing, worst: real) {
    && (forall m | m in request.allowedModelIds && m in pricing ::
          Price(request.maxInputTokens, request.maxOutputTokens, pricing[m]) <= worst)
    && (exists m :: m in request.allowedModelIds && m in pricing &&
          worst == Price(request.maxInputTokens, request.maxOutputTokens, pricing[m]))
  }

  datatype PricingError = ModelPricingMissing

  method ModelReservationAmounts(request: ModelRequest, pricing: Pricing) returns (r: Result<Amounts, PricingError>)
    ensures r.Ok? <==> request.allowedModelIds != {} && request.allowedModelIds <= pricing.Keys
    ensures r.Ok? ==> IsWorstPrice(request, pricing, r.value.costUsd)
    ensures r.Ok? ==> r.value == Amounts(1, request.maxInputTokens, request.maxOutputTokens, r.value.costUsd)
  {
    if request.allowedModelIds == {} || !(request.allowedModelIds <= pricing.Keys) {
      return Err(ModelPricingMissing);
    }
    var first :| first in request.allowedModelIds;
    var worst := Price(request.maxInputTokens, request.maxOutputTokens, pricing[first]);
    var rest := request.allowedModelIds - {first};
    while rest != {}
      invariant rest <= request.allowedModelIds
      invariant IsWorstPrice(request.(allowedModelIds := request.allowedModelIds - rest), pricing, worst)
      decreases |rest|
    {
      var m :| m in rest;
      var price := Price(request.maxInputTokens, request.maxOutputTokens, pricing[m]);
      if price > worst { worst := price; }
      rest := rest - {m};
    }
    assert request.allowedModelIds - rest == request.allowedModelIds;
    assert request.(allowedModelIds := request.allowedModelIds - rest) == request;
    return Ok(Amounts(1, request.maxInputTokens, request.maxOutputTokens, worst));
  }

  /** A usage as the provider reports it. */
  datatype Reported = Reported(inputTokens: nat, visibleOutputTokens: nat, reasoningTokens: nat)

  /** The adapter counts reasoning on top of visible output; a model without a price costs what the request says. */
  function UsageFromResponse(reported: Reported, modelId: ModelId, request: ModelRequest, pricing: Pricing): Usage {
    var output := reported.visibleOutputTokens + reported.reasoningTokens;
    Usage(reported.inputTokens, output,
      if modelId in pricing then Price(reported.inputTokens, output, pricing[modelId]) else request.reservedCostUsd)
  }

  predicate WithinMaxima(reported: Reported, request: ModelRequest) {
    reported.inputTokens <= request.maxInputTokens
    && reported.visibleOutputTokens + reported.reasoningTokens <= request.maxOutputTokens
  }

  lemma {:induction false} PriceIsMonotone(a: nat, b: nat, c: nat, d: nat, rates: (real, real))
    requires a <= c && b <= d && rates.0 >= 0.0 && rates.1 >= 0.0
    ensures Price(a, b, rates) <= Price(c, d, rates)
  {
    ProductIsMonotone(a as real, c as real, rates.0);
    ProductIsMonotone(b as real, d as real, rates.1);
  }

  lemma {:induction false} ProductIsMonotone(x: real, y: real, rate: real)
    requires x <= y && rate >= 0.0
    ensures x * rate <= y * rate
  {
    assert (y - x) * rate >= 0.0;
  }

  /** With the same price table, an allowed model's usage within the maxima costs no more than was reserved. */
  lemma {:induction false} HonestUsageFits(reported: Reported, modelId: ModelId, request: ModelRequest,
      pricing: Pricing, reserved: Amounts)
    requires Nonnegative(pricing) && modelId in request.allowedModelIds && modelId in pricing
    requires reserved == Amounts(1, request.maxInputTokens, request.maxOutputTokens, reserved.costUsd)
    requires IsWorstPrice(request, pricing, reserved.costUsd) && WithinMaxima(reported, request)
    ensures AtMost(UsageCharge(Intent(request, reserved),
      Some(UsageFromResponse(reported, modelId, request, pricing))), reserved)
  {
    var output := reported.visibleOutputTokens + reported.reasoningTokens;
    PriceIsMonotone(reported.inputTokens, output, request.maxInputTokens, request.maxOutputTokens, pricing[modelId]);
  }

  /** The price is covered for every price table. */
  ghost predicate AlwaysCovered(reported: Reported, modelId: ModelId, request: ModelRequest) {
    forall pricing: Pricing, worst: real ::
      Nonnegative(pricing) && request.allowedModelIds <= pricing.Keys && IsWorstPrice(request, pricing, worst) ==>
      UsageFromResponse(reported, modelId, request, pricing).costUsd <= worst
  }

  function FlatPricing(models: set<ModelId>, rates: (real, real)): Pricing {
    map m | m in models :: rates
  }

  lemma {:induction false} FlatWorstPrice(request: ModelRequest, modelId: ModelId, rates: (real, real))
    requires modelId in request.allowedModelIds && rates.0 >= 0.0 && rates.1 >= 0.0
    ensures var pricing := FlatPricing(request.allowedModelIds, rates);
      Nonnegative(pricing) && request.allowedModelIds <= pricing.Keys
      && IsWorstPrice(request, pricing, Price(request.maxInputTokens, request.maxOutputTokens, rates))
  {
    assert modelId in FlatPricing(request.allowedModelIds, rates);
  }

  /** Usage within the maxima, with reasoning counted on top of visible output, is what every price table covers. */
  lemma {:induction false} AllowedIsCoveredExactly(reported: Reported, modelId: ModelId, request: ModelRequest)
    requires modelId in request.allowedModelIds
    ensures AlwaysCovered(reported, modelId, request) <==> WithinMaxima(reported, request)
  {
    if WithinMaxima(reported, request) {
      forall pricing: Pricing, worst: real |
        Nonnegative(pricing) && request.allowedModelIds <= pricing.Keys && IsWorstPrice(request, pricing, worst)
        ensures UsageFromResponse(reported, modelId, request, pricing).costUsd <= worst
      {
        HonestUsageFits(reported, modelId, request, pricing,
          Amounts(1, request.maxInputTokens, request.maxOutputTokens, worst));
      }
    }
    if AlwaysCovered(reported, modelId, request) {
      FlatWorstPrice(request, modelId, (1.0, 0.0));
      FlatWorstPrice(request, modelId, (0.0, 1.0));
      var byInput, byOutput := FlatPricing(request.allowedModelIds, (1.0, 0.0)),
        FlatPricing(request.allowedModelIds, (0.0, 1.0));
      assert UsageFromResponse(reported, modelId, request, byInput).costUsd
        <= Price(request.maxInputTokens, request.maxOutputTokens, (1.0, 0.0));
      assert UsageFromResponse(reported, modelId, request, byOutput).costUsd
        <= Price(request.maxInputTokens, request.maxOutputTokens, (0.0, 1.0));
    }
  }

  /** The usage of any other model is covered only if it is nothing at all. */
  predicate Free(reported: Reported, request: ModelRequest) {
    reported.inputTokens == 0 && reported.visibleOutputTokens + reported.reasoningTokens == 0
      && request.reservedCostUsd <= 0.0
  }

  lemma {:induction false} ForeignIsCoveredExactly(reported: Reported, modelId: ModelId, request: ModelRequest)
    requires request.allowedModelIds != {} && modelId !in request.allowedModelIds
    ensures AlwaysCovered(reported, modelId, request) <==> Free(reported, request)
  {
    if Free(reported, request) {
      forall pricing: Pricing, worst: real |
        Nonnegative(pricing) && request.allowedModelIds <= pricing.Keys && IsWorstPrice(request, pricing, worst)
        ensures UsageFromResponse(reported, modelId, request, pricing).costUsd <= worst
      {
        PricesAreNonnegative(request, pricing, worst);
      }
    }
    if AlwaysCovered(reported, modelId, request) {
      var allowed :| allowed in request.allowedModelIds;
      FlatWorstPrice(request, allowed, (0.0, 0.0));
      var gratis := FlatPricing(request.allowedModelIds, (0.0, 0.0));
      assert UsageFromResponse(reported, modelId, request, gratis).costUsd <= 0.0;
      var priced := gratis[modelId := (1.0, 1.0)];
      ForeignPriceKeepsWorst(request, gratis, modelId, (1.0, 1.0), 0.0);
      assert UsageFromResponse(reported, modelId, request, priced).costUsd <= 0.0;
    }
  }

  lemma {:induction false} ForeignPriceKeepsWorst(request: ModelRequest, pricing: Pricing, modelId: ModelId,
      rates: (real, real), worst: real)
    requires modelId !in request.allowedModelIds && Nonnegative(pricing) && rates.0 >= 0.0 && rates.1 >= 0.0
    requires request.allowedModelIds <= pricing.Keys && IsWorstPrice(request, pricing, worst)
    ensures var dearer := pricing[modelId := rates];
      Nonnegative(dearer) && request.allowedModelIds <= dearer.Keys && IsWorstPrice(request, dearer, worst)
  {
    var m :| m in request.allowedModelIds && m in pricing
      && worst == Price(request.maxInputTokens, request.maxOutputTokens, pricing[m]);
    assert m in pricing[modelId := rates];
  }

  lemma {:induction false} PricesAreNonnegative(request: ModelRequest, pricing: Pricing, worst: real)
    requires Nonnegative(pricing) && IsWorstPrice(request, pricing, worst)
    ensures worst >= 0.0
  {
    var m :| m in request.allowedModelIds && m in pricing
      && worst == Price(request.maxInputTokens, request.maxOutputTokens, pricing[m]);
    PriceIsMonotone(0, 0, request.maxInputTokens, request.maxOutputTokens, pricing[m]);
  }

  /**
    What the adapter reports never costs more than was reserved, whatever the price table, exactly for an allowed
    model's usage within the maxima and for a foreign model's usage of nothing.
  */
  lemma {:induction false} CoveredExactly(reported: Reported, modelId: ModelId, request: ModelRequest)
    requires request.allowedModelIds != {}
    ensures AlwaysCovered(reported, modelId, request) <==>
      if modelId in request.allowedModelIds then WithinMaxima(reported, request) else Free(reported, request)
  {
    if modelId in request.allowedModelIds {
      AllowedIsCoveredExactly(reported, modelId, request);
    } else {
      ForeignIsCoveredExactly(reported, modelId, request);
    }
  }

  // Ten output tokens were allowed, and ten were made, one of them for reasoning: eleven are charged.
  lemma {:induction false} ReasoningIsCountedTwice(model: ModelId)
    ensures var request, rates := ModelRequest(model, {model}, 0, 10, 0.0), (0.0, 1.0);
      var pricing, worst := map[model := rates], Price(0, 10, rates);
      && Nonnegative(pricing) && IsWorstPrice(request, pricing, worst)
      && UsageFromResponse(Reported(0, 10, 1), model, request, pricing) == Usage(0, 11, Price(0, 11, rates))
      && Price(0, 11, rates) > worst
  {
    assert model in map[model := (0.0, 1.0)];
  }

  // A rejected answer of a dearer model that was not allowed, with as many tokens as were allowed, is charged more
  // than was reserved; a completion of the same model is not.
  lemma {:induction false} ForeignRejectionIsChargedMore(model: ModelId, other: ModelId)
    requires model != other
    ensures var request := ModelRequest(model, {model}, 0, 10, 0.0);
      var pricing, worst := map[model := (0.0, 1.0), other := (0.0, 2.0)], Price(0, 10, (0.0, 1.0));
      var intent := Intent(request, Amounts(1, 0, 10, worst));
      var usage := UsageFromResponse(Reported(0, 10, 0), other, request, pricing);
      var rejected := FromResult(intent, ProviderResult(KNOWN_CLOSED_REJECTION, None, Some(usage)));
      var completed := FromResult(intent, ProviderResult(COMPLETED, Some(Completion(model, other, Some(usage))), None));
      && Nonnegative(pricing) && IsWorstPrice(request, pricing, worst)
      && rejected.Ok? && rejected.value.charged.costUsd > worst
      && completed.Ok? && completed.value.charged == intent.reserved
  {
    assert model in map[model := (0.0, 1.0), other := (0.0, 2.0)];
  }

  // ---------- Whole histories ----------

  /** A result that charges nothing negative and no more than was reserved. */
  predicate Honest(a: Attempt) {
    AtMost(ZERO, a.intent.reserved) && (a.Closed? ==>
      AtMost(ZERO, a.settlement.charged) && AtMost(a.settlement.charged, a.intent.reserved))
  }

  function AllReserved(attempts: seq<Attempt>): Amounts {
    if attempts == [] then ZERO
    else Plus(AllReserved(attempts[..|attempts| - 1]), attempts[|attempts| - 1].intent.reserved)
  }

  /** Honest settlements never take a counter below zero or above what was ever reserved. */
  lemma {:induction false} HonestCountersStayInRange(attempts: seq<Attempt>)
    requires forall a | a in attempts :: Honest(a)
    ensures AtMost(ZERO, Total(attempts)) && AtMost(Total(attempts), AllReserved(attempts))
  {
    if attempts != [] {
      var n := |attempts| - 1;
      assert attempts[n] in attempts && forall a | a in attempts[..n] :: a in attempts;
      HonestCountersStayInRange(attempts[..n]);
    }
  }

  /** Every settlement in a history charges at most what was reserved. */
  predicate HonestHistory(ops: seq<Operation>, ceilings: Amounts) {
    ops == [] ||
    (HonestHistory(ops[..|ops| - 1], ceilings) &&
     match ops[|ops| - 1]
     case ReserveAttempt(intent) => true
     case SettleAttempt(id, result) =>
       var book := History(ops[..|ops| - 1], ceilings);
       Settles(book, id, result) ==>
         AtMost(FromResult(book.attempts[id].intent, result).value.charged, book.attempts[id].intent.reserved))
  }

  /** Then no counter ever passes its ceiling, whatever the order of reservations and settlements. */
  lemma {:induction false} HonestHistoryKeepsCeilings(ops: seq<Operation>, ceilings: Amounts)
    requires HonestHistory(ops, ceilings) && AtMost(ZERO, ceilings)
    ensures AtMost(History(ops, ceilings).counters, ceilings)
  {
    if ops != [] { HonestHistoryKeepsCeilings(ops[..|ops| - 1], ceilings); }
  }

  function Tokens(a: Amounts): (int, int, int) { (a.calls, a.inputTokens, a.outputTokens) }

  /** The completion is of the model that was asked for, by one that is allowed. */
  predicate Matches(intent: Intent, result: ProviderResult) {
    && result.kind == COMPLETED && result.completion.Some?
    && result.completion.value.requestedModelId == intent.request.requestedModelId
    && result.completion.value.returnedModelId in intent.request.allowedModelIds
  }

  /**
    Without usage the whole reservation stays charged, whatever the outcome; with it, every outcome counts one call.
  */
  lemma {:induction false} ChargeMeaning(intent: Intent, result: ProviderResult)
    requires FromResult(intent, result).Ok?
    ensures var s := FromResult(intent, result).value;
      var usage := if result.kind == COMPLETED then result.completion.value.usage else result.usage;
      && (usage == None ==> s.charged == intent.reserved)
      && (usage.Some? ==> Tokens(s.charged) == (1, usage.value.inputTokens, usage.value.outputTokens))
      && (usage.Some? && s.outcome in {RequestedModelMismatch, ReturnedModelMismatch} ==>
        s.charged.costUsd == intent.reserved.costUsd)
      && (usage.Some? && s.outcome !in {RequestedModelMismatch, ReturnedModelMismatch} ==>
        s.charged.costUsd == usage.value.costUsd)
      && (s.outcome == Completed <==> Matches(intent, result))
  {}

  /** A completion is never charged more than was reserved if its usage is within the maxima, mismatches included. */
  lemma {:induction false} CompletionIsHonest(intent: Intent, pricing: Pricing, reported: Reported, requested: ModelId,
      returned: ModelId)
    requires Nonnegative(pricing) && intent.request.allowedModelIds <= pricing.Keys
    requires intent.reserved == Amounts(1, intent.request.maxInputTokens, intent.request.maxOutputTokens,
      intent.reserved.costUsd)
    requires IsWorstPrice(intent.request, pricing, intent.reserved.costUsd) && WithinMaxima(reported, intent.request)
    ensures var usage := UsageFromResponse(reported, returned, intent.request, pricing);
      Honest(Closed(intent, SettleCompletion(intent, Completion(requested, returned, Some(usage)))))
  {
    PricesAreNonnegative(intent.request, pricing, intent.reserved.costUsd);
    if returned in intent.request.allowedModelIds {
      HonestUsageFits(reported, returned, intent.request, pricing, intent.reserved);
      PriceIsMonotone(0, 0, reported.inputTokens, reported.visibleOutputTokens + reported.reasoningTokens,
        pricing[returned]);
    }
  }
}
