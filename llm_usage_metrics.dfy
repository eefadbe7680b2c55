/**
 * The usage collector every language-model call reports to: it estimates the
 * cost of a call from a per-model price table and keeps running totals of
 * calls, tokens and cost for the session summary.
 *
 * Costs are exact `real` numbers (the source uses floating point); the
 * timestamp of a call is a parameter.
 */
module LlmUsageMetrics {
  import opened Model

  datatype Provider = OpenAI | Anthropic

  /** Prices in US dollars per 1000 input and per 1000 output tokens. */
  datatype Price = Price(input: real, output: real)

  /** `COST_PER_1K_TOKENS` */
  const CostPer1kTokens: seq<(Provider, seq<(string, Price)>)> := [
    (OpenAI, [
      ("gpt-4", Price(0.03, 0.06)),
      ("gpt-4-turbo", Price(0.01, 0.03)),
      ("gpt-3.5-turbo", Price(0.001, 0.002))]),
    (Anthropic, [
      ("claude-3-opus", Price(0.015, 0.075)),
      ("claude-3-sonnet", Price(0.003, 0.015)),
      ("claude-3-haiku", Price(0.00025, 0.00125))])
  ]

  /** `table[key]`, or `None` when the key is missing. */
  function Lookup<K(==), V>(table: seq<(K, V)>, key: K): (r: Option<V>)
    ensures r.Some? ==> exists i :: 0 <= i < |table| && table[i] == (key, r.value)
    ensures r.None? ==> forall i :: 0 <= i < |table| ==> table[i].0 != key
  {
    if table == [] then None
    else if table[0].0 == key then Some(table[0].1)
    else
      var r := Lookup(table[1..], key);
      assert forall i :: 1 <= i < |table| ==> table[i] == table[1..][i - 1];
      r
  }

  /** The price of a model, when the provider and the model are both in the table. */
  function PriceOf(provider: Provider, model: string): Option<Price> {
    match Lookup(CostPer1kTokens, provider)
    case None => None
    case Some(models) => Lookup(models, model)
  }

  /** Every listed price is non-negative. */
  lemma PricesNonNegative(provider: Provider, model: string)
    ensures PriceOf(provider, model).Some? ==> PriceOf(provider, model).value.input >= 0.0 && PriceOf(provider, model).value.output >= 0.0
  {
    var p := Lookup(CostPer1kTokens, provider);
    if p.Some? {
      assert p.value == CostPer1kTokens[0].1 || p.value == CostPer1kTokens[1].1;
    }
  }

  /** `estimate_cost` */
  function EstimateCost(provider: Provider, model: string, inputTokens: int, outputTokens: int): (r: real)
    ensures PriceOf(provider, model).None? ==> r == 0.0
  {
    match PriceOf(provider, model)
    case None => 0.0
    case Some(price) => (inputTokens as real / 1000.0) * price.input + (outputTokens as real / 1000.0) * price.output
  }

  /** A known model never costs less than nothing for a real call. */
  lemma EstimateCostNonNegative(provider: Provider, model: string, inputTokens: int, outputTokens: int)
    requires inputTokens >= 0 && outputTokens >= 0
    ensures EstimateCost(provider, model, inputTokens, outputTokens) >= 0.0
  {
    PricesNonNegative(provider, model);
  }

  /** The estimate is additive: two calls cost what one call with their tokens together costs. */
  lemma EstimateCostAdditive(provider: Provider, model: string, in1: int, out1: int, in2: int, out2: int)
    ensures EstimateCost(provider, model, in1 + in2, out1 + out2) ==
      EstimateCost(provider, model, in1, out1) + EstimateCost(provider, model, in2, out2)
  {
  }

  /** `LLMUsageMetrics`: the record of one call. */
  datatype UsageMetrics = UsageMetrics(
    provider: Provider,
    model: string,
    inputTokens: int,
    outputTokens: int,
    totalTokens: int,
    estimatedCost: real,
    timestamp: int,
    operationType: string)

  /** The result of `get_session_summary`. */
  datatype SessionSummary = SessionSummary(
    totalCalls: int,
    totalInputTokens: int,
    totalOutputTokens: int,
    totalTokens: int,
    totalEstimatedCost: real,
    averageCostPerCall: real)

  function SumInput(calls: seq<UsageMetrics>): int {
    if calls == [] then 0 else SumInput(calls[..|calls| - 1]) + calls[|calls| - 1].inputTokens
  }

  function SumOutput(calls: seq<UsageMetrics>): int {
    if calls == [] then 0 else SumOutput(calls[..|calls| - 1]) + calls[|calls| - 1].outputTokens
  }

  function SumCost(calls: seq<UsageMetrics>): real {
    if calls == [] then 0.0 else SumCost(calls[..|calls| - 1]) + calls[|calls| - 1].estimatedCost
  }

  /** `LLMUsageCollector`: the running totals of a session. */
  class UsageCollector {
    var totalCost: real
    var totalCalls: int
    var totalInputTokens: int
    var totalOutputTokens: int
    /** The calls logged so far. */
    ghost var calls: seq<UsageMetrics>

    /** The totals are the sums over the logged calls. */
    ghost predicate Valid()
      reads this
    {
      && totalCalls == |calls|
      && totalInputTokens == SumInput(calls)
      && totalOutputTokens == SumOutput(calls)
      && totalCost == SumCost(calls)
    }

    /** A fresh collector has seen no call. */
    constructor()
      ensures Valid() && calls == []
      ensures totalCost == 0.0 && totalCalls == 0 && totalInputTokens == 0 && totalOutputTokens == 0
    {
      totalCost := 0.0;
      totalCalls := 0;
      totalInputTokens := 0;
      totalOutputTokens := 0;
      calls := [];
    }

    /** `log_usage`: record one call and add it to the totals. */
    method LogUsage(provider: Provider, model: string, inputTokens: int, outputTokens: int, operationType: string, timestamp: int)
      returns (metrics: UsageMetrics)
      requires Valid()
      modifies this
      ensures Valid() && calls == old(calls) + [metrics]
      ensures metrics == UsageMetrics(provider, model, inputTokens, outputTokens, inputTokens + outputTokens,
                                      EstimateCost(provider, model, inputTokens, outputTokens), timestamp, operationType)
      ensures totalCalls == old(totalCalls) + 1
      ensures totalInputTokens == old(totalInputTokens) + inputTokens
      ensures totalOutputTokens == old(totalOutputTokens) + outputTokens
      ensures totalCost == old(totalCost) + metrics.estimatedCost
    {
      var cost := EstimateCost(provider, model, inputTokens, outputTokens);
      metrics := UsageMetrics(provider, model, inputTokens, outputTokens, inputTokens + outputTokens, cost, timestamp, operationType);
      totalCost := totalCost + cost;
      totalCalls := totalCalls + 1;
      totalInputTokens := totalInputTokens + inputTokens;
      totalOutputTokens := totalOutputTokens + outputTokens;
      calls := calls + [metrics];
      assert calls[..|calls| - 1] == old(calls);
    }

    /** `get_session_summary` */
    function GetSessionSummary(): (r: SessionSummary)
      reads this
      ensures r.totalTokens == r.totalInputTokens + r.totalOutputTokens
      ensures r.totalCalls == 0 ==> r.averageCostPerCall == 0.0
      ensures r.totalCalls > 0 ==> r.averageCostPerCall * r.totalCalls as real == r.totalEstimatedCost
    {
      SessionSummary(totalCalls, totalInputTokens, totalOutputTokens, totalInputTokens + totalOutputTokens,
                     totalCost, if totalCalls > 0 then totalCost / totalCalls as real else 0.0)
    }
  }

  /** A call as `log_usage` records it: its own token total and the estimate of its model. */
  predicate Logged(m: UsageMetrics) {
    m.inputTokens >= 0 && m.outputTokens >= 0 && m.totalTokens == m.inputTokens + m.outputTokens &&
    m.estimatedCost == EstimateCost(m.provider, m.model, m.inputTokens, m.outputTokens)
  }

  /** A session of such calls has a non-negative total cost, and its cost is that of all its tokens at once when it used one model. */
  lemma {:induction false} SessionCost(calls: seq<UsageMetrics>, provider: Provider, model: string)
    requires forall i :: 0 <= i < |calls| ==> Logged(calls[i])
    ensures SumCost(calls) >= 0.0
    ensures (forall i :: 0 <= i < |calls| ==> calls[i].provider == provider && calls[i].model == model) ==>
      SumCost(calls) == EstimateCost(provider, model, SumInput(calls), SumOutput(calls))
  {
    if calls != [] {
      var last := calls[|calls| - 1];
      SessionCost(calls[..|calls| - 1], provider, model);
      EstimateCostNonNegative(last.provider, last.model, last.inputTokens, last.outputTokens);
      EstimateCostAdditive(provider, model, SumInput(calls[..|calls| - 1]), SumOutput(calls[..|calls| - 1]), last.inputTokens, last.outputTokens);
    }
  }
}
