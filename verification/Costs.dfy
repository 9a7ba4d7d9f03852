/** Prices: the gateway's cost estimate per request, and the economics of one CLI session. */
module Costs {

  datatype Rate = Rate(input: real, output: real)

  /** Dollars per thousand tokens; a model the gateway has no price for costs nothing. */
  function GatewayRate(model: string): Rate {
    if model == "gpt-4o" then Rate(0.0025, 0.01)
    else if model == "gpt-4o-mini" || model == "gemini-3.7-flash" then Rate(0.00015, 0.0006)
    else if model == "claude-3-5-sonnet-20241022" then Rate(0.003, 0.015)
    else if model == "claude-3-haiku-20240307" then Rate(0.00025, 0.00125)
    else if model == "gemini-3.6-flash" || model == "gemini-2.0-flash" then Rate(0.000075, 0.0003)
    else if model == "gemini-2.5-pro" || model == "gemini-1.5-pro" then Rate(0.00125, 0.005)
    else Rate(0.0, 0.0)
  }

  function GatewayCost(model: string, input: int, output: int): real {
    input as real / 1000.0 * GatewayRate(model).input + output as real / 1000.0 * GatewayRate(model).output
  }

  // ----- the session -----

  const BASELINE := Rate(3.0, 15.0)

  /** Dollars per million tokens for a model or preset name, also an unknown one. */
  function SessionRate(alias: string): Rate {
    if alias in ["auto", "explore", "fast", "gemini-3.6-flash", "gemini-2.0-flash", "gemini-1.5-flash"]
    then Rate(0.075, 0.30)
    else if alias in ["build", "reason", "review", "quality", "claude-3-5-sonnet-20241022"] then Rate(3.0, 15.0)
    else if alias in ["smart", "gpt-4o"] then Rate(2.5, 10.0)
    else if alias in ["cheap", "gpt-4o-mini", "gemini-3.7-flash"] then Rate(0.15, 0.60)
    else if alias == "claude-3-haiku-20240307" then Rate(0.25, 1.25)
    else if alias in ["gemini-2.5-pro", "gemini-1.5-pro"] then Rate(1.25, 5.0)
    else if "claude" <= alias then Rate(3.0, 15.0)
    else if "gemini" <= alias then Rate(0.075, 0.30)
    else Rate(2.5, 10.0)
  }

  function CostAt(rate: Rate, input: int, output: int): real {
    input as real / 1_000_000.0 * rate.input + output as real / 1_000_000.0 * rate.output
  }

  datatype Usage = Usage(model: string, input: int, output: int)

  datatype Totals = Totals(
    requests: nat, input: int, output: int, cost: real, baseline: real, calls: map<string, nat>)

  const NOTHING := Totals(0, 0, 0, 0.0, 0.0, map[])

  function CallsOf(t: Totals, model: string): nat {
    if model in t.calls then t.calls[model] else 0
  }

  function Plus(t: Totals, u: Usage): Totals {
    Totals(t.requests + 1, t.input + u.input, t.output + u.output,
           t.cost + CostAt(SessionRate(u.model), u.input, u.output), t.baseline + CostAt(BASELINE, u.input, u.output),
           t.calls[u.model := CallsOf(t, u.model) + 1])
  }

  function Recorded(us: seq<Usage>): Totals {
    if us == [] then NOTHING else Plus(Recorded(us[..|us| - 1]), us[|us| - 1])
  }

  class SessionStats {
    var totals: Totals

    constructor ()
      ensures totals == NOTHING
    {
      totals := NOTHING;
    }

    method Record(model: string, input: int, output: int)
      modifies this
      ensures totals == Plus(old(totals), Usage(model, input, output))
    {
      totals := totals.(
        requests := totals.requests + 1, input := totals.input + input, output := totals.output + output);
      totals := totals.(cost := totals.cost + CostAt(SessionRate(model), input, output));
      totals := totals.(baseline := totals.baseline + CostAt(BASELINE, input, output));
      var before := if model in totals.calls then totals.calls[model] else 0;
      totals := totals.(calls := totals.calls[model := before + 1]);
    }
  }

  // ----- what a session's totals satisfy -----

  lemma RateBelowBaseline(alias: string)
    ensures 0.0 <= SessionRate(alias).input <= BASELINE.input && 0.0 <= SessionRate(alias).output <= BASELINE.output
  {
  }

  lemma ScaleUp(x: real, a: real, b: real)
    requires x >= 0.0 && a <= b
    ensures x * a <= x * b
  {
  }

  /** In every session the total cost never exceeds what the baseline model would have cost. */
  lemma {:induction false} NeverAboveBaseline(us: seq<Usage>)
    requires forall k :: 0 <= k < |us| ==> us[k].input >= 0 && us[k].output >= 0
    ensures Recorded(us).cost <= Recorded(us).baseline
  {
    if us != [] {
      var n, u := |us| - 1, us[|us| - 1];
      NeverAboveBaseline(us[..n]);
      RateBelowBaseline(u.model);
      ScaleUp(u.input as real / 1_000_000.0, SessionRate(u.model).input, BASELINE.input);
      ScaleUp(u.output as real / 1_000_000.0, SessionRate(u.model).output, BASELINE.output);
    }
  }

  ghost function Sum(m: map<string, nat>): nat
    decreases |m|
  {
    if m == map[] then 0
    else
      var k :| k in m;
      m[k] + Sum(m - {k})
  }

  /** The sum does not depend on the order in which the keys are taken. */
  lemma {:induction false} SumTakes(m: map<string, nat>, k: string)
    requires k in m
    ensures Sum(m) == m[k] + Sum(m - {k})
    decreases |m|
  {
    var j :| j in m && Sum(m) == m[j] + Sum(m - {j});
    if j != k {
      SumTakes(m - {j}, k);
      SumTakes(m - {k}, j);
      assert m - {j} - {k} == m - {k} - {j};
    }
  }

  lemma SumPut(m: map<string, nat>, k: string, v: nat)
    ensures Sum(m[k := v]) == Sum(m - {k}) + v
  {
    SumTakes(m[k := v], k);
    assert m[k := v] - {k} == m - {k};
  }

  /** The calls per model always add up to the requests. */
  lemma {:induction false} CallsAddUp(us: seq<Usage>)
    ensures Sum(Recorded(us).calls) == Recorded(us).requests == |us|
  {
    if us != [] {
      var t, model := Recorded(us[..|us| - 1]), us[|us| - 1].model;
      CallsAddUp(us[..|us| - 1]);
      SumPut(t.calls, model, CallsOf(t, model) + 1);
      if model in t.calls {
        SumTakes(t.calls, model);
      } else {
        assert t.calls - {model} == t.calls;
      }
    }
  }

  /** The models the gateway has a price for. */
  const PRICED: seq<string> := [
    "gpt-4o", "gpt-4o-mini", "gemini-3.7-flash", "claude-3-5-sonnet-20241022", "claude-3-haiku-20240307",
    "gemini-3.6-flash", "gemini-2.0-flash", "gemini-2.5-pro", "gemini-1.5-pro"
  ]

  /**
   * The two price tables agree: for every model the gateway has a price for, its estimate is the
   * session's price; for any other model the gateway estimates nothing, whatever the session shows.
   */
  lemma PricesAgree(model: string, input: int, output: int)
    ensures model in PRICED ==> GatewayCost(model, input, output) == CostAt(SessionRate(model), input, output)
    ensures model !in PRICED ==> GatewayCost(model, input, output) == 0.0
  {
    if model in PRICED {
      RatesAgree(model);
    } else {
      Unpriced(model);
    }
    Thousandth(input, GatewayRate(model).input);
    Thousandth(output, GatewayRate(model).output);
  }

  lemma RatesAgree(model: string)
    requires model in PRICED
    ensures SessionRate(model) == Rate(1000.0 * GatewayRate(model).input, 1000.0 * GatewayRate(model).output)
  {
  }

  lemma Unpriced(model: string)
    requires model !in PRICED
    ensures GatewayRate(model) == Rate(0.0, 0.0)
  {
  }

  lemma Thousandth(n: int, rate: real)
    ensures n as real / 1000.0 * rate == n as real / 1_000_000.0 * (1000.0 * rate)
  {
  }

  /** Presets are priced as the model they stand for. */
  lemma PresetPrices(alias: string)
    ensures alias in ["auto", "explore", "fast"] ==> SessionRate(alias) == SessionRate("gemini-3.6-flash")
    ensures alias in ["build", "reason", "review", "quality"]
            ==> SessionRate(alias) == SessionRate("claude-3-5-sonnet-20241022")
    ensures alias == "smart" ==> SessionRate(alias) == SessionRate("gpt-4o")
    ensures alias == "cheap" ==> SessionRate(alias) == SessionRate("gpt-4o-mini")
  {
  }

  /** A name outside the table is priced by its family: Claude as Sonnet, Gemini as Flash, any other as GPT-4o. */
  lemma FamilyPrices(alias: string)
    requires alias !in PRICED && alias != "gemini-1.5-flash"
    requires alias !in ["auto", "explore", "fast", "build", "reason", "review", "quality", "smart", "cheap"]
    ensures "claude" <= alias ==> SessionRate(alias) == Rate(3.0, 15.0)
    ensures "gemini" <= alias ==> SessionRate(alias) == Rate(0.075, 0.30)
    ensures !("claude" <= alias) && !("gemini" <= alias) ==> SessionRate(alias) == Rate(2.5, 10.0)
  {
    if "claude" <= alias {
      assert alias[0] == 'c';
    }
    if "gemini" <= alias {
      assert alias[0] == 'g';
    }
  }

  // ----- the totals are sums -----

  function Inputs(us: seq<Usage>): int {
    if us == [] then 0 else us[0].input + Inputs(us[1..])
  }

  function Outputs(us: seq<Usage>): int {
    if us == [] then 0 else us[0].output + Outputs(us[1..])
  }

  function Uses(us: seq<Usage>, model: string): nat {
    if us == [] then 0 else (if us[0].model == model then 1 else 0) + Uses(us[1..], model)
  }

  lemma {:induction false} SumsSnoc(us: seq<Usage>, u: Usage, model: string)
    ensures Inputs(us + [u]) == Inputs(us) + u.input && Outputs(us + [u]) == Outputs(us) + u.output
    ensures Uses(us + [u], model) == Uses(us, model) + if u.model == model then 1 else 0
  {
    if us == [] {
      assert us + [u] == [u] && [u][1..] == [];
    } else {
      assert (us + [u])[1..] == us[1..] + [u];
      SumsSnoc(us[1..], u, model);
    }
  }

  /**
   * What a session shows: the tokens in and out of all its requests, how often each model was used,
   * and, as three dollars per million tokens in and fifteen out, what the baseline model would cost.
   */
  lemma {:induction false} TotalsExactly(us: seq<Usage>, model: string)
    ensures var t := Recorded(us);
      && t.requests == |us| && t.input == Inputs(us) && t.output == Outputs(us)
      && CallsOf(t, model) == Uses(us, model)
      && t.baseline == (3 * Inputs(us) + 15 * Outputs(us)) as real / 1_000_000.0
    decreases |us|
  {
    if us != [] {
      var n := |us| - 1;
      TotalsExactly(us[..n], model);
      SumsSnoc(us[..n], us[n], model);
      assert us == us[..n] + [us[n]];
    }
  }

  /** A session in which one model is used throughout costs that model's rate on the tokens in and out. */
  lemma {:induction false} OneModelSession(us: seq<Usage>, model: string)
    requires forall k :: 0 <= k < |us| ==> us[k].model == model
    ensures Recorded(us).cost == CostAt(SessionRate(model), Inputs(us), Outputs(us))
    decreases |us|
  {
    if us != [] {
      var n := |us| - 1;
      OneModelSession(us[..n], model);
      SumsSnoc(us[..n], us[n], model);
      assert us == us[..n] + [us[n]];
      CostAdds(SessionRate(model), Inputs(us[..n]), Outputs(us[..n]), us[n].input, us[n].output);
    }
  }

  lemma CostAdds(rate: Rate, i: int, o: int, j: int, p: int)
    ensures CostAt(rate, i + j, o + p) == CostAt(rate, i, o) + CostAt(rate, j, p)
  {
    Spread(i, j, rate.input);
    Spread(o, p, rate.output);
  }

  lemma Spread(i: int, j: int, rate: real)
    ensures (i + j) as real / 1_000_000.0 * rate == i as real / 1_000_000.0 * rate + j as real / 1_000_000.0 * rate
  {
  }
}
