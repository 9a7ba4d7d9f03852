/** The failover loop over a candidate chain, and the audit record it leaves behind. */
module Failover {
  import opened Wrappers
  import opened Candidates
  import Costs
  import opened Routing

  // ----- adapter replies and the audit record -----

  datatype Code = ProviderTimeout | RateLimitExceeded | BudgetExceeded | Internal | OtherCode(name: string)

  /** An error that carries a domain code, or any other one (such as an adapter's own error type). */
  datatype Error = Domain(code: Code) | Foreign(message: string)

  function CodeOf(e: Option<Error>): Option<Code> {
    match e
    case None => None
    case Some(Domain(code)) => Some(code)
    case Some(Foreign(_)) => Some(Internal)
  }

  datatype Usage = Usage(input: int, output: int, total: int)

  /** Go's (response, error) pair. */
  datatype Reply = Reply(response: Option<Usage>, error: Option<Error>) {
    predicate Succeeds() {
      response.Some? && error.None?
    }

    /** Without a response nor an error the handler dereferences a nil error. */
    predicate Panics() {
      response.None? && error.None?
    }

    /** What an adapter promises: a response or an error, not both. */
    predicate Proper() {
      response.Some? <==> error.None?
    }
  }

  datatype Status = Success | Failed | TimedOut | RateLimited | OverBudget

  function StatusOf(code: Option<Code>): Status {
    match code
    case Some(ProviderTimeout) => TimedOut
    case Some(RateLimitExceeded) => RateLimited
    case Some(BudgetExceeded) => OverBudget
    case _ => Failed
  }

  /** Which status a failed request gets: three domain errors have their own, all others just fail. */
  lemma StatusExactly(e: Option<Error>)
    ensures StatusOf(CodeOf(e)) == TimedOut <==> e == Some(Domain(ProviderTimeout))
    ensures StatusOf(CodeOf(e)) == RateLimited <==> e == Some(Domain(RateLimitExceeded))
    ensures StatusOf(CodeOf(e)) == OverBudget <==> e == Some(Domain(BudgetExceeded))
    ensures StatusOf(CodeOf(e)) != Success
    ensures forall code ::
      (CodeOf(e) == Some(code) <==> e == Some(Domain(code)) || (e.Some? && e.value.Foreign? && code == Internal))
  {
  }

  class RequestRecord {
    var provider: string
    var model: string
    var strategy: string
    var status: Status
    var usage: Usage
    var latencyMs: int
    var cost: real
    var fallbackUsed: bool
    var retryCount: nat
    var errorCode: Option<Code>

    constructor ()
      ensures provider == "" && model == "" && strategy == "" && status == Success && usage == Usage(0, 0, 0)
      ensures !fallbackUsed && retryCount == 0 && errorCode == None && cost == 0.0
    {
      cost := 0.0;
      provider, model, strategy, status, usage := "", "", "", Success, Usage(0, 0, 0);
      latencyMs, fallbackUsed, retryCount, errorCode := 0, false, 0, None;
    }

    method Complete(provider: string, model: string, usage: Usage, latencyMs: int, cost: real)
      modifies this
      ensures this.provider == provider && this.model == model && this.usage == usage && this.latencyMs == latencyMs
      ensures this.cost == cost && status == Success
      ensures unchanged(`strategy, `fallbackUsed, `retryCount, `errorCode)
    {
      this.provider, this.model, this.usage, this.latencyMs := provider, model, usage, latencyMs;
      this.cost, status := cost, Success;
    }

    method Fail(code: Option<Code>, latencyMs: int)
      modifies this
      ensures this.latencyMs == latencyMs && errorCode == code && status == StatusOf(code)
      ensures status == TimedOut <==> code == Some(ProviderTimeout)
      ensures status == RateLimited <==> code == Some(RateLimitExceeded)
      ensures status == OverBudget <==> code == Some(BudgetExceeded)
      ensures unchanged(`provider, `model, `strategy, `usage, `cost, `fallbackUsed, `retryCount)
    {
      this.latencyMs := latencyMs;
      errorCode := code;
      match code {
        case Some(ProviderTimeout) => status := TimedOut;
        case Some(RateLimitExceeded) => status := RateLimited;
        case Some(BudgetExceeded) => status := OverBudget;
        case _ => status := Failed;
      }
    }
  }

  // ----- the loop -----

  datatype Attempt = Attempt(model: string, providerId: string, tier: Tier, error: Error)

  /** `replies[i]` is what the i-th candidate would answer when its turn comes. */
  ghost predicate FailsUpTo(replies: seq<Reply>, n: nat) {
    n <= |replies| && forall i :: 0 <= i < n ==> replies[i].error.Some?
  }

  ghost predicate TraceOf(chain: seq<Candidate>, replies: seq<Reply>, n: nat, trace: seq<Attempt>) {
    && n <= |chain| == |replies|
    && |trace| == n
    && FailsUpTo(replies, n)
    && forall i :: 0 <= i < n ==>
         && trace[i].model == chain[i].model && trace[i].providerId == chain[i].providerId
         && trace[i].tier == chain[i].tier && replies[i].error == Some(trace[i].error)
  }

  datatype Ending =
    | Answered(index: nat, usage: Usage)
    | Exhausted(lastError: Option<Error>)
    | Panicked(index: nat)

  /** The three ways a chain can end, decided by its first reply without an error. */
  ghost predicate EndsAs(replies: seq<Reply>, e: Ending) {
    match e
    case Answered(i, usage) => i < |replies| && FailsUpTo(replies, i) && replies[i] == Reply(Some(usage), None)
    case Exhausted(last) =>
      FailsUpTo(replies, |replies|) && last == if replies == [] then None else replies[|replies| - 1].error
    case Panicked(i) => i < |replies| && FailsUpTo(replies, i) && replies[i].Panics()
  }

  class ChatHandler {
    constructor () {
    }

    /** Tries the candidates in order; a reply carrying both a response and an error counts as a failure. */
    method TryCandidates(chain: seq<Candidate>, replies: seq<Reply>) returns (e: Ending, trace: seq<Attempt>)
      requires |replies| == |chain|
      ensures EndsAs(replies, e)
      ensures TraceOf(chain, replies, if e.Exhausted? then |chain| else e.index, trace)
    {
      trace := [];
      var lastErr: Option<Error> := None;
      for i := 0 to |chain|
        invariant TraceOf(chain, replies, i, trace)
        invariant lastErr == if i == 0 then None else replies[i - 1].error
      {
        var cand := chain[i];
        var reply := replies[i];
        if reply.error.None? && reply.response.Some? {
          return Answered(i, reply.response.value), trace;
        }
        if reply.error.None? {
          return Panicked(i), trace;
        }
        trace := trace + [Attempt(cand.model, cand.providerId, cand.tier, reply.error.value)];
        lastErr := reply.error;
      }
      e := Exhausted(lastErr);
    }

    /** Steps 9 and 10 of the chat request; no record is saved when the handler panics. */
    method Execute(chain: seq<Candidate>, replies: seq<Reply>, strategy: Option<string>, latencyMs: int)
      returns (e: Ending, trace: seq<Attempt>, record: RequestRecord?)
      requires |replies| == |chain|
      ensures EndsAs(replies, e)
      ensures TraceOf(chain, replies, if e.Exhausted? then |chain| else e.index, trace)
      ensures record == null <==> e.Panicked?
      ensures record != null ==> fresh(record)
      ensures e.Answered? ==>
                && record.status == Success && record.errorCode == None
                && record.provider == chain[e.index].providerId && record.model == chain[e.index].model
                && record.usage == e.usage && record.latencyMs == latencyMs
                && record.cost == Costs.GatewayCost(chain[e.index].model, e.usage.input, e.usage.output)
                && record.retryCount == e.index && (record.fallbackUsed <==> e.index > 0)
                && record.strategy == if strategy.Some? then strategy.value else ""
      ensures e.Exhausted? ==>
                && record.status == StatusOf(CodeOf(e.lastError)) && record.errorCode == CodeOf(e.lastError)
                && record.provider == "" && record.model == "" && record.latencyMs == latencyMs
                && record.retryCount == 0 && !record.fallbackUsed && record.cost == 0.0
      ensures e.Exhausted? ==> record.status != Success
      ensures e.Exhausted?
              && (forall i :: 0 <= i < |replies| && replies[i].error.Some? ==> replies[i].error.value.Foreign?)
              ==> record.status == Failed
    {
      e, trace := TryCandidates(chain, replies);
      match e {
        case Panicked(_) =>
          record := null;
        case Exhausted(lastErr) =>
          record := new RequestRecord();
          record.Fail(CodeOf(lastErr), latencyMs);
        case Answered(i, usage) =>
          record := new RequestRecord();
          if strategy.Some? {
            record.strategy := strategy.value;
          }
          var cost := Costs.GatewayCost(chain[i].model, usage.input, usage.output);
          record.Complete(chain[i].providerId, chain[i].model, usage, latencyMs, cost);
          if |trace| > 0 {
            record.fallbackUsed := true;
            record.retryCount := |trace|;
          }
      }
    }
  }

  // ----- how a chain ends -----

  /** A success comes before any empty reply. */
  ghost predicate SuccessComes(replies: seq<Reply>) {
    exists i :: 0 <= i < |replies| && replies[i].Succeeds() && forall j :: 0 <= j < i ==> !replies[j].Panics()
  }

  /** An empty reply comes before any success. */
  ghost predicate PanicComes(replies: seq<Reply>) {
    exists i :: 0 <= i < |replies| && replies[i].Panics() && forall j :: 0 <= j < i ==> !replies[j].Succeeds()
  }

  /** For any replies there is exactly one ending, and which kind it is can be told from them. */
  lemma {:induction false} EndsExactly(replies: seq<Reply>) returns (e: Ending)
    ensures forall f :: EndsAs(replies, f) <==> f == e
    ensures e.Answered? <==> SuccessComes(replies)
    ensures e.Panicked? <==> PanicComes(replies)
    ensures e.Exhausted? <==> forall i :: 0 <= i < |replies| ==> replies[i].error.Some?
  {
    var i := FirstErrorFree(replies);
    if i == |replies| {
      e := Exhausted(if replies == [] then None else replies[|replies| - 1].error);
    } else if replies[i].response.Some? {
      e := Answered(i, replies[i].response.value);
      assert replies[i].Succeeds();
    } else {
      e := Panicked(i);
      assert replies[i].Panics();
    }
  }

  lemma {:induction false} FirstErrorFree(replies: seq<Reply>) returns (i: nat)
    ensures FailsUpTo(replies, i) && (i < |replies| ==> replies[i].error.None?)
  {
    if replies == [] || replies[0].error.None? {
      i := 0;
    } else {
      var k := FirstErrorFree(replies[1..]);
      i := k + 1;
    }
  }

  /** With proper adapters the request is answered exactly when some candidate would succeed, and never panics. */
  lemma AnsweredExactly(replies: seq<Reply>, e: Ending)
    requires EndsAs(replies, e) && forall i :: 0 <= i < |replies| ==> replies[i].Proper()
    ensures !e.Panicked?
    ensures e.Answered? <==> exists i :: 0 <= i < |replies| && replies[i].Succeeds()
  {
    assert forall i :: 0 <= i < |replies| ==> !replies[i].Panics();
  }

  // ----- failover completeness -----

  /** How each (provider, model) pair would answer. */
  type World = (string, string) -> Reply

  function Replies(world: World, chain: seq<Candidate>): (r: seq<Reply>)
    ensures |r| == |chain| && forall i :: 0 <= i < |chain| ==> r[i] == world(chain[i].providerId, chain[i].model)
  {
    if chain == [] then []
    else [world(chain[0].providerId, chain[0].model)] + Replies(world, chain[1..])
  }

  ghost predicate Proper(world: World) {
    forall id, model :: world(id, model).Proper()
  }

  lemma ReachedMeansAnswered(chain: seq<Candidate>, world: World, d: Candidate, e: Ending)
    requires d in chain && Proper(world) && world(d.providerId, d.model).Succeeds()
    requires EndsAs(Replies(world, chain), e)
    ensures e.Answered? && e.index < |chain|
  {
    var i :| 0 <= i < |chain| && chain[i] == d;
    assert Replies(world, chain)[i].Succeeds();
    AnsweredExactly(Replies(world, chain), e);
  }

  /**
   * Without a usable policy, whatever model is asked for, the request is answered as soon as any
   * pool candidate would answer.
   */
  lemma FailoverComplete(m: Providers, w: Wanted, model: string, complexity: real, any: Provider,
                         world: World, c: Candidate, e: Ending)
    requires InPools(m, c) && Proper(world) && world(c.providerId, c.model).Succeeds()
    requires EndsAs(Replies(world, Automatic(m, w, model, complexity, any)), e)
    ensures e.Answered? && e.index < |Automatic(m, w, model, complexity, any)|
  {
    EveryPoolCandidateIsPlanned(m, w, model, complexity, any, c);
    var chain := Automatic(m, w, model, complexity, any);
    var d :| d in chain && d.Same(c);
    ReachedMeansAnswered(chain, world, d, e);
  }

  /** The same for the plan `RoutePlan` answers. */
  lemma RequestAnswered(m: Providers, model: string, policy: Option<seq<PolicyCandidate>>, complexity: real,
                        chain: seq<Candidate>, world: World, c: Candidate, e: Ending)
    requires IsPlan(m, model, policy, complexity, chain) && !UsablePolicy(m, policy)
    requires InPools(m, c) && Proper(world) && world(c.providerId, c.model).Succeeds()
    requires EndsAs(Replies(world, chain), e)
    ensures e.Answered? && e.index < |chain|
  {
    var d := PlannedTwin(m, model, policy, complexity, chain, c);
    ReachedMeansAnswered(chain, world, d, e);
  }

  lemma PlannedTwin(m: Providers, model: string, policy: Option<seq<PolicyCandidate>>, complexity: real,
                    chain: seq<Candidate>, c: Candidate) returns (d: Candidate)
    requires IsPlan(m, model, policy, complexity, chain) && !UsablePolicy(m, policy) && InPools(m, c)
    ensures d in chain && d.Same(c)
  {
    var w := Classify(model);
    var any :| any in m.Values && chain == Automatic(m, w, model, complexity, any);
    EveryPoolCandidateIsPlanned(m, w, model, complexity, any, c);
    d :| d in chain && d.Same(c);
  }

  /** What the chain of a policy answers when the i-th policy entry would answer `answers[i]`. */
  function PolicyReplies(m: Providers, wanted: seq<PolicyCandidate>, answers: seq<Reply>): (r: seq<Reply>)
    requires |answers| == |wanted|
    ensures |r| == |FromPolicy(m, wanted)|
  {
    if wanted == [] then []
    else
      var n := |wanted| - 1;
      PolicyReplies(m, wanted[..n], answers[..n]) + (if wanted[n].provider in m then [answers[n]] else [])
  }

  lemma {:induction false} PolicyRepliesHold(m: Providers, wanted: seq<PolicyCandidate>, answers: seq<Reply>)
    requires |answers| == |wanted|
    ensures forall r :: r in PolicyReplies(m, wanted, answers)
              <==> exists i :: 0 <= i < |wanted| && wanted[i].provider in m && answers[i] == r
  {
    if wanted != [] {
      var n := |wanted| - 1;
      PolicyRepliesHold(m, wanted[..n], answers[..n]);
      forall r ensures r in PolicyReplies(m, wanted, answers)
                 <==> exists i :: 0 <= i < |wanted| && wanted[i].provider in m && answers[i] == r
      {
        assert forall i :: 0 <= i < n ==> wanted[..n][i] == wanted[i] && answers[..n][i] == answers[i];
      }
    }
  }

  /**
   * A usable policy is on its own: the request is answered exactly when a registered policy entry
   * answers, also if an entry is listed twice and answers differently.
   */
  lemma PolicyAnswers(m: Providers, wanted: seq<PolicyCandidate>, answers: seq<Reply>, e: Ending)
    requires |answers| == |wanted| && forall i :: 0 <= i < |answers| ==> answers[i].Proper()
    requires EndsAs(PolicyReplies(m, wanted, answers), e)
    ensures e.Answered? <==> exists i :: 0 <= i < |wanted| && wanted[i].provider in m && answers[i].Succeeds()
  {
    var replies := PolicyReplies(m, wanted, answers);
    PolicyRepliesHold(m, wanted, answers);
    forall k | 0 <= k < |replies| ensures replies[k].Proper() {
      assert replies[k] in replies;
    }
    AnsweredExactly(replies, e);
    if k :| 0 <= k < |replies| && replies[k].Succeeds() {
      assert replies[k] in replies;
    }
    if i :| 0 <= i < |wanted| && wanted[i].provider in m && answers[i].Succeeds() {
      assert answers[i] in replies;
    }
  }
}
