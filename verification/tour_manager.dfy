/**
 * `TourManager.generate_tour`: one planner call, one specialist call per
 * requested interest that has a specialist, one orchestrator call whose
 * prompt embeds the plan and every specialist block; the first exception
 * aborts the run and propagates.
 *
 * The language model is an oracle `service(i, call)`: the reply to the
 * `i`-th call of the run (counting from 0), or the exception it raised.
 * The index lets two identical prompts receive different replies.
 */
module TourManager {
  import opened Wrappers
  import opened Agents
  import opened InsertionDict
  import opened TourPrompts
  import opened Text

  /** Which agent a call goes to. */
  datatype Role = Planner | Specialist(interest: string) | Orchestrator

  /** One `agent.run(prompt)` call. */
  datatype Call = Call(role: Role, prompt: string)

  /** The language model: call index and call to reply text or exception message. */
  type Service = (nat, Call) -> Result<string, string>

  /**
   * The interests that get a specialist call, in request order and with
   * repetitions kept (the loop over `interests` with its `in` filter).
   */
  function KnownInterests(interests: seq<string>): (r: seq<string>)
    ensures |r| <= |interests|
  {
    if |interests| == 0 then []
    else
      var last := interests[|interests| - 1];
      KnownInterests(interests[..|interests| - 1]) + (if HasSpecialist(last) then [last] else [])
  }

  /**
   * Each interest with a specialist is researched as many times as it is
   * requested; one without a specialist is never researched.
   */
  lemma {:induction false} KnownInterestsCount(interests: seq<string>)
    ensures forall x :: multiset(KnownInterests(interests))[x]
                        == (if HasSpecialist(x) then multiset(interests)[x] else 0)
    decreases |interests|
  {
    if |interests| > 0 {
      var n := |interests| - 1;
      KnownInterestsCount(interests[..n]);
      assert interests == interests[..n] + [interests[n]];
      assert multiset(interests) == multiset(interests[..n]) + multiset{interests[n]};
    }
  }

  /** Filtering a prefix of the request gives a prefix of the filtered request. */
  lemma {:induction false} KnownInterestsPrefix(interests: seq<string>, i: nat)
    requires i <= |interests|
    ensures |KnownInterests(interests[..i])| <= |KnownInterests(interests)|
    ensures KnownInterests(interests[..i]) == KnownInterests(interests)[..|KnownInterests(interests[..i])|]
    decreases |interests|
  {
    if i < |interests| {
      var n := |interests| - 1;
      KnownInterestsPrefix(interests[..n], i);
      assert interests[..n][..i] == interests[..i];
    } else {
      assert interests[..i] == interests;
    }
  }

  /** When every interest has a specialist, every interest is researched, in order. */
  lemma {:induction false} KnownInterestsAllKnown(interests: seq<string>)
    requires forall x :: x in interests ==> HasSpecialist(x)
    ensures KnownInterests(interests) == interests
    decreases |interests|
  {
    if |interests| > 0 {
      var n := |interests| - 1;
      KnownInterestsAllKnown(interests[..n]);
      assert interests == interests[..n] + [interests[n]];
    }
  }

  /** The texts returned by calls 1 .. |trace| - 1 (the specialist replies). */
  function SpecialistReplies(service: Service, trace: seq<Call>): (r: seq<string>)
    requires |trace| >= 1
    requires forall i :: 1 <= i < |trace| ==> service(i, trace[i]).Success?
    ensures |r| == |trace| - 1
  {
    seq(|trace| - 1, j requires 0 <= j < |trace| - 1 => service(j + 1, trace[j + 1]).value)
  }

  lemma KnownInterestsStep(interests: seq<string>, i: nat)
    requires i < |interests|
    ensures KnownInterests(interests[..i + 1])
            == KnownInterests(interests[..i]) + (if HasSpecialist(interests[i]) then [interests[i]] else [])
  {
    assert interests[..i + 1][..i] == interests[..i];
  }

  lemma FromPairsStep(ks: seq<string>, vs: seq<string>, k: string, v: string)
    requires |ks| == |vs|
    ensures FromPairs(ks + [k], vs + [v]) == Put(FromPairs(ks, vs), k, v)
  {
    assert (ks + [k])[..|ks|] == ks;
    assert (vs + [v])[..|vs|] == vs;
  }

  /** The research call for `interest`. */
  function ResearchCall(prompts: PromptWriter, interest: string, location: string, duration: int, plan: string): Call {
    Call(Specialist(interest), prompts.research(interest, location, duration, plan))
  }

  /** Calls 1 .. |trace| - 1 are the research calls for `known`, in order. */

  predicate ResearchedInOrder(prompts: PromptWriter, trace: seq<Call>, known: seq<string>, location: string, duration: int, plan: string) {
    && |trace| <= |known| + 1
    && forall j :: 1 <= j < |trace| ==> trace[j] == ResearchCall(prompts, known[j - 1], location, duration, plan)
  }

  lemma SpecialistRepliesStep(service: Service, before: seq<Call>, call: Call)
    requires |before| >= 1
    requires forall i :: 1 <= i < |before| ==> service(i, before[i]).Success?
    requires service(|before|, call).Success?
    ensures forall i :: 1 <= i < |before + [call]| ==> service(i, (before + [call])[i]).Success?
    ensures SpecialistReplies(service, before + [call])
            == SpecialistReplies(service, before) + [service(|before|, call).value]
  {
    var after := before + [call];
    assert forall i :: 0 <= i < |before| ==> after[i] == before[i];
    var l := SpecialistReplies(service, after);
    var r := SpecialistReplies(service, before) + [service(|before|, call).value];
    assert |l| == |r|;
    forall j | 0 <= j < |l|
      ensures l[j] == r[j]
    {
      if j < |l| - 1 {
        assert after[j + 1] == before[j + 1];
      }
    }
  }

  /** Research calls recorded for a prefix of `known` are research calls for `known`. */
  lemma ResearchedInOrderExtend(prompts: PromptWriter, trace: seq<Call>, researched: seq<string>, known: seq<string>,
                                location: string, duration: int, plan: string)
    requires |researched| <= |known| && researched == known[..|researched|]
    requires ResearchedInOrder(prompts, trace, researched, location, duration, plan)
    ensures ResearchedInOrder(prompts, trace, known, location, duration, plan)
  {
    forall j | 1 <= j < |trace|
      ensures trace[j] == ResearchCall(prompts, known[j - 1], location, duration, plan)
    {
      assert researched[j - 1] == known[j - 1];
    }
  }

  /** All recorded calls, from `from` on, succeeded. */
  predicate SucceededFrom(service: Service, trace: seq<Call>, from: nat) {
    forall j :: from <= j < |trace| ==> service(j, trace[j]).Success?
  }

  /**
   * What holds after the loop has looked at `interests[..i]`: the research
   * calls so far are those for the known interests among them, all
   * succeeded, and `content` is the dict of their replies.
   */
  predicate LoopState(prompts: PromptWriter, service: Service, location: string, interests: seq<string>, duration: int,
                      planCall: Call, plan: string, i: nat, researched: seq<string>,
                      trace: seq<Call>, content: Dict)
  {
    && i <= |interests|
    && researched == KnownInterests(interests[..i])
    && |trace| == |researched| + 1
    && trace[0] == planCall
    && SucceededFrom(service, trace, 0)
    && ResearchedInOrder(prompts, trace, researched, location, duration, plan)
    && content == FromPairs(researched, SpecialistReplies(service, trace))
  }

  lemma LoopStart(prompts: PromptWriter, service: Service, location: string, interests: seq<string>, duration: int,
                  planCall: Call, plan: string)
    requires service(0, planCall) == Success(plan)
    ensures LoopState(prompts, service, location, interests, duration, planCall, plan, 0, [], [planCall], [])
  {
    assert interests[..0] == [];
  }

  /** An interest without a specialist changes nothing. */
  lemma LoopSkip(prompts: PromptWriter, service: Service, location: string, interests: seq<string>, duration: int,
                 planCall: Call, plan: string, i: nat, researched: seq<string>, trace: seq<Call>, content: Dict)
    requires i < |interests| && !HasSpecialist(interests[i])
    requires LoopState(prompts, service, location, interests, duration, planCall, plan, i, researched, trace, content)
    ensures LoopState(prompts, service, location, interests, duration, planCall, plan, i + 1, researched, trace, content)
  {
    KnownInterestsStep(interests, i);
  }

  /** Recording the research call for `x` extends the researched list by `x`. */
  lemma ResearchedStep(prompts: PromptWriter, trace: seq<Call>, researched: seq<string>, x: string,
                       location: string, duration: int, plan: string)
    requires |trace| == |researched| + 1
    requires ResearchedInOrder(prompts, trace, researched, location, duration, plan)
    ensures ResearchedInOrder(prompts, trace + [ResearchCall(prompts, x, location, duration, plan)], researched + [x],
                              location, duration, plan)
  {
    var after := trace + [ResearchCall(prompts, x, location, duration, plan)];
    forall j | 1 <= j < |after|
      ensures after[j] == ResearchCall(prompts, (researched + [x])[j - 1], location, duration, plan)
    {
      if j < |trace| {
        assert after[j] == trace[j] && (researched + [x])[j - 1] == researched[j - 1];
      }
    }
  }

  lemma SucceededStep(service: Service, trace: seq<Call>, call: Call)
    requires SucceededFrom(service, trace, 0)
    requires service(|trace|, call).Success?
    ensures SucceededFrom(service, trace + [call], 0)
  {
    var after := trace + [call];
    assert forall j :: 0 <= j < |trace| ==> after[j] == trace[j];
  }

  /** A successful research call extends the trace, the researched list and the dict. */
  lemma LoopResearched(prompts: PromptWriter, service: Service, location: string, interests: seq<string>, duration: int,
                       planCall: Call, plan: string, i: nat, researched: seq<string>, trace: seq<Call>, content: Dict)
    requires i < |interests| && HasSpecialist(interests[i])
    requires LoopState(prompts, service, location, interests, duration, planCall, plan, i, researched, trace, content)
    requires service(|trace|, ResearchCall(prompts, interests[i], location, duration, plan)).Success?
    ensures var call := ResearchCall(prompts, interests[i], location, duration, plan);
            LoopState(prompts, service, location, interests, duration, planCall, plan, i + 1, researched + [interests[i]],
                      trace + [call], Put(content, interests[i], service(|trace|, call).value))
  {
    var x := interests[i];
    var call := ResearchCall(prompts, x, location, duration, plan);
    var after := trace + [call];
    KnownInterestsStep(interests, i);
    KnownInterestsPrefix(interests, i + 1);
    SucceededStep(service, trace, call);
    SpecialistRepliesStep(service, trace, call);
    FromPairsStep(researched, SpecialistReplies(service, trace), x, service(|trace|, call).value);
    ResearchedStep(prompts, trace, researched, x, location, duration, plan);
  }

  /**
   * What the specialist loop leaves behind: the planner call first, then
   * research calls for a prefix of the known interests in order; on success
   * every known interest was researched, every call succeeded and the dict
   * holds the replies; on failure only the last call failed, with `error`.
   */
  predicate ResearchOutcome(prompts: PromptWriter, service: Service, location: string, interests: seq<string>,
                            duration: int, planCall: Call, plan: string, outcome: Result<Dict, string>, trace: seq<Call>)
  {
    && 1 <= |trace| <= |KnownInterests(interests)| + 1
    && trace[0] == planCall
    && ResearchedInOrder(prompts, trace, KnownInterests(interests), location, duration, plan)
    && (outcome.Success? ==>
          && |trace| == |KnownInterests(interests)| + 1
          && SucceededFrom(service, trace, 0)
          && outcome.value == FromPairs(KnownInterests(interests), SpecialistReplies(service, trace)))
    && (outcome.Failure? ==>
          && |trace| >= 2
          && SucceededFrom(service, trace[..|trace| - 1], 0)
          && service(|trace| - 1, trace[|trace| - 1]) == Failure(outcome.error))
  }

  /** A failing research call ends the run with that call last in the trace. */
  lemma LoopFailed(prompts: PromptWriter, service: Service, location: string, interests: seq<string>, duration: int,
                   planCall: Call, plan: string, i: nat, researched: seq<string>, trace: seq<Call>, content: Dict)
    requires i < |interests| && HasSpecialist(interests[i])
    requires LoopState(prompts, service, location, interests, duration, planCall, plan, i, researched, trace, content)
    requires service(|trace|, ResearchCall(prompts, interests[i], location, duration, plan)).Failure?
    ensures var call := ResearchCall(prompts, interests[i], location, duration, plan);
            ResearchOutcome(prompts, service, location, interests, duration, planCall, plan,
                            Failure(service(|trace|, call).error), trace + [call])
  {
    var x := interests[i];
    var call := ResearchCall(prompts, x, location, duration, plan);
    var after := trace + [call];
    KnownInterestsStep(interests, i);
    KnownInterestsPrefix(interests, i + 1);
    assert after[..|after| - 1] == trace;
    ResearchedStep(prompts, trace, researched, x, location, duration, plan);
    ResearchedInOrderExtend(prompts, after, researched + [x], KnownInterests(interests), location, duration, plan);
  }

  /** After the last interest every known interest has been researched. */
  lemma LoopDone(prompts: PromptWriter, service: Service, location: string, interests: seq<string>, duration: int,
                 planCall: Call, plan: string, researched: seq<string>, trace: seq<Call>, content: Dict)
    requires LoopState(prompts, service, location, interests, duration, planCall, plan, |interests|, researched, trace, content)
    ensures ResearchOutcome(prompts, service, location, interests, duration, planCall, plan, Success(content), trace)
  {
    assert interests[..|interests|] == interests;
  }

  /**
   * The specialist loop, run after the planner call `planCall` returned
   * `plan`: one research call per known interest; the first exception stops
   * the loop.
   */
  method ResearchAll(prompts: PromptWriter, location: string, interests: seq<string>, duration: int, service: Service,
                     planCall: Call, plan: string)
    returns (outcome: Result<Dict, string>, trace: seq<Call>)
    requires service(0, planCall) == Success(plan)
    ensures ResearchOutcome(prompts, service, location, interests, duration, planCall, plan, outcome, trace)
  {
    trace := [planCall];
    var content: Dict := [];
    ghost var researched: seq<string> := [];
    var i := 0;
    LoopStart(prompts, service, location, interests, duration, planCall, plan);
    while i < |interests|
      invariant LoopState(prompts, service, location, interests, duration, planCall, plan, i, researched, trace, content)
    {
      var interest := interests[i];
      if HasSpecialist(interest) {
        var call := ResearchCall(prompts, interest, location, duration, plan);
        var reply := service(|trace|, call);
        if reply.Failure? {
          LoopFailed(prompts, service, location, interests, duration, planCall, plan, i, researched, trace, content);
          trace := trace + [call];
          return Failure(reply.error), trace;
        }
        LoopResearched(prompts, service, location, interests, duration, planCall, plan, i, researched, trace, content);
        trace := trace + [call];
        researched := researched + [interest];
        content := Put(content, interest, reply.value);
      } else {
        LoopSkip(prompts, service, location, interests, duration, planCall, plan, i, researched, trace, content);
      }
      i := i + 1;
    }
    LoopDone(prompts, service, location, interests, duration, planCall, plan, researched, trace, content);
    outcome := Success(content);
  }

  /**
   * What a run of the pipeline issues: the planner first, then one research
   * call per known interest carrying the plan, then the orchestrator on the
   * plan and the dict of specialist replies. Every call but the last
   * succeeded, and the run stops early only at a call that raised.
   */
  predicate TourRun(prompts: PromptWriter, location: string, interests: seq<string>, duration: int,
                    service: Service, trace: seq<Call>)
  {
    var known := KnownInterests(interests);
    && 1 <= |trace| <= |known| + 2
    && trace[0] == Call(Planner, prompts.planning(location, interests, duration))
    && (forall i :: 0 <= i < |trace| - 1 ==> service(i, trace[i]).Success?)
    && (forall i :: 1 <= i < |trace| && i <= |known| ==>
          trace[i] == ResearchCall(prompts, known[i - 1], location, duration, service(0, trace[0]).value))
    && (|trace| == |known| + 2 ==>
          trace[|known| + 1] == Call(Orchestrator,
            prompts.merge(location, interests, duration, service(0, trace[0]).value,
                          FromPairs(known, SpecialistReplies(service, trace[..|known| + 1])))))
    && (service(|trace| - 1, trace[|trace| - 1]).Success? ==> |trace| == |known| + 2)
  }

  /**
   * The pipeline. `trace` lists every call issued, in order; `result` is the
   * orchestrator's text or the first exception. The postconditions pin down
   * `trace` and `result` completely from the inputs and the oracle.
   */
  method GenerateTour(prompts: PromptWriter, location: string, interests: seq<string>, duration: int, service: Service)
    returns (result: Result<string, string>, trace: seq<Call>)
    ensures TourRun(prompts, location, interests, duration, service, trace)
    // The run fails exactly when the last call did, with that call's
    // exception; otherwise the orchestrator's reply is the tour.
    ensures result.Failure? <==> service(|trace| - 1, trace[|trace| - 1]).Failure?
    ensures result.Failure? ==> result.error == service(|trace| - 1, trace[|trace| - 1]).error
    ensures result.Success? ==> result.value == service(|trace| - 1, trace[|trace| - 1]).value
  {
    var planCall := Call(Planner, prompts.planning(location, interests, duration));
    var planned := service(0, planCall);
    if planned.Failure? {
      return Failure(planned.error), [planCall];
    }
    var plan := planned.value;

    var outcome;
    outcome, trace := ResearchAll(prompts, location, interests, duration, service, planCall, plan);
    if outcome.Failure? {
      assert forall j :: 0 <= j < |trace| - 1 ==> trace[..|trace| - 1][j] == trace[j];
      return Failure(outcome.error), trace;
    }

    var mergeCall := Call(Orchestrator, prompts.merge(location, interests, duration, plan, outcome.value));
    var researchTrace := trace;
    var merged := service(|trace|, mergeCall);
    trace := trace + [mergeCall];
    assert trace[..|trace| - 1] == researchTrace;
    assert forall j :: 0 <= j < |researchTrace| ==> trace[j] == researchTrace[j];
    if merged.Failure? {
      return Failure(merged.error), trace;
    }
    result := Success(merged.value);
  }

  /** A pipeline run with the source's own prompt texts. */
  predicate SourceTourRun(location: string, interests: seq<string>, duration: int, service: Service, trace: seq<Call>) {
    TourRun(SourcePrompts, location, interests, duration, service, trace)
  }

  /** The pipeline as the page runs it, with the source's prompt texts. */
  method GenerateSourceTour(location: string, interests: seq<string>, duration: int, service: Service)
    returns (result: Result<string, string>, trace: seq<Call>)
    ensures SourceTourRun(location, interests, duration, service, trace)
    ensures result.Failure? <==> service(|trace| - 1, trace[|trace| - 1]).Failure?
    ensures result.Failure? ==> result.error == service(|trace| - 1, trace[|trace| - 1]).error
    ensures result.Success? ==> result.value == service(|trace| - 1, trace[|trace| - 1]).value
  {
    result, trace := GenerateTour(SourcePrompts, location, interests, duration, service);
  }

  /** The `k`-th specialist reply of a trace prefix is the reply to call `k + 1`. */
  lemma SpecialistReplyAt(service: Service, trace: seq<Call>, n: nat, k: nat)
    requires 1 <= n <= |trace|
    requires forall i :: 1 <= i < n ==> service(i, trace[i]).Success?
    requires k < n - 1
    ensures SpecialistReplies(service, trace[..n])[k] == service(k + 1, trace[k + 1]).value
  {
    assert trace[..n][k + 1] == trace[k + 1];
  }

  /** A run that reaches the orchestrator: every earlier call succeeded, and the last is the merge call. */
  lemma TourRunReachesMerge(prompts: PromptWriter, location: string, interests: seq<string>, duration: int,
                            service: Service, trace: seq<Call>)
    requires TourRun(prompts, location, interests, duration, service, trace)
    requires |trace| == |KnownInterests(interests)| + 2
    ensures forall i :: 0 <= i < |trace| - 1 ==> service(i, trace[i]).Success?
    ensures trace[|trace| - 1]
            == Call(Orchestrator, prompts.merge(location, interests, duration, service(0, trace[0]).value,
                                                FromPairs(KnownInterests(interests),
                                                          SpecialistReplies(service, trace[..|trace| - 1]))))
  {
  }

  /**
   * Block `j` of a merge prompt built over the replies of the calls
   * `1..|known|`, with the facts about the prompt around it.
   */
  lemma MergeCallBlockAt(w: Wording, location: string, interests: seq<string>, duration: int, plan: string,
                         known: seq<string>, service: Service, trace: seq<Call>, replies: seq<string>, d: Dict,
                         prompt: string, j: nat)
    requires |known| + 1 <= |trace|
    requires forall i :: 1 <= i < |known| + 1 ==> service(i, trace[i]).Success?
    requires replies == SpecialistReplies(service, trace[..|known| + 1])
    requires d == FromPairs(known, replies)
    requires prompt == MergePrompt(w, location, interests, duration, plan, d)
    requires j < |d|
    ensures FirstSeenOrder(known, Keys(d))
    ensures Contains(prompt, plan)
    ensures d[j].0 in known
    ensures OccursAt(prompt, Block(d[j].0, service(LastIndex(known, d[j].0) + 1, trace[LastIndex(known, d[j].0) + 1]).value),
                     BlockOffset(w, location, interests, duration, plan, d, j))
    ensures j + 1 < |d| ==>
              BlockOffset(w, location, interests, duration, plan, d, j) + |Block(d[j].0, d[j].1)|
              == BlockOffset(w, location, interests, duration, plan, d, j + 1)
  {
    FromPairsKeyOrder(known, replies);
    MergePromptHasPlan(w, location, interests, duration, plan, d);
    if j + 1 < |d| {
      BlocksPrefixStep(d, j);
    }
    MergePromptItemAt(w, location, interests, duration, plan, known, replies, j);
    SpecialistReplyAt(service, trace, |known| + 1, LastIndex(known, d[j].0));
  }

  /**
   * What the orchestrator reads in a run that reaches it: the plan, then one
   * block per distinct known interest, in the order the interests were first
   * selected, block `j` carrying the reply to the last research call made
   * for its interest and ending where block `j + 1` starts. This holds for
   * any merge prompt wording `w`, the source's (`SourcePrompts`, whose merge
   * builder is that of `PromptsOf(SourceWording)`) among them.
   */
  lemma OrchestratorPromptBlock(prompts: PromptWriter, w: Wording, location: string, interests: seq<string>,
                                duration: int, service: Service, trace: seq<Call>, j: nat)
    requires prompts.merge == PromptsOf(w).merge
    requires TourRun(prompts, location, interests, duration, service, trace)
    requires |trace| == |KnownInterests(interests)| + 2
    requires j < |FromPairs(KnownInterests(interests), SpecialistReplies(service, trace[..|trace| - 1]))|
    ensures var known := KnownInterests(interests);
            var plan := service(0, trace[0]).value;
            var d := FromPairs(known, SpecialistReplies(service, trace[..|known| + 1]));
            var prompt := trace[|known| + 1].prompt;
            && trace[|known| + 1].role == Orchestrator
            && FirstSeenOrder(known, Keys(d))
            && Contains(prompt, plan)
            && d[j].0 in known
            && OccursAt(prompt, Block(d[j].0, service(LastIndex(known, d[j].0) + 1, trace[LastIndex(known, d[j].0) + 1]).value),
                        BlockOffset(w, location, interests, duration, plan, d, j))
            && (j + 1 < |d| ==>
                  BlockOffset(w, location, interests, duration, plan, d, j) + |Block(d[j].0, d[j].1)|
                  == BlockOffset(w, location, interests, duration, plan, d, j + 1))
  {
    TourRunReachesMerge(prompts, location, interests, duration, service, trace);
    var known := KnownInterests(interests);
    var plan := service(0, trace[0]).value;
    var replies := SpecialistReplies(service, trace[..|known| + 1]);
    var d := FromPairs(known, replies);
    MergeCallBlockAt(w, location, interests, duration, plan, known, service, trace, replies, d, trace[|known| + 1].prompt, j);
  }
}
