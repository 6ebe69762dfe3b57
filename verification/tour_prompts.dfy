/**
 * The three prompts the tour manager sends to the language model, built
 * exactly as the f-strings in `TourManager.generate_tour` build them
 * (the fixed text, indentation included, is kept verbatim), and the
 * per-interest blocks of the merge prompt.
 */
module TourPrompts {
  import opened Text
  import opened InsertionDict

  /** The fixed passages of the three prompts, between their placeholders. */
  datatype Phrase =
    | PlanIntro
    | PlanTourOf
    | PlanInterests
    | PlanBreakdown
    | PlanEnd
    | ResearchIntro
    | ResearchAspects
    | ResearchPartOf
    | ResearchPlanHeader
    | ResearchEnd
    | MergeIntro
    | MergeDuration
    | MergeInterests
    | MergePlanHeader
    | MergeContentHeader
    | MergeTaskIntro
    | MergeTaskPacing
    | MergeTaskEnd

  /** A text for each passage; the builders below are stated for any of them. */
  type Wording = Phrase -> string

  /** The source's verbatim text of each passage, indentation included. */
  function SourceWording(p: Phrase): string {
    match p
    case PlanIntro => "\n            Create a time allocation plan for a "
    case PlanTourOf => "-minute audio tour of "
    case PlanInterests => ".\n            \n            The tour should cover these interests: "
    case PlanBreakdown => "\n            \n            Provide a clear breakdown of:\n            1. How many minutes to allocate to each interest area\n            2. The order in which topics should be presented\n            3. Any special considerations for this location\n            \n            Make sure the total time adds up to exactly "
    case PlanEnd => " minutes.\n            "
    case ResearchIntro => "\n                    Research and provide detailed, engaging content about "
    case ResearchAspects => " \n                    aspects of "
    case ResearchPartOf => ".\n                    \n                    This content will be part of a "
    case ResearchPlanHeader => "-minute audio tour.\n                    Based on the time allocation plan, focus on the most interesting and \n                    important information.\n                    \n                    Time Allocation Plan:\n                    "
    case ResearchEnd => "\n                    \n                    Provide rich, engaging content that would be interesting to hear in an \n                    audio tour. Include specific facts, stories, and details that bring \n                    the topic to life.\n                    "
    case MergeIntro => "\n            Create a complete, engaging audio tour script for "
    case MergeDuration => ".\n            \n            Duration: "
    case MergeInterests => " minutes\n            Interests covered: "
    case MergePlanHeader => "\n            \n            Time Allocation Plan:\n            "
    case MergeContentHeader => "\n            \n            Specialist Content:\n            \n            "
    case MergeTaskIntro => "\n            \n            Your task:\n            1. Combine all this content into a single, flowing audio tour narrative\n            2. Create smooth transitions between topics\n            3. Start with a warm welcome and introduction to "
    case MergeTaskPacing => "\n            4. End with a memorable conclusion\n            5. Make it sound natural and engaging when read aloud\n            6. Ensure the pacing feels right for a "
    case MergeTaskEnd => "-minute tour\n            7. Use a conversational, friendly tone throughout\n            \n            The final output should be a complete script ready to be read as an audio tour.\n            "
  }

  /** The planner's prompt. */
  function PlanningPrompt(w: Wording, location: string, interests: seq<string>, duration: int): string {
    Concat(PlanningPieces(w, location, interests, duration))
  }

  function PlanningPieces(w: Wording, location: string, interests: seq<string>, duration: int): seq<string> {
    var d := IntToString(duration);
    [w(PlanIntro), d, w(PlanTourOf), location, w(PlanInterests), Join(interests, ", "), w(PlanBreakdown), d, w(PlanEnd)]
  }

  /** The prompt sent to the specialist for `interest`. */
  function ResearchPrompt(w: Wording, interest: string, location: string, duration: int, plan: string): string {
    Concat(ResearchPieces(w, interest, location, duration, plan))
  }

  function ResearchPieces(w: Wording, interest: string, location: string, duration: int, plan: string): seq<string> {
    [w(ResearchIntro), Lower(interest), w(ResearchAspects), location, w(ResearchPartOf),
     IntToString(duration), w(ResearchPlanHeader), plan, w(ResearchEnd)]
  }

  /** One specialist's section of the merge prompt. */
  function Block(interest: string, content: string): string {
    "\n--- " + interest + " ---\n" + content + "\n"
  }

  /** A section is the interest's header line, then the content, then a newline. */
  lemma BlockShape(interest: string, content: string)
    ensures var r := Block(interest, content);
            && |r| == |interest| + |content| + 11
            && IsPrefix("\n--- " + interest + " ---\n", r)
            && OccursAt(r, content, |interest| + 10)
            && r[|r| - 1] == '\n'
  {
    var r := Block(interest, content);
    assert r[|interest| + 10..|interest| + 10 + |content|] == content;
  }

  /** All sections, in the dict's iteration order. */
  function Blocks(d: Dict): string {
    if |d| == 0 then "" else Block(d[0].0, d[0].1) + Blocks(d[1..])
  }

  /** The orchestrator's prompt: header, plan, every specialist block, task list. */
  function MergePrompt(w: Wording, location: string, interests: seq<string>, duration: int, plan: string, content: Dict): string {
    Concat(MergePieces(w, location, interests, duration, plan, content))
  }

  /** Index of the specialist blocks among the merge prompt's pieces. */
  const BlocksPiece := 9

  function MergePieces(w: Wording, location: string, interests: seq<string>, duration: int, plan: string, content: Dict): (ps: seq<string>)
    ensures |ps| > BlocksPiece
  {
    var d := IntToString(duration);
    [w(MergeIntro), location, w(MergeDuration), d, w(MergeInterests), Join(interests, ", "), w(MergePlanHeader),
     plan, w(MergeContentHeader), Blocks(content), w(MergeTaskIntro), location, w(MergeTaskPacing), d, w(MergeTaskEnd)]
  }

  /**
   * The three prompt builders as the pipeline sees them. The pipeline is
   * verified for any builders; `SourcePrompts` are the source's.
   */
  datatype PromptWriter = PromptWriter(
    planning: (string, seq<string>, int) -> string,
    research: (string, string, int, string) -> string,
    merge: (string, seq<string>, int, string, Dict) -> string)

  /** The three builders over one wording. */
  function PromptsOf(w: Wording): PromptWriter {
    PromptWriter(
      (location, interests, duration) => PlanningPrompt(w, location, interests, duration),
      (interest, location, duration, plan) => ResearchPrompt(w, interest, location, duration, plan),
      (location, interests, duration, plan, content) => MergePrompt(w, location, interests, duration, plan, content))
  }

  /** The prompts exactly as the source writes them. */
  const SourcePrompts := PromptsOf(SourceWording)

  /** The planning prompt names the location, the duration and every interest. */
  lemma PlanningPromptMentions(w: Wording, location: string, interests: seq<string>, duration: int)
    ensures Contains(PlanningPrompt(w, location, interests, duration), location)
    ensures Contains(PlanningPrompt(w, location, interests, duration), IntToString(duration))
    ensures Contains(PlanningPrompt(w, location, interests, duration), Join(interests, ", "))
  {
    var ps := PlanningPieces(w, location, interests, duration);
    ConcatOccurs(ps, 3);
    ConcatOccurs(ps, 1);
    ConcatOccurs(ps, 5);
  }

  /**
   * A research prompt names the lower-cased interest, the location and the
   * duration, and carries the plan text verbatim.
   */
  lemma ResearchPromptMentions(w: Wording, interest: string, location: string, duration: int, plan: string)
    ensures Contains(ResearchPrompt(w, interest, location, duration, plan), Lower(interest))
    ensures Contains(ResearchPrompt(w, interest, location, duration, plan), location)
    ensures Contains(ResearchPrompt(w, interest, location, duration, plan), IntToString(duration))
    ensures Contains(ResearchPrompt(w, interest, location, duration, plan), plan)
  {
    var ps := ResearchPieces(w, interest, location, duration, plan);
    ConcatOccurs(ps, 1);
    ConcatOccurs(ps, 3);
    ConcatOccurs(ps, 5);
    ConcatOccurs(ps, 7);
  }

  lemma BlocksPrefixHead(d: Dict, i: nat)
    requires 0 < i <= |d|
    ensures Blocks(d[..i]) == Block(d[0].0, d[0].1) + Blocks(d[1..i])
  {
    assert d[..i][1..] == d[1..i];
  }

  /** Splitting the block sequence around its `i`-th entry. */
  lemma {:induction false} BlocksSplit(d: Dict, i: nat)
    requires i < |d|
    ensures Blocks(d) == Blocks(d[..i]) + Block(d[i].0, d[i].1) + Blocks(d[i + 1..])
  {
    if i > 0 {
      BlocksSplit(d[1..], i - 1);
      assert d[1..][..i - 1] == d[1..i];
      assert d[1..][i - 1] == d[i];
      assert d[1..][i..] == d[i + 1..];
      BlocksPrefixHead(d, i);
    } else {
      assert d[..0] == [];
    }
  }

  /** Blocks of a two-part dict are the blocks of each part. */
  lemma {:induction false} BlocksAppend(d: Dict, e: Dict)
    ensures Blocks(d + e) == Blocks(d) + Blocks(e)
  {
    if |d| > 0 {
      BlocksAppend(d[1..], e);
      assert (d + e)[1..] == d[1..] + e;
    } else {
      assert d + e == e;
    }
  }

  /** Offset of the `i`-th block inside the merge prompt. */
  function BlockOffset(w: Wording, location: string, interests: seq<string>, duration: int, plan: string, d: Dict, i: nat): nat
    requires i <= |d|
  {
    |Concat(MergePieces(w, location, interests, duration, plan, d)[..BlocksPiece])| + |Blocks(d[..i])|
  }

  /** The `i`-th block sits right after the blocks before it, whatever surrounds them. */
  lemma BlockOccurs(head: string, tail: string, d: Dict, i: nat)
    requires i < |d|
    ensures OccursAt(head + Blocks(d) + tail, Block(d[i].0, d[i].1), |head| + |Blocks(d[..i])|)
  {
    BlocksSplit(d, i);
    var b := Block(d[i].0, d[i].1);
    ContainsMiddle(Blocks(d[..i]), b, Blocks(d[i + 1..]));
    OccursInContext(Blocks(d[..i]), b, Blocks(d[i + 1..]), b, 0);
    OccursInContext(head, Blocks(d), tail, b, |Blocks(d[..i])|);
  }

  lemma BlocksPrefixStep(d: Dict, i: nat)
    requires i < |d|
    ensures |Blocks(d[..i + 1])| == |Blocks(d[..i])| + |Block(d[i].0, d[i].1)|
  {
    assert d[..i + 1] == d[..i] + [d[i]];
    BlocksAppend(d[..i], [d[i]]);
    assert Blocks([d[i]]) == Block(d[i].0, d[i].1) by {
      assert [d[i]][1..] == [];
    }
  }

  /** The merge prompt carries the plan verbatim. */
  lemma MergePromptHasPlan(w: Wording, location: string, interests: seq<string>, duration: int, plan: string, d: Dict)
    ensures Contains(MergePrompt(w, location, interests, duration, plan, d), plan)
  {
    var ps := MergePieces(w, location, interests, duration, plan, d);
    assert ps[7] == plan;
    ConcatOccurs(ps, 7);
  }

  /** Whatever the other pieces are, the `i`-th block sits at its offset inside the joined pieces. */
  lemma PieceBlockAt(ps: seq<string>, d: Dict, i: nat)
    requires |ps| > BlocksPiece && ps[BlocksPiece] == Blocks(d) && i < |d|
    ensures OccursAt(Concat(ps), Block(d[i].0, d[i].1), |Concat(ps[..BlocksPiece])| + |Blocks(d[..i])|)
  {
    ConcatSplit(ps, BlocksPiece);
    BlockOccurs(Concat(ps[..BlocksPiece]), Concat(ps[BlocksPiece + 1..]), d, i);
  }

  /** Every dict entry's block occurs in the merge prompt at its offset. */
  lemma MergePromptBlocks(w: Wording, location: string, interests: seq<string>, duration: int, plan: string, d: Dict)
    ensures forall i :: 0 <= i < |d| ==>
              OccursAt(MergePrompt(w, location, interests, duration, plan, d), Block(d[i].0, d[i].1),
                       BlockOffset(w, location, interests, duration, plan, d, i))
  {
    var ps := MergePieces(w, location, interests, duration, plan, d);
    assert ps[BlocksPiece] == Blocks(d);
    forall i | 0 <= i < |d|
      ensures OccursAt(Concat(ps), Block(d[i].0, d[i].1), |Concat(ps[..BlocksPiece])| + |Blocks(d[..i])|)
    {
      PieceBlockAt(ps, d, i);
    }
  }

  /**
   * The merge prompt carries the plan verbatim and the block of every dict
   * entry, each entry's block starting where the previous entry's block ends.
   */
  lemma MergePromptLayout(w: Wording, location: string, interests: seq<string>, duration: int, plan: string, d: Dict)
    ensures Contains(MergePrompt(w, location, interests, duration, plan, d), plan)
    ensures forall i :: 0 <= i < |d| ==>
              OccursAt(MergePrompt(w, location, interests, duration, plan, d), Block(d[i].0, d[i].1),
                       BlockOffset(w, location, interests, duration, plan, d, i))
    ensures forall i :: 0 <= i < |d| - 1 ==>
              BlockOffset(w, location, interests, duration, plan, d, i) + |Block(d[i].0, d[i].1)|
              == BlockOffset(w, location, interests, duration, plan, d, i + 1)
  {
    MergePromptHasPlan(w, location, interests, duration, plan, d);
    MergePromptBlocks(w, location, interests, duration, plan, d);
    forall i | 0 <= i < |d| - 1
      ensures |Blocks(d[..i + 1])| == |Blocks(d[..i])| + |Block(d[i].0, d[i].1)|
    {
      BlocksPrefixStep(d, i);
    }
  }

  /**
   * The merge prompt over the dict built from assignments `ks[i] = vs[i]`:
   * one block per distinct key, in first-assignment order, carrying the
   * value of the key's last assignment, the blocks back to back.
   */
  lemma MergePromptItems(w: Wording, location: string, interests: seq<string>, duration: int, plan: string,
                         ks: seq<string>, vs: seq<string>)
    requires |ks| == |vs|
    ensures var d := FromPairs(ks, vs);
            var prompt := MergePrompt(w, location, interests, duration, plan, d);
            && FirstSeenOrder(ks, Keys(d))
            && Contains(prompt, plan)
            && (forall j :: 0 <= j < |d| ==>
                  && d[j].0 in ks
                  && OccursAt(prompt, Block(d[j].0, vs[LastIndex(ks, d[j].0)]),
                              BlockOffset(w, location, interests, duration, plan, d, j)))
            && (forall j :: 0 <= j < |d| - 1 ==>
                  BlockOffset(w, location, interests, duration, plan, d, j) + |Block(d[j].0, d[j].1)|
                  == BlockOffset(w, location, interests, duration, plan, d, j + 1))
  {
    FromPairsItems(ks, vs);
    MergePromptLayout(w, location, interests, duration, plan, FromPairs(ks, vs));
  }

  /** The `j`-th item's block, for one `j`. */
  lemma MergePromptItemAt(w: Wording, location: string, interests: seq<string>, duration: int, plan: string,
                          ks: seq<string>, vs: seq<string>, j: nat)
    requires |ks| == |vs| && j < |FromPairs(ks, vs)|
    ensures var d := FromPairs(ks, vs);
            && d[j].0 in ks
            && OccursAt(MergePrompt(w, location, interests, duration, plan, d), Block(d[j].0, vs[LastIndex(ks, d[j].0)]),
                        BlockOffset(w, location, interests, duration, plan, d, j))
  {
    FromPairsItems(ks, vs);
    MergePromptBlocks(w, location, interests, duration, plan, FromPairs(ks, vs));
  }
}
