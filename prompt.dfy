/** The prompt sent to the chat model: a fixed template around the rendered
    context and the user's question. The template is the triple-quoted
    f-string of `qa_with_context`, with its line breaks and the four spaces
    of indentation that the source text carries on every line. */
module PromptTemplate {

  /** A line of dashes, framing the context above and below. */
  const Rule: string := "\n    ---------------------\n    "

  /** The line that tells the model to ignore its prior knowledge. */
  const NoPriorKnowledge: string :=
    "Given the context information and not prior knowledge, answer the query."

  /** The label in front of the question. */
  const QueryLabel: string := "\n    Query: "

  /** Everything before the context. */
  const Opening: string := "\n    Context information is below." + Rule

  /** Between the context and the question. */
  const Instruction: string := Rule + NoPriorKnowledge + QueryLabel

  /** Everything after the question. */
  const Closing: string := "\n    Answer:\n    "

  function BuildPrompt(context: string, question: string): (p: string)
    ensures |p| == |Opening| + |context| + |Instruction| + |question| + |Closing|
    ensures p[..|Opening|] == Opening
    ensures p[|p| - |Closing|..] == Closing
  {
    Opening + context + Instruction + question + Closing
  }

  /** Where the question starts in a prompt whose context has `contextLength` characters. */
  function QuestionStart(contextLength: nat): nat
  {
    |Opening| + contextLength + |Instruction|
  }

  /** Reads the context back out of a prompt, given its length. */
  function ContextOf(p: string, contextLength: nat): (context: string)
    requires |Opening| + contextLength <= |p|
    ensures |context| == contextLength
  {
    p[|Opening|..|Opening| + contextLength]
  }

  /** Reads the question back out of a prompt, given the context's length. */
  function QuestionOf(p: string, contextLength: nat): (question: string)
    requires QuestionStart(contextLength) + |Closing| <= |p|
    ensures |question| == |p| - QuestionStart(contextLength) - |Closing|
  {
    p[QuestionStart(contextLength)..|p| - |Closing|]
  }

  /** `needle` appears in `hay` starting at position `i`. */
  ghost predicate OccursAt(needle: string, hay: string, i: int)
  {
    0 <= i <= |hay| - |needle| && hay[i..i + |needle|] == needle
  }

  /** `needle` appears somewhere in `hay`. */
  ghost predicate Occurs(needle: string, hay: string)
  {
    exists i :: OccursAt(needle, hay, i)
  }

  lemma OccursBetween(before: string, needle: string, after: string)
    ensures OccursAt(needle, before + needle + after, |before|)
  {
    var hay := before + needle + after;
    assert hay[|before|..|before| + |needle|] == needle;
  }

  /** The context and the question can be read back from the prompt. */
  lemma PromptRoundTrip(context: string, question: string)
    ensures var p := BuildPrompt(context, question);
      && QuestionStart(|context|) + |Closing| <= |p|
      && ContextOf(p, |context|) == context
      && QuestionOf(p, |context|) == question
  {
  }

  /** Two prompts with contexts of the same length are equal only when
      contexts and questions are. */
  lemma PromptInjective(c1: string, q1: string, c2: string, q2: string)
    requires |c1| == |c2|
    requires BuildPrompt(c1, q1) == BuildPrompt(c2, q2)
    ensures c1 == c2 && q1 == q2
  {
    PromptRoundTrip(c1, q1);
    PromptRoundTrip(c2, q2);
  }

  /** Every prompt carries the instruction not to use prior knowledge,
      whatever the context and the question hold. */
  lemma PromptForbidsPriorKnowledge(context: string, question: string)
    ensures Occurs(NoPriorKnowledge, BuildPrompt(context, question))
  {
    var head := Opening + context;
    var before, after := head + Rule, QueryLabel + question + Closing;
    calc {
      BuildPrompt(context, question);
      head + Instruction + question + Closing;
      { Assoc(head + Instruction, question, Closing); }
      head + Instruction + (question + Closing);
      { Regroup(head, Rule, NoPriorKnowledge, QueryLabel, question + Closing); }
      before + NoPriorKnowledge + (QueryLabel + (question + Closing));
      { Assoc(QueryLabel, question, Closing); }
      before + NoPriorKnowledge + after;
    }
    OccursBetween(before, NoPriorKnowledge, after);
  }

  /** Every prompt carries the question. */
  lemma PromptHasQuestion(context: string, question: string)
    ensures Occurs(question, BuildPrompt(context, question))
  {
    OccursBetween(Opening + context + Instruction, question, Closing);
  }

  /** Regrouping steps for `PromptForbidsPriorKnowledge`, whose single
      assertion of the regrouped prompt runs out of resource without them. */
  lemma Assoc(a: string, b: string, c: string)
    ensures a + b + c == a + (b + c)
  {
  }

  lemma Regroup(a: string, b: string, c: string, d: string, e: string)
    ensures a + (b + c + d) + e == (a + b) + c + (d + e)
  {
  }
}
