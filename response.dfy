/** The action and reflection steps of the agent: each sends a prompt,
    takes the model's reply (an input of the model here) and cuts it into
    sections at fixed markers; the reflection step then commits or rejects
    the step on the agent state. */
module Response {
  import opened Wrappers
  import opened Text
  import opened Agents

  const ThoughtMark: string := "### Thought ###"
  const ActionMark: string := "### Action ###"
  const OperationMark: string := "### Operation ###"
  const AnswerMark: string := "### Answer ###"
  const CompletedMark: string := "### Completed contents ###"

  /** `history[-1] if history else ""`. */
  function LastOr(h: seq<string>): (r: string)
    ensures h == [] ==> r == ""
    ensures h != [] ==> r == h[|h| - 1]
  {
    if h == [] then "" else h[|h| - 1]
  }

  // ------------------------------------------------------------ sections

  /** `.replace("\n", " ").replace("  ", " ").strip()`. */
  function Tidy(s: string): (r: string)
    ensures Trimmed(r) && '\n' !in r
  {
    var a := Replace(s, "\n", " ");
    ReplaceRemoves(s, '\n', " ");
    var b := Replace(a, "  ", " ");
    ReplaceKeepsAbsent(a, "  ", " ", '\n');
    TrimChars(b);
    Trim(b)
  }

  /** `.replace("\n", " ").replace(":", "").replace("  ", " ").strip()`:
      the thought on one line and without colons. */
  function ThoughtLine(s: string): (r: string)
    ensures Trimmed(r) && '\n' !in r && ':' !in r
  {
    var a := Replace(s, "\n", " ");
    ReplaceRemoves(s, '\n', " ");
    var b := Replace(a, ":", "");
    ReplaceRemoves(a, ':', "");
    ReplaceKeepsAbsent(a, ":", "", '\n');
    var c := Replace(b, "  ", " ");
    ReplaceKeepsAbsent(b, "  ", " ", '\n');
    ReplaceKeepsAbsent(b, "  ", " ", ':');
    TrimChars(c);
    Trim(c)
  }

  /** `.replace("\n", " ").strip()`. */
  function OneLine(s: string): (r: string)
    ensures Trimmed(r) && '\n' !in r
  {
    ReplaceRemoves(s, '\n', " ");
    TrimChars(Replace(s, "\n", " "));
    Trim(Replace(s, "\n", " "))
  }

  /** The thought: after the last thought marker, before the next action
      marker, on one line and without colons. */
  function Thought(output: string): (r: string)
    ensures Trimmed(r) && '\n' !in r && ':' !in r
  {
    ThoughtLine(SplitFirst(SplitLast(output, ThoughtMark), ActionMark))
  }

  /** The action: after the last action marker, before the next operation
      marker. */
  function ActionText(output: string): (r: string)
    ensures Trimmed(r) && '\n' !in r
  {
    Tidy(SplitFirst(SplitLast(output, ActionMark), OperationMark))
  }

  /** The summary: after the last operation marker. */
  function Summary(output: string): (r: string)
    ensures Trimmed(r) && '\n' !in r
  {
    Tidy(SplitLast(output, OperationMark))
  }

  /** A reply without an operation marker is its own summary. */
  lemma SummaryWithoutMarker(output: string)
    requires !Contains(output, OperationMark)
    ensures Summary(output) == Tidy(output)
  {
  }

  /** No section carries its own closing marker, and a section is drawn only
      from the part of the reply after its opening marker. */
  lemma SectionsAreCut(output: string)
    ensures var s := SplitFirst(SplitLast(output, ThoughtMark), ActionMark);
      !Contains(s, ActionMark) && !Contains(s, ThoughtMark)
    ensures var s := SplitFirst(SplitLast(output, ActionMark), OperationMark);
      !Contains(s, OperationMark) && !Contains(s, ActionMark)
  {
    var t := SplitLast(output, ThoughtMark);
    PrefixKeepsAbsent(t, SplitFirst(t, ActionMark), ThoughtMark);
    var a := SplitLast(output, ActionMark);
    PrefixKeepsAbsent(a, SplitFirst(a, OperationMark), ActionMark);
  }

  /** A prefix of a text without `m` is without `m`. */
  lemma PrefixKeepsAbsent(s: string, p: string, m: string)
    requires !Contains(s, m) && |p| <= |s| && p == s[..|p|]
    ensures !Contains(p, m)
  {
    if Contains(p, m) {
      var k := Find(p, m).value;
      assert s[k..k + |m|] == p[k..k + |m|];
      ContainsAt(s, m, k);
    }
  }

  /** `action_agent_response` on the model's reply: thought, summary,
      action. */
  function ActionAgentResponse(output: string): (r: (string, string, string))
    ensures Trimmed(r.0) && '\n' !in r.0 && ':' !in r.0
    ensures Trimmed(r.1) && '\n' !in r.1
    ensures Trimmed(r.2) && '\n' !in r.2
  {
    (Thought(output), Summary(output), ActionText(output))
  }

  /** The reflection thought: between the last thought marker and the next
      answer marker. */
  function ReflectionThought(output: string): (r: string)
    ensures Trimmed(r) && '\n' !in r
  {
    OneLine(SplitFirst(SplitLast(output, ThoughtMark), AnswerMark))
  }

  /** The verdict text after the last answer marker. */
  function Answer(output: string): (r: string)
    ensures Trimmed(r) && '\n' !in r
  {
    OneLine(SplitLast(output, AnswerMark))
  }

  /** The planning step's completed-requirements text. */
  function Completed(output: string): (r: string)
    ensures Trimmed(r) && '\n' !in r
  {
    OneLine(SplitLast(output, CompletedMark))
  }

  // ------------------------------------------------------- reply layouts

  /** The action reply as the prompt asks for it, each marker once: the
      thought, action and summary are the tidied texts between them. */
  lemma ActionReplySections(x: string, t: string, a: string, u: string)
    requires var o := x + ThoughtMark + t + ActionMark + a + OperationMark + u;
      && OnlyAt(o, ThoughtMark, |x|)
      && OnlyAt(o, ActionMark, |x| + |ThoughtMark| + |t|)
      && OnlyAt(o, OperationMark, |x| + |ThoughtMark| + |t| + |ActionMark| + |a|)
    ensures var o := x + ThoughtMark + t + ActionMark + a + OperationMark + u;
      && Thought(o) == ThoughtLine(t)
      && ActionText(o) == Tidy(a)
      && Summary(o) == Tidy(u)
      && ActionAgentResponse(o) == (ThoughtLine(t), Tidy(u), Tidy(a))
  {
    ThreeSections(x, ThoughtMark, t, ActionMark, a, OperationMark, u);
  }

  /** The reflection reply with each marker once: the thought and the
      answer are the texts after their markers, on one line. */
  lemma ReflectReplySections(x: string, t: string, v: string)
    requires var o := x + ThoughtMark + t + AnswerMark + v;
      && OnlyAt(o, ThoughtMark, |x|)
      && OnlyAt(o, AnswerMark, |x| + |ThoughtMark| + |t|)
    ensures var o := x + ThoughtMark + t + AnswerMark + v;
      ReflectionThought(o) == OneLine(t) && Answer(o) == OneLine(v)
  {
    TwoSections(x, ThoughtMark, t, AnswerMark, v);
  }

  /** The planning reply with its marker once: the completed requirements
      are the text after it, on one line. */
  lemma PlanningReplySection(x: string, c: string)
    requires OnlyAt(x + CompletedMark + c, CompletedMark, |x|)
    ensures Completed(x + CompletedMark + c) == OneLine(c)
  {
    var o := x + CompletedMark + c;
    assert o[|x| + |CompletedMark|..] == c;
    SplitAtOnly(o, CompletedMark, |x|);
  }

  // ------------------------------------------------------------ verdicts

  /** "A" anywhere accepts; otherwise "B" or "C" rejects; otherwise the
      step is kept without touching the error flag. */
  datatype Verdict = Accept | Reject | Neither

  function VerdictOf(answer: string): (v: Verdict)
    ensures v == Accept <==> 'A' in answer
    ensures v == Reject <==> 'A' !in answer && ('B' in answer || 'C' in answer)
  {
    if 'A' in answer then Accept
    else if 'B' in answer || 'C' in answer then Reject
    else Neither
  }

  /** What `reflect_agent_response` does to the step records for the
      reflection reply `outputReflect`: an accepted or unjudged step is
      recorded with the planning reply's requirements, acceptance clears the
      error flag, and rejection sets it and records nothing. */
  twostate predicate Reflected(state: AgentState, thought: string, summary: string, action: string,
                               outputReflect: string, outputPlanning: string)
    reads state
  {
    var v := VerdictOf(Answer(outputReflect));
    (v != Reject ==>
       state.thoughtHistory == old(state.thoughtHistory) + [thought]
       && state.summaryHistory == old(state.summaryHistory) + [summary]
       && state.actionHistory == old(state.actionHistory) + [action]
       && state.completedRequirements == Completed(outputPlanning))
    && (v == Accept ==> !state.errorFlag)
    && (v == Neither ==> state.errorFlag == old(state.errorFlag))
    && (v == Reject ==>
          state.errorFlag
          && state.thoughtHistory == old(state.thoughtHistory)
          && state.summaryHistory == old(state.summaryHistory)
          && state.actionHistory == old(state.actionHistory)
          && state.completedRequirements == old(state.completedRequirements))
  }

  /** `reflect_agent_response`, given the reflection reply and the planning
      reply (asked for only when the step is kept). Returns the reflection
      thought. */
  method ReflectAgentResponse(state: AgentState, thought: string, summary: string, action: string,
                              outputReflect: string, outputPlanning: string)
    returns (reflectionThought: string)
    modifies state
    ensures reflectionThought == ReflectionThought(outputReflect)
    ensures VerdictOf(Answer(outputReflect)) != Reject ==>
              state.thoughtHistory == old(state.thoughtHistory) + [thought]
              && state.summaryHistory == old(state.summaryHistory) + [summary]
              && state.actionHistory == old(state.actionHistory) + [action]
              && state.completedRequirements == Completed(outputPlanning)
    ensures VerdictOf(Answer(outputReflect)) == Accept ==> !state.errorFlag
    ensures VerdictOf(Answer(outputReflect)) == Neither ==> state.errorFlag == old(state.errorFlag)
    ensures VerdictOf(Answer(outputReflect)) == Reject ==>
              state.errorFlag
              && state.thoughtHistory == old(state.thoughtHistory)
              && state.summaryHistory == old(state.summaryHistory)
              && state.actionHistory == old(state.actionHistory)
              && state.completedRequirements == old(state.completedRequirements)
    ensures Reflected(state, thought, summary, action, outputReflect, outputPlanning)
    ensures old(state.Aligned()) ==> state.Aligned()
    ensures state.memory == old(state.memory) && state.reflectionThought == old(state.reflectionThought)
    ensures state.Fixed() == old(state.Fixed())
  {
    reflectionThought := ReflectionThought(outputReflect);
    var reflect := Answer(outputReflect);
    var completed := Completed(outputPlanning);
    Judge(state, thought, summary, action, reflect, completed);
  }

  /** The branches of `reflect_agent_response` on the verdict text
      `reflect`; `completed` is the planning reply's requirements text. */
  method Judge(state: AgentState, thought: string, summary: string, action: string,
               reflect: string, completed: string)
    modifies state
    ensures VerdictOf(reflect) != Reject ==>
              state.thoughtHistory == old(state.thoughtHistory) + [thought]
              && state.summaryHistory == old(state.summaryHistory) + [summary]
              && state.actionHistory == old(state.actionHistory) + [action]
              && state.completedRequirements == completed
    ensures VerdictOf(reflect) == Accept ==> !state.errorFlag
    ensures VerdictOf(reflect) == Neither ==> state.errorFlag == old(state.errorFlag)
    ensures VerdictOf(reflect) == Reject ==>
              state.errorFlag
              && state.thoughtHistory == old(state.thoughtHistory)
              && state.summaryHistory == old(state.summaryHistory)
              && state.actionHistory == old(state.actionHistory)
              && state.completedRequirements == old(state.completedRequirements)
    ensures old(state.Aligned()) ==> state.Aligned()
    ensures state.memory == old(state.memory) && state.reflectionThought == old(state.reflectionThought)
    ensures state.Fixed() == old(state.Fixed())
  {
    if 'A' in reflect {
      state.Record(thought, summary, action);
      state.completedRequirements := completed;
      state.errorFlag := false;
    } else if 'B' in reflect {
      state.errorFlag := true;
    } else if 'C' in reflect {
      state.errorFlag := true;
    } else {
      state.Record(thought, summary, action);
      state.completedRequirements := completed;
    }
  }
}
