/** The command-line agent's main loop. Each pass rebuilds the subtask list
    (always the current instruction alone), stops after `maxIters` passes or
    once the same list has come back `patience` times in a row, and runs the
    action step on the subtask. A "Tell User" action hands control to the
    user, whose reply becomes the new instruction (an empty reply ends the
    run); a "Terminate" action ends the run; otherwise the memory and
    reflection steps follow when switched on. Every model reply and user
    reply is an input, indexed by the pass. */
module RunLoop {
  import opened Wrappers
  import opened Text
  import opened Agents
  import opened Response

  // --------------------------------------------------- the Tell User call

  /** The first index at or after `i` that is not whitespace. */
  function SkipSpaces(s: string, i: nat): (j: nat)
    requires i <= |s|
    ensures i <= j <= |s| && (j == |s| || !IsSpace(s[j]))
    ensures forall k :: i <= k < j ==> IsSpace(s[k])
    decreases |s| - i
  {
    if i < |s| && IsSpace(s[i]) then SkipSpaces(s, i + 1) else i
  }

  /** `w` (lower case) at `i`, in either case. */
  predicate WordAt(s: string, i: nat, w: string) {
    i + |w| <= |s| && Lower(s[i..i + |w|]) == w
  }

  /** Where the argument starts when `Tell\s*User\s*\(` matches at `i`,
      ignoring case. */
  function CallOpenAt(s: string, i: nat): (r: Option<nat>)
    requires i <= |s|
    ensures r.Some? ==> i + 9 <= r.value <= |s| && s[r.value - 1] == '('
  {
    if !WordAt(s, i, "tell") then None
    else
      var j := SkipSpaces(s, i + 4);
      if !WordAt(s, j, "user") then None
      else
        var k := SkipSpaces(s, j + 4);
        if k < |s| && s[k] == '(' then Some(k + 1) else None
  }

  /** Whether `Tell\s*User\s*\((.+)\)` (ignoring case, `.` matching any
      character) finds a match: an opening at some index followed, after at
      least one character, by a closing parenthesis. The quoted pattern tried
      first matches only where this one does, so this decides whether the
      user is asked. */
  predicate TellUserCall(s: string) {
    exists i :: 0 <= i < |s| && CallOpenAt(s, i).Some? && ClosesAfter(s, CallOpenAt(s, i).value)
  }

  predicate ClosesAfter(s: string, k: nat) {
    exists j :: k < j < |s| && s[j] == ')'
  }

  /** The action string the prompt asks for opens the hand-off. */
  lemma TellUserCallQuoted()
    ensures TellUserCall("TellUser(\"Which column?\")")
  {
    var a := "TellUser(\"Which column?\")";
    assert a[0..4] == "Tell" && a[4..8] == "User";
    assert Lower(a[0..4]) == "tell" && Lower(a[4..8]) == "user";
    assert SkipSpaces(a, 4) == 4 && SkipSpaces(a, 8) == 8 && a[8] == '(';
    assert CallOpenAt(a, 0) == Some(9);
    assert |a| == 25 && a[24] == ')';
    assert ClosesAfter(a, 9);
  }

  /** Case and spaces between the words and before the parenthesis do not
      matter. */
  lemma TellUserCallSpaced()
    ensures TellUserCall("tell  USER (x)")
  {
    var b := "tell  USER (x)";
    assert b[0..4] == "tell" && b[6..10] == "USER";
    assert Lower(b[0..4]) == "tell" && Lower(b[6..10]) == "user";
    assert SkipSpaces(b, 4) == 6;
    assert SkipSpaces(b, 10) == 11;
    assert CallOpenAt(b, 0) == Some(12);
    assert b[13] == ')';
  }

  /** An empty argument is not a call. */
  lemma TellUserCallNeedsArgument()
    ensures !TellUserCall("TellUser()")
  {
  }

  // ----------------------------------------------------------- the memory

  const ImportantMark: string := "### Important content ###"

  /** The memory step's note: the first paragraph after the last marker,
      stripped, with a newline. */
  function MemoryNote(output: string): (r: string)
    ensures |r| >= 1 && r[|r| - 1] == '\n'
  {
    Trim(SplitFirst(SplitLast(output, ImportantMark), "\n\n")) + "\n"
  }

  /** A reply with the marker once: the note is the first paragraph after
      it, stripped, whether or not a blank line ends that paragraph. */
  lemma MemoryNoteParagraph(x: string, p: string, y: string)
    requires OnlyAt(x + ImportantMark + p + "\n\n" + y, ImportantMark, |x|)
    requires !Contains(p, "\n\n") && !EndsWith(p, "\n")
    ensures MemoryNote(x + ImportantMark + p + "\n\n" + y) == Trim(p) + "\n"
  {
    var o := x + ImportantMark + p + "\n\n" + y;
    assert o[|x| + |ImportantMark|..] == p + "\n\n" + y;
    SplitAtOnly(o, ImportantMark, |x|);
    FirstParagraph(p, y);
  }

  /** The text up to the first blank line of `p + "\n\n" + y` is `p`. */
  lemma FirstParagraph(p: string, y: string)
    requires !Contains(p, "\n\n") && !EndsWith(p, "\n")
    ensures SplitFirst(p + "\n\n" + y, "\n\n") == p
  {
    var s := p + "\n\n" + y;
    assert s[|p|..|p| + 2] == "\n\n";
    forall j | 0 <= j < |p| ensures !OccursAt(s, "\n\n", j) {
      ParagraphBreakAfter(p, y, j);
    }
    SplitFirstAt(s, "\n\n", |p|);
    assert s[..|p|] == p;
  }

  /** No blank line starts inside a paragraph that neither holds one nor
      ends with a newline. */
  lemma ParagraphBreakAfter(p: string, y: string, j: int)
    requires !Contains(p, "\n\n") && !EndsWith(p, "\n") && 0 <= j < |p|
    ensures !OccursAt(p + "\n\n" + y, "\n\n", j)
  {
    var s := p + "\n\n" + y;
    if j + 2 <= |p| {
      assert p[j..j + 2] == s[j..j + 2];
      if p[j..j + 2] == "\n\n" {
        ContainsAt(p, "\n\n", j);
      }
    } else {
      assert p[|p| - 1..] == [p[j]];
      assert s[j..j + 2][0] == p[j] != '\n';
    }
  }

  /** A reply with the marker once and no blank line after it: the note is
      all the text after the marker, stripped. */
  lemma MemoryNoteTail(x: string, p: string)
    requires OnlyAt(x + ImportantMark + p, ImportantMark, |x|)
    requires !Contains(p, "\n\n")
    ensures MemoryNote(x + ImportantMark + p) == Trim(p) + "\n"
  {
    var o := x + ImportantMark + p;
    assert o[|x| + |ImportantMark|..] == p;
    SplitAtOnly(o, ImportantMark, |x|);
  }

  /** The memory grows by the note exactly when the note does not say
      "None" and is not in the memory yet. */
  function Remember(memory: string, note: string): (r: string)
    ensures (r == memory + note && !Contains(note, "None") && !Contains(memory, note))
            || (r == memory && (Contains(note, "None") || Contains(memory, note)))
  {
    if !Contains(note, "None") && !Contains(memory, note) then memory + note else memory
  }

  /** The same note is never stored twice. */
  lemma RememberIdempotent(memory: string, note: string)
    ensures Remember(Remember(memory, note), note) == Remember(memory, note)
  {
    if !Contains(note, "None") && !Contains(memory, note) {
      var m := memory + note;
      assert m[|memory|..|memory| + |note|] == note;
      ContainsAt(m, note, |memory|);
    }
  }

  /** The memory after the memory step replied `output`. */
  function UpdatedMemory(memory: string, output: string): (r: string)
    ensures r == memory || r == memory + MemoryNote(output)
    ensures Contains(r, MemoryNote(output)) || Contains(MemoryNote(output), "None")
  {
    RememberStores(memory, MemoryNote(output));
    Remember(memory, MemoryNote(output))
  }

  /** After `Remember`, the memory holds the note unless it says "None". */
  lemma RememberStores(memory: string, note: string)
    ensures Contains(Remember(memory, note), note) || Contains(note, "None")
  {
    if !Contains(note, "None") && !Contains(memory, note) {
      var m := memory + note;
      assert m[|memory|..|memory| + |note|] == note;
      ContainsAt(m, note, |memory|);
    }
  }

  // ---------------------------------------------------- the clarification

  /** The completed requirements after the user answered a question: the
      reply is added to what was there, or starts the text. */
  function Clarified(completed: string, reply: string): (r: string)
    ensures Contains(r, reply)
    ensures completed != "" ==> StartsWith(r, completed)
  {
    if completed != "" then
      var r := completed + " User provided clarification: " + reply + ".";
      var k := |completed + " User provided clarification: "|;
      assert r[k..k + |reply|] == reply;
      ContainsAt(r, reply, k);
      StartsWithConcat(completed, " User provided clarification: " + reply + ".");
      assert r == completed + (" User provided clarification: " + reply + ".");
      r
    else
      var r := "User clarified their request: " + reply + ".";
      var k := |"User clarified their request: "|;
      assert r[k..k + |reply|] == reply;
      ContainsAt(r, reply, k);
      r
  }

  // ------------------------------------------------------------- the loop

  /** The model and user replies, by pass number. */
  datatype Replies = Replies(
    action: nat -> string, user: nat -> string, memory: nat -> string,
    reflection: nat -> string, planning: nat -> string)

  /** Whether the action asks the user something the script can extract. */
  predicate AsksUser(action: string) {
    (Contains(action, "Tell User") || Contains(action, "TellUser")) && TellUserCall(action)
  }

  /** The user answered the question: the step is recorded, the reply is
      added to the completed requirements and the error flag and reflection
      are cleared. */
  method AcceptClarification(state: AgentState, thought: string, summary: string, action: string, reply: string)
    modifies state
    ensures state.thoughtHistory == old(state.thoughtHistory) + [thought]
    ensures state.summaryHistory == old(state.summaryHistory) + [summary]
    ensures state.actionHistory == old(state.actionHistory) + [action]
    ensures state.completedRequirements == Clarified(old(state.completedRequirements), reply)
    ensures !state.errorFlag && state.reflectionThought == "" && state.memory == old(state.memory)
    ensures old(state.Aligned()) ==> state.Aligned()
    ensures state.Fixed() == old(state.Fixed())
  {
    state.Record(thought, summary, action);
    state.completedRequirements := Clarified(state.completedRequirements, reply);
    state.errorFlag := false;
    state.reflectionThought := "";
  }

  /** The step records and the error flag are as they were. */
  twostate predicate Untouched(state: AgentState)
    reads state
  {
    state.thoughtHistory == old(state.thoughtHistory)
    && state.summaryHistory == old(state.summaryHistory)
    && state.actionHistory == old(state.actionHistory)
    && state.completedRequirements == old(state.completedRequirements)
    && state.errorFlag == old(state.errorFlag)
  }

  /** The steps after an ordinary action: the memory step, then the
      reflection step, each when switched on. */
  method AfterAction(state: AgentState, thought: string, summary: string, action: string,
                     memorySwitch: bool, reflectionSwitch: bool,
                     memoryOutput: string, reflectOutput: string, planningOutput: string)
    modifies state
    ensures state.memory == (if memorySwitch then UpdatedMemory(old(state.memory), memoryOutput)
                             else old(state.memory))
    ensures state.reflectionThought == (if reflectionSwitch then ReflectionThought(reflectOutput)
                                        else old(state.reflectionThought))
    ensures reflectionSwitch ==> Reflected(state, thought, summary, action, reflectOutput, planningOutput)
    ensures !reflectionSwitch ==> Untouched(state)
    ensures old(state.Aligned()) ==> state.Aligned()
    ensures state.Fixed() == old(state.Fixed())
  {
    if memorySwitch {
      state.SetMemory(UpdatedMemory(state.memory, memoryOutput));
    }
    if reflectionSwitch {
      var t := ReflectAgentResponse(state, thought, summary, action, reflectOutput, planningOutput);
      state.SetReflectionThought(t);
    }
  }

  /** The action of pass `pass`, as the action step extracts it. */
  function ActionOf(replies: Replies, pass: nat): string {
    ActionAgentResponse(replies.action(pass)).2
  }

  /** The thought of pass `pass`, as the action step extracts it. */
  function ThoughtOf(replies: Replies, pass: nat): string {
    ActionAgentResponse(replies.action(pass)).0
  }

  /** The summary of pass `pass`, as the action step extracts it. */
  function SummaryOf(replies: Replies, pass: nat): string {
    ActionAgentResponse(replies.action(pass)).1
  }

  /** The user's reply on pass `pass`, stripped. */
  function ReplyOf(replies: Replies, pass: nat): string {
    Trim(replies.user(pass))
  }

  /** The body of the subtask loop for the single subtask of pass `pass`.
      Returns whether the run is done and the user's new instruction, if
      any. */
  method Subtask(state: AgentState, pass: nat, memorySwitch: bool, reflectionSwitch: bool, replies: Replies)
    returns (done: bool, next: Option<string>)
    modifies state
    ensures old(state.Aligned()) ==> state.Aligned()
    ensures state.Fixed() == old(state.Fixed())
    ensures next.Some? <==> AsksUser(ActionOf(replies, pass)) && ReplyOf(replies, pass) != ""
    ensures next.Some? ==>
              next.value == ReplyOf(replies, pass) && !done
              && state.completedRequirements == Clarified(old(state.completedRequirements), next.value)
              && state.actionHistory == old(state.actionHistory) + [ActionOf(replies, pass)]
    ensures done <==> (AsksUser(ActionOf(replies, pass)) && ReplyOf(replies, pass) == "")
                      || (!AsksUser(ActionOf(replies, pass)) && Contains(ActionOf(replies, pass), "Terminate"))
    ensures done ==> state.memory == old(state.memory) && state.actionHistory == old(state.actionHistory)
    ensures done ==> unchanged(state)
    ensures !done && next.None? ==>
              state.memory == (if memorySwitch then UpdatedMemory(old(state.memory), replies.memory(pass))
                               else old(state.memory))
              && state.reflectionThought == (if reflectionSwitch then ReflectionThought(replies.reflection(pass))
                                             else old(state.reflectionThought))
    ensures !done && next.None? && reflectionSwitch ==>
              Reflected(state, ThoughtOf(replies, pass), SummaryOf(replies, pass), ActionOf(replies, pass),
                        replies.reflection(pass), replies.planning(pass))
    ensures !done && next.None? && !reflectionSwitch ==> Untouched(state)
  {
    var r := ActionAgentResponse(replies.action(pass));
    var thought, summary, action := r.0, r.1, r.2;
    if AsksUser(action) {
      var reply := Trim(replies.user(pass));
      if reply != "" {
        AcceptClarification(state, thought, summary, action, reply);
        return false, Some(reply);
      }
      return true, None;
    }
    if Contains(action, "Terminate") {
      return true, None;
    }
    AfterAction(state, thought, summary, action, memorySwitch, reflectionSwitch,
                replies.memory(pass), replies.reflection(pass), replies.planning(pass));
    return false, None;
  }

  /** One pass as the main loop sees it: the state stays aligned, and a new
      instruction is never empty. */
  method Pass(state: AgentState, pass: nat, memorySwitch: bool, reflectionSwitch: bool, replies: Replies)
    returns (done: bool, next: Option<string>)
    modifies state
    ensures old(state.Aligned()) ==> state.Aligned()
    ensures state.Fixed() == old(state.Fixed())
    ensures next.Some? ==> !done && next.value != ""
  {
    done, next := Subtask(state, pass, memorySwitch, reflectionSwitch, replies);
  }

  function Max(a: int, b: int): int { if a <= b then b else a }

  /** `p` added up `n` times. */
  function Budget(p: int, n: nat): int {
    if n == 0 then 0 else Budget(p, n - 1) + p
  }

  lemma {:induction false} BudgetIsProduct(p: int, n: nat)
    ensures Budget(p, n) == p * n
  {
    if n > 0 {
      BudgetIsProduct(p, n - 1);
      assert p * (n - 1) + p == p * n;
    }
  }

  lemma {:induction false} BudgetGrows(p: int, m: nat, n: nat)
    requires p >= 0 && m <= n
    ensures Budget(p, m) <= Budget(p, n)
    decreases n
  {
    if m < n {
      BudgetGrows(p, m, n - 1);
    }
  }

  /** The main loop. `calls` counts action steps and `changes` the
      instructions the user supplied (both ghost): with no new instruction
      the same subtask list comes back on every pass, so at most `patience`
      action steps run per instruction. */
  method MainLoop(state: AgentState, instruction0: string, maxIters: int, patience: int,
                  memorySwitch: bool, reflectionSwitch: bool, replies: Replies)
    returns (instruction: string, passes: nat, ghost calls: nat, ghost changes: nat)
    modifies state
    ensures old(state.Aligned()) ==> state.Aligned()
    ensures state.Fixed() == old(state.Fixed())
    ensures calls <= passes <= Max(maxIters, 0) + 1 && calls <= Max(maxIters, 0)
    ensures patience >= 1 ==> calls <= patience * (changes + 1)
    ensures changes == 0 ==> instruction == instruction0
    ensures changes > 0 ==> instruction != ""
  {
    instruction := instruction0;
    passes := 0;
    var prev: Option<seq<string>> := None;
    var stagnation := 0;
    var done := false;
    calls, changes := 0, 0;
    ghost var runs: nat := 0;
    while true
      invariant (passes == 0 || passes <= maxIters) && calls <= passes
      invariant prev.None? ==> calls == 0 && runs == 0 && changes == 0
      invariant runs <= changes + 1
      invariant prev.Some? && prev.value != [instruction] ==> runs <= changes
      invariant patience >= 1 && prev.Some? ==>
                  runs >= 1 && 0 <= stagnation < patience && calls <= Budget(patience, runs - 1) + stagnation + 1
      invariant changes == 0 ==> instruction == instruction0
      invariant changes > 0 ==> instruction != ""
      invariant old(state.Aligned()) ==> state.Aligned()
      invariant state.Fixed() == old(state.Fixed())
      decreases maxIters - passes
    {
      passes := passes + 1;
      if passes > maxIters {
        break;
      }
      var subtasks := [instruction];
      if prev == Some(subtasks) {
        stagnation := stagnation + 1;
        if stagnation >= patience {
          break;
        }
      } else {
        stagnation := 0;
        prev := Some(subtasks);
        runs := runs + 1;
      }
      var finished, next := Pass(state, passes, memorySwitch, reflectionSwitch, replies);
      calls := calls + 1;
      if next.Some? {
        instruction := next.value;
        changes := changes + 1;
      }
      done := finished;
      if done {
        break;
      }
    }
    if patience >= 1 && prev.Some? {
      BudgetGrows(patience, runs, changes + 1);
      BudgetIsProduct(patience, changes + 1);
    }
  }
}
