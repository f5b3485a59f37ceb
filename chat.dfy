/** Chat histories as sent to a model: a list of `[role, content]` entries
    whose content is a list of `{"type": "text", "text": ...}` items. Lists
    are values here, so extending a history cannot alter the caller's copy,
    which is what the deep copy in the source ensures. */
module Chat {

  datatype Item = TextItem(text: string)

  datatype Entry = Entry(role: string, content: seq<Item>)

  type History = seq<Entry>

  const ActionSystemPrompt: string :=
    "You are a helpful AI PC operating assistant. You need to help me operate the PC to complete the user's instruction."

  const AssistantSystemPrompt: string := "You are a helpful AI PC operating assistant."

  /** An entry with a single text item. */
  function Message(role: string, text: string): Entry {
    Entry(role, [TextItem(text)])
  }

  function Roles(h: History): (r: seq<string>)
    ensures |r| == |h|
    ensures forall i :: 0 <= i < |h| ==> r[i] == h[i].role
  {
    seq(|h|, i requires 0 <= i < |h| => h[i].role)
  }

  /** A fresh chat: only the system entry, holding one text item. */
  predicate StartsChat(h: History, prompt: string) {
    |h| == 1 && h[0].role == "system" && |h[0].content| == 1 && h[0].content[0] == TextItem(prompt)
  }

  function InitActionChat(): (h: History)
    ensures StartsChat(h, ActionSystemPrompt)
  {
    [Message("system", ActionSystemPrompt)]
  }

  function InitReflectChat(): (h: History)
    ensures StartsChat(h, AssistantSystemPrompt)
  {
    [Message("system", AssistantSystemPrompt)]
  }

  function InitMemoryChat(): (h: History)
    ensures StartsChat(h, AssistantSystemPrompt)
  {
    [Message("system", AssistantSystemPrompt)]
  }

  /** `add_response`: the history with one more entry; `image` plays no
      part. */
  function AddResponse(role: string, prompt: string, h: History, image: seq<string>): (r: History)
    ensures |r| == |h| + 1 && r[..|h|] == h
    ensures r[|h|].role == role && r[|h|].content == [TextItem(prompt)]
  {
    h + [Message(role, prompt)]
  }

  /** `add_response_old`, the earlier version with an optional image. */
  function AddResponseOld(role: string, prompt: string, h: History, image: seq<string>): (r: History)
    ensures |r| == |h| + 1 && r[..|h|] == h
  {
    var content := [TextItem(prompt)];
    h + [Entry(role, content)]
  }

  /** Both versions build the same history, whatever the image. */
  lemma AddResponseVersionsAgree(role: string, prompt: string, h: History, image: seq<string>, other: seq<string>)
    ensures AddResponseOld(role, prompt, h, image) == AddResponse(role, prompt, h, other)
  {
  }

  /** Each call adds its role at the end of the role sequence. */
  lemma AddResponseRoles(role: string, prompt: string, h: History, image: seq<string>)
    ensures Roles(AddResponse(role, prompt, h, image)) == Roles(h) + [role]
  {
    var r := AddResponse(role, prompt, h, image);
    assert forall i :: 0 <= i < |r| ==> Roles(r)[i] == (Roles(h) + [role])[i];
  }

  /** The exchange the agents run: system prompt, user prompt, reply. */
  lemma ExchangeRoles(prompt: string, reply: string)
    ensures Roles(AddResponse("assistant", reply, AddResponse("user", prompt, InitActionChat(), []), []))
         == ["system", "user", "assistant"]
  {
    AddResponseRoles("user", prompt, InitActionChat(), []);
    AddResponseRoles("assistant", reply, AddResponse("user", prompt, InitActionChat(), []), []);
  }
}
