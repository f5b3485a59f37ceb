/** The state the agent loop keeps between steps. */
module Agents {
  import opened Wrappers

  /** The fields no step of the loop writes: the insight and temporary
      file name, and the model and screen-parsing configuration. */
  datatype Settings = Settings(
    insight: string, tempFile: string,
    vlModelVersion: string, apiUrl: Option<string>, apiToken: string, modelProvider: string,
    temperature: real, useSom: bool, iconCaption: bool, locationInfo: bool)

  class AgentState {
    var thoughtHistory: seq<string>
    var summaryHistory: seq<string>
    var actionHistory: seq<string>
    var reflectionThought: string
    var completedRequirements: string
    var memory: string
    var insight: string
    var tempFile: string
    var errorFlag: bool

    var vlModelVersion: string
    var apiUrl: Option<string>
    var apiToken: string
    var modelProvider: string
    var temperature: real

    var useSom: bool
    var iconCaption: bool
    var locationInfo: bool

    /** The three histories hold one entry per recorded step. */
    predicate Aligned()
      reads this
    {
      |thoughtHistory| == |summaryHistory| == |actionHistory|
    }

    function Fixed(): Settings
      reads this
    {
      Settings(insight, tempFile, vlModelVersion, apiUrl, apiToken, modelProvider,
               temperature, useSom, iconCaption, locationInfo)
    }

    constructor()
      ensures thoughtHistory == [] && summaryHistory == [] && actionHistory == [] && Aligned()
      ensures reflectionThought == "" && completedRequirements == "" && memory == "" && insight == ""
      ensures tempFile == "temp" && !errorFlag
      ensures vlModelVersion == "gemini-2.0-flash-exp" && apiUrl == None && apiToken == ""
      ensures modelProvider == "gemini" && temperature == 0.0
      ensures !useSom && !iconCaption && !locationInfo
    {
      thoughtHistory := [];
      summaryHistory := [];
      actionHistory := [];
      reflectionThought := "";
      completedRequirements := "";
      memory := "";
      insight := "";
      tempFile := "temp";
      errorFlag := false;
      vlModelVersion := "gemini-2.0-flash-exp";
      apiUrl := None;
      apiToken := "";
      modelProvider := "gemini";
      temperature := 0.0;
      useSom := false;
      iconCaption := false;
      locationInfo := false;
    }

    /** Replaces the memory; nothing else changes. */
    method SetMemory(m: string)
      modifies this
      ensures memory == m
      ensures thoughtHistory == old(thoughtHistory) && summaryHistory == old(summaryHistory)
      ensures actionHistory == old(actionHistory) && errorFlag == old(errorFlag)
      ensures reflectionThought == old(reflectionThought) && completedRequirements == old(completedRequirements)
      ensures Aligned() == old(Aligned()) && Fixed() == old(Fixed())
    {
      memory := m;
    }

    /** Replaces the reflection thought; nothing else changes. */
    method SetReflectionThought(t: string)
      modifies this
      ensures reflectionThought == t
      ensures thoughtHistory == old(thoughtHistory) && summaryHistory == old(summaryHistory)
      ensures actionHistory == old(actionHistory) && errorFlag == old(errorFlag)
      ensures memory == old(memory) && completedRequirements == old(completedRequirements)
      ensures Aligned() == old(Aligned()) && Fixed() == old(Fixed())
    {
      reflectionThought := t;
    }

    /** Appends one step to the three histories together. */
    method Record(thought: string, summary: string, action: string)
      modifies this
      ensures thoughtHistory == old(thoughtHistory) + [thought]
      ensures summaryHistory == old(summaryHistory) + [summary]
      ensures actionHistory == old(actionHistory) + [action]
      ensures old(Aligned()) ==> Aligned()
      ensures reflectionThought == old(reflectionThought) && completedRequirements == old(completedRequirements)
      ensures memory == old(memory) && errorFlag == old(errorFlag)
      ensures Fixed() == old(Fixed())
    {
      thoughtHistory := thoughtHistory + [thought];
      summaryHistory := summaryHistory + [summary];
      actionHistory := actionHistory + [action];
    }
  }
}
