/**
 * The chat page (src/components/chat/ChatDashboard.tsx): either the agent
 * picker or the chat with one agent. Two state variables say which, and
 * the handlers keep them in step.
 */
module ChatDashboard {
  import opened Wrappers
  import opened Agents

  class ChatDashboardState {
    var selectedAgent: Option<Agent>
    var showSelection: bool

    /** The picker is shown exactly when no agent is selected. */
    predicate Valid()
      reads this
    {
      showSelection <==> selectedAgent.None?
    }

    /** `initialAgent || null` and `!initialAgent`: an agent object is
        truthy, a missing one is not. */
    constructor (initialAgent: Option<Agent>)
      ensures Valid()
      ensures selectedAgent == initialAgent
      ensures showSelection <==> initialAgent.None?
    {
      selectedAgent := initialAgent;
      showSelection := initialAgent.None?;
    }

    /** `handleAgentSelect`, from a picker card or from the selector in the
        chat view: the agent is stored and the chat view is shown. */
    method AgentSelect(agent: Agent)
      requires Valid()
      modifies this
      ensures Valid()
      ensures selectedAgent == Some(agent) && !showSelection
    {
      selectedAgent := Some(agent);
      showSelection := false;
    }

    /** `handleBackToSelection`. */
    method BackToSelection()
      requires Valid()
      modifies this
      ensures Valid()
      ensures selectedAgent == None && showSelection
    {
      showSelection := true;
      selectedAgent := None;
    }
  }
}
