/**
 * The user's landing page (src/components/UserDashboard.tsx): a picker over
 * the agents that are not disabled, replaced by the chat page once one is
 * chosen.
 */
module UserDashboard {
  import opened Wrappers
  import opened Agents

  /** The `availableAgents` fixture. */
  const AVAILABLE_AGENTS: seq<Agent> := [
    Agent("1", "Customer Support Assistant",
      "Get help with your account, orders, and general inquiries",
      876, "2023-10-15", Active, None, None, None, None),
    Agent("2", "Product Recommendation Agent",
      "Find the perfect products based on your preferences",
      543, "2023-11-02", Active, None, None, None, None),
    Agent("3", "Research Helper",
      "Assistance with research, data analysis, and information gathering",
      321, "2023-12-10", Disabled, None, None, None, None)
  ]

  /** `agents.filter(agent => agent.status !== 'disabled')`. */
  function ShownAgents(agents: seq<Agent>): (r: seq<Agent>)
    ensures |r| <= |agents|
    ensures forall i | 0 <= i < |r| :: r[i].status != Disabled && r[i] in agents
  {
    if agents == [] then []
    else if agents[0].status != Disabled then [agents[0]] + ShownAgents(agents[1..])
    else ShownAgents(agents[1..])
  }

  /** The filter keeps the order: filtering a concatenation filters each part. */
  lemma {:induction false} ShownAgentsConcat(a: seq<Agent>, b: seq<Agent>)
    ensures ShownAgents(a + b) == ShownAgents(a) + ShownAgents(b)
  {
    if a == [] {
      assert a + b == b;
    } else {
      assert (a + b)[1..] == a[1..] + b;
      ShownAgentsConcat(a[1..], b);
    }
  }

  /** Every agent that is not disabled is shown, and none that is. */
  lemma {:induction false} ShownAgentsKeeps(agents: seq<Agent>, a: Agent)
    ensures a in ShownAgents(agents) <==> a in agents && a.status != Disabled
  {
    if agents != [] {
      ShownAgentsKeeps(agents[1..], a);
      assert agents == [agents[0]] + agents[1..];
    }
  }

  /** With the fixture, the first two agents are shown, in order, and
      "Research Helper" is not. */
  lemma ShownFixture()
    ensures ShownAgents(AVAILABLE_AGENTS) == AVAILABLE_AGENTS[..2]
    ensures forall a | a in ShownAgents(AVAILABLE_AGENTS) :: a.name != "Research Helper"
  {
    var a := AVAILABLE_AGENTS;
    assert a[1..][1..][1..] == [];
    assert a[2].name == "Research Helper" && a[0].name != a[2].name && a[1].name != a[2].name;
  }

  /** What the page renders. */
  datatype View = Picker(agents: seq<Agent>) | Chat(initialAgent: Agent)

  class UserDashboardState {
    var selectedAgent: Option<Agent>

    constructor ()
      ensures selectedAgent == None
    {
      selectedAgent := None;
    }

    /** `if (!selectedAgent)`: the picker over the shown agents, else the
        chat page with the chosen agent as `initialAgent`. */
    function Render(): (v: View)
      reads this
      ensures selectedAgent.None? ==> v == Picker(ShownAgents(AVAILABLE_AGENTS))
      ensures selectedAgent.Some? ==> v == Chat(selectedAgent.value)
    {
      match selectedAgent
      case None => Picker(ShownAgents(AVAILABLE_AGENTS))
      case Some(a) => Chat(a)
    }

    /** A click on card `i`; cards exist only while the picker is shown. The
        page then shows the chat with that agent, and no handler of this
        page sets the selection back to `null`. */
    method ClickCard(i: nat)
      requires selectedAgent.None? && i < |ShownAgents(AVAILABLE_AGENTS)|
      modifies this
      ensures selectedAgent == Some(ShownAgents(AVAILABLE_AGENTS)[i])
      ensures Render() == Chat(ShownAgents(AVAILABLE_AGENTS)[i])
    {
      selectedAgent := Some(ShownAgents(AVAILABLE_AGENTS)[i]);
    }
  }
}
