/**
 * The developer console (src/components/DevDashboard.tsx): the agent list
 * with its two aggregates, the upload drop zone and the upload that adds a
 * pending agent. This file declares its own agent shape, whose status is
 * one of active, inactive or pending; the shared record is used for it.
 */
module DevDashboard {
  import opened Wrappers
  import opened Text
  import opened Agents

  /** The `mockAgents` fixture. */
  const MOCK_AGENTS: seq<Agent> := [
    Agent("1", "Customer Support Agent",
      "Handles customer inquiries and support requests",
      876, "2023-10-15", Active, None, None, None, None),
    Agent("2", "Product Recommendation Agent",
      "Suggests products based on user preferences",
      543, "2023-11-02", Active, None, None, None, None),
    Agent("3", "Data Analysis Assistant",
      "Helps analyze and visualize complex data",
      321, "2023-12-10", Active, None, None, None, None),
    Agent("4", "New Marketing Agent",
      "Drafts marketing content and campaigns",
      0, "2024-01-05", Pending, None, None, None, None)
  ]

  const UPLOADED_DESCRIPTION: string := "Recently uploaded agent"

  /** `agents.reduce((sum, agent) => sum + agent.usage, 0)`: a left fold. */
  function TotalUsage(agents: seq<Agent>): (total: int)
    ensures (forall j | 0 <= j < |agents| :: agents[j].usage >= 0) ==> total >= 0
  {
    if agents == [] then 0
    else
      var init := agents[..|agents| - 1];
      assert forall j | 0 <= j < |init| :: init[j] == agents[j];
      TotalUsage(init) + agents[|agents| - 1].usage
  }

  /** `agents.filter(agent => agent.status === 'active').length`. */
  function ActiveCount(agents: seq<Agent>): (n: nat)
    ensures n <= |agents|
    ensures n == 0 <==> forall i | 0 <= i < |agents| :: agents[i].status != Active
    ensures n == |agents| <==> forall i | 0 <= i < |agents| :: agents[i].status == Active
  {
    if agents == [] then 0
    else
      var rest := ActiveCount(agents[1..]);
      assert forall i | 1 <= i < |agents| :: agents[i] == agents[1..][i - 1];
      (if agents[0].status == Active then 1 else 0) + rest
  }

  /** The sum is the sum of the parts, whichever way the list is cut. */
  lemma {:induction false} TotalUsageConcat(a: seq<Agent>, b: seq<Agent>)
    ensures TotalUsage(a + b) == TotalUsage(a) + TotalUsage(b)
    decreases |b|
  {
    if b == [] {
      assert a + b == a;
    } else {
      var init := b[..|b| - 1];
      assert (a + b)[..|a + b| - 1] == a + init;
      TotalUsageConcat(a, init);
    }
  }

  lemma {:induction false} ActiveCountConcat(a: seq<Agent>, b: seq<Agent>)
    ensures ActiveCount(a + b) == ActiveCount(a) + ActiveCount(b)
  {
    if a == [] {
      assert a + b == b;
    } else {
      assert (a + b)[1..] == a[1..] + b;
      ActiveCountConcat(a[1..], b);
    }
  }

  /** With usage never negative, the total bounds every agent's usage. */
  lemma {:induction false} TotalBoundsEach(agents: seq<Agent>, i: nat)
    requires i < |agents|
    requires forall j | 0 <= j < |agents| :: agents[j].usage >= 0
    ensures agents[i].usage <= TotalUsage(agents)
    decreases |agents|
  {
    var init := agents[..|agents| - 1];
    assert forall j | 0 <= j < |init| :: init[j] == agents[j];
    if i < |init| {
      TotalBoundsEach(init, i);
    }
  }

  lemma TotalUsageOne(a: Agent)
    ensures TotalUsage([a]) == a.usage
  {
    assert [a][..0] == [];
  }

  /** The fixture's aggregates: 1740 conversations, 3 active agents of 4. */
  lemma FixtureAggregates()
    ensures TotalUsage(MOCK_AGENTS) == 1740
    ensures ActiveCount(MOCK_AGENTS) == 3
  {
    var m := MOCK_AGENTS;
    assert m == [m[0], m[1]] + [m[2], m[3]];
    TotalUsageConcat([m[0], m[1]], [m[2], m[3]]);
    TotalUsageConcat([m[0]], [m[1]]);
    TotalUsageConcat([m[2]], [m[3]]);
    assert [m[0], m[1]] == [m[0]] + [m[1]] && [m[2], m[3]] == [m[2]] + [m[3]];
    TotalUsageOne(m[0]);
    TotalUsageOne(m[1]);
    TotalUsageOne(m[2]);
    TotalUsageOne(m[3]);
  }

  /** The agent the upload adds to a list of `n` agents. */
  function UploadedAgent(n: nat, today: string): (a: Agent)
    ensures a.id == NatToString(n + 1) && a.name == "New Agent " + NatToString(n + 1)
    ensures a.usage == 0 && a.status == Pending && a.createdAt == today
  {
    Agent(NatToString(n + 1), "New Agent " + NatToString(n + 1), UPLOADED_DESCRIPTION,
      0, today, Pending, None, None, None, None)
  }

  /** An uploaded agent is pending with no usage: both aggregates stay put. */
  lemma {:induction false} UploadKeepsAggregates(agents: seq<Agent>, today: string)
    ensures TotalUsage(agents + [UploadedAgent(|agents|, today)]) == TotalUsage(agents)
    ensures ActiveCount(agents + [UploadedAgent(|agents|, today)]) == ActiveCount(agents)
  {
    var a := UploadedAgent(|agents|, today);
    TotalUsageConcat(agents, [a]);
    TotalUsageOne(a);
    ActiveCountConcat(agents, [a]);
  }

  /** The ids the console hands out: the agent at position `i` has id `i + 1`. */
  predicate NumberedIds(agents: seq<Agent>) {
    forall i | 0 <= i < |agents| :: agents[i].id == NatToString(i + 1)
  }

  /** Numbered ids are distinct. */
  lemma NumberedIdsDistinct(agents: seq<Agent>, i: nat, j: nat)
    requires NumberedIds(agents) && i < j < |agents|
    ensures agents[i].id != agents[j].id
  {
    NatToStringInjective(i + 1, j + 1);
  }

  lemma FixtureNumbered()
    ensures NumberedIds(MOCK_AGENTS)
  {
    assert NatToString(1) == "1" && NatToString(2) == "2";
    assert NatToString(3) == "3" && NatToString(4) == "4";
  }

  datatype UploadError = NoFilesSelected

  class DevDashboardState {
    var agents: seq<Agent>
    var isDragging: bool
    var selectedFiles: seq<File>

    constructor ()
      ensures agents == MOCK_AGENTS && !isDragging && selectedFiles == []
      ensures NumberedIds(agents)
    {
      agents := MOCK_AGENTS;
      isDragging := false;
      selectedFiles := [];
      FixtureNumbered();
    }

    /** `handleFileChange`: a picked list replaces the selection. */
    method FileChange(files: Option<seq<File>>)
      modifies this
      ensures selectedFiles == if files.Some? then files.value else old(selectedFiles)
      ensures agents == old(agents) && isDragging == old(isDragging)
    {
      if files.Some? {
        selectedFiles := files.value;
      }
    }

    method DragOver()
      modifies this
      ensures isDragging
      ensures agents == old(agents) && selectedFiles == old(selectedFiles)
    {
      isDragging := true;
    }

    method DragLeave()
      modifies this
      ensures !isDragging
      ensures agents == old(agents) && selectedFiles == old(selectedFiles)
    {
      isDragging := false;
    }

    /** `handleDrop`: the drop zone is released and the dropped list replaces
        the selection. */
    method Drop(files: Option<seq<File>>)
      modifies this
      ensures !isDragging
      ensures selectedFiles == if files.Some? then files.value else old(selectedFiles)
      ensures agents == old(agents)
    {
      isDragging := false;
      if files.Some? {
        selectedFiles := files.value;
      }
    }

    /** `handleUpload` with its success callback run at once: refused without
        files; otherwise one pending agent is appended, the selection is
        cleared, and the success message counts the files. */
    method Upload(today: string) returns (r: Result<string, UploadError>)
      modifies this
      ensures old(selectedFiles) == [] ==> r == Failure(NoFilesSelected) && agents == old(agents) && selectedFiles == []
      ensures old(selectedFiles) != [] ==>
        r == Success("Successfully uploaded " + NatToString(|old(selectedFiles)|) + " file(s)")
        && agents == old(agents) + [UploadedAgent(|old(agents)|, today)]
        && selectedFiles == []
      ensures TotalUsage(agents) == TotalUsage(old(agents)) && ActiveCount(agents) == ActiveCount(old(agents))
      ensures NumberedIds(old(agents)) ==> NumberedIds(agents)
      ensures isDragging == old(isDragging)
    {
      if |selectedFiles| == 0 {
        return Failure(NoFilesSelected);
      }
      var n := |selectedFiles|;
      UploadKeepsAggregates(agents, today);
      agents := agents + [UploadedAgent(|agents|, today)];
      selectedFiles := [];
      r := Success("Successfully uploaded " + NatToString(n) + " file(s)");
    }
  }
}
