/**
 * The agent page of the developer console
 * (src/components/dev/AgentDetails.tsx): an editable copy of the agent,
 * saved back through `onUpdate`, and a single code file to upload.
 */
module AgentDetails {
  import opened Wrappers
  import opened Agents

  /** The record `handleSaveChanges` gives `onUpdate`: the edited agent with
      only `lastUpdated` set to `today`, the current date. */
  function Saved(edited: Agent, today: string): (a: Agent)
    ensures a.lastUpdated == Some(today)
    ensures forall g :: FieldText(a, g) == FieldText(edited, g)
    ensures a.id == edited.id && a.usage == edited.usage && a.createdAt == edited.createdAt && a.status == edited.status
  {
    edited.(lastUpdated := Some(today))
  }

  /** Saving without edits changes nothing but the date. */
  lemma SaveUnedited(agent: Agent, today: string)
    ensures Saved(agent, today) == agent.(lastUpdated := Some(today))
    ensures agent.lastUpdated == Some(today) ==> Saved(agent, today) == agent
  {
  }

  /** An edited text reaches `onUpdate`, and every other field is the
      original's. */
  lemma SavedEdit(agent: Agent, f: Field, v: string, today: string)
    ensures FieldText(Saved(SetField(agent, f, v), today), f) == Some(v)
    ensures forall g | g != f :: FieldText(Saved(SetField(agent, f, v), today), g) == FieldText(agent, g)
  {
  }

  datatype UploadError = NoFileSelected

  class AgentDetailsState {
    var editedAgent: Agent
    var selectedFile: Option<File>

    /** `useState<Agent>({ ...agent })`: a copy of every property. */
    constructor (agent: Agent)
      ensures editedAgent == agent && selectedFile == None
    {
      editedAgent := agent;
      selectedFile := None;
    }

    /** `handleInputChange` on the text inputs. */
    method InputChange(f: Field, value: string)
      modifies this
      ensures editedAgent == SetField(old(editedAgent), f, value)
      ensures selectedFile == old(selectedFile)
    {
      editedAgent := SetField(editedAgent, f, value);
    }

    /** `handleInputChange` on the status select, whose options are active,
        inactive and pending. */
    method StatusChange(status: Status)
      requires status != Disabled
      modifies this
      ensures editedAgent == old(editedAgent).(status := status)
      ensures selectedFile == old(selectedFile)
    {
      editedAgent := editedAgent.(status := status);
    }

    /** `handleFileChange`: the first file, when at least one is given. */
    method FileChange(files: Option<seq<File>>)
      modifies this
      ensures files.Some? && files.value != [] ==> selectedFile == Some(files.value[0])
      ensures !(files.Some? && files.value != []) ==> selectedFile == old(selectedFile)
      ensures editedAgent == old(editedAgent)
    {
      if files.Some? && |files.value| > 0 {
        selectedFile := Some(files.value[0]);
      }
    }

    /** `handleSaveChanges`: what `onUpdate` receives; the page's own state
        is left as it is. */
    method SaveChanges(today: string) returns (updated: Agent)
      ensures updated.lastUpdated == Some(today)
      ensures forall g :: FieldText(updated, g) == FieldText(editedAgent, g)
      ensures updated == editedAgent.(lastUpdated := Some(today))
    {
      updated := Saved(editedAgent, today);
    }

    /** `handleUploadCode` with its success callback run at once. */
    method UploadCode() returns (r: Result<File, UploadError>)
      modifies this
      ensures old(selectedFile).None? <==> r.Failure?
      ensures r.Success? ==> Some(r.value) == old(selectedFile)
      ensures selectedFile == None && editedAgent == old(editedAgent)
    {
      if selectedFile.None? {
        return Failure(NoFileSelected);
      }
      r := Success(selectedFile.value);
      selectedFile := None;
    }

    /** The upload button's `disabled`: `!selectedFile`. */
    function UploadDisabled(): (d: bool)
      reads this
      ensures d <==> selectedFile == None
    {
      selectedFile.None?
    }
  }
}
