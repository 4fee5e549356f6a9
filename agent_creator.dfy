/**
 * The new-agent form (src/components/dev/AgentCreator.tsx): a partial agent
 * record edited field by field, a file selection, and the create action
 * that checks the name, then the files, and builds the agent.
 */
module AgentCreator {
  import opened Wrappers
  import opened Agents
  import opened Text

  const NO_DESCRIPTION: string := "No description provided"

  /** The form's `Partial<Agent>`: the fields the inputs edit. */
  datatype Form = Form(
    name: string,
    description: string,
    category: string,
    author: string,
    version: string,
    status: Status)

  function InitialForm(): (f: Form)
    ensures f.name == [] && f.description == [] && f.category == [] && f.author == []
    ensures f.version == "1.0.0" && f.status == Pending
  {
    Form("", "", "", "", "1.0.0", Pending)
  }

  function FormText(form: Form, f: Field): string {
    match f
    case Name => form.name
    case Description => form.description
    case Category => form.category
    case Author => form.author
    case Version => form.version
  }

  /** `{ ...prev, [name]: value }` for the text input named `f`. */
  function SetFormField(form: Form, f: Field, v: string): (r: Form)
    ensures FormText(r, f) == v
    ensures forall g | g != f :: FormText(r, g) == FormText(form, g)
    ensures r.status == form.status
  {
    match f
    case Name => form.(name := v)
    case Description => form.(description := v)
    case Category => form.(category := v)
    case Author => form.(author := v)
    case Version => form.(version := v)
  }

  datatype CreateError = NameRequired | FilesRequired

  /** The checks of `handleCreateAgent`, in their order: `!newAgent.name`
      first (the name is not trimmed), then an empty file list. */
  function CreateCheck(form: Form, files: seq<File>): (r: Option<CreateError>)
    ensures r == Some(NameRequired) <==> form.name == []
    ensures r == Some(FilesRequired) <==> form.name != [] && files == []
    ensures r == None <==> form.name != [] && files != []
  {
    if form.name == [] then Some(NameRequired)
    else if |files| == 0 then Some(FilesRequired)
    else None
  }

  /** The record the success callback hands to `onAgentCreated`; `id` and
      `today` stand for `Date.now()` and the current date. */
  function CreatedAgent(form: Form, id: string, today: string): (a: Agent)
    ensures a.name == form.name && a.status == form.status && a.usage == 0
    ensures a.description == (if form.description == [] then NO_DESCRIPTION else form.description)
    ensures a.description != []
    ensures a.category == Some(form.category) && a.author == Some(form.author) && a.version == Some(form.version)
    ensures a.id == id && a.createdAt == today && a.lastUpdated == Some(today)
  {
    Agent(id, form.name, if form.description == [] then NO_DESCRIPTION else form.description,
      0, today, form.status, Some(form.version), Some(today), Some(form.category), Some(form.author))
  }

  /** The name is not trimmed: a name made only of blanks, which trims to
      nothing, passes the check. */
  lemma BlankNamePasses(form: Form, files: seq<File>)
    requires form.name != [] && forall i | 0 <= i < |form.name| :: IsJsWhitespace(form.name[i])
    requires files != []
    ensures Trim(form.name) == [] && CreateCheck(form, files) == None
  {
    TrimEmptyIff(form.name);
  }

  /** The text typed into an input is what the created agent carries. */
  lemma TypedTextIsCreated(form: Form, f: Field, v: string, id: string, today: string)
    requires f != Description || v != []
    ensures FieldText(CreatedAgent(SetFormField(form, f, v), id, today), f) == Some(v)
  {
  }

  class AgentCreatorState {
    var form: Form
    var selectedFiles: seq<File>

    constructor ()
      ensures form == InitialForm() && selectedFiles == []
    {
      form := InitialForm();
      selectedFiles := [];
    }

    /** `handleInputChange`. */
    method InputChange(f: Field, value: string)
      modifies this
      ensures form == SetFormField(old(form), f, value)
      ensures selectedFiles == old(selectedFiles)
    {
      form := SetFormField(form, f, value);
    }

    /** `handleSelectChange` on the status select, whose options are active,
        inactive and pending. */
    method SelectChange(status: Status)
      requires status != Disabled
      modifies this
      ensures form == old(form).(status := status)
      ensures selectedFiles == old(selectedFiles)
    {
      form := form.(status := status);
    }

    /** `handleFileChange` and `handleDrop`: a picked or dropped list
        replaces the selection. */
    method FileChange(files: Option<seq<File>>)
      modifies this
      ensures selectedFiles == if files.Some? then files.value else old(selectedFiles)
      ensures form == old(form)
    {
      if files.Some? {
        selectedFiles := files.value;
      }
    }

    /** `handleCreateAgent` with its success callback run at once: the agent
        given to `onAgentCreated`, or the check that refused. The form and
        the files are left as they are. */
    method CreateAgent(id: string, today: string) returns (r: Result<Agent, CreateError>)
      ensures r.Failure? <==> CreateCheck(form, selectedFiles).Some?
      ensures r.Failure? ==> r.error == CreateCheck(form, selectedFiles).value
      ensures r.Success? ==> r.value == CreatedAgent(form, id, today)
    {
      match CreateCheck(form, selectedFiles)
      case Some(e) => r := Failure(e);
      case None => r := Success(CreatedAgent(form, id, today));
    }

    /** The Create button's `disabled`: `!newAgent.name || selectedFiles.length === 0`. */
    function CreateDisabled(): (d: bool)
      reads this
      ensures d <==> CreateCheck(form, selectedFiles).Some?
    {
      form.name == [] || |selectedFiles| == 0
    }
  }
}
