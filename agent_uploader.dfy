/**
 * The upload card of the developer console
 * (src/components/dev/AgentUploader.tsx): a drop zone, a file selection and
 * an upload that hands one pending agent to `onAgentAdded`.
 */
module AgentUploader {
  import opened Wrappers
  import opened Text
  import opened Agents

  const UPLOADED_NAME: string := "New Agent from Upload"
  const UPLOADED_DESCRIPTION: string := "Recently uploaded agent"

  /** The agent of the success callback; `id` and `today` stand for
      `Date.now()` and the current date. */
  function UploadedAgent(id: string, today: string): (a: Agent)
    ensures a.name == UPLOADED_NAME && a.description == UPLOADED_DESCRIPTION
    ensures a.usage == 0 && a.status == Pending && a.id == id && a.createdAt == today
  {
    Agent(id, UPLOADED_NAME, UPLOADED_DESCRIPTION, 0, today, Pending, None, None, None, None)
  }

  /** The success message for `n` files. */
  function UploadMessage(n: nat): (m: string)
    ensures |m| >= 31
    ensures m[..22] == "Successfully uploaded " && m[|m| - 8..] == " file(s)"
    ensures m[22..|m| - 8] == NatToString(n)
    ensures DigitsValue(m[22..|m| - 8]) == n
  {
    var digits := NatToString(n);
    var m := "Successfully uploaded " + digits + " file(s)";
    assert m[..22] == "Successfully uploaded ";
    assert m[22..|m| - 8] == digits;
    NatToStringRoundTrip(n);
    m
  }

  datatype Uploaded = Uploaded(agent: Agent, message: string)

  datatype UploadError = NoFilesSelected

  class AgentUploaderState {
    var isDragging: bool
    var selectedFiles: seq<File>

    constructor ()
      ensures !isDragging && selectedFiles == []
    {
      isDragging := false;
      selectedFiles := [];
    }

    method FileChange(files: Option<seq<File>>)
      modifies this
      ensures selectedFiles == if files.Some? then files.value else old(selectedFiles)
      ensures isDragging == old(isDragging)
    {
      if files.Some? {
        selectedFiles := files.value;
      }
    }

    method DragOver()
      modifies this
      ensures isDragging && selectedFiles == old(selectedFiles)
    {
      isDragging := true;
    }

    method DragLeave()
      modifies this
      ensures !isDragging && selectedFiles == old(selectedFiles)
    {
      isDragging := false;
    }

    method Drop(files: Option<seq<File>>)
      modifies this
      ensures !isDragging
      ensures selectedFiles == if files.Some? then files.value else old(selectedFiles)
    {
      isDragging := false;
      if files.Some? {
        selectedFiles := files.value;
      }
    }

    /** `handleUpload` with its success callback run at once: refused without
        files, so `onAgentAdded` is not called; otherwise it is called once,
        with the uploaded agent, and the selection is cleared. */
    method Upload(id: string, today: string) returns (r: Result<Uploaded, UploadError>)
      modifies this
      ensures old(selectedFiles) == [] <==> r.Failure?
      ensures r.Failure? ==> selectedFiles == old(selectedFiles)
      ensures r.Success? ==> r.value == Uploaded(UploadedAgent(id, today), UploadMessage(|old(selectedFiles)|))
      ensures selectedFiles == [] && isDragging == old(isDragging)
    {
      if |selectedFiles| == 0 {
        return Failure(NoFilesSelected);
      }
      var n := |selectedFiles|;
      selectedFiles := [];
      r := Success(Uploaded(UploadedAgent(id, today), UploadMessage(n)));
    }

    /** The upload button's `disabled`. */
    function UploadDisabled(): (d: bool)
      reads this
      ensures d <==> selectedFiles == []
    {
      |selectedFiles| == 0
    }
  }
}
