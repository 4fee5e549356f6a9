/**
 * The compose box of the chat (src/components/chat/ChatInput.tsx): the
 * message text, the recording flag and the attachment list are its state;
 * the handlers change them. `onSendMessage` is the caller's callback: a
 * handler that calls it returns what it was called with.
 */
module ChatInput {
  import opened Wrappers
  import opened Text
  import opened Agents

  const ANALYZE_PROMPT: string := "Analyze the data in the attached file"
  const SUMMARIZE_PROMPT: string := "Summarize the key points from the document"
  const RECORDING: File := File("voice-recording.mp3", "audio/mpeg")

  /** What `onSendMessage` receives: the text as typed and the attachments. */
  datatype Outgoing = Outgoing(message: string, attachments: seq<File>)

  /** The send guard, also the send button's `disabled` expression: nothing to
      send (blank text and no attachment), or a send already in progress.
      Blank means every character is white space or a line terminator. */
  function SendBlocked(text: string, attachments: seq<File>, isSending: bool): (blocked: bool)
    ensures blocked <==> isSending || (attachments == [] && forall i | 0 <= i < |text| :: IsJsWhitespace(text[i]))
  {
    TrimEmptyIff(text);
    (Trim(text) == [] && |attachments| == 0) || isSending
  }

  /** `attachments.filter((_, i) => i !== index)`, scanning from position `from`. */
  function KeepOthers(s: seq<File>, index: int, from: nat): (r: seq<File>)
    requires from <= |s|
    decreases |s| - from
    ensures |r| <= |s| - from
  {
    if from == |s| then []
    else if from == index then KeepOthers(s, index, from + 1)
    else [s[from]] + KeepOthers(s, index, from + 1)
  }

  /** The filter drops exactly the element at `index` and keeps the rest in
      order; an index outside the list drops nothing. */
  lemma {:induction false} KeepOthersIs(s: seq<File>, index: int, from: nat)
    requires from <= |s|
    decreases |s| - from
    ensures from <= index < |s| ==> KeepOthers(s, index, from) == s[from..index] + s[index + 1..]
    ensures !(from <= index < |s|) ==> KeepOthers(s, index, from) == s[from..]
  {
    if from < |s| {
      KeepOthersIs(s, index, from + 1);
      if from != index {
        assert s[from..] == [s[from]] + s[from + 1..];
        if from < index < |s| {
          assert s[from..index] == [s[from]] + s[from + 1..index];
        }
      }
    }
  }

  function RemoveAt(s: seq<File>, index: int): (r: seq<File>)
    ensures 0 <= index < |s| ==> r == s[..index] + s[index + 1..] && |r| == |s| - 1
    ensures !(0 <= index < |s|) ==> r == s
  {
    KeepOthersIs(s, index, 0);
    KeepOthers(s, index, 0)
  }

  class ChatInputState {
    var inputMessage: string
    var isRecording: bool
    var attachments: seq<File>

    constructor ()
      ensures inputMessage == [] && !isRecording && attachments == []
    {
      inputMessage := [];
      isRecording := false;
      attachments := [];
    }

    /** The textarea's `onChange`. */
    method Type(value: string)
      modifies this
      ensures inputMessage == value
      ensures isRecording == old(isRecording) && attachments == old(attachments)
    {
      inputMessage := value;
    }

    /** `handleSendMessage`: refused when blocked; otherwise `onSendMessage`
        gets the untrimmed text and the attachments, and both are cleared. */
    method SendMessage(isSending: bool) returns (sent: Option<Outgoing>)
      modifies this
      ensures sent.Some? <==> !SendBlocked(old(inputMessage), old(attachments), isSending)
      ensures sent.Some? ==> sent.value == Outgoing(old(inputMessage), old(attachments))
      ensures sent.Some? ==> inputMessage == [] && attachments == []
      ensures sent.None? ==> inputMessage == old(inputMessage) && attachments == old(attachments)
      ensures isRecording == old(isRecording)
    {
      if SendBlocked(inputMessage, attachments, isSending) {
        return None;
      }
      sent := Some(Outgoing(inputMessage, attachments));
      inputMessage := [];
      attachments := [];
    }

    /** `handleKeyDown`: Enter without Shift sends; every other key is left
        to the textarea. */
    method KeyDown(key: string, shiftKey: bool, isSending: bool) returns (sent: Option<Outgoing>)
      modifies this
      ensures !(key == "Enter" && !shiftKey) ==> sent.None? && inputMessage == old(inputMessage) && attachments == old(attachments)
      ensures key == "Enter" && !shiftKey ==>
        (sent.Some? <==> !SendBlocked(old(inputMessage), old(attachments), isSending))
      ensures sent.Some? ==> sent.value == Outgoing(old(inputMessage), old(attachments)) && inputMessage == [] && attachments == []
      ensures sent.None? ==> inputMessage == old(inputMessage) && attachments == old(attachments)
      ensures isRecording == old(isRecording)
    {
      sent := None;
      if key == "Enter" && !shiftKey {
        sent := SendMessage(isSending);
      }
    }

    /** `handleFileUpload`: picked files go after the existing attachments;
        a `null` file list changes nothing. */
    method FileUpload(files: Option<seq<File>>)
      modifies this
      ensures files.Some? ==> attachments == old(attachments) + files.value
      ensures files.None? ==> attachments == old(attachments)
      ensures inputMessage == old(inputMessage) && isRecording == old(isRecording)
    {
      if files.Some? {
        attachments := attachments + files.value;
      }
    }

    /** `handleRemoveAttachment`. */
    method RemoveAttachment(index: int)
      modifies this
      ensures attachments == RemoveAt(old(attachments), index)
      ensures inputMessage == old(inputMessage) && isRecording == old(isRecording)
    {
      attachments := RemoveAt(attachments, index);
    }

    /** `toggleRecording`. Stopping appends the mock recording. Starting waits
        for the browser's microphone prompt; its answer is `micGranted`, and
        a refusal changes nothing. */
    method ToggleRecording(micGranted: bool)
      modifies this
      ensures old(isRecording) ==> !isRecording && attachments == old(attachments) + [RECORDING]
      ensures !old(isRecording) ==> isRecording == micGranted && attachments == old(attachments)
      ensures inputMessage == old(inputMessage)
    {
      if isRecording {
        isRecording := false;
        attachments := attachments + [RECORDING];
      } else if micGranted {
        isRecording := true;
      }
    }

    /** The "Analyze Data" button. */
    method AnalyzePrompt()
      modifies this
      ensures inputMessage == ANALYZE_PROMPT
      ensures attachments == old(attachments) && isRecording == old(isRecording)
    {
      inputMessage := ANALYZE_PROMPT;
    }

    /** The "Summarize Document" button. */
    method SummarizePrompt()
      modifies this
      ensures inputMessage == SUMMARIZE_PROMPT
      ensures attachments == old(attachments) && isRecording == old(isRecording)
    {
      inputMessage := SUMMARIZE_PROMPT;
    }

    /** The send button's `disabled` attribute. */
    function SendDisabled(isSending: bool): (r: bool)
      reads this
      ensures r <==> isSending || (attachments == [] && forall i | 0 <= i < |inputMessage| :: IsJsWhitespace(inputMessage[i]))
    {
      SendBlocked(inputMessage, attachments, isSending)
    }
  }

  /** A prompt button makes the text sendable, whatever the attachments. */
  lemma {:induction false} PromptsAreSendable(attachments: seq<File>)
    ensures !SendBlocked(ANALYZE_PROMPT, attachments, false)
    ensures !SendBlocked(SUMMARIZE_PROMPT, attachments, false)
  {
    assert ANALYZE_PROMPT[0] == 'A' && SUMMARIZE_PROMPT[0] == 'S';
  }

  /** Stopping a recording makes the box sendable. */
  lemma RecordingIsSendable(text: string, attachments: seq<File>)
    ensures !SendBlocked(text, attachments + [RECORDING], false)
  {
  }
}
