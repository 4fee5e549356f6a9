/**
 * The message list of the chat (src/components/chat/ChatContainer.tsx): the
 * `Message` record, the list that the `initialMessages` prop resets, and the
 * lookup that feeds the info panel with the `info` of the latest agent
 * message carrying one.
 */
module ChatContainer {
  import opened Wrappers

  datatype Role = User | AgentRole

  datatype Attachment = Attachment(name: string, mimeType: string)

  /** `info` is `None` for both `null` and a missing property: the lookup
      treats them alike, as falsy. */
  datatype Message = Message(
    id: string,
    role: Role,
    content: string,
    timestamp: string,
    info: Option<string>,
    attachments: Option<seq<Attachment>>)

  /** The `find` predicate: an agent message whose `info` is truthy, that is
      present and not the empty string. */
  predicate Carries(m: Message) {
    m.role == AgentRole && m.info.Some? && m.info.value != []
  }

  function Reverse(ms: seq<Message>): (r: seq<Message>)
    ensures |r| == |ms|
    ensures forall i | 0 <= i < |ms| :: r[i] == ms[|ms| - 1 - i]
  {
    if ms == [] then [] else Reverse(ms[1..]) + [ms[0]]
  }

  /** `Array.prototype.find`: the first message satisfying `Carries`. */
  function Find(ms: seq<Message>): (r: Option<Message>)
    ensures r.Some? ==> Carries(r.value) && r.value in ms
    ensures r.None? ==> forall i | 0 <= i < |ms| :: !Carries(ms[i])
  {
    if ms == [] then None
    else if Carries(ms[0]) then Some(ms[0])
    else Find(ms[1..])
  }

  /** `[...messages].reverse().find(m => m.role === 'agent' && m.info)` and
      its `?.info`. */
  function LatestInfo(messages: seq<Message>): (r: Option<string>)
    ensures r.None? <==> forall i | 0 <= i < |messages| :: !Carries(messages[i])
    ensures r.Some? ==> r.value != []
  {
    FindReversed(messages);
    match Find(Reverse(messages))
    case None => None
    case Some(m) => m.info
  }

  /** `find` returns the element at the first index that satisfies it. */
  lemma {:induction false} FindFirst(ms: seq<Message>, k: nat)
    requires k < |ms| && Carries(ms[k])
    requires forall i | 0 <= i < k :: !Carries(ms[i])
    ensures Find(ms) == Some(ms[k])
  {
    if k > 0 {
      FindFirst(ms[1..], k - 1);
    }
  }

  /** The lookup reports the info of the last carrying message, and reports
      nothing exactly when no message carries info. */
  lemma LatestInfoIsLast(messages: seq<Message>, k: nat)
    requires k < |messages| && Carries(messages[k])
    requires forall j | k < j < |messages| :: !Carries(messages[j])
    ensures LatestInfo(messages) == messages[k].info
  {
    var r := Reverse(messages);
    var n := |messages|;
    forall i | 0 <= i < n - 1 - k ensures !Carries(r[i]) {
      assert r[i] == messages[n - 1 - i];
    }
    FindFirst(r, n - 1 - k);
  }

  /** Searching the reversed copy finds nothing exactly when no message
      carries info. */
  lemma FindReversed(messages: seq<Message>)
    ensures Find(Reverse(messages)).None? <==> forall i | 0 <= i < |messages| :: !Carries(messages[i])
  {
    var r := Reverse(messages);
    if Find(r).None? {
      forall i | 0 <= i < |messages| ensures !Carries(messages[i]) {
        assert messages[i] == r[|messages| - 1 - i];
      }
    } else {
      var m := Find(r).value;
      var i :| 0 <= i < |r| && r[i] == m;
      assert messages[|messages| - 1 - i] == m;
    }
  }

  /** The same lookup read from the end of the list: the last carrying
      message's info. */
  function LastCarried(ms: seq<Message>): (r: Option<string>)
    ensures r.Some? ==> r.value != []
  {
    if ms == [] then None
    else if Carries(ms[|ms| - 1]) then ms[|ms| - 1].info
    else LastCarried(ms[..|ms| - 1])
  }

  lemma ReverseSnoc(ms: seq<Message>, m: Message)
    ensures Reverse(ms + [m]) == [m] + Reverse(ms)
  {
    var a, b := Reverse(ms + [m]), [m] + Reverse(ms);
    assert |a| == |b|;
    forall i | 0 <= i < |a| ensures a[i] == b[i] {
      if i > 0 {
        assert (ms + [m])[|ms| - i] == ms[|ms| - 1 - (i - 1)];
      }
    }
  }

  /** Reversing a copy and finding from its front is finding from the back. */
  lemma {:induction false} LatestInfoIsLastCarried(ms: seq<Message>)
    ensures LatestInfo(ms) == LastCarried(ms)
    decreases |ms|
  {
    if ms != [] {
      var init, m := ms[..|ms| - 1], ms[|ms| - 1];
      assert ms == init + [m];
      ReverseSnoc(init, m);
      assert Reverse(ms) == [m] + Reverse(init);
      assert ([m] + Reverse(init))[1..] == Reverse(init);
      LatestInfoIsLastCarried(init);
    }
  }

  /** What `LastCarried` reports is the info of a carrying message that no
      later message follows with info of its own. */
  lemma {:induction false} LastCarriedIsLast(ms: seq<Message>)
    requires LastCarried(ms).Some?
    ensures exists k | 0 <= k < |ms| ::
      Carries(ms[k]) && ms[k].info == LastCarried(ms) && forall j | k < j < |ms| :: !Carries(ms[j])
    decreases |ms|
  {
    var n := |ms|;
    if Carries(ms[n - 1]) {
      assert Carries(ms[n - 1]) && ms[n - 1].info == LastCarried(ms);
    } else {
      var init := ms[..n - 1];
      LastCarriedIsLast(init);
      var k :| 0 <= k < |init| && Carries(init[k]) && init[k].info == LastCarried(init)
        && forall j | k < j < |init| :: !Carries(init[j]);
      assert ms[k] == init[k];
      forall j | k < j < n ensures !Carries(ms[j]) {
        if j < n - 1 {
          assert ms[j] == init[j];
        }
      }
    }
  }

  /** A new message without info, a user message in particular, leaves the
      reported info as it was. */
  lemma AppendNonCarrying(messages: seq<Message>, m: Message)
    requires !Carries(m)
    ensures LatestInfo(messages + [m]) == LatestInfo(messages)
  {
    LatestInfoIsLastCarried(messages + [m]);
    LatestInfoIsLastCarried(messages);
    assert (messages + [m])[..|messages|] == messages;
  }

  /** A new agent message with info is what the panel shows next. */
  lemma AppendCarrying(messages: seq<Message>, m: Message)
    requires Carries(m)
    ensures LatestInfo(messages + [m]) == m.info
  {
    LatestInfoIsLast(messages + [m], |messages|);
  }

  /** The component's state: the list shown, which starts as the
      `initialMessages` prop (default `[]`) and is replaced whenever that
      prop changes. */
  class ChatContainerState {
    var messages: seq<Message>

    constructor (initialMessages: seq<Message>)
      ensures messages == initialMessages
    {
      messages := initialMessages;
    }

    /** The effect on `initialMessages`: the list is replaced wholesale. */
    method Reset(initialMessages: seq<Message>)
      modifies this
      ensures messages == initialMessages
    {
      messages := initialMessages;
    }

    /** The effect on `messages`: `onInfoUpdate` is called with the latest
        carried info, or not at all, so that the info reported before stands.
        The list itself is left as it is; the lookup reverses a copy. */
    method InfoUpdate() returns (call: Option<string>)
      ensures call.Some? <==> exists i | 0 <= i < |messages| :: Carries(messages[i])
      ensures call.Some? ==> call.value != [] && exists k | 0 <= k < |messages| ::
        Carries(messages[k]) && messages[k].info == call && forall j | k < j < |messages| :: !Carries(messages[j])
    {
      call := LatestInfo(messages);
      LatestInfoIsLastCarried(messages);
      if call.Some? {
        LastCarriedIsLast(messages);
      }
    }
  }
}
