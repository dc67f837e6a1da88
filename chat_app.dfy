/** The session and conversation state of the App component and the five
    handlers that update it.

    A handler that changes state both before and after its backend call
    (select, upload, send) is split at that call: a Begin method runs the
    part before it, a Complete method the part after it and receives the
    call's outcome as a parameter. The list refresh and the delete handler
    change nothing before their call and are single steps that take the
    outcome; the upload's two awaits (upload, then list refresh) run as one
    Complete step. A field frame (`modifies this`f`) names exactly the state
    fields a step may set; every other field keeps its value. */
module ChatApp {
  import opened ChatTypes
  import Text
  import Registry
  import Timeline

  /** The fixed assistant reply shown when a question fails. */
  const Apology: string := "Sorry, I encountered an error while processing your request."

  /** JavaScript truthiness of the optional active id: `null` and the empty
      string are both falsy. */
  predicate HasActive(active: Option<SessionId>)
  {
    active.Some? && active.value != ""
  }

  /** The guard of the send handler: the input holds a character other than
      white space, the active id is truthy and no question is in flight. */
  function SendAccepted(input: string, active: Option<SessionId>, isLoading: bool): (r: bool)
    ensures r <==> (exists i :: 0 <= i < |input| && !Text.IsWhitespace(input[i]))
                   && HasActive(active) && !isLoading
  {
    Text.TrimEmptyIffBlank(input);
    Text.Trim(input) != "" && HasActive(active) && !isLoading
  }

  class App {
    var sessions: seq<SessionId>
    var activeSessionId: Option<SessionId>
    var messages: seq<ChatMessage>
    var input: string
    var isLoading: bool
    var isUploading: bool

    /** The initial state of the component. */
    constructor ()
      ensures sessions == [] && activeSessionId == None && messages == []
      ensures input == "" && !isLoading && !isUploading
    {
      sessions := [];
      activeSessionId := None;
      messages := [];
      input := "";
      isLoading := false;
      isUploading := false;
    }

    /** The text box's change handler. */
    method TypeInput(text: string)
      modifies this`input
      ensures input == text
    {
      input := text;
    }

    /** Completion of the session list refresh: a fetched list replaces the
      old one wholesale; a failed fetch keeps the old one. */
    method FetchSessions(fetched: Outcome<seq<SessionId>>)
      modifies this`sessions
      ensures fetched.Ok? ==> sessions == fetched.value
      ensures fetched.Err? ==> sessions == old(sessions)
    {
      if fetched.Ok? {
        sessions := fetched.value;
      }
    }

    /** Selecting a session: the id becomes active at once; the previous
      messages stay until the history response arrives. */
    method SelectSessionBegin(id: SessionId)
      modifies this`activeSessionId
      ensures activeSessionId == Some(id)
    {
      activeSessionId := Some(id);
    }

    /** Arrival of a history response: the messages become the rebuilt
      timeline, or empty when the fetch failed. The response is applied
      whichever session is active by then. `clock` holds the `Date.now()`
      readings taken while rebuilding. */
    method SelectSessionComplete(history: Outcome<SessionHistory>, clock: seq<int>)
      requires history.Ok? ==> 2 * |history.value.history| <= |clock|
      modifies this`messages
      ensures history.Ok? ==> messages == Timeline.Build(history.value.history, clock)
      ensures history.Err? ==> messages == []
    {
      match history {
        case Ok(h) =>
          var chatHistory := Timeline.BuildChatHistory(h.history, clock);
          messages := chatHistory;
        case Err =>
          messages := [];
      }
    }

    /** The delete handler. Nothing happens unless the user confirms and the
      remote delete succeeds; then the id leaves the session list and, if it
      was the active session, the active session and its messages are
      cleared. */
    method DeleteSession(id: SessionId, confirmed: bool, remote: Outcome<()>) returns (deleted: bool)
      modifies this`sessions, this`activeSessionId, this`messages
      ensures deleted <==> confirmed && remote.Ok?
      ensures sessions == if deleted then Registry.Without(old(sessions), id) else old(sessions)
      ensures deleted && old(activeSessionId) == Some(id) ==> activeSessionId == None && messages == []
      ensures !(deleted && old(activeSessionId) == Some(id)) ==>
                activeSessionId == old(activeSessionId) && messages == old(messages)
    {
      deleted := false;
      if !confirmed {
        return;
      }
      if remote.Ok? {
        deleted := true;
        sessions := Registry.Without(sessions, id);
        if activeSessionId == Some(id) {
          activeSessionId := None;
          messages := [];
        }
      }
    }

    /** The upload handler up to the upload call: nothing happens without a
      chosen file; otherwise the upload flag is raised. */
    method UploadBegin(fileChosen: bool) returns (started: bool)
      modifies this`isUploading
      ensures started == fileChosen
      ensures started ==> isUploading
      ensures !started ==> isUploading == old(isUploading)
    {
      started := fileChosen;
      if !fileChosen {
        return;
      }
      isUploading := true;
    }

    /** The upload handler after the upload call. On success the session
      list is refreshed (with `refreshed` as that fetch's outcome) and the
      new session is selected whether or not the refresh succeeded; the
      history of the new session arrives later, through
      SelectSessionComplete. On failure no session state changes. Either
      way the upload flag ends lowered. */
    method UploadComplete(uploaded: Outcome<UploadResponse>, refreshed: Outcome<seq<SessionId>>)
      modifies this`isUploading, this`sessions, this`activeSessionId
      ensures !isUploading
      ensures uploaded.Ok? ==> activeSessionId == Some(uploaded.value.sessionId)
      ensures uploaded.Ok? && refreshed.Ok? ==> sessions == refreshed.value
      ensures uploaded.Ok? && refreshed.Err? ==> sessions == old(sessions)
      ensures uploaded.Err? ==> sessions == old(sessions) && activeSessionId == old(activeSessionId)
    {
      if uploaded.Ok? {
        FetchSessions(refreshed);
        SelectSessionBegin(uploaded.value.sessionId);
      }
      isUploading := false;
    }

    /** The send handler up to the ask call. When the guard rejects, no
      field changes and no request is made. Otherwise the untrimmed input is
      appended as a user message, the input is cleared, the loading flag is
      raised and the request for the active session is returned. `now` is
      the `Date.now()` reading for the user message. */
    method SendMessageBegin(now: int) returns (request: Option<AskRequest>)
      modifies this`messages, this`input, this`isLoading
      ensures request.Some? <==> SendAccepted(old(input), activeSessionId, old(isLoading))
      ensures request.Some? ==>
                && request.value == AskRequest(activeSessionId.value, old(input))
                && messages == old(messages) + [ChatMessage(User, old(input), 2 * now)]
                && input == "" && isLoading
      ensures request.None? ==>
                messages == old(messages) && input == old(input) && isLoading == old(isLoading)
    {
      if !SendAccepted(input, activeSessionId, isLoading) {
        return None;
      }
      var userMsg := ChatMessage(User, input, 2 * now);
      messages := messages + [userMsg];
      var question := input;
      input := "";
      isLoading := true;
      request := Some(AskRequest(activeSessionId.value, question));
    }

    /** The send handler after the ask call: exactly one assistant message is
      appended, carrying the answer or the apology, earlier messages are left
      as they were, and the loading flag is lowered. `now` is the
      `Date.now()` reading for the assistant message. */
    method SendMessageComplete(response: Outcome<AskResponse>, now: int)
      modifies this`messages, this`isLoading
      ensures response.Ok? ==>
                messages == old(messages) + [ChatMessage(Assistant, response.value.answer, 2 * now)]
      ensures response.Err? ==>
                messages == old(messages) + [ChatMessage(Assistant, Apology, 2 * now)]
      ensures !isLoading
    {
      match response {
        case Ok(resp) =>
          var assistantMsg := ChatMessage(Assistant, resp.answer, 2 * now);
          messages := messages + [assistantMsg];
        case Err =>
          messages := messages + [ChatMessage(Assistant, Apology, 2 * now)];
      }
      isLoading := false;
    }
  }
}
