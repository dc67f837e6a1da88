/** Runs of the App handlers from a fresh component, showing what the
    handler contracts alone guarantee to a caller across several steps. */
module Scenarios {
  import opened ChatTypes
  import Text
  import Registry
  import Timeline
  import opened ChatApp

  /** A failed question leaves the question visible, followed by exactly one
      apology. */
  method FailedAskKeepsQuestion(id: SessionId, question: string, t1: int, t2: int)
    returns (timeline: seq<ChatMessage>, loading: bool)
    requires id != "" && !Text.IsBlank(question)
    ensures timeline == [ChatMessage(User, question, 2 * t1), ChatMessage(Assistant, Apology, 2 * t2)]
    ensures !loading
  {
    var app := new App();
    app.SelectSessionBegin(id);
    app.SelectSessionComplete(Ok(SessionHistory(id, [])), []);
    app.TypeInput(question);
    Text.TrimEmptyIffBlank(question);
    assert app.messages == [] && SendAccepted(question, Some(id), false);
    var request := app.SendMessageBegin(t1);
    assert app.messages == [ChatMessage(User, question, 2 * t1)];
    app.SendMessageComplete(Err, t2);
    timeline, loading := app.messages, app.isLoading;
  }

  /** While a question is in flight, a second send is rejected without a
      request or a new message, even after switching to another session:
      the loading flag is one flag for the whole component. */
  method SendWhileInFlight(a: SessionId, b: SessionId, q1: string, q2: string, t1: int, t2: int)
    returns (first: Option<AskRequest>, second: Option<AskRequest>, timeline: seq<ChatMessage>)
    requires a != "" && !Text.IsBlank(q1)
    ensures first == Some(AskRequest(a, q1))
    ensures second == None
    ensures timeline == [ChatMessage(User, q1, 2 * t1)]
  {
    var app := new App();
    app.SelectSessionBegin(a);
    app.SelectSessionComplete(Ok(SessionHistory(a, [])), []);
    app.TypeInput(q1);
    Text.TrimEmptyIffBlank(q1);
    assert app.messages == [] && SendAccepted(q1, Some(a), false);
    first := app.SendMessageBegin(t1);
    app.SelectSessionBegin(b);
    app.TypeInput(q2);
    second := app.SendMessageBegin(t2);
    timeline := app.messages;
  }

  /** An active id of `""` is falsy, so a send with it active is rejected
      like a send with no session: no request, no message, the typed text
      stays in the box. */
  method EmptyActiveIdRejectsSend(question: string, t: int)
    returns (request: Option<AskRequest>, timeline: seq<ChatMessage>, typed: string, loading: bool)
    ensures request == None && timeline == [] && typed == question && !loading
  {
    var app := new App();
    app.SelectSessionBegin("");
    app.SelectSessionComplete(Ok(SessionHistory("", [])), []);
    app.TypeInput(question);
    request := app.SendMessageBegin(t);
    timeline, typed, loading := app.messages, app.input, app.isLoading;
  }

  /** A successful upload activates the new session whether or not the list
      refresh succeeded, and once its empty history (or a failed history
      fetch) arrives the timeline is empty. */
  method UploadOpensNewSession(uploaded: UploadResponse, refreshed: Outcome<seq<SessionId>>, historyFetched: bool)
    returns (sessions: seq<SessionId>, active: Option<SessionId>, timeline: seq<ChatMessage>, uploading: bool)
    ensures active == Some(uploaded.sessionId)
    ensures sessions == if refreshed.Ok? then refreshed.value else []
    ensures timeline == []
    ensures !uploading
  {
    var app := new App();
    var started := app.UploadBegin(true);
    assert started && app.isUploading;
    app.UploadComplete(Ok(uploaded), refreshed);
    var history := if historyFetched then Ok(SessionHistory(uploaded.sessionId, [])) else Err;
    app.SelectSessionComplete(history, []);
    sessions, active, timeline, uploading := app.sessions, app.activeSessionId, app.messages, app.isUploading;
  }

  /** Selecting `a` and then `b` before `a`'s history arrives: `a`'s late
      response is still applied, so `b` is active while the timeline shows
      `a`'s conversation. */
  method StaleHistoryApplied(a: SessionId, b: SessionId, historyOfA: seq<HistoryEntry>, clock: seq<int>)
    returns (active: Option<SessionId>, timeline: seq<ChatMessage>)
    requires 2 * |historyOfA| <= |clock|
    ensures active == Some(b)
    ensures |timeline| == 2 * |historyOfA|
    ensures forall i :: 0 <= i < |historyOfA| ==> timeline[2 * i].content == historyOfA[i].question
  {
    var app := new App();
    app.SelectSessionBegin(a);
    app.SelectSessionBegin(b);
    app.SelectSessionComplete(Ok(SessionHistory(a, historyOfA)), clock);
    active, timeline := app.activeSessionId, app.messages;
    Timeline.BuildShape(historyOfA, clock);
    forall i | 0 <= i < |historyOfA| ensures timeline[2 * i].content == historyOfA[i].question {
      assert (2 * i) % 2 == 0 && (2 * i) / 2 == i;
    }
  }

  /** Deleting the active session of a list without duplicates: the list
      loses exactly that id, and the component returns to having no active
      session and no messages. */
  method DeleteActiveSession(listed: seq<SessionId>, id: SessionId, history: seq<HistoryEntry>, clock: seq<int>)
    returns (sessions: seq<SessionId>, active: Option<SessionId>, timeline: seq<ChatMessage>)
    requires Registry.Distinct(listed) && id in listed
    requires 2 * |history| <= |clock|
    ensures id !in sessions && |sessions| == |listed| - 1
    ensures forall x :: x in listed && x != id ==> x in sessions
    ensures active == None && timeline == []
  {
    var app := new App();
    app.FetchSessions(Ok(listed));
    app.SelectSessionBegin(id);
    app.SelectSessionComplete(Ok(SessionHistory(id, history)), clock);
    var deleted := app.DeleteSession(id, true, Ok(()));
    Registry.WithoutDistinct(listed, id);
    sessions, active, timeline := app.sessions, app.activeSessionId, app.messages;
  }
}
