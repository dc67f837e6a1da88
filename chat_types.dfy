/** Value types shared by the chat client: the record shapes the backend
    exchanges with the App component, and the outcome of a backend call. */
module ChatTypes {

  /** An opaque session identifier assigned by the backend. */
  type SessionId = string

  datatype Option<+T> = None | Some(value: T)

  /** The result of one awaited backend call: the resolved value, or a
      rejected promise (any transport failure or non-2xx response). */
  datatype Outcome<+T> = Ok(value: T) | Err

  datatype Role = User | Assistant

  /** One displayed chat message. Timestamps are in half-millisecond units,
      so that the `+ 0.5` offset of a rebuilt assistant message is the
      integer `+ 1`. */
  datatype ChatMessage = ChatMessage(role: Role, content: string, timestamp: int)

  /** One stored question/answer pair of a session's history. */
  datatype HistoryEntry = HistoryEntry(question: string, answer: string)

  /** The body of the history response for a session. */
  datatype SessionHistory = SessionHistory(sessionId: SessionId, history: seq<HistoryEntry>)

  /** The body of an ask request and of its response (the optional context
      passages are kept as a possibly empty list). */
  datatype AskRequest = AskRequest(sessionId: SessionId, question: string)
  datatype AskResponse = AskResponse(answer: string, context: seq<string>)

  /** The body of the upload response. */
  datatype UploadResponse = UploadResponse(sessionId: SessionId, filename: string, message: string)
}
