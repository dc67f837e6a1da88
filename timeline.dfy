/** Rebuilding the displayed conversation of a session from its stored
    question/answer history.

    The clock is the sequence of `Date.now()` readings, one per pushed
    message, in the order they are taken; timestamps are in half-millisecond
    units, so entry `idx` gets `2 * (clock[2 * idx] + idx)` for its question
    and `2 * (clock[2 * idx + 1] + idx) + 1` for its answer, two separate
    readings. */
module Timeline {
  import opened ChatTypes

  /** Each clock reading is at least the one before it. */
  predicate NonDecreasing(clock: seq<int>)
  {
    forall i, j :: 0 <= i <= j < |clock| ==> clock[i] <= clock[j]
  }

  /** The two messages pushed for history entry `idx`, given the clock
      readings taken for each push. */
  function EntryMessages(e: HistoryEntry, idx: nat, userNow: int, assistantNow: int): seq<ChatMessage>
  {
    [ChatMessage(User, e.question, 2 * (userNow + idx)),
     ChatMessage(Assistant, e.answer, 2 * (assistantNow + idx) + 1)]
  }

  /** The timeline rebuilt from `history`: every entry in turn contributes
      its question as a user message, then its answer as an assistant
      message. */
  function Build(history: seq<HistoryEntry>, clock: seq<int>): seq<ChatMessage>
    requires 2 * |history| <= |clock|
  {
    if history == [] then []
    else
      var n := |history| - 1;
      Build(history[..n], clock) + EntryMessages(history[n], n, clock[2 * n], clock[2 * n + 1])
  }

  /** Message `k` of the rebuilt timeline: even positions are the user
      questions and odd positions the assistant answers of entry `k / 2`,
      and its timestamp is `2 * clock[k] + k`. In particular the timeline
      has exactly two messages per entry and an empty history gives an
      empty timeline. */
  lemma {:induction false} BuildShape(history: seq<HistoryEntry>, clock: seq<int>)
    requires 2 * |history| <= |clock|
    ensures |Build(history, clock)| == 2 * |history|
    ensures forall k :: 0 <= k < |Build(history, clock)| ==>
      Build(history, clock)[k] ==
        if k % 2 == 0 then ChatMessage(User, history[k / 2].question, 2 * clock[k] + k)
        else ChatMessage(Assistant, history[k / 2].answer, 2 * clock[k] + k)
  {
    if history != [] {
      var n := |history| - 1;
      var prefix := history[..n];
      BuildShape(prefix, clock);
      var r := Build(history, clock);
      forall k | 0 <= k < |r|
        ensures r[k] ==
          if k % 2 == 0 then ChatMessage(User, history[k / 2].question, 2 * clock[k] + k)
          else ChatMessage(Assistant, history[k / 2].answer, 2 * clock[k] + k)
      {
        if k < 2 * n {
          assert r[k] == Build(prefix, clock)[k];
          assert prefix[k / 2] == history[k / 2];
        } else if k == 2 * n {
          assert k / 2 == n;
        } else {
          assert k == 2 * n + 1 && k / 2 == n;
        }
      }
    }
  }

  /** With a non-decreasing clock every rebuilt message is strictly later
      than the one before it: each answer after its question, and each pair
      after the previous pair. */
  lemma BuildOrdered(history: seq<HistoryEntry>, clock: seq<int>)
    requires 2 * |history| <= |clock|
    requires NonDecreasing(clock)
    ensures forall i, j :: 0 <= i < j < |Build(history, clock)| ==>
      Build(history, clock)[i].timestamp < Build(history, clock)[j].timestamp
  {
    BuildShape(history, clock);
  }

  /** The `forEach`/`push` loop that fills `chatHistory`. */
  method BuildChatHistory(history: seq<HistoryEntry>, clock: seq<int>) returns (chatHistory: seq<ChatMessage>)
    requires 2 * |history| <= |clock|
    ensures chatHistory == Build(history, clock)
  {
    chatHistory := [];
    var idx := 0;
    while idx < |history|
      invariant idx <= |history|
      invariant chatHistory == Build(history[..idx], clock)
    {
      var h := history[idx];
      chatHistory := chatHistory + [ChatMessage(User, h.question, 2 * (clock[2 * idx] + idx))];
      chatHistory := chatHistory + [ChatMessage(Assistant, h.answer, 2 * (clock[2 * idx + 1] + idx) + 1)];
      assert history[..idx + 1][..idx] == history[..idx];
      idx := idx + 1;
    }
    assert history[..idx] == history;
  }
}
