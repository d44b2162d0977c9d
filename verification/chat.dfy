/** One round of the chat: the history bookkeeping of `chat_once` around the stream fold. */
module Chat {
  import opened History
  import opened Stream
  import opened Wrappers
  import opened Seqs

  /** The fixed instruction carried by the system turn of a fresh history. */
  const SystemPrompt: string :=
    "You are a helpful, concise coding assistant. Prefer short, correct answers with code examples when appropriate."

  /** The history a first start without a saved file, or a reset, begins from. */
  function FreshHistory(): seq<Turn> {
    [Turn(System, SystemPrompt)]
  }

  /** Trimming leaves a fresh history untouched, whatever the budget. */
  lemma FreshHistoryTrimStable(maxTokens: int)
    ensures Trim(FreshHistory(), maxTokens) == FreshHistory()
  {
  }

  /** The outcome of one call of `chat_once`: the caller's list after the in-place append,
      the history that is sent and saved, and the fragments printed. */
  datatype ChatStep = ChatStep(caller: seq<Turn>, saved: seq<Turn>, printed: seq<string>)

  /** `chat_once`: the user turn is appended to the caller's list in place; a trimmed copy is
      sent, the reply stream is read, and the reply is appended to that copy, which is saved. */
  function ChatOnce(h: seq<Turn>, userText: string, lines: seq<StreamLine>): (s: ChatStep)
    // the caller's list gains the user turn and nothing else
    ensures s.caller == h + [Turn(User, userText)]
    // the saved history ends with the user turn, then the reply made of what was printed
    ensures |s.saved| >= 2
    ensures s.saved[|s.saved| - 2] == Turn(User, userText)
    ensures s.saved[|s.saved| - 1] == Turn(Assistant, Concat(s.printed))
    // what is printed is every non-empty fragment of the lines read, up to the first done record
    ensures s.printed == NonEmptyFragments(lines[..ReadCount(lines)])
    // the leading system turn is saved
    ensures HasSystemHead(h) ==> s.saved[0] == h[0]
  {
    var caller := h + [Turn(User, userText)];
    var sent := Trim(caller, DefaultMaxTokens);
    var reply := Consume(lines);
    TrimAfterAppend(h, Turn(User, userText), DefaultMaxTokens);
    assert reply.emitted == NonEmptyFragments(lines[..ReadCount(lines)]) by {
      ConsumeReadsUpToFirstDone(lines);
    }
    ChatStep(caller, sent + [Turn(Assistant, reply.text)], reply.emitted)
  }

  /** Everything saved before the reply is what was sent: the caller's system turn followed by
      the newest turns the budget admits, which is the caller's list trimmed to the default budget. */
  lemma SavedBeforeReplyIsSent(h: seq<Turn>, userText: string, lines: seq<StreamLine>)
    ensures var s := ChatOnce(h, userText, lines);
            var k := KeptCount(s.caller, DefaultMaxTokens);
            k <= |s.caller| - |Head(s.caller)| &&
            s.saved[..|s.saved| - 1] == Head(s.caller) + s.caller[|s.caller| - k..] &&
            s.saved[..|s.saved| - 1] == Trim(s.caller, DefaultMaxTokens)
  {
    var s := ChatOnce(h, userText, lines);
    var c := s.caller;
    var k := KeptCount(c, DefaultMaxTokens);
    assert s.saved[..|s.saved| - 1] == Trim(c, DefaultMaxTokens);
    TrimLength(c, DefaultMaxTokens);
    assert Trim(c, DefaultMaxTokens) == Head(c) + c[TrimStart(c, DefaultMaxTokens)..];
  }

  /** Apart from the reply, every saved turn is a turn of the caller's list, unedited. */
  lemma SavedTurnsComeFromCaller(h: seq<Turn>, userText: string, lines: seq<StreamLine>)
    ensures var s := ChatOnce(h, userText, lines);
            forall t :: t in s.saved[..|s.saved| - 1] ==> t in s.caller
  {
    var s := ChatOnce(h, userText, lines);
    var sent := Trim(s.caller, DefaultMaxTokens);
    TrimDrawsFromHistory(s.caller, DefaultMaxTokens);
    assert s.saved[..|s.saved| - 1] == sent;
  }

  /** One user message and the reply stream the endpoint sends back for it. */
  datatype Exchange = Exchange(userText: string, reply: seq<StreamLine>)

  /** The caller's history after `chat_once` has run on each exchange in turn, as the
      terminal loop does with the same list. */
  function Converse(h: seq<Turn>, xs: seq<Exchange>): seq<Turn>
    decreases |xs|
  {
    if |xs| == 0 then h
    else Converse(ChatOnce(h, xs[0].userText, xs[0].reply).caller, xs[1..])
  }

  /** The user turns of a run of exchanges, in order. */
  function UserTurns(xs: seq<Exchange>): (us: seq<Turn>)
    ensures |us| == |xs|
    ensures forall i :: 0 <= i < |xs| ==> us[i] == Turn(User, xs[i].userText)
    ensures forall t :: t in us ==> t.role == User
  {
    if |xs| == 0 then [] else [Turn(User, xs[0].userText)] + UserTurns(xs[1..])
  }

  /** The caller's list only ever gains user turns: replies are saved but never carried forward. */
  lemma {:induction false} CallerGainsOnlyUserTurns(h: seq<Turn>, xs: seq<Exchange>)
    ensures Converse(h, xs) == h + UserTurns(xs)
    decreases |xs|
  {
    if |xs| > 0 {
      var u := Turn(User, xs[0].userText);
      var h' := ChatOnce(h, xs[0].userText, xs[0].reply).caller;
      assert h' == h + [u];
      CallerGainsOnlyUserTurns(h', xs[1..]);
      assert UserTurns(xs) == [u] + UserTurns(xs[1..]);
      AppendAssoc(h, [u], UserTurns(xs[1..]));
    }
  }

  /** Whether a history holds no assistant turn. */
  predicate NoReplies(h: seq<Turn>) {
    forall t :: t in h ==> t.role != Assistant
  }

  /** Starting from a history without replies, the file saved after any number of rounds holds
      exactly one reply, the latest, at its end. */
  lemma SavedHoldsOnlyLatestReply(h: seq<Turn>, xs: seq<Exchange>, userText: string, lines: seq<StreamLine>)
    requires NoReplies(h)
    ensures var s := ChatOnce(Converse(h, xs), userText, lines);
            s.saved[|s.saved| - 1].role == Assistant && NoReplies(s.saved[..|s.saved| - 1])
  {
    CallerGainsOnlyUserTurns(h, xs);
    var c := Converse(h, xs);
    var us := UserTurns(xs);
    var caller := c + [Turn(User, userText)];
    assert caller == h + us + [Turn(User, userText)];
    forall t | t in caller
      ensures t.role != Assistant
    {
      assert t in h || t in us || t == Turn(User, userText);
    }
    SavedTurnsComeFromCaller(c, userText, lines);
  }

  /** The system turn of a fresh history is estimated at 27 tokens (111 characters). */
  lemma SystemPromptCost()
    ensures Cost(Turn(System, SystemPrompt)) == 27
  {
    assert |SystemPrompt| == 111;
  }

  /** From a fresh history, asking "2+2?" and receiving "4" saves system, user and assistant turns. */
  lemma FirstRoundExample()
    ensures ChatOnce(FreshHistory(), "2+2?", [Record(Some(Object(Some("4"))), None, true)]).saved
            == [Turn(System, SystemPrompt), Turn(User, "2+2?"), Turn(Assistant, "4")]
  {
    var sys := Turn(System, SystemPrompt);
    var user := Turn(User, "2+2?");
    var caller := FreshHistory() + [user];
    assert caller == [sys, user];
    var lines := [Record(Some(Object(Some("4"))), None, true)];
    assert Consume(lines) == Consumed(["4"], "4");
    SystemPromptCost();
    assert Base(caller) == 27;
    assert CostBetween(caller, 1, 2) == 1;
    TrimKeepsWhatFits(caller, DefaultMaxTokens);
    var s := ChatOnce(FreshHistory(), "2+2?", lines);
    assert s.saved == Trim(caller, DefaultMaxTokens) + [Turn(Assistant, "4")];
  }
}
