/**
  The chat timeline of the camera/chat screen, as values.

  The screen keeps an append-only list of messages and, for every accepted
  submission, one deferred bot reply.  A reply is scheduled with the id it
  will carry already fixed (the length of the list the submission saw, plus
  two) and is appended, when it fires, to whatever the list is at that time.
  Scheduled replies wait in `pending` in the order they were scheduled; all
  share the same delay, so they fire in that order.  Timestamps are not
  modelled.
 */
module Chat {
  import JsText

  datatype Sender = System | User | Bot

  datatype Message = Message(id: int, text: string, sender: Sender)

  /** A scheduled reply: the id captured when it was scheduled and its delay. */
  datatype PendingReply = PendingReply(id: int, delay: nat)

  /** The timeline's state cells: the message list, the input field and the
      replies scheduled but not yet fired. */
  datatype ChatState = ChatState(messages: seq<Message>, input: string, pending: seq<PendingReply>)

  /** What can happen to the timeline: the input field is edited, the user
      submits, or the oldest scheduled reply fires. */
  datatype Event = Edit(text: string) | Send | Fire

  const WelcomeText: string := "Welcome to the chat!"
  const ReplyText: string := "Thanks for your message! This is a demo response."
  const ReplyDelay: nat := 1000

  /** The one message a fresh timeline holds. */
  const Welcome: Message := Message(1, WelcomeText, System)

  function Initial(): ChatState {
    ChatState([Welcome], "", [])
  }

  /** `sendMessage`: a blank input is ignored; otherwise the untrimmed input is
      appended as a user message with id length + 1, the input is cleared and
      one reply with id length + 2 is scheduled. */
  function Submit(st: ChatState): ChatState {
    if JsText.IsBlank(st.input) then st else Accept(st)
  }

  /** The non-blank branch of `sendMessage`. */
  function Accept(st: ChatState): ChatState {
    var n := |st.messages|;
    ChatState(st.messages + [Message(n + 1, st.input, User)], "",
              st.pending + [PendingReply(n + 2, ReplyDelay)])
  }

  /** The oldest scheduled reply fires and appends the canned bot message to
      the current list. */
  function FireNext(st: ChatState): ChatState
    requires st.pending != []
  {
    ChatState(st.messages + [Message(st.pending[0].id, ReplyText, Bot)], st.input, st.pending[1..])
  }

  function Step(st: ChatState, e: Event): ChatState {
    match e
    case Edit(text) => st.(input := text)
    case Send => Submit(st)
    case Fire => if st.pending == [] then st else FireNext(st)
  }

  function Run(st: ChatState, events: seq<Event>): ChatState
    decreases |events|
  {
    if events == [] then st else Run(Step(st, events[0]), events[1..])
  }

  /** Number of messages from `sender`. */
  function Count(msgs: seq<Message>, sender: Sender): nat {
    if msgs == [] then 0
    else Count(msgs[..|msgs| - 1], sender) + (if msgs[|msgs| - 1].sender == sender then 1 else 0)
  }

  /** The bot messages that the given scheduled replies append when they fire. */
  function Replies(pending: seq<PendingReply>): seq<Message> {
    if pending == [] then [] else [Message(pending[0].id, ReplyText, Bot)] + Replies(pending[1..])
  }

  /** Events that fire `n` replies. */
  function Fires(n: nat): seq<Event> {
    if n == 0 then [] else [Fire] + Fires(n - 1)
  }

  /** What holds of every timeline the screen can reach:
      the welcome message stays first; no message id runs ahead of its
      position (the message at index k has an id between 1 and k + 1);
      scheduled replies carry increasing ids no greater than length + 1 and
      the fixed delay; and every user message is matched by exactly one bot
      message or one scheduled reply. */
  ghost predicate Inv(st: ChatState) {
    && |st.messages| >= 1 && st.messages[0] == Welcome
    && (forall k :: 0 <= k < |st.messages| ==> 1 <= st.messages[k].id <= k + 1)
    && (forall i :: 0 <= i < |st.pending| ==>
          1 <= st.pending[i].id <= |st.messages| + 1 && st.pending[i].delay == ReplyDelay)
    && (forall i, j :: 0 <= i < j < |st.pending| ==> st.pending[i].id < st.pending[j].id)
    && Count(st.messages, User) == Count(st.messages, Bot) + |st.pending|
  }

  /** Ids equal positions + 1 and nothing is scheduled. */
  ghost predicate Settled(st: ChatState) {
    && st.pending == []
    && forall k :: 0 <= k < |st.messages| ==> st.messages[k].id == k + 1
  }

  lemma CountAppend(msgs: seq<Message>, m: Message, sender: Sender)
    ensures Count(msgs + [m], sender) == Count(msgs, sender) + (if m.sender == sender then 1 else 0)
  {
    assert (msgs + [m])[..|msgs|] == msgs;
  }

  /** A fresh timeline has only the welcome message, an empty input and
      nothing scheduled, and satisfies the invariant. */
  lemma InitialState()
    ensures Initial().messages == [Message(1, "Welcome to the chat!", System)]
    ensures Initial().input == "" && Initial().pending == []
    ensures Inv(Initial()) && Settled(Initial())
  {
  }

  /** A submission whose input is all white space changes nothing: no
      message, no cleared input, no scheduled reply. */
  lemma {:induction false} SubmitBlankIsNoOp(st: ChatState)
    requires forall i :: 0 <= i < |st.input| ==> JsText.IsWhiteSpace(st.input[i])
    ensures Submit(st) == st
  {
    JsText.BlankIffAllWhiteSpace(st.input);
  }

  /** A submission whose input has a non-white-space character appends
      exactly one user message carrying the untrimmed input and id old
      length + 1, clears the input and schedules exactly one reply with
      id old length + 2 and delay 1000. */
  lemma {:induction false} SubmitAppendsUserMessage(st: ChatState)
    requires exists i :: 0 <= i < |st.input| && !JsText.IsWhiteSpace(st.input[i])
    ensures var r := Submit(st);
      && r.messages == st.messages + [Message(|st.messages| + 1, st.input, User)]
      && r.input == ""
      && r.pending == st.pending + [PendingReply(|st.messages| + 2, 1000)]
  {
    JsText.BlankIffAllWhiteSpace(st.input);
  }

  lemma AcceptPreservesInv(st: ChatState)
    requires Inv(st)
    ensures Inv(Accept(st))
  {
    var n := |st.messages|;
    var m := Message(n + 1, st.input, User);
    var p := PendingReply(n + 2, ReplyDelay);
    var r := Accept(st);
    assert r.messages == st.messages + [m] && r.pending == st.pending + [p];
    CountAppend(st.messages, m, User);
    CountAppend(st.messages, m, Bot);
    assert forall k :: 0 <= k < n ==> r.messages[k] == st.messages[k];
    assert r.messages[n] == m;
    assert forall i :: 0 <= i < |st.pending| ==> r.pending[i] == st.pending[i];
    assert r.pending[|st.pending|] == p;
  }

  lemma SubmitPreservesInv(st: ChatState)
    requires Inv(st)
    ensures Inv(Submit(st))
  {
    if !JsText.IsBlank(st.input) {
      AcceptPreservesInv(st);
    }
  }

  lemma FirePreservesInv(st: ChatState)
    requires Inv(st) && st.pending != []
    ensures Inv(FireNext(st))
  {
    var m := Message(st.pending[0].id, ReplyText, Bot);
    CountAppend(st.messages, m, User);
    CountAppend(st.messages, m, Bot);
    var r := FireNext(st);
    assert r.messages == st.messages + [m];
    assert forall k :: 0 <= k < |st.messages| ==> r.messages[k] == st.messages[k];
    assert forall i :: 0 <= i < |r.pending| ==> r.pending[i] == st.pending[i + 1];
  }

  lemma StepPreservesInv(st: ChatState, e: Event)
    requires Inv(st)
    ensures Inv(Step(st, e))
  {
    match e
    case Edit(text) =>
    case Send => SubmitPreservesInv(st);
    case Fire => if st.pending != [] { FirePreservesInv(st); }
  }

  /** Every state reachable from a state satisfying the invariant satisfies it. */
  lemma {:induction false} RunPreservesInv(st: ChatState, events: seq<Event>)
    requires Inv(st)
    ensures Inv(Run(st, events))
    decreases |events|
  {
    if events != [] {
      StepPreservesInv(st, events[0]);
      RunPreservesInv(Step(st, events[0]), events[1..]);
    }
  }

  /** Whatever happens, the earlier list is a prefix of the later one:
      messages are only ever appended, never changed or reordered. */
  lemma {:induction false} RunOnlyAppends(st: ChatState, events: seq<Event>)
    ensures st.messages <= Run(st, events).messages
    decreases |events|
  {
    if events != [] {
      var next := Step(st, events[0]);
      RunOnlyAppends(next, events[1..]);
      assert st.messages <= next.messages;
    }
  }

  /** In every reachable timeline the welcome message stays first, each id
      is at most its position + 1, and every user message has been answered
      or has exactly one reply scheduled. */
  lemma ReachableFacts(events: seq<Event>)
    ensures var st := Run(Initial(), events);
      && |st.messages| >= 1
      && st.messages[0] == Message(1, "Welcome to the chat!", System)
      && (forall k :: 0 <= k < |st.messages| ==> 1 <= st.messages[k].id <= k + 1)
      && Count(st.messages, User) == Count(st.messages, Bot) + |st.pending|
  {
    RunPreservesInv(Initial(), events);
  }

  /** Firing every scheduled reply appends one bot message per scheduled
      reply, in scheduling order, with the captured ids, and leaves nothing
      scheduled. */
  lemma {:induction false} FiringAllAppendsReplies(st: ChatState)
    ensures Run(st, Fires(|st.pending|)).messages == st.messages + Replies(st.pending)
    ensures Run(st, Fires(|st.pending|)).pending == []
    decreases |st.pending|
  {
    if st.pending != [] {
      var next := FireNext(st);
      assert Fires(|st.pending|)[1..] == Fires(|next.pending|);
      FiringAllAppendsReplies(next);
    }
  }

  /** The bot messages of two runs of scheduled replies, one after the other. */
  lemma {:induction false} RepliesAppend(a: seq<PendingReply>, b: seq<PendingReply>)
    ensures Replies(a + b) == Replies(a) + Replies(b)
    decreases |a|
  {
    if a == [] {
      assert a + b == b;
    } else {
      assert (a + b)[0] == a[0] && (a + b)[1..] == a[1..] + b;
      RepliesAppend(a[1..], b);
    }
  }

  /** Every accepted submission gets its own reply: once the replies
      scheduled before it and its own have fired, the list is the one the
      submission left, then the earlier replies, then one bot message with
      the canned text whose id is the list length the submission saw plus
      two. */
  lemma {:induction false} SubmissionGetsItsReply(st: ChatState)
    requires !JsText.IsBlank(st.input)
    ensures var r := Run(Submit(st), Fires(|st.pending| + 1));
      && r.messages == Submit(st).messages + Replies(st.pending)
                       + [Message(|st.messages| + 2, "Thanks for your message! This is a demo response.", Bot)]
      && r.pending == []
  {
    var s1 := Submit(st);
    var p := PendingReply(|st.messages| + 2, ReplyDelay);
    assert s1 == Accept(st);
    assert s1.pending == st.pending + [p];
    FiringAllAppendsReplies(s1);
    RepliesAppend(st.pending, [p]);
    assert Replies([p]) == [Message(p.id, ReplyText, Bot)];
  }

  /** Once every reply has fired, there are as many bot messages as user
      messages. */
  lemma {:induction false} AllAnsweredAfterFiring(st: ChatState)
    requires Inv(st)
    ensures var r := Run(st, Fires(|st.pending|));
      Count(r.messages, User) == Count(r.messages, Bot)
  {
    RunPreservesInv(st, Fires(|st.pending|));
    FiringAllAppendsReplies(st);
  }

  /** When each reply fires before the next submission, ids stay equal to
      positions + 1. */
  lemma {:induction false} ReplyBeforeNextSubmitKeepsIdsSequential(st: ChatState)
    requires Settled(st)
    ensures Settled(Run(st, [Send, Fire]))
  {
    RunCons(st, Send, [Fire]);
    var s1 := Submit(st);
    RunCons(s1, Fire, []);
    if !JsText.IsBlank(st.input) {
      var n := |st.messages|;
      var r := FireNext(Accept(st));
      assert r.messages == st.messages + [Message(n + 1, st.input, User), Message(n + 2, ReplyText, Bot)];
    }
  }

  /** Unfolds one event of a trace. */
  lemma RunCons(st: ChatState, e: Event, rest: seq<Event>)
    ensures Run(st, [e] + rest) == Run(Step(st, e), rest)
  {
    assert ([e] + rest)[0] == e && ([e] + rest)[1..] == rest;
  }

  /** Running two traces one after the other is running their concatenation. */
  lemma {:induction false} RunAppend(st: ChatState, first: seq<Event>, second: seq<Event>)
    ensures Run(st, first + second) == Run(Run(st, first), second)
    decreases |first|
  {
    if first != [] {
      assert (first + second)[0] == first[0] && (first + second)[1..] == first[1..] + second;
      RunAppend(Step(st, first[0]), first[1..], second);
    } else {
      assert first + second == second;
    }
  }

  /** Typing a text with a character other than white space, then submitting it. */
  lemma TypeAndSend(st: ChatState, text: string, i: nat)
    requires i < |text| && !JsText.IsWhiteSpace(text[i])
    ensures Run(st, [Edit(text), Send]) == Accept(st.(input := text))
  {
    var s1 := st.(input := text);
    SubmitAppendsUserMessage(s1);
    RunCons(st, Edit(text), [Send]);
    RunCons(s1, Send, []);
  }

  /** Firing two replies in a row. */
  lemma FireTwice(st: ChatState)
    requires |st.pending| >= 2
    ensures Run(st, [Fire, Fire]) == FireNext(FireNext(st))
  {
    RunCons(st, Fire, [Fire]);
    RunCons(FireNext(st), Fire, []);
  }

  /** Typing a text with a character other than white space and submitting
      it gives a second message (user, id 2, the text); when the reply fires
      a third (bot, id 3, canned text). */
  lemma {:induction false} FirstExchangeScenario(text: string, i: nat)
    requires i < |text| && !JsText.IsWhiteSpace(text[i])
    ensures Run(Initial(), [Edit(text), Send]).messages == [Welcome, Message(2, text, User)]
    ensures Run(Initial(), [Edit(text), Send, Fire]).messages
         == [Welcome, Message(2, text, User), Message(3, ReplyText, Bot)]
  {
    TypeAndSend(Initial(), text, i);
    var s2 := Accept(Initial().(input := text));
    assert [Edit(text), Send, Fire] == [Edit(text), Send] + [Fire];
    RunAppend(Initial(), [Edit(text), Send], [Fire]);
    RunCons(s2, Fire, []);
  }

  /** Submitting "   " leaves the single welcome message. */
  lemma SpacesScenario()
    ensures Run(Initial(), [Edit("   "), Send]).messages == [Welcome]
  {
    var s1 := Initial().(input := "   ");
    assert s1.input[0] == ' ' && s1.input[1] == ' ' && s1.input[2] == ' ';
    SubmitBlankIsNoOp(s1);
    RunCons(Initial(), Edit("   "), [Send]);
    RunCons(s1, Send, []);
  }

  /** Two submissions before the first reply fires: the first reply (id 3,
      captured from a list of length 1) lands after the second user message
      (id 3), so two messages share id 3. */
  lemma {:induction false} OverlappingRepliesDuplicateIds(a: string, i: nat, b: string, j: nat)
    requires i < |a| && !JsText.IsWhiteSpace(a[i])
    requires j < |b| && !JsText.IsWhiteSpace(b[j])
    ensures var st := Run(Initial(), [Edit(a), Send, Edit(b), Send, Fire, Fire]);
      && |st.messages| == 5
      && st.messages[2] == Message(3, b, User)
      && st.messages[3] == Message(3, ReplyText, Bot)
  {
    var first, second, fires := [Edit(a), Send], [Edit(b), Send], [Fire, Fire];
    var s2 := Accept(Initial().(input := a));
    var s4 := Accept(s2.(input := b));
    assert Run(Initial(), first + second) == s4 by {
      RunAppend(Initial(), first, second);
      TypeAndSend(Initial(), a, i);
      TypeAndSend(s2, b, j);
    }
    assert Run(Initial(), [Edit(a), Send, Edit(b), Send, Fire, Fire]) == Run(s4, fires) by {
      assert [Edit(a), Send, Edit(b), Send, Fire, Fire] == first + second + fires;
      RunAppend(Initial(), first + second, fires);
    }
    assert s4.messages == [Welcome, Message(2, a, User), Message(3, b, User)];
    assert s4.pending == [PendingReply(3, ReplyDelay), PendingReply(4, ReplyDelay)];
    FireTwice(s4);
  }

  /** Three submissions before the first reply fires: the first reply
      (id 3) is appended after the third user message (id 4), so ids do not
      even increase along the list. */
  lemma {:induction false} OverlappingRepliesBreakOrder(a: string, i: nat, b: string, j: nat, c: string, k: nat)
    requires i < |a| && !JsText.IsWhiteSpace(a[i])
    requires j < |b| && !JsText.IsWhiteSpace(b[j])
    requires k < |c| && !JsText.IsWhiteSpace(c[k])
    ensures var st := Run(Initial(), [Edit(a), Send, Edit(b), Send, Edit(c), Send, Fire]);
      && |st.messages| == 5
      && st.messages[3] == Message(4, c, User)
      && st.messages[4] == Message(3, ReplyText, Bot)
  {
    var first, second, third := [Edit(a), Send], [Edit(b), Send], [Edit(c), Send];
    var s2 := Accept(Initial().(input := a));
    var s4 := Accept(s2.(input := b));
    var s6 := Accept(s4.(input := c));
    assert Run(Initial(), first + second) == s4 by {
      RunAppend(Initial(), first, second);
      TypeAndSend(Initial(), a, i);
      TypeAndSend(s2, b, j);
    }
    assert Run(Initial(), first + second + third) == s6 by {
      RunAppend(Initial(), first + second, third);
      TypeAndSend(s4, c, k);
    }
    assert Run(Initial(), [Edit(a), Send, Edit(b), Send, Edit(c), Send, Fire]) == Run(s6, [Fire]) by {
      assert [Edit(a), Send, Edit(b), Send, Edit(c), Send, Fire] == first + second + third + [Fire];
      RunAppend(Initial(), first + second + third, [Fire]);
    }
    assert s6.messages == [Welcome, Message(2, a, User), Message(3, b, User), Message(4, c, User)];
    assert s6.pending[0] == PendingReply(3, ReplyDelay);
    RunCons(s6, Fire, []);
  }

  // The reply step as evidently intended: the reply takes its id from the
  // list it is appended to (`prev.length + 1`), not from the list the
  // submission saw.

  /** The oldest scheduled reply fires and is appended to the current list
      with id current length + 1. */
  function FireNextFixed(st: ChatState): ChatState
    requires st.pending != []
  {
    ChatState(st.messages + [Message(|st.messages| + 1, ReplyText, Bot)], st.input, st.pending[1..])
  }

  function StepFixed(st: ChatState, e: Event): ChatState {
    match e
    case Edit(text) => st.(input := text)
    case Send => Submit(st)
    case Fire => if st.pending == [] then st else FireNextFixed(st)
  }

  function RunFixed(st: ChatState, events: seq<Event>): ChatState
    decreases |events|
  {
    if events == [] then st else RunFixed(StepFixed(st, events[0]), events[1..])
  }

  /** Every message's id is its position + 1, so ids are unique and increase
      along the list. */
  ghost predicate IdsSequential(msgs: seq<Message>) {
    forall k :: 0 <= k < |msgs| ==> msgs[k].id == k + 1
  }

  /** With the corrected reply step, every interleaving of edits,
      submissions and firings keeps ids equal to positions + 1. */
  lemma {:induction false} FixedRunKeepsIdsSequential(st: ChatState, events: seq<Event>)
    requires IdsSequential(st.messages)
    ensures IdsSequential(RunFixed(st, events).messages)
    decreases |events|
  {
    if events != [] {
      var next := StepFixed(st, events[0]);
      assert IdsSequential(next.messages) by {
        var n := |st.messages|;
        assert next.messages == st.messages
            || next.messages == st.messages + [Message(n + 1, st.input, User)]
            || next.messages == st.messages + [Message(n + 1, ReplyText, Bot)];
      }
      FixedRunKeepsIdsSequential(next, events[1..]);
    }
  }

  /** From a fresh screen, with the corrected reply step, ids are unique and
      increasing whatever the interleaving: the two overlapping submissions
      of OverlappingRepliesDuplicateIds no longer share an id. */
  lemma FixedIdsAreUnique(events: seq<Event>)
    ensures var msgs := RunFixed(Initial(), events).messages;
      forall i, j :: 0 <= i < j < |msgs| ==> msgs[i].id < msgs[j].id
  {
    FixedRunKeepsIdsSequential(Initial(), events);
  }
}
