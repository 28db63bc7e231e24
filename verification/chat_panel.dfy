/**
  The chat panel's conversation state: the message log, the input box, the
  typing flag, and the timers it has armed. Timers are kept in a list and
  fired one at a time by the environment, in any order it likes; message ids
  are not modelled.
 */
module ChatPanel {
  import opened Options
  import opened Strings
  import Surprises
  import Intent

  datatype Sender = User | Assistant

  datatype Message = Message(text: string, sender: Sender, followUp: Option<seq<string>>)

  /**
    An armed timer: the opening greeting's 400 ms wait (after which the
    assistant starts typing), or the typing delay before a reply is revealed.
   */
  datatype Timer =
    | GreetAfterWait(text: string)
    | Reveal(text: string, followUp: Option<seq<string>>)

  datatype Chat = Chat(
    isOpen: bool,
    messages: seq<Message>,
    input: string,
    isTyping: bool,
    timers: seq<Timer>)

  /** The panel as first mounted: closed, empty, idle. */
  const Initial: Chat := Chat(false, [], "", false, [])

  const OpeningGreetings: seq<string> := [
    "Hey! \U{1F44B} I'm Nathan's AI assistant. Think of me as the friendly guide to his work. What catches your interest?",
    "Welcome! I'm here to help you explore Nathan's projects, experience, and skills. What would you like to know?",
    "Hi there! I've got the inside scoop on Nathan's work. Ask me anything!"
  ]

  const GreetingWait: nat := 400
  const BaseDelay: nat := 600
  const CharDelay: nat := 8
  const MaxDelay: nat := 2500

  // ---------------------------------------------------------------------------
  // Typing delay
  // ---------------------------------------------------------------------------

  /** Milliseconds of "typing" before a reply of `len` UTF-16 code units appears. */
  function TypingDelay(len: nat): (ms: nat)
    ensures BaseDelay <= ms <= MaxDelay
    ensures ms < MaxDelay <==> len <= 237
    ensures len <= 237 ==> ms == BaseDelay + CharDelay * len
  {
    if BaseDelay + CharDelay * len < MaxDelay then BaseDelay + CharDelay * len else MaxDelay
  }

  lemma TypingDelayMonotone(a: nat, b: nat)
    requires a <= b
    ensures TypingDelay(a) <= TypingDelay(b)
  {
  }

  /** How long a timer waits once armed. */
  function TimerDelay(t: Timer): (ms: nat)
    ensures t.GreetAfterWait? ==> ms == GreetingWait
    ensures t.Reveal? ==> BaseDelay <= ms <= MaxDelay
  {
    match t
    case GreetAfterWait(_) => GreetingWait
    case Reveal(text, _) => TypingDelay(Utf16Length(text))
  }

  /** Every opening greeting is short enough that its delay is not capped. */
  lemma OpeningGreetingsUncapped(i: nat)
    requires i < |OpeningGreetings|
    ensures TimerDelay(Reveal(OpeningGreetings[i], None)) < MaxDelay
  {
    var g := OpeningGreetings[i];
    assert |g| <= 118;
  }

  // ---------------------------------------------------------------------------
  // Transitions
  // ---------------------------------------------------------------------------

  /** `addAssistantMessage`: start typing and arm the reveal timer. */
  function AddAssistantMessage(chat: Chat, text: string, followUp: Option<seq<string>>): (r: Chat)
    ensures r.isTyping
    ensures r.messages == chat.messages && r.input == chat.input && r.isOpen == chat.isOpen
    ensures r.timers == chat.timers + [Reveal(text, followUp)]
  {
    chat.(isTyping := true, timers := chat.timers + [Reveal(text, followUp)])
  }

  /** Whether `handleSendMessage` ignores the text. */
  predicate Blank(text: string) {
    Trim(text) == ""
  }

  /** `handleSendMessage`: blank text is ignored; otherwise log it, clear the input, and answer. */
  function Send(kb: Intent.Kb, chat: Chat, text: string, d: Intent.Draws): (r: Chat)
    requires Intent.ValidKb(kb) && Intent.ValidDraws(d)
    ensures Blank(text) ==> r == chat
    ensures !Blank(text) ==>
      && r.messages == chat.messages + [Message(text, User, None)]
      && r.input == ""
      && r.isTyping
      && r.isOpen == chat.isOpen
      && var reply := Intent.MatchIntent(kb, text, d);
         r.timers == chat.timers + [Reveal(reply.response, reply.followUp)]
  {
    if Blank(text) then chat
    else
      var logged := chat.(messages := chat.messages + [Message(text, User, None)], input := "");
      var reply := Intent.MatchIntent(kb, text, d);
      AddAssistantMessage(logged, reply.response, reply.followUp)
  }

  /** The panel opens: with an empty log, a random greeting is scheduled. */
  function Open(chat: Chat, draw: real): (r: Chat)
    requires Surprises.IsDraw(draw)
    ensures r.isOpen
    ensures r.messages == chat.messages && r.input == chat.input && r.isTyping == chat.isTyping
    ensures !chat.isOpen && chat.messages == [] ==>
              exists i :: 0 <= i < |OpeningGreetings| && r.timers == chat.timers + [GreetAfterWait(OpeningGreetings[i])]
    ensures chat.isOpen || chat.messages != [] ==> r.timers == chat.timers
  {
    if chat.isOpen then chat
    else if chat.messages == [] then
      var i := Surprises.PickIndex(draw, |OpeningGreetings|);
      chat.(isOpen := true, timers := chat.timers + [GreetAfterWait(OpeningGreetings[i])])
    else chat.(isOpen := true)
  }

  /** The panel closes; conversation and timers survive. */
  function Close(chat: Chat): (r: Chat)
    ensures !r.isOpen
    ensures r.(isOpen := chat.isOpen) == chat
  {
    chat.(isOpen := false)
  }

  /** Timer `k` fires and is removed. */
  function Fire(chat: Chat, k: nat): (r: Chat)
    requires k < |chat.timers|
    ensures r.isOpen == chat.isOpen && r.input == chat.input
    ensures chat.timers[k].GreetAfterWait? ==>
      && r.messages == chat.messages
      && r.isTyping
      && r.timers == chat.timers[..k] + chat.timers[k + 1..] + [Reveal(chat.timers[k].text, Some(Intent.QuickReplies))]
    ensures chat.timers[k].Reveal? ==>
      && r.messages == chat.messages + [Message(chat.timers[k].text, Assistant, chat.timers[k].followUp)]
      && !r.isTyping
      && r.timers == chat.timers[..k] + chat.timers[k + 1..]
  {
    var rest := chat.(timers := chat.timers[..k] + chat.timers[k + 1..]);
    match chat.timers[k]
    case GreetAfterWait(text) => AddAssistantMessage(rest, text, Some(Intent.QuickReplies))
    case Reveal(text, followUp) =>
      rest.(messages := chat.messages + [Message(text, Assistant, followUp)], isTyping := false)
  }

  // ---------------------------------------------------------------------------
  // Chips
  // ---------------------------------------------------------------------------

  /** The follow-up chips under the log. */
  function Chips(chat: Chat): (r: Option<seq<string>>)
    ensures r.Some? <==>
      |chat.messages| > 0 && chat.messages[|chat.messages| - 1].followUp.Some? && !chat.isTyping
    ensures r.Some? ==> r.value == chat.messages[|chat.messages| - 1].followUp.value
  {
    if |chat.messages| > 0 && !chat.isTyping then chat.messages[|chat.messages| - 1].followUp
    else None
  }

  lemma SendHidesChips(kb: Intent.Kb, chat: Chat, text: string, d: Intent.Draws)
    requires Intent.ValidKb(kb) && Intent.ValidDraws(d)
    requires !Blank(text)
    ensures Chips(Send(kb, chat, text, d)).None?
  {
  }

  lemma RevealShowsItsChips(chat: Chat, k: nat)
    requires k < |chat.timers| && chat.timers[k].Reveal?
    ensures Chips(Fire(chat, k)) == chat.timers[k].followUp
  {
  }

  // ---------------------------------------------------------------------------
  // Events
  // ---------------------------------------------------------------------------

  /** What can happen to the panel. */
  datatype Event =
    | OpenPanel(draw: real)
    | ClosePanel
    | TypeText(text: string)
    | Submit(d: Intent.Draws)
    | ChipClick(index: nat, d: Intent.Draws)
    | TimerFires(k: nat)

  /**
    An event that can happen in this state: draws in range, a timer that is
    armed, and typing, sending or a chip that is shown only while the panel
    is open, since the input and the chips render only then.
   */
  predicate Enabled(chat: Chat, e: Event) {
    match e
    case OpenPanel(draw) => Surprises.IsDraw(draw)
    case ClosePanel => true
    case TypeText(_) => chat.isOpen
    case Submit(d) => chat.isOpen && Intent.ValidDraws(d)
    case ChipClick(i, d) => chat.isOpen && Intent.ValidDraws(d) && Chips(chat).Some? && i < |Chips(chat).value|
    case TimerFires(k) => k < |chat.timers|
  }

  /** One event applied: the log only ever grows at its end, by at most one message. */
  function Step(kb: Intent.Kb, chat: Chat, e: Event): (r: Chat)
    requires Intent.ValidKb(kb) && Enabled(chat, e)
    ensures chat.messages <= r.messages
    ensures |r.messages| <= |chat.messages| + 1
  {
    match e
    case OpenPanel(draw) => Open(chat, draw)
    case ClosePanel => Close(chat)
    case TypeText(text) => chat.(input := text)
    case Submit(d) => Send(kb, chat, chat.input, d)
    case ChipClick(i, d) => Send(kb, chat, Chips(chat).value[i], d)
    case TimerFires(k) => Fire(chat, k)
  }

  /** The state after a run of events, if each was enabled when it came. */
  function Run(kb: Intent.Kb, chat: Chat, events: seq<Event>): Option<Chat>
    requires Intent.ValidKb(kb)
    decreases |events|
  {
    if events == [] then Some(chat)
    else if Enabled(chat, events[0]) then Run(kb, Step(kb, chat, events[0]), events[1..])
    else None
  }

  // ---------------------------------------------------------------------------
  // What the panel promises
  // ---------------------------------------------------------------------------

  /** How many messages of the log came from sender `s`. */
  function CountFrom(ms: seq<Message>, s: Sender): (n: nat)
    ensures n <= |ms|
  {
    if ms == [] then 0
    else CountFrom(ms[..|ms| - 1], s) + (if ms[|ms| - 1].sender == s then 1 else 0)
  }

  /** Replies owed: assistant messages still to come, minus those already logged. */
  function Owed(chat: Chat): int {
    |chat.timers| + CountFrom(chat.messages, Assistant) - CountFrom(chat.messages, User)
  }

  /** Whether the event schedules the opening greeting. */
  predicate Greets(chat: Chat, e: Event) {
    e.OpenPanel? && !chat.isOpen && chat.messages == []
  }

  lemma CountAppend(ms: seq<Message>, m: Message, s: Sender)
    ensures CountFrom(ms + [m], s) == CountFrom(ms, s) + (if m.sender == s then 1 else 0)
  {
    assert (ms + [m])[..|ms|] == ms;
  }

  lemma SendKeepsReplyBalance(kb: Intent.Kb, chat: Chat, text: string, d: Intent.Draws)
    requires Intent.ValidKb(kb) && Intent.ValidDraws(d)
    ensures Owed(Send(kb, chat, text, d)) == Owed(chat)
  {
    if !Blank(text) {
      CountAppend(chat.messages, Message(text, User, None), User);
      CountAppend(chat.messages, Message(text, User, None), Assistant);
    }
  }

  lemma FireKeepsReplyBalance(chat: Chat, k: nat)
    requires k < |chat.timers|
    ensures Owed(Fire(chat, k)) == Owed(chat)
  {
    var t := chat.timers[k];
    if t.Reveal? {
      CountAppend(chat.messages, Message(t.text, Assistant, t.followUp), User);
      CountAppend(chat.messages, Message(t.text, Assistant, t.followUp), Assistant);
    }
  }

  /**
    Every user message is matched by one assistant message, logged or still
    pending; only the opening greeting adds an assistant message unprompted.
   */
  lemma StepKeepsReplyBalance(kb: Intent.Kb, chat: Chat, e: Event)
    requires Intent.ValidKb(kb) && Enabled(chat, e)
    ensures Owed(Step(kb, chat, e)) == Owed(chat) + (if Greets(chat, e) then 1 else 0)
  {
    match e
    case Submit(d) => SendKeepsReplyBalance(kb, chat, chat.input, d);
    case ChipClick(i, d) => SendKeepsReplyBalance(kb, chat, Chips(chat).value[i], d);
    case TimerFires(k) => FireKeepsReplyBalance(chat, k);
    case _ =>
  }

  /** The message log only grows, and only at its end. */
  lemma {:induction false} RunAppends(kb: Intent.Kb, chat: Chat, events: seq<Event>)
    requires Intent.ValidKb(kb)
    requires Run(kb, chat, events).Some?
    ensures chat.messages <= Run(kb, chat, events).value.messages
    decreases |events|
  {
    if events != [] {
      var next := Step(kb, chat, events[0]);
      RunAppends(kb, next, events[1..]);
    }
  }

  /**
    Along any run, the replies logged or pending never fall behind the user
    messages; without opening the panel they keep exact pace.
   */
  lemma {:induction false} RunKeepsReplyBalance(kb: Intent.Kb, chat: Chat, events: seq<Event>)
    requires Intent.ValidKb(kb)
    requires Run(kb, chat, events).Some?
    ensures Owed(Run(kb, chat, events).value) >= Owed(chat)
    ensures (forall i :: 0 <= i < |events| ==> !events[i].OpenPanel?) ==>
              Owed(Run(kb, chat, events).value) == Owed(chat)
    decreases |events|
  {
    if events != [] {
      StepKeepsReplyBalance(kb, chat, events[0]);
      RunKeepsReplyBalance(kb, Step(kb, chat, events[0]), events[1..]);
      if forall i :: 0 <= i < |events| ==> !events[i].OpenPanel? {
        assert forall i :: 0 <= i < |events[1..]| ==> !events[1..][i].OpenPanel? by {
          forall i | 0 <= i < |events[1..]| ensures !events[1..][i].OpenPanel? {
            assert events[1..][i] == events[i + 1];
          }
        }
      }
    }
  }

  /** From the freshly mounted panel, every user message is answered, in the log or on a timer. */
  lemma FromInitialEveryMessageAnswered(kb: Intent.Kb, events: seq<Event>)
    requires Intent.ValidKb(kb)
    requires Run(kb, Initial, events).Some?
    ensures var chat := Run(kb, Initial, events).value;
            CountFrom(chat.messages, User) <= CountFrom(chat.messages, Assistant) + |chat.timers|
  {
    RunKeepsReplyBalance(kb, Initial, events);
  }

  /** The newest reveal timer, once fired, logs its reply and stops the typing indicator. */
  lemma RevealNewest(chat: Chat, text: string, followUp: Option<seq<string>>)
    ensures var armed := AddAssistantMessage(chat, text, followUp);
            Fire(armed, |chat.timers|)
            == chat.(messages := chat.messages + [Message(text, Assistant, followUp)], isTyping := false)
  {
    var armed := AddAssistantMessage(chat, text, followUp);
    var n := |chat.timers|;
    assert armed.timers[..n] + armed.timers[n + 1..] == chat.timers;
  }

  /** A non-blank send logs the text and then does what `addAssistantMessage` does with `matchIntent`'s reply. */
  lemma SendArmsReply(kb: Intent.Kb, chat: Chat, text: string, d: Intent.Draws)
    requires Intent.ValidKb(kb) && Intent.ValidDraws(d)
    requires !Blank(text)
    ensures var reply := Intent.MatchIntent(kb, text, d);
            Send(kb, chat, text, d)
            == AddAssistantMessage(chat.(messages := chat.messages + [Message(text, User, None)], input := ""),
                                   reply.response, reply.followUp)
  {
  }

  /** Sending and then revealing the reply logs the user's raw text followed by `matchIntent`'s answer. */
  lemma SendThenReveal(kb: Intent.Kb, chat: Chat, text: string, d: Intent.Draws)
    requires Intent.ValidKb(kb) && Intent.ValidDraws(d)
    requires !Blank(text)
    ensures var reply := Intent.MatchIntent(kb, text, d);
            Fire(Send(kb, chat, text, d), |chat.timers|)
            == chat.(messages := chat.messages + [Message(text, User, None)]
                                               + [Message(reply.response, Assistant, reply.followUp)],
                     input := "", isTyping := false)
  {
    var reply := Intent.MatchIntent(kb, text, d);
    var logged := chat.(messages := chat.messages + [Message(text, User, None)], input := "");
    SendArmsReply(kb, chat, text, d);
    RevealNewest(logged, reply.response, reply.followUp);
  }

  /** Opening an empty panel greets with the quick replies as chips once both timers have fired. */
  lemma OpeningGreeting(chat: Chat, draw: real)
    requires Surprises.IsDraw(draw)
    requires !chat.isOpen && chat.messages == [] && chat.timers == []
    ensures var ready := Open(chat, draw);
            && |ready.timers| == 1
            && var typing := Fire(ready, 0);
               && |typing.timers| == 1
               && var shown := Fire(typing, 0);
                  && |shown.messages| == 1
                  && shown.messages[0].sender == Assistant
                  && shown.messages[0].text in OpeningGreetings
                  && Chips(shown) == Some(Intent.QuickReplies)
  {
    var ready := Open(chat, draw);
    var typing := Fire(ready, 0);
    assert typing.timers == [Reveal(ready.timers[0].text, Some(Intent.QuickReplies))];
  }

  /**
    Closing and reopening before the greeting's wait is over schedules a
    second greeting: the log is still empty when the panel reopens.
   */
  lemma ReopenBeforeGreetingGreetsTwice(chat: Chat, draw1: real, draw2: real)
    requires Surprises.IsDraw(draw1) && Surprises.IsDraw(draw2)
    requires !chat.isOpen && chat.messages == [] && chat.timers == []
    ensures var again := Open(Close(Open(chat, draw1)), draw2);
            |again.timers| == 2 && again.timers[0].GreetAfterWait? && again.timers[1].GreetAfterWait?
  {
  }

  /** Blank text, whitespace only, leaves the panel exactly as it was. */
  lemma BlankIgnored(kb: Intent.Kb, chat: Chat, text: string, d: Intent.Draws)
    requires Intent.ValidKb(kb) && Intent.ValidDraws(d)
    requires AllSpace(text)
    ensures Send(kb, chat, text, d) == chat
  {
    TrimEmptyIff(text);
  }
}
