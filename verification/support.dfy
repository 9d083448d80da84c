/** The support page's live chat: the user's message is appended at once
    and a canned reply from the specialist two seconds later. The delay
    is an explicit event: each send schedules one reply, and the
    scheduled replies arrive in the order they were scheduled (they share
    the same delay). */
module SupportChat {
  import opened Common

  datatype ChatMessage = ChatMessage(id: int, fromSupport: bool, name: string, text: string)

  const SpecialistName := "Sarah - Support Specialist"
  const Greeting := "Hi! I'm here to help. How are you feeling today?"
  const ReplyText := "Thank you for sharing. I understand this might be difficult. "
                     + "Can you tell me more about what's been on your mind lately?"

  /** The conversation, the text in the input, whether the chat view is
      open, and the ids the pending replies captured when they were
      scheduled, oldest first. */
  datatype Desk = Desk(messages: seq<ChatMessage>, draft: string, showChat: bool, pending: seq<int>)

  /** The page opens on the options, with the specialist's greeting
      already in the conversation and nothing scheduled. */
  const Initial := Desk([ChatMessage(1, true, SpecialistName, Greeting)], "", false, [])

  function Type(d: Desk, text: string): (r: Desk)
    ensures r.draft == text && r.messages == d.messages && r.pending == d.pending && r.showChat == d.showChat
  {
    d.(draft := text)
  }

  /** `handleSendMessage`: a draft that trims to nothing is ignored;
      otherwise the draft, untrimmed, is appended as the user's message
      numbered one past the count, the input is cleared, and a reply is
      scheduled whose id is fixed now, at two past the pre-send count. */
  function Send(d: Desk, userName: string): (r: Desk)
    ensures Trim(d.draft) == "" ==> r == d
    ensures Trim(d.draft) != "" ==>
              && r.messages == d.messages + [ChatMessage(|d.messages| + 1, false, userName, d.draft)]
              && r.draft == ""
              && r.pending == d.pending + [|d.messages| + 2]
              && r.showChat == d.showChat
  {
    if Trim(d.draft) != "" then
      var m := ChatMessage(|d.messages| + 1, false, userName, d.draft);
      d.(messages := d.messages + [m], draft := "", pending := d.pending + [|d.messages| + 2])
    else d
  }

  /** The reply timer firing, as the code is written: the oldest pending
      reply is appended with the id it captured at send time. With nothing
      scheduled there is nothing to fire. */
  function DeliverAsWritten(d: Desk): (r: Desk)
    ensures d.pending == [] ==> r == d
    ensures d.pending != [] ==>
              && r.messages == d.messages + [ChatMessage(d.pending[0], true, SpecialistName, ReplyText)]
              && r.pending == d.pending[1..]
              && r.draft == d.draft && r.showChat == d.showChat
  {
    if d.pending == [] then d
    else
      var m := ChatMessage(d.pending[0], true, SpecialistName, ReplyText);
      d.(messages := d.messages + [m], pending := d.pending[1..])
  }

  /** The reply timer firing with the id taken from the conversation as
      it is when the reply arrives, one past its count. */
  function Deliver(d: Desk): (r: Desk)
    ensures d.pending == [] ==> r == d
    ensures d.pending != [] ==>
              && r.messages == d.messages + [ChatMessage(|d.messages| + 1, true, SpecialistName, ReplyText)]
              && r.pending == d.pending[1..]
              && r.draft == d.draft && r.showChat == d.showChat
  {
    if d.pending == [] then d
    else
      var m := ChatMessage(|d.messages| + 1, true, SpecialistName, ReplyText);
      d.(messages := d.messages + [m], pending := d.pending[1..])
  }

  /** `handleStartSupport`: only the chat option opens the chat view; the
      phone, video and e-mail options do nothing here. */
  function StartSupport(d: Desk, kind: string): (r: Desk)
    ensures r.showChat <==> (kind == "chat" || d.showChat)
    ensures r.messages == d.messages && r.draft == d.draft && r.pending == d.pending
    ensures kind != "chat" ==> r == d
  {
    if kind == "chat" then d.(showChat := true) else d
  }

  /** The back button returns to the options; the conversation is kept. */
  function Back(d: Desk): (r: Desk)
    ensures !r.showChat && r.messages == d.messages && r.pending == d.pending
  {
    d.(showChat := false)
  }

  /** Messages are numbered 1, 2, 3, ... by position. */
  predicate Numbered(ms: seq<ChatMessage>) {
    forall i :: 0 <= i < |ms| ==> ms[i].id == i + 1
  }

  predicate DistinctIds(ms: seq<ChatMessage>) {
    forall i, j :: 0 <= i < j < |ms| ==> ms[i].id != ms[j].id
  }

  lemma NumberedDistinct(ms: seq<ChatMessage>)
    requires Numbered(ms)
    ensures DistinctIds(ms)
  {
  }

  lemma AppendNumbered(ms: seq<ChatMessage>, m: ChatMessage)
    requires Numbered(ms) && m.id == |ms| + 1
    ensures Numbered(ms + [m])
  {
  }

  /** The chat opens with exactly one message, the specialist's. */
  lemma InitialChat()
    ensures |Initial.messages| == 1 && Initial.messages[0].fromSupport
    ensures Numbered(Initial.messages) && Initial.pending == []
  {
  }

  /** A send is ignored exactly when the draft is whitespace only. */
  lemma BlankSendIgnored(d: Desk, userName: string)
    ensures Send(d, userName) == d <==> Blank(d.draft)
  {
    TrimEmptyIffBlank(d.draft);
    if !Blank(d.draft) {
      assert |Send(d, userName).messages| == |d.messages| + 1;
    }
  }

  // ---------------------------------------------------------------------
  // The whole page as an event machine

  datatype Event = TypeText(text: string) | SendMessage | ReplyArrives | Start(kind: string) | Leave

  /** One event, with the reply id taken when the reply arrives. */
  function Step(d: Desk, e: Event, userName: string): Desk {
    match e
    case TypeText(text) => Type(d, text)
    case SendMessage => Send(d, userName)
    case ReplyArrives => Deliver(d)
    case Start(kind) => StartSupport(d, kind)
    case Leave => Back(d)
  }

  function Run(d: Desk, events: seq<Event>, userName: string): Desk
    decreases |events|
  {
    if events == [] then d else Run(Step(d, events[0], userName), events[1..], userName)
  }

  lemma StepKeepsNumbered(d: Desk, e: Event, userName: string)
    requires Numbered(d.messages)
    ensures Numbered(Step(d, e, userName).messages)
  {
    match e
    case SendMessage =>
      if Trim(d.draft) != "" {
        AppendNumbered(d.messages, ChatMessage(|d.messages| + 1, false, userName, d.draft));
      }
    case ReplyArrives =>
      if d.pending != [] {
        AppendNumbered(d.messages, ChatMessage(|d.messages| + 1, true, SpecialistName, ReplyText));
      }
    case _ =>
  }

  /** With the reply numbered on arrival, every reachable conversation is
      numbered by position, so no two messages share an id. */
  lemma {:induction false} RunKeepsNumbered(d: Desk, events: seq<Event>, userName: string)
    requires Numbered(d.messages)
    ensures Numbered(Run(d, events, userName).messages)
    ensures DistinctIds(Run(d, events, userName).messages)
    decreases |events|
  {
    if events == [] {
      NumberedDistinct(d.messages);
    } else {
      StepKeepsNumbered(d, events[0], userName);
      RunKeepsNumbered(Step(d, events[0], userName), events[1..], userName);
    }
  }

  /** When each reply arrives before the next send, the captured id is
      the arrival-time one: the code as written and the corrected reply
      agree on a send followed by its reply. */
  lemma SequentialUseAgrees(d: Desk, userName: string)
    requires d.pending == []
    ensures DeliverAsWritten(Send(d, userName)) == Deliver(Send(d, userName))
  {
  }

  /** Typing a non-blank text and sending it. */
  lemma SendText(d: Desk, text: string, userName: string)
    requires !Blank(text)
    ensures Send(Type(d, text), userName)
            == Desk(d.messages + [ChatMessage(|d.messages| + 1, false, userName, text)], "",
                    d.showChat, d.pending + [|d.messages| + 2])
  {
    TrimEmptyIffBlank(text);
  }

  /** As written, two sends before the first reply give two messages the
      same id: the first reply captured `n + 2` at the first send, and the
      second send has already taken `n + 2`. From the opening greeting
      (`n == 1`) the conversation reads 1, 2, 3, 3. */
  lemma TwoQuickSendsCollide(d: Desk, a: string, b: string, userName: string)
    requires d.pending == [] && !Blank(a) && !Blank(b)
    ensures var ms := DeliverAsWritten(Send(Type(Send(Type(d, a), userName), b), userName)).messages;
            && |ms| == |d.messages| + 3
            && ms[|d.messages| + 1].id == |d.messages| + 2
            && ms[|d.messages| + 2].id == |d.messages| + 2
            && !DistinctIds(ms)
  {
    var n := |d.messages|;
    var d1 := Send(Type(d, a), userName);
    SendText(d, a, userName);
    var d2 := Send(Type(d1, b), userName);
    SendText(d1, b, userName);
    var ms := d2.messages + [ChatMessage(n + 2, true, SpecialistName, ReplyText)];
    assert DeliverAsWritten(d2).messages == ms;
    assert ms[n + 1] == ChatMessage(n + 2, false, userName, b);
    assert ms[n + 2].id == ms[n + 1].id;
  }

  /** The same events with the reply numbered on arrival keep a numbered
      conversation numbered, the second send's message and the reply
      taking `n + 2` and `n + 3`. */
  lemma TwoQuickSendsCorrected(d: Desk, a: string, b: string, userName: string)
    requires Numbered(d.messages) && d.pending == [] && !Blank(a) && !Blank(b)
    ensures var ms := Deliver(Send(Type(Send(Type(d, a), userName), b), userName)).messages;
            && |ms| == |d.messages| + 3
            && ms[|d.messages| + 2].id == |d.messages| + 3
            && ms[|d.messages| + 2].fromSupport
            && DistinctIds(ms)
  {
    var n := |d.messages|;
    var d1 := Send(Type(d, a), userName);
    SendText(d, a, userName);
    var d2 := Send(Type(d1, b), userName);
    SendText(d1, b, userName);
    var reply := ChatMessage(n + 3, true, SpecialistName, ReplyText);
    var ms := d2.messages + [reply];
    assert Deliver(d2).messages == ms;
    AppendNumbered(d.messages, ChatMessage(n + 1, false, userName, a));
    AppendNumbered(d1.messages, ChatMessage(n + 2, false, userName, b));
    AppendNumbered(d2.messages, reply);
    assert ms[n + 2] == reply;
    NumberedDistinct(ms);
  }
}
