/** The community page's group chat: joining a support group seeds its
    conversation, and sending appends the user's own message. The group
    catalog is an input; only a group's id and name matter here. */
module GroupChat {
  import opened Common

  datatype Group = Group(id: int, name: string)

  /** A chat message; the display-only time and reply count are left out. */
  datatype Message = Message(id: int, author: string, content: string, own: bool, welcome: bool)

  /** The open group, its messages, and the text in the message input. */
  datatype Room = Room(selected: Option<Group>, messages: seq<Message>, draft: string)

  const Start := Room(None, [], "")

  /** `supportGroups.find(g => g.id === groupId)`: the first group with
      that id. */
  function Find(groups: seq<Group>, id: int): (r: Option<Group>)
    ensures r.None? <==> forall i :: 0 <= i < |groups| ==> groups[i].id != id
    ensures r.Some? ==> r.value.id == id && r.value in groups
    ensures r.Some? ==> exists i :: 0 <= i < |groups| && groups[i] == r.value
                                    && forall j :: 0 <= j < i ==> groups[j].id != id
  {
    if groups == [] then None
    else if groups[0].id == id then Some(groups[0])
    else
      var r := Find(groups[1..], id);
      if r.Some? then
        var i :| 0 <= i < |groups[1..]| && groups[1..][i] == r.value
                 && forall j :: 0 <= j < i ==> groups[1..][j].id != id;
        assert groups[i + 1] == r.value;
        r
      else r
  }

  function WelcomeText(name: string): string {
    "Welcome to " + name + "! This is a safe space for support and encouragement. "
    + "Please remember to be kind and respectful to everyone."
  }

  /** The three messages every group opens with, the first welcoming the
      user to the group by name. */
  function Seed(g: Group): (r: seq<Message>)
    ensures |r| == 3 && Numbered(r)
    ensures r[0].welcome && r[0].author == "Community Helper" && r[0].content == WelcomeText(g.name)
    ensures forall i :: 0 <= i < 3 ==> !r[i].own
  {
    [ Message(1, "Community Helper", WelcomeText(g.name), false, true),
      Message(2, "Alex S.", "Having a rough day today. The pressure is really getting to me. "
                            + "Anyone else feeling this way?", false, false),
      Message(3, "Jamie L.", "I hear you @Alex. You're not alone. Some days are harder than others, "
                             + "but remember that this feeling is temporary. We're here for you! \U{1F499}",
              false, false) ]
  }

  /** `handleJoinGroup`: a known id opens that group and replaces the
      conversation by its seed; an unknown id changes nothing. */
  function Join(room: Room, groups: seq<Group>, id: int): (r: Room)
    ensures Find(groups, id).None? ==> r == room
    ensures Find(groups, id).Some? ==>
              && r.selected == Find(groups, id)
              && r.selected.value.id == id
              && r.messages == Seed(r.selected.value)
              && r.draft == room.draft
  {
    match Find(groups, id)
    case None => room
    case Some(g) => room.(selected := Some(g), messages := Seed(g))
  }

  /** The back button closes the group; the conversation stays in state
      and is replaced on the next join. */
  function Back(room: Room): (r: Room)
    ensures r.selected.None? && r.messages == room.messages && r.draft == room.draft
  {
    room.(selected := None)
  }

  function Type(room: Room, text: string): (r: Room)
    ensures r.draft == text && r.selected == room.selected && r.messages == room.messages
  {
    room.(draft := text)
  }

  /** `handleSendMessage`: a draft that trims to nothing is ignored;
      otherwise the draft, untrimmed, is appended as the user's own
      message, numbered one past the current count, and the input is
      cleared. */
  function Send(room: Room, userName: string): (r: Room)
    ensures Trim(room.draft) == "" ==> r == room
    ensures Trim(room.draft) != "" ==>
              && r.messages == room.messages + [Message(|room.messages| + 1, userName, room.draft, true, false)]
              && r.draft == ""
              && r.selected == room.selected
  {
    if Trim(room.draft) != "" then
      var m := Message(|room.messages| + 1, userName, room.draft, true, false);
      room.(messages := room.messages + [m], draft := "")
    else room
  }

  /** Messages are numbered 1, 2, 3, ... by position. */
  predicate Numbered(ms: seq<Message>) {
    forall i :: 0 <= i < |ms| ==> ms[i].id == i + 1
  }

  /** A numbered conversation has no two messages with the same id. */
  lemma NumberedDistinct(ms: seq<Message>)
    requires Numbered(ms)
    ensures forall i, j :: 0 <= i < j < |ms| ==> ms[i].id != ms[j].id
  {
  }

  /** A send is ignored exactly when the draft is whitespace only. */
  lemma BlankSendIgnored(room: Room, userName: string)
    ensures Send(room, userName) == room <==> Blank(room.draft)
  {
    TrimEmptyIffBlank(room.draft);
    if !Blank(room.draft) {
      assert |Send(room, userName).messages| == |room.messages| + 1;
    }
  }

  /** Joining and sending keep the numbering, so message ids stay unique. */
  lemma StepsKeepNumbered(room: Room, groups: seq<Group>, id: int, userName: string)
    requires Numbered(room.messages)
    ensures Numbered(Join(room, groups, id).messages)
    ensures Numbered(Send(room, userName).messages)
  {
    if Trim(room.draft) != "" {
      AppendNumbered(room.messages, Message(|room.messages| + 1, userName, room.draft, true, false));
    }
  }

  lemma AppendNumbered(ms: seq<Message>, m: Message)
    requires Numbered(ms) && m.id == |ms| + 1
    ensures Numbered(ms + [m])
  {
  }

  /** Sending several non-blank messages in a row. */
  function SendAll(room: Room, drafts: seq<string>, userName: string): Room
    decreases |drafts|
  {
    if drafts == [] then room else SendAll(Send(Type(room, drafts[0]), userName), drafts[1..], userName)
  }

  /** Sending one non-blank message appends it and nothing else. */
  lemma SendOne(room: Room, text: string, userName: string)
    requires !Blank(text)
    ensures Send(Type(room, text), userName).messages
            == room.messages + [Message(|room.messages| + 1, userName, text, true, false)]
    ensures Send(Type(room, text), userName).selected == room.selected
  {
    TrimEmptyIffBlank(text);
  }

  /** The user's own messages for `drafts`, numbered from `n + 1`. */
  function Own(n: int, drafts: seq<string>, userName: string): (r: seq<Message>)
    ensures |r| == |drafts|
    decreases |drafts|
  {
    if drafts == [] then []
    else [Message(n + 1, userName, drafts[0], true, false)] + Own(n + 1, drafts[1..], userName)
  }

  /** Each non-blank message becomes the next numbered message, the
      user's own, with its text kept; earlier messages stay in front. */
  lemma {:induction false} SendAllAppends(room: Room, drafts: seq<string>, userName: string)
    requires forall i :: 0 <= i < |drafts| ==> !Blank(drafts[i])
    ensures SendAll(room, drafts, userName).messages == room.messages + Own(|room.messages|, drafts, userName)
    decreases |drafts|
  {
    if drafts == [] {
      assert room.messages + [] == room.messages;
    } else {
      var n := |room.messages|;
      var m := Message(n + 1, userName, drafts[0], true, false);
      SendOne(room, drafts[0], userName);
      SendAllAppends(Send(Type(room, drafts[0]), userName), drafts[1..], userName);
      OwnCons(n, drafts, userName);
      SendAllCons(room, drafts, userName);
      AppendAssoc(room.messages, m, Own(n + 1, drafts[1..], userName));
    }
  }

  lemma OwnCons(n: int, drafts: seq<string>, userName: string)
    requires drafts != []
    ensures Own(n, drafts, userName)
            == [Message(n + 1, userName, drafts[0], true, false)] + Own(n + 1, drafts[1..], userName)
  {
  }

  lemma SendAllCons(room: Room, drafts: seq<string>, userName: string)
    requires drafts != []
    ensures SendAll(room, drafts, userName).messages
            == SendAll(Send(Type(room, drafts[0]), userName), drafts[1..], userName).messages
  {
  }

  lemma AppendAssoc(a: seq<Message>, m: Message, t: seq<Message>)
    ensures (a + [m]) + t == a + ([m] + t)
  {
  }

  /** The appended messages carry the next ids, the user's name and the
      drafts' text. */
  lemma {:induction false} OwnAt(n: int, drafts: seq<string>, userName: string, i: int)
    requires 0 <= i < |drafts|
    ensures Own(n, drafts, userName)[i] == Message(n + i + 1, userName, drafts[i], true, false)
    decreases |drafts|
  {
    OwnCons(n, drafts, userName);
    if i > 0 {
      OwnAt(n + 1, drafts[1..], userName, i - 1);
    }
  }

  /** A run of sends keeps the conversation numbered. */
  lemma SendAllNumbered(room: Room, drafts: seq<string>, userName: string)
    requires Numbered(room.messages)
    requires forall i :: 0 <= i < |drafts| ==> !Blank(drafts[i])
    ensures Numbered(SendAll(room, drafts, userName).messages)
  {
    SendAllAppends(room, drafts, userName);
    var n := |room.messages|;
    var own := Own(n, drafts, userName);
    var ms := room.messages + own;
    forall i | 0 <= i < |ms|
      ensures ms[i].id == i + 1
    {
      if i >= n {
        OwnAt(n, drafts, userName, i - n);
        assert ms[i] == own[i - n];
      } else {
        assert ms[i] == room.messages[i];
      }
    }
  }

  /** Joining a group and sending one message: the conversation is the
      seed plus that message, numbered 4. */
  lemma JoinThenSend(groups: seq<Group>, id: int, text: string, userName: string)
    requires Find(groups, id).Some? && !Blank(text)
    ensures var r := Send(Type(Join(Start, groups, id), text), userName);
            && |r.messages| == 4
            && r.messages[0].welcome
            && r.messages[3] == Message(4, userName, text, true, false)
  {
    TrimEmptyIffBlank(text);
  }
}
