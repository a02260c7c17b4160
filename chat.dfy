/** The conversation view of one user (`me`) with one other user (`otherId`).
    It keeps the message list, the "Typing..." flag and the draft text, and
    updates them one socket event at a time. The socket channel is per user,
    not per conversation, so every handler first checks that the event belongs
    to this conversation. */
module Chat {
  import opened Seqs
  import opened Text
  import opened Js

  type Id = string

  datatype Message = Message(id: Id, senderId: Id, receiverId: Id, text: string, readAt: Option<int>)

  /** What the view emits on the socket. */
  datatype Emit =
    | SeenAck(senderId: Id, receiverId: Id)
    | TypingStart(senderId: Id, receiverId: Id)
    | TypingStop(senderId: Id, receiverId: Id)

  /** The body of `POST /chat/send`. */
  datatype Post = Post(receiverId: Id, text: string)

  /** The socket events the view listens to. `receive_message` and
      `message_sent` are both `Receive`. */
  datatype Event =
    | Receive(msg: Message)
    | TypingStarted(sender: Id)
    | TypingStopped(sender: Id)
    | Seen(from: Id, at: int)

  /** The part of the view that socket events change. */
  datatype View = View(messages: seq<Message>, isTyping: bool)

  /** A message I sent to the other user. */
  predicate Mine(m: Message, me: Id, other: Id)
  {
    m.senderId == me && m.receiverId == other
  }

  /** A message the other user sent to me. */
  predicate Theirs(m: Message, me: Id, other: Id)
  {
    m.senderId == other && m.receiverId == me
  }

  predicate InConversation(m: Message, me: Id, other: Id)
  {
    Mine(m, me, other) || Theirs(m, me, other)
  }

  /** Stamps `read_at` on a message I sent; others are left alone. */
  function MarkRead(m: Message, me: Id, at: int): Message
  {
    if m.senderId == me then m.(readAt := Some(at)) else m
  }

  /** `prev.map(...)` of the seen handler. */
  function MarkSeen(ms: seq<Message>, me: Id, at: int): (r: seq<Message>)
    ensures |r| == |ms|
    ensures forall i :: 0 <= i < |ms| ==> r[i] == MarkRead(ms[i], me, at)
  {
    seq(|ms|, i requires 0 <= i < |ms| => MarkRead(ms[i], me, at))
  }

  /** The effect of one socket event on the view. */
  function Step(me: Id, other: Id, v: View, e: Event): View
  {
    match e
    case Receive(m) => if InConversation(m, me, other) then v.(messages := v.messages + [m]) else v
    case TypingStarted(s) => if s == other then v.(isTyping := true) else v
    case TypingStopped(s) => if s == other then v.(isTyping := false) else v
    case Seen(from, at) => if from == other then v.(messages := MarkSeen(v.messages, me, at)) else v
  }

  /** The effect of a sequence of socket events, in arrival order. */
  function Run(me: Id, other: Id, v: View, es: seq<Event>): View
    decreases |es|
  {
    if es == [] then v else Run(me, other, Step(me, other, v, es[0]), es[1..])
  }

  /** The "✓ Seen" mark: shown on my own messages that have `read_at`. */
  predicate SeenBadge(m: Message, me: Id)
  {
    m.senderId == me && m.readAt.Some?
  }

  /** The typing signal for a new draft: stop when it is blank after trimming,
      start otherwise. */
  function TypingSignal(me: Id, other: Id, draft: string): (r: Emit)
    ensures r.senderId == me && r.receiverId == other
    ensures r.TypingStop? <==> forall k :: 0 <= k < |draft| ==> IsSpace(draft[k])
    ensures r.TypingStart? || r.TypingStop?
  {
    TrimBlank(draft);
    if Trim(draft) == "" then TypingStop(me, other) else TypingStart(me, other)
  }

  /** What `send` posts for a draft: nothing for a blank draft, otherwise the
      trimmed text addressed to the other user. */
  function SendRequest(other: Id, draft: string): (r: Option<Post>)
    ensures r.None? <==> forall k :: 0 <= k < |draft| ==> IsSpace(draft[k])
    ensures r.Some? ==> r.value.receiverId == other && r.value.text == Trim(draft)
    ensures r.Some? ==> r.value.text != "" && IsTrimmed(r.value.text)
  {
    TrimBlank(draft);
    var trimmed := Trim(draft);
    if trimmed == "" then None else Some(Post(other, trimmed))
  }

  /** An incoming message is appended exactly when it belongs to this
      conversation, in either direction. */
  lemma ReceiveAppendsIff(me: Id, other: Id, v: View, m: Message)
    ensures Step(me, other, v, Receive(m)).messages == v.messages + [m] <==> InConversation(m, me, other)
    ensures Step(me, other, v, Receive(m)).isTyping == v.isTyping
  {
    if !InConversation(m, me, other) {
      assert |v.messages + [m]| != |v.messages|;
    }
  }

  /** Messages between any other pair of users leave the view unchanged. */
  lemma ReceiveOtherPair(me: Id, other: Id, v: View, m: Message)
    requires !InConversation(m, me, other)
    ensures Step(me, other, v, Receive(m)) == v
  {
  }

  /** No de-duplication: the same message received twice (say once as
      `receive_message` and once as `message_sent`) is listed twice. */
  lemma ReceiveTwiceListsTwice(me: Id, other: Id, v: View, m: Message)
    requires InConversation(m, me, other)
    ensures Step(me, other, Step(me, other, v, Receive(m)), Receive(m)).messages == v.messages + [m, m]
  {
  }

  /** A seen event from the other user stamps every message I sent and nothing
      else; afterwards the badge shows on exactly my messages. */
  lemma SeenFromOther(me: Id, other: Id, v: View, at: int)
    ensures var r := Step(me, other, v, Seen(other, at));
      && |r.messages| == |v.messages|
      && r.isTyping == v.isTyping
      && (forall i :: 0 <= i < |v.messages| && v.messages[i].senderId == me ==>
            r.messages[i] == v.messages[i].(readAt := Some(at)))
      && (forall i :: 0 <= i < |v.messages| && v.messages[i].senderId != me ==>
            r.messages[i] == v.messages[i])
      && (forall i :: 0 <= i < |r.messages| ==> (SeenBadge(r.messages[i], me) <==> r.messages[i].senderId == me))
  {
  }

  /** A seen event from anyone else changes nothing. */
  lemma SeenFromElse(me: Id, other: Id, v: View, from: Id, at: int)
    requires from != other
    ensures Step(me, other, v, Seen(from, at)) == v
  {
  }

  /** Typing events from the other user set the flag; from anyone else they
      are ignored. The message list is untouched either way. */
  lemma TypingFollowsOther(me: Id, other: Id, v: View, s: Id)
    ensures Step(me, other, v, TypingStarted(s)).isTyping == (s == other || v.isTyping)
    ensures Step(me, other, v, TypingStopped(s)).isTyping == (s != other && v.isTyping)
    ensures Step(me, other, v, TypingStarted(s)).messages == v.messages
    ensures Step(me, other, v, TypingStopped(s)).messages == v.messages
  {
  }

  /** A message without its `read_at` stamp. */
  function Body(m: Message): Message
  {
    m.(readAt := None)
  }

  function Bodies(ms: seq<Message>): (r: seq<Message>)
    ensures |r| == |ms|
    ensures forall i :: 0 <= i < |ms| ==> r[i] == Body(ms[i])
  {
    seq(|ms|, i requires 0 <= i < |ms| => Body(ms[i]))
  }

  /** The messages carried by the `Receive` events, in arrival order. */
  function Received(es: seq<Event>): seq<Message>
    decreases |es|
  {
    if es == [] then []
    else if es[0].Receive? then [es[0].msg] + Received(es[1..])
    else Received(es[1..])
  }

  /** The filter of `onReceive`, as a predicate on messages. */
  function Belongs(me: Id, other: Id): Message -> bool
  {
    m => InConversation(m, me, other)
  }

  lemma BodiesAppend(a: seq<Message>, b: seq<Message>)
    ensures Bodies(a + b) == Bodies(a) + Bodies(b)
  {
  }

  lemma MarkSeenKeepsBodies(ms: seq<Message>, me: Id, at: int)
    ensures Bodies(MarkSeen(ms, me, at)) == Bodies(ms)
  {
  }

  /** One event adds to the list exactly the received message of this
      conversation, if any, up to `read_at` stamps. */
  lemma StepBodies(me: Id, other: Id, v: View, e: Event)
    ensures Bodies(Step(me, other, v, e).messages)
         == Bodies(v.messages) + Bodies(Filter(Received([e]), Belongs(me, other)))
  {
    var p := Belongs(me, other);
    if e.Receive? {
      assert Received([e]) == [e.msg];
      assert Filter([e.msg], p) == if p(e.msg) then [e.msg] else [];
      BodiesAppend(v.messages, [e.msg]);
    } else {
      assert Received([e]) == [];
      if e.Seen? && e.from == other {
        MarkSeenKeepsBodies(v.messages, me, e.at);
      }
    }
  }

  lemma ReceivedCons(es: seq<Event>)
    requires es != []
    ensures Received(es) == Received([es[0]]) + Received(es[1..])
  {
    var h := [es[0]];
    assert h[1..] == [];
    assert Received(h) == if es[0].Receive? then [es[0].msg] else [];
  }

  /** Up to `read_at` stamps, the list after a run of events is the list before
      it followed by the received messages of this conversation, in arrival
      order and with duplicates kept. */
  lemma {:induction false} RunKeepsArrivalOrder(me: Id, other: Id, v: View, es: seq<Event>)
    ensures Bodies(Run(me, other, v, es).messages)
         == Bodies(v.messages) + Bodies(Filter(Received(es), Belongs(me, other)))
    decreases |es|
  {
    var p := Belongs(me, other);
    if es == [] {
      assert Filter(Received(es), p) == [];
    } else {
      var w := Step(me, other, v, es[0]);
      RunKeepsArrivalOrder(me, other, w, es[1..]);
      StepBodies(me, other, v, es[0]);
      var kept := Filter(Received([es[0]]), p);
      var rest := Filter(Received(es[1..]), p);
      ReceivedCons(es);
      FilterAppend(Received([es[0]]), Received(es[1..]), p);
      BodiesAppend(kept, rest);
      AppendAssoc(Bodies(v.messages), Bodies(kept), Bodies(rest));
    }
  }

  /** The view of one conversation, as the page keeps it, for a signed-in
      user `me`. For a visitor who is not signed in (the page is drawn while
      the route guard redirects), every effect of the page returns at once
      and nothing is loaded, joined or emitted; that case has no member. */
  class ChatView {
    const me: Id
    const otherId: Id
    var messages: seq<Message>
    var isTyping: bool
    var text: string

    function State(): View
      reads this
    {
      View(messages, isTyping)
    }

    constructor(me: Id, otherId: Id)
      ensures this.me == me && this.otherId == otherId
      ensures messages == [] && !isTyping && text == ""
    {
      this.me := me;
      this.otherId := otherId;
      messages := [];
      isTyping := false;
      text := "";
    }

    /** The typing effect also runs once after the first render, before
        any edit: it signals for the current draft, which on mount is the
        empty draft, so a fresh view announces that it is not typing. */
    method Mount() returns (signal: Emit)
      ensures signal == TypingSignal(me, otherId, text)
      ensures text == "" ==> signal == TypingStop(me, otherId)
    {
      signal := TypingSignal(me, otherId, text);
    }

    /** The history response replaces the list, and the view acknowledges
        having seen the conversation. */
    method LoadHistory(history: seq<Message>) returns (ack: Emit)
      modifies this
      ensures messages == history
      ensures isTyping == old(isTyping) && text == old(text)
      ensures ack == SeenAck(me, otherId)
    {
      messages := history;
      ack := SeenAck(me, otherId);
    }

    /** `receive_message` and `message_sent`. */
    method OnReceive(m: Message)
      modifies this
      ensures State() == Step(me, otherId, old(State()), Receive(m))
      ensures InConversation(m, me, otherId) ==> messages == old(messages) + [m]
      ensures !InConversation(m, me, otherId) ==> messages == old(messages)
      ensures isTyping == old(isTyping) && text == old(text)
    {
      if InConversation(m, me, otherId) {
        messages := messages + [m];
      }
    }

    /** `typing:start` */
    method OnTypingStart(sender: Id)
      modifies this
      ensures State() == Step(me, otherId, old(State()), TypingStarted(sender))
      ensures isTyping == (sender == otherId || old(isTyping))
      ensures messages == old(messages) && text == old(text)
    {
      if sender == otherId {
        isTyping := true;
      }
    }

    /** `typing:stop` */
    method OnTypingStop(sender: Id)
      modifies this
      ensures State() == Step(me, otherId, old(State()), TypingStopped(sender))
      ensures isTyping == (sender != otherId && old(isTyping))
      ensures messages == old(messages) && text == old(text)
    {
      if sender == otherId {
        isTyping := false;
      }
    }

    /** `message:seen`, stamped with the time `at` it arrived. */
    method OnSeen(from: Id, at: int)
      modifies this
      ensures State() == Step(me, otherId, old(State()), Seen(from, at))
      ensures from == otherId ==> messages == MarkSeen(old(messages), me, at)
      ensures from != otherId ==> messages == old(messages)
      ensures isTyping == old(isTyping) && text == old(text)
    {
      if from == otherId {
        messages := MarkSeen(messages, me, at);
      }
    }

    /** A change of the draft. The typing signal is emitted only when the
        text actually changes. */
    method Edit(draft: string) returns (signal: Option<Emit>)
      modifies this
      ensures text == draft
      ensures draft == old(text) ==> signal == None
      ensures draft != old(text) ==> signal == Some(TypingSignal(me, otherId, draft))
      ensures messages == old(messages) && isTyping == old(isTyping)
    {
      if draft == text {
        signal := None;
      } else {
        text := draft;
        signal := Some(TypingSignal(me, otherId, draft));
      }
    }

    /** `send`: a blank draft does nothing; otherwise the draft is cleared,
        which emits a typing stop, and its trimmed text is posted. */
    method Send() returns (post: Option<Post>, signal: Option<Emit>)
      modifies this
      ensures post == SendRequest(otherId, old(text))
      ensures post.None? ==> text == old(text) && signal == None
      ensures post.Some? ==> text == "" && signal == Some(TypingStop(me, otherId))
      ensures messages == old(messages) && isTyping == old(isTyping)
    {
      post := SendRequest(otherId, text);
      if post.None? {
        signal := None;
      } else {
        assert text != "";
        assert TypingSignal(me, otherId, "") == TypingStop(me, otherId);
        signal := Edit("");
      }
    }
  }
}
