/**
 * The chat window of components/Chat.tsx: its message list, composer text,
 * reply target, expanded threads, and the two typing components. Network
 * calls are replaced by their inputs (fetch outcome, `response.ok`, event
 * payloads) and by `requests`, the log of messages posted to the send endpoint.
 */
module Chat {
  import opened Wrappers
  import opened JsText
  import opened ChatTypes
  import MessageStore
  import ThreadToggle
  import TypingEmitter
  import TypingTracker

  /** The body of `POST /api/messages/send`. */
  datatype SendRequest = SendRequest(receiverId: string, text: string, parentId: Option<string>)

  /** `replyingTo?.id`. */
  function ReplyTarget(replyingTo: Option<Message>): (r: Option<string>)
    ensures r.Some? <==> replyingTo.Some?
    ensures r.Some? ==> r.value == replyingTo.value.id
  {
    match replyingTo
    case Some(m) => Some(m.id)
    case None => None
  }

  class ChatView {
    const currentUserId: string
    const peerId: string
    var messages: seq<Message>
    var newMessage: string
    var replyingTo: Option<Message>
    var expandedThreads: set<string>
    var requests: seq<SendRequest>
    const emitter: TypingEmitter.Emitter
    const tracker: TypingTracker.Tracker

    /** Both typing components keep their invariants and share one clock. */
    ghost predicate Valid()
      reads this, emitter, tracker
    {
      && TypingEmitter.Valid(emitter.State())
      && TypingTracker.Valid(tracker.State())
      && emitter.clock == tracker.clock
    }

    constructor (currentUserId: string, peerId: string)
      ensures Valid() && fresh(emitter) && fresh(tracker)
      ensures this.currentUserId == currentUserId && this.peerId == peerId
      ensures messages == [] && newMessage == "" && replyingTo == None && requests == []
      ensures expandedThreads == ThreadToggle.Initial()
      ensures emitter.State() == TypingEmitter.Start() && tracker.State() == TypingTracker.Start()
    {
      this.currentUserId := currentUserId;
      this.peerId := peerId;
      messages, newMessage, replyingTo, requests := [], "", None, [];
      expandedThreads := ThreadToggle.Initial();
      emitter := new TypingEmitter.Emitter();
      tracker := new TypingTracker.Tracker();
    }

    /** The thread fetch completed: a successful body replaces the list, anything else leaves it. */
    method OnFetched(outcome: MessageStore.FetchOutcome)
      modifies this`messages
      ensures messages == MessageStore.AfterFetch(old(messages), outcome)
    {
      messages := MessageStore.AfterFetch(messages, outcome);
    }

    /** The realtime `message` event. */
    method OnMessage(m: Message)
      modifies this`messages
      ensures messages == MessageStore.ApplyIncoming(old(messages), m)
    {
      messages := MessageStore.ApplyIncoming(messages, m);
    }

    /** The realtime `typing` event; the window ignores its own user's events. */
    method OnTyping(userId: string, username: string, isTyping: bool)
      requires Valid()
      modifies tracker
      ensures Valid()
      ensures userId == currentUserId ==> tracker.State() == old(tracker.State())
      ensures userId != currentUserId ==>
        tracker.State() == TypingTracker.AfterEvent(old(tracker.State()), username, isTyping)
    {
      if userId != currentUserId {
        tracker.Receive(username, isTyping);
      }
    }

    /** The composer's `onChange`: store the text, then `handleTyping()`. */
    method OnInputChange(value: string)
      requires Valid()
      modifies this`newMessage, emitter
      ensures Valid() && newMessage == value
      ensures emitter.State() == TypingEmitter.Keystroke(old(emitter.State()))
    {
      newMessage := value;
      emitter.HandleTyping();
    }

    /** The reply button (a message) and the cancel button (`null`). */
    method SetReplyingTo(target: Option<Message>)
      modifies this`replyingTo
      ensures replyingTo == target
    {
      replyingTo := target;
    }

    /**
     * `sendMessage()`: nothing for a blank composer; otherwise post the text
     * with `parentId = replyingTo?.id`, and on an ok response clear the
     * composer and the reply target and post a `false` typing signal, leaving
     * the inactivity timer armed. `ok` is false both for a non-ok response
     * and for a request that threw.
     */
    method SendMessage(ok: bool)
      requires Valid()
      modifies this`newMessage, this`replyingTo, this`requests, emitter
      ensures Valid()
      ensures IsBlank(old(newMessage)) ==>
        && requests == old(requests) && newMessage == old(newMessage)
        && replyingTo == old(replyingTo) && emitter.State() == old(emitter.State())
      ensures !IsBlank(old(newMessage)) ==>
        requests == old(requests) + [SendRequest(peerId, old(newMessage), ReplyTarget(old(replyingTo)))]
      ensures !IsBlank(old(newMessage)) && ok ==>
        && newMessage == "" && replyingTo == None
        && emitter.State() == TypingEmitter.Stop(old(emitter.State()))
      ensures !IsBlank(old(newMessage)) && !ok ==>
        && newMessage == old(newMessage) && replyingTo == old(replyingTo)
        && emitter.State() == old(emitter.State())
    {
      TrimEmptyIffBlank(newMessage);
      if Trim(newMessage) == "" {
        return;
      }
      requests := requests + [SendRequest(peerId, newMessage, ReplyTarget(replyingTo))];
      if ok {
        newMessage := "";
        replyingTo := None;
        emitter.StopTyping();
      }
    }

    /** `toggleThread(messageId)`. */
    method ToggleThread(messageId: string)
      modifies this`expandedThreads
      ensures expandedThreads == ThreadToggle.Toggle(old(expandedThreads), messageId)
    {
      expandedThreads := ThreadToggle.Toggle(expandedThreads, messageId);
    }

    /** The clock reaches `t`: the inactivity timer and the typing removals that are due run. */
    method AdvanceTo(t: int)
      requires Valid() && t >= emitter.clock
      modifies emitter, tracker
      ensures Valid()
      ensures emitter.State() == TypingEmitter.Advance(old(emitter.State()), t)
      ensures tracker.State() == TypingTracker.Advance(old(tracker.State()), t)
    {
      emitter.AdvanceTo(t);
      tracker.AdvanceTo(t);
    }
  }

  /** Example: on a chat window, a fetched message receives one reply through the realtime handler. */
  method ThreadScenario(m1: Message, m2: Message)
    requires m1.id == "m1" && !IsReply(m1) && m1.count == Some(0) && m1.replies.None?
    requires m2.id == "m2" && m2.parentId == Some("m1")
  {
    var view := new ChatView("me", "peer");
    view.OnFetched(MessageStore.Fetched(true, [m1]));
    view.OnMessage(m2);
    view.ToggleThread("m1");
    assert |view.messages| == 1 && RepliesOf(view.messages[0]) == [m2] && CountOf(view.messages[0]) == 1;
    assert "m1" in view.expandedThreads;
  }

  /** The window's own typing events never reach the indicator. */
  method SelfEchoScenario()
  {
    var view := new ChatView("me", "peer");
    view.OnTyping("me", "Me", true);
    assert view.tracker.users == {};
    view.OnTyping("peer", "Peer", true);
    assert view.tracker.users == {"Peer"};
  }
}
