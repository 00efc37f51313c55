/**
 * The message list of one conversation (hooks/useChatMessages.ts): the fetch
 * result that replaces it and the merge of one realtime `message` event.
 */
module MessageStore {
  import opened Wrappers
  import opened ChatTypes

  /** What the thread fetch produced: a parsed body, or a thrown error. */
  datatype FetchOutcome =
    | Fetched(success: bool, data: seq<Message>)
    | FetchFailed

  /** Replace the list with the fetched one, only when the body says `success`. */
  function AfterFetch(prev: seq<Message>, outcome: FetchOutcome): (r: seq<Message>)
    ensures outcome.Fetched? && outcome.success ==> r == outcome.data
    ensures !(outcome.Fetched? && outcome.success) ==> r == prev
  {
    match outcome
    case Fetched(success, data) => if success then data else prev
    case FetchFailed => prev
  }

  /** The parent with the reply appended to its replies (missing replies read as none) and its reply count raised by one (a missing count reads as 0). */
  function Attach(msg: Message, reply: Message): (r: Message)
    ensures RepliesOf(r) == RepliesOf(msg) + [reply]
    ensures CountOf(r) == CountOf(msg) + 1
    // every other field is copied from the parent
    ensures r.(replies := msg.replies, count := msg.count) == msg
    ensures CountConsistent(msg) ==> CountConsistent(r)
  {
    msg.(replies := Some(RepliesOf(msg) + [reply]), count := Some(CountOf(msg) + 1))
  }

  /** Every message whose id is the parent id gets the reply attached; the others stay as they are. */
  function AttachTo(prev: seq<Message>, parentId: string, reply: Message): (r: seq<Message>)
    ensures |r| == |prev|
    ensures forall i :: 0 <= i < |prev| && prev[i].id == parentId ==> r[i] == Attach(prev[i], reply)
    ensures forall i :: 0 <= i < |prev| && prev[i].id != parentId ==> r[i] == prev[i]
  {
    if prev == [] then []
    else [if prev[0].id == parentId then Attach(prev[0], reply) else prev[0]]
         + AttachTo(prev[1..], parentId, reply)
  }

  /**
   * The `message` handler's updater: a top-level message is appended; a reply
   * is attached to every message whose id is its parent id, and is dropped
   * when there is none.
   */
  function ApplyIncoming(prev: seq<Message>, m: Message): (r: seq<Message>)
    // a top-level message is appended, the old list is a prefix of the new one
    ensures !IsReply(m) ==> |r| == |prev| + 1 && r[..|prev|] == prev && r[|prev|] == m
    // a reply never enters the top-level list: same length, same ids in the same order
    ensures IsReply(m) ==> |r| == |prev| && forall i :: 0 <= i < |prev| ==> r[i].id == prev[i].id
    // each parent gets the reply appended to its replies and its count bumped by one
    ensures IsReply(m) ==> forall i :: 0 <= i < |prev| && prev[i].id == m.parentId.value ==>
      r[i] == Attach(prev[i], m) && RepliesOf(r[i]) == RepliesOf(prev[i]) + [m] && CountOf(r[i]) == CountOf(prev[i]) + 1
    // every other message is untouched
    ensures IsReply(m) ==> forall i :: 0 <= i < |prev| && prev[i].id != m.parentId.value ==> r[i] == prev[i]
    // a reply to an unknown parent changes nothing
    ensures IsReply(m) && (forall i :: 0 <= i < |prev| ==> prev[i].id != m.parentId.value) ==> r == prev
    // count consistency of every pre-existing message is kept
    ensures forall i :: 0 <= i < |prev| && CountConsistent(prev[i]) ==> CountConsistent(r[i])
  {
    if IsReply(m) then AttachTo(prev, m.parentId.value, m) else prev + [m]
  }

  /** The list after a run of realtime events, applied in arrival order. */
  function ApplyAll(prev: seq<Message>, events: seq<Message>): seq<Message>
    decreases |events|
  {
    if events == [] then prev else ApplyAll(ApplyIncoming(prev, events[0]), events[1..])
  }

  /** The events of a run that are replies to `id`, in arrival order. */
  function RepliesTo(events: seq<Message>, id: string): seq<Message> {
    if events == [] then []
    else (if IsReply(events[0]) && events[0].parentId.value == id then [events[0]] else [])
         + RepliesTo(events[1..], id)
  }

  /** The events of a run that are top-level messages, in arrival order. */
  function TopLevel(events: seq<Message>): seq<Message> {
    if events == [] then []
    else (if IsReply(events[0]) then [] else [events[0]]) + TopLevel(events[1..])
  }

  /** The ids of a list, in order. */
  function Ids(list: seq<Message>): seq<string> {
    seq(|list|, i requires 0 <= i < |list| => list[i].id)
  }

  lemma IdsConcat(a: seq<Message>, b: seq<Message>)
    ensures Ids(a + b) == Ids(a) + Ids(b)
  {
  }

  /** One event keeps the ids of the list and appends the event's exactly when it is top-level. */
  lemma OneEventIds(prev: seq<Message>, e: Message)
    ensures Ids(ApplyIncoming(prev, e)) == Ids(prev) + Ids(if IsReply(e) then [] else [e])
  {
    if !IsReply(e) {
      var next := ApplyIncoming(prev, e);
      assert next == prev + [e] by {
        assert next[..|prev|] == prev;
      }
      IdsConcat(prev, [e]);
    }
  }

  /**
   * The list grows by exactly the top-level messages of the run: the old
   * messages keep their places, and the new ones follow in arrival order.
   */
  lemma {:induction false} ApplyAllAppendsTopLevel(prev: seq<Message>, events: seq<Message>)
    ensures Ids(ApplyAll(prev, events)) == Ids(prev) + Ids(TopLevel(events))
    decreases |events|
  {
    if events == [] {
      assert Ids(prev) + Ids([]) == Ids(prev);
    } else {
      var e, rest := events[0], events[1..];
      var next := ApplyIncoming(prev, e);
      var here := if IsReply(e) then [] else [e];
      OneEventIds(prev, e);
      ApplyAllAppendsTopLevel(next, rest);
      assert TopLevel(events) == here + TopLevel(rest);
      IdsConcat(here, TopLevel(rest));
      ConcatAssoc(Ids(prev), Ids(here), Ids(TopLevel(rest)));
    }
  }

  /** What one event does to the message at index `i` of the list. */
  lemma OneEventThread(prev: seq<Message>, e: Message, i: nat)
    requires i < |prev|
    ensures var next := ApplyIncoming(prev, e);
      var here := if IsReply(e) && e.parentId.value == prev[i].id then [e] else [];
      && i < |next| && next[i].id == prev[i].id
      && RepliesOf(next[i]) == RepliesOf(prev[i]) + here
      && CountOf(next[i]) == CountOf(prev[i]) + |here|
  {
    if !IsReply(e) {
      assert RepliesOf(prev[i]) + [] == RepliesOf(prev[i]);
    } else if e.parentId.value != prev[i].id {
      assert RepliesOf(prev[i]) + [] == RepliesOf(prev[i]);
    }
  }

  /**
   * Over any run of events, a message that was in the list has received
   * exactly the replies addressed to it, in arrival order, and its count has
   * grown by their number.
   */
  lemma {:induction false} ApplyAllThread(prev: seq<Message>, events: seq<Message>, i: nat)
    requires i < |prev|
    ensures i < |ApplyAll(prev, events)|
    ensures ApplyAll(prev, events)[i].id == prev[i].id
    ensures RepliesOf(ApplyAll(prev, events)[i]) == RepliesOf(prev[i]) + RepliesTo(events, prev[i].id)
    ensures CountOf(ApplyAll(prev, events)[i]) == CountOf(prev[i]) + |RepliesTo(events, prev[i].id)|
    decreases |events|
  {
    if events == [] {
      assert RepliesOf(prev[i]) + [] == RepliesOf(prev[i]);
    } else {
      var e, rest, id := events[0], events[1..], prev[i].id;
      var next := ApplyIncoming(prev, e);
      assert ApplyAll(prev, events) == ApplyAll(next, rest);
      OneEventThread(prev, e, i);
      ApplyAllThread(next, rest, i);
      var here := if IsReply(e) && e.parentId.value == id then [e] else [];
      var before, later := RepliesOf(prev[i]), RepliesTo(rest, id);
      assert RepliesTo(events, id) == here + later;
      ConcatAssoc(before, here, later);
    }
  }

  lemma ConcatAssoc<T>(a: seq<T>, b: seq<T>, c: seq<T>)
    ensures a + b + c == a + (b + c)
  {
  }

  /** Every message of the list stays count-consistent when it and every top-level arrival start so. */
  lemma {:induction false} ApplyAllKeepsCounts(prev: seq<Message>, events: seq<Message>)
    requires forall i :: 0 <= i < |prev| ==> CountConsistent(prev[i])
    requires forall k :: 0 <= k < |events| && !IsReply(events[k]) ==> CountConsistent(events[k])
    ensures forall i :: 0 <= i < |ApplyAll(prev, events)| ==> CountConsistent(ApplyAll(prev, events)[i])
    decreases |events|
  {
    if events != [] {
      var next := ApplyIncoming(prev, events[0]);
      forall k | 0 <= k < |events[1..]| && !IsReply(events[1..][k])
        ensures CountConsistent(events[1..][k])
      {
        assert events[1..][k] == events[k + 1];
      }
      ApplyAllKeepsCounts(next, events[1..]);
    }
  }

  /** A fetched message receives one reply. */
  lemma FetchThenReply(m1: Message, m2: Message)
    requires m1.id == "m1" && !IsReply(m1) && m1.count == Some(0) && m1.replies.None?
    requires m2.id == "m2" && m2.parentId == Some("m1")
    ensures var list := ApplyIncoming(AfterFetch([], Fetched(true, [m1])), m2);
      |list| == 1 && list[0].id == "m1" && RepliesOf(list[0]) == [m2] && CountOf(list[0]) == 1
  {
  }
}
