/**
 * The inbound typing indicator (hooks/useTyping.ts, the `typing` handler):
 * the set of display names shown as typing. Every event schedules its own
 * removal of the name 3000 ms later; earlier removals are never cancelled.
 * `pending` lists those scheduled removals in the order they were armed.
 */
module TypingTracker {

  const ExpiryMs: int := 3000

  datatype Expiry = Expiry(deadline: int, username: string)

  datatype TrackerState = TrackerState(users: set<string>, pending: seq<Expiry>, clock: int)

  /** The state when the component mounts. */
  function Start(): TrackerState {
    TrackerState({}, [], 0)
  }

  /** The event updater: `isTyping` adds the name, otherwise removes it; no other name changes. */
  function SetTyping(users: set<string>, username: string, isTyping: bool): (r: set<string>)
    ensures username in r <==> isTyping
    ensures forall u :: u != username ==> (u in r <==> u in users)
  {
    if isTyping then users + {username} else users - {username}
  }

  /** The expiry updater: remove the name; removing an absent name changes nothing. */
  function Unset(users: set<string>, username: string): (r: set<string>)
    ensures username !in r
    ensures forall u :: u != username ==> (u in r <==> u in users)
    ensures username !in users ==> r == users
  {
    users - {username}
  }

  /** The names that some scheduled removal will delete. */
  function Names(p: seq<Expiry>): set<string> {
    set e | e in p :: e.username
  }

  lemma NamesSnoc(p: seq<Expiry>, i: nat)
    requires i < |p|
    ensures Names(p[..i + 1]) == Names(p[..i]) + {p[i].username}
  {
    assert p[..i + 1] == p[..i] + [p[i]];
  }

  predicate Sorted(p: seq<Expiry>) {
    forall i, j :: 0 <= i < j < |p| ==> p[i].deadline <= p[j].deadline
  }

  /**
   * What every reachable state satisfies: removals are armed in deadline
   * order, none is overdue or more than 3000 ms ahead, and every name shown
   * has a removal scheduled.
   */
  predicate Valid(s: TrackerState) {
    && Sorted(s.pending)
    && (forall i :: 0 <= i < |s.pending| ==> s.clock < s.pending[i].deadline <= s.clock + ExpiryMs)
    && s.users <= Names(s.pending)
  }

  lemma StartValid()
    ensures Valid(Start())
  {
  }

  /** A typing event: apply the updater and schedule the name's removal for 3000 ms from now. */
  function AfterEvent(s: TrackerState, username: string, isTyping: bool): (r: TrackerState)
    ensures username in r.users <==> isTyping
    ensures forall u :: u != username ==> (u in r.users <==> u in s.users)
    ensures r.pending == s.pending + [Expiry(s.clock + ExpiryMs, username)] && r.clock == s.clock
    ensures Valid(s) ==> Valid(r)
  {
    var r := TrackerState(SetTyping(s.users, username, isTyping), s.pending + [Expiry(s.clock + ExpiryMs, username)], s.clock);
    assert Valid(s) ==> r.users <= Names(s.pending) + {username} <= Names(r.pending);
    r
  }

  /** The number of removals at the head of the list that are due by `t`. */
  function DueCount(p: seq<Expiry>, t: int): (k: nat)
    ensures k <= |p|
    ensures forall i :: 0 <= i < k ==> p[i].deadline <= t
    ensures k < |p| ==> p[k].deadline > t
  {
    if p != [] && p[0].deadline <= t then 1 + DueCount(p[1..], t) else 0
  }

  /** Any prefix of due removals followed by one that is not due (or the end) has the length `DueCount` gives. */
  lemma {:induction false} DueCountIs(p: seq<Expiry>, t: int, k: nat)
    requires k <= |p|
    requires forall i :: 0 <= i < k ==> p[i].deadline <= t
    requires k < |p| ==> p[k].deadline > t
    ensures DueCount(p, t) == k
    decreases k
  {
    if k > 0 {
      DueCountIs(p[1..], t, k - 1);
    }
  }

  /** Time passes up to `t`: every due removal runs, in the order it was armed. */
  function Advance(s: TrackerState, t: int): (r: TrackerState)
    requires t >= s.clock
    ensures r.clock == t && r.users <= s.users
    ensures Valid(s) ==> Valid(r)
    ensures Valid(s) ==> forall i :: 0 <= i < |s.pending| && s.pending[i].deadline <= t ==> s.pending[i].username !in r.users
    ensures Valid(s) ==> forall e :: e in r.pending ==> e in s.pending && e.deadline > t
    // a name none of whose removals is due stays shown
    ensures forall u :: u in s.users && (forall i :: 0 <= i < |s.pending| && s.pending[i].username == u ==> s.pending[i].deadline > t) ==> u in r.users
    // the removals still queued are those after the due head, in the same order
    ensures r.pending == s.pending[DueCount(s.pending, t)..]
  {
    var k := DueCount(s.pending, t);
    var r := TrackerState(s.users - Names(s.pending[..k]), s.pending[k..], t);
    UndueKept(s.users, s.pending, t, k);
    if Valid(s) then DroppingDueKeepsValid(s, t, k); r else r
  }

  /** Only names with a due removal leave the set. */
  lemma UndueKept(users: set<string>, p: seq<Expiry>, t: int, k: nat)
    requires k == DueCount(p, t)
    ensures forall u :: u in users && (forall i :: 0 <= i < |p| && p[i].username == u ==> p[i].deadline > t) ==> u in users - Names(p[..k])
  {
    forall u | u in users && (forall i :: 0 <= i < |p| && p[i].username == u ==> p[i].deadline > t)
      ensures u !in Names(p[..k])
    {
      forall e | e in p[..k]
        ensures e.username != u
      {
        var j :| 0 <= j < k && p[..k][j] == e;
        assert p[j] == e;
      }
    }
  }

  /** Dropping the due head of a valid state leaves a valid state. */
  lemma DroppingDueKeepsValid(s: TrackerState, t: int, k: nat)
    requires Valid(s) && t >= s.clock && k == DueCount(s.pending, t)
    ensures var r := TrackerState(s.users - Names(s.pending[..k]), s.pending[k..], t);
      && Valid(r)
      && (forall i :: 0 <= i < |s.pending| && s.pending[i].deadline <= t ==> s.pending[i].username !in r.users)
      && (forall e :: e in r.pending ==> e in s.pending && e.deadline > t)
  {
    DueAreDropped(s.pending, t, k);
    RestNotDue(s.pending, t, k);
    ShownStillScheduled(s.users, s.pending, k);
  }

  lemma DueAreDropped(p: seq<Expiry>, t: int, k: nat)
    requires Sorted(p) && k == DueCount(p, t)
    ensures forall i :: 0 <= i < |p| && p[i].deadline <= t ==> p[i].username in Names(p[..k])
  {
    forall i | 0 <= i < |p| && p[i].deadline <= t
      ensures p[i].username in Names(p[..k])
    {
      assert i < k;
      assert p[i] == p[..k][i];
    }
  }

  lemma RestNotDue(p: seq<Expiry>, t: int, k: nat)
    requires Sorted(p) && k == DueCount(p, t)
    ensures Sorted(p[k..])
    ensures forall i :: 0 <= i < |p[k..]| ==> t < p[k..][i].deadline
    ensures forall e :: e in p[k..] ==> e in p && e.deadline > t
  {
    forall i | 0 <= i < |p[k..]| ensures t < p[k..][i].deadline {
      assert p[k..][i] == p[k + i];
      if i > 0 { assert p[k].deadline <= p[k + i].deadline; }
    }
  }

  lemma ShownStillScheduled(users: set<string>, p: seq<Expiry>, k: nat)
    requires k <= |p| && users <= Names(p)
    ensures users - Names(p[..k]) <= Names(p[k..])
  {
    forall u | u in users - Names(p[..k]) ensures u in Names(p[k..]) {
      var e :| e in p && e.username == u;
      var j :| 0 <= j < |p| && p[j] == e;
      assert j >= k;
      assert p[j] == p[k..][j - k];
    }
  }

  /** With no further events, every name is gone 3000 ms later. */
  lemma ExpireAll(s: TrackerState)
    requires Valid(s)
    ensures Advance(s, s.clock + ExpiryMs).users == {}
  {
    var r := Advance(s, s.clock + ExpiryMs);
    forall u | u in s.users ensures u !in r.users {
      var e :| e in s.pending && e.username == u;
      var j :| 0 <= j < |s.pending| && s.pending[j] == e;
    }
  }

  /** `{isTyping: true, username: u}` followed by 3000 ms of silence leaves `u` absent. */
  lemma TypingThenSilence(s: TrackerState, u: string)
    requires Valid(s)
    ensures u in AfterEvent(s, u, true).users
    ensures Advance(AfterEvent(s, u, true), s.clock + ExpiryMs).users == {}
  {
    ExpireAll(AfterEvent(s, u, true));
  }

  /**
   * A name announced while no removal of it is pending stays shown until its
   * own removal runs 3000 ms later.
   */
  lemma ShownUntilOwnExpiry(s: TrackerState, u: string, t: int)
    requires Valid(s)
    requires forall i :: 0 <= i < |s.pending| ==> s.pending[i].username != u
    requires s.clock <= t < s.clock + ExpiryMs
    ensures u in Advance(AfterEvent(s, u, true), t).users
  {
    var a := AfterEvent(s, u, true);
    forall i | 0 <= i < |a.pending| && a.pending[i].username == u
      ensures a.pending[i].deadline > t
    {
      assert i == |s.pending|;
    }
  }

  /**
   * Earlier removals are not cancelled: a name re-announced 2500 ms after its
   * first event disappears 500 ms later, when the first removal runs.
   */
  lemma EarlierRemovalStillRuns()
    ensures var first := AfterEvent(Start(), "A", true);
      var again := AfterEvent(Advance(first, 2500), "A", true);
      && "A" in again.users
      && "A" !in Advance(again, ExpiryMs).users
      && Advance(again, ExpiryMs).pending == [Expiry(2500 + ExpiryMs, "A")]
  {
    var first := AfterEvent(Start(), "A", true);
    var again := AfterEvent(Advance(first, 2500), "A", true);
    assert again.pending[0] == Expiry(ExpiryMs, "A");
  }

  /** The state the `Tracker` fields stand for. */
  class Tracker {
    var users: set<string>
    var pending: seq<Expiry>
    var clock: int

    function State(): TrackerState
      reads this
    {
      TrackerState(users, pending, clock)
    }

    constructor ()
      ensures State() == Start()
    {
      users, pending, clock := {}, [], 0;
    }

    /** The `typing` event handler: update the set, then schedule the name's removal 3000 ms later. */
    method Receive(username: string, isTyping: bool)
      modifies this
      ensures State() == AfterEvent(old(State()), username, isTyping)
    {
      users := SetTyping(users, username, isTyping);
      pending := pending + [Expiry(clock + ExpiryMs, username)];
    }

    /** The clock reaches `t`; the due removal callbacks run one after another. */
    method AdvanceTo(t: int)
      requires t >= clock
      modifies this
      ensures State() == Advance(old(State()), t)
    {
      ghost var p0, u0 := pending, users;
      ghost var i: nat := 0;
      while pending != [] && pending[0].deadline <= t
        invariant i <= |p0| && pending == p0[i..]
        invariant users == u0 - Names(p0[..i])
        invariant forall j :: 0 <= j < i ==> p0[j].deadline <= t
        decreases |pending|
      {
        NamesSnoc(p0, i);
        users := Unset(users, pending[0].username);
        pending := pending[1..];
        i := i + 1;
      }
      clock := t;
      DueCountIs(p0, t, i);
    }
  }
}
