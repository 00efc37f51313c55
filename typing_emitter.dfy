/**
 * The outbound typing signal (hooks/useTyping.ts `handleTyping`, duplicated in
 * components/Chat.tsx): an `isTyping` flag and one re-armable 2000 ms
 * inactivity timer. Timers are modelled as a table of live handles with
 * deadlines on an integer clock; `sent` is the log of `isTyping` values
 * posted to the typing endpoint.
 */
module TypingEmitter {
  import opened Wrappers

  const InactivityMs: int := 2000

  datatype EmitterState = EmitterState(
    isTyping: bool,
    timers: map<nat, int>,   // live timers: handle -> deadline
    handle: Option<nat>,     // typingTimeoutRef.current
    nextHandle: nat,         // the handle the next setTimeout returns
    clock: int,
    sent: seq<bool>)

  /** The state when the component mounts. */
  function Start(): EmitterState {
    EmitterState(false, map[], None, 1, 0, [])
  }

  /** The timer the ref holds has not fired or been cleared yet. */
  predicate Pending(s: EmitterState) {
    s.handle.Some? && s.handle.value in s.timers
  }

  function Deadline(s: EmitterState): int
    requires Pending(s)
  {
    s.timers[s.handle.value]
  }

  /**
   * What every reachable state satisfies: the only live timer is the one the
   * ref holds, it expires within the next 2000 ms, and the flag is set only
   * while that timer is pending.
   */
  predicate Valid(s: EmitterState) {
    && (forall h :: h in s.timers ==> s.handle == Some(h))
    && (forall h :: h in s.timers ==> h < s.nextHandle && s.clock < s.timers[h] <= s.clock + InactivityMs)
    && (s.isTyping ==> Pending(s))
  }

  /** There is at most one live inactivity timer. */
  lemma AtMostOneTimer(s: EmitterState)
    requires Valid(s)
    ensures |s.timers| <= 1
  {
    if Pending(s) {
      assert s.timers.Keys == {s.handle.value};
    } else {
      assert s.timers.Keys == {};
    }
  }

  /**
   * `handleTyping()`: raise the flag and post `true` if it was down, clear
   * the timer the ref holds, arm a fresh 2000 ms one and store its handle.
   */
  function Keystroke(s: EmitterState): (r: EmitterState)
    ensures r.isTyping && r.clock == s.clock
    ensures r.sent == if s.isTyping then s.sent else s.sent + [true]
    ensures Pending(r) && Deadline(r) == s.clock + InactivityMs
    ensures Valid(s) ==> Valid(r) && r.timers.Keys == {r.handle.value}
  {
    var raised := if !s.isTyping then s.(isTyping := true, sent := s.sent + [true]) else s;
    var cleared := if raised.handle.Some? then raised.(timers := raised.timers - {raised.handle.value}) else raised;
    cleared.(timers := cleared.timers[cleared.nextHandle := cleared.clock + InactivityMs],
             handle := Some(cleared.nextHandle),
             nextHandle := cleared.nextHandle + 1)
  }

  /** The inactivity timer fires: lower the flag and post `false`. */
  predicate FiresBy(s: EmitterState, t: int) {
    Pending(s) && Deadline(s) <= t
  }

  /** Time passes up to `t`; a due inactivity timer fires. */
  function Advance(s: EmitterState, t: int): (r: EmitterState)
    requires t >= s.clock
    ensures r.clock == t
    ensures FiresBy(s, t) ==> !r.isTyping && !Pending(r) && r.sent == s.sent + [false]
    ensures !FiresBy(s, t) ==> r == s.(clock := t)
    ensures Valid(s) ==> Valid(r)
  {
    if FiresBy(s, t) then
      s.(isTyping := false, timers := s.timers - {s.handle.value}, clock := t, sent := s.sent + [false])
    else
      s.(clock := t)
  }

  /** components/Chat.tsx after a successful send: lower the flag and post `false`, leaving the timer armed. */
  function Stop(s: EmitterState): (r: EmitterState)
    ensures !r.isTyping && r.sent == s.sent + [false]
    ensures r.timers == s.timers && r.handle == s.handle
    ensures Valid(s) ==> Valid(r)
  {
    s.(isTyping := false, sent := s.sent + [false])
  }

  /** The posted signals alternate `true`, `false`, `true`, ... */
  predicate Alternating(sent: seq<bool>) {
    forall i :: 0 <= i < |sent| ==> sent[i] == (i % 2 == 0)
  }

  /**
   * The hook's invariant (keystrokes and timer expiry only): the flag is up
   * exactly while the timer is pending, and the peer has been sent a
   * well-formed start/stop sequence whose last signal is the flag.
   */
  predicate HookValid(s: EmitterState) {
    && Valid(s)
    && (s.isTyping <==> Pending(s))
    && Alternating(s.sent)
    && (s.isTyping <==> |s.sent| % 2 == 1)
  }

  lemma StartValid()
    ensures HookValid(Start())
  {
  }

  lemma KeystrokeKeepsHookValid(s: EmitterState)
    requires HookValid(s)
    ensures HookValid(Keystroke(s))
  {
  }

  lemma AdvanceKeepsHookValid(s: EmitterState, t: int)
    requires HookValid(s) && t >= s.clock
    ensures HookValid(Advance(s, t))
  {
  }

  /**
   * Chat.tsx breaks alternation: a send leaves the inactivity timer armed, so
   * when it fires a second `false` follows the one the send posted.
   */
  lemma SendLeavesTimerArmed()
    ensures var typed := Keystroke(Start());
      var sentMsg := Stop(typed);
      && Pending(sentMsg)
      && Advance(sentMsg, InactivityMs).sent == [true, false, false]
  {
  }

  /** Keystrokes separated by the given gaps (the first gap is waited before the first keystroke). */
  function Burst(s: EmitterState, gaps: seq<nat>): EmitterState
    decreases |gaps|
  {
    if gaps == [] then s else Burst(Keystroke(Advance(s, s.clock + gaps[0])), gaps[1..])
  }

  /** While typing, keystrokes less than 2000 ms apart post nothing and keep the timer 2000 ms ahead. */
  lemma {:induction false} BurstWhileTyping(s: EmitterState, gaps: seq<nat>)
    requires Valid(s) && s.isTyping && Deadline(s) == s.clock + InactivityMs
    requires forall i :: 0 <= i < |gaps| ==> gaps[i] < InactivityMs
    ensures var r := Burst(s, gaps);
      Valid(r) && r.isTyping && r.sent == s.sent && Deadline(r) == r.clock + InactivityMs
    decreases |gaps|
  {
    if gaps != [] {
      assert !FiresBy(s, s.clock + gaps[0]);
      var waited := Advance(s, s.clock + gaps[0]);
      assert waited == s.(clock := s.clock + gaps[0]);
      var next := Keystroke(waited);
      var rest := gaps[1..];
      forall i | 0 <= i < |rest|
        ensures rest[i] < InactivityMs
      {
        assert rest[i] == gaps[i + 1];
      }
      BurstWhileTyping(next, rest);
      assert Burst(s, gaps) == Burst(next, rest);
    }
  }

  /** From rest, the first keystroke of a burst posts `true` and arms a full timer. */
  lemma FirstKeystroke(s: EmitterState, gap: nat)
    requires HookValid(s) && !s.isTyping
    ensures var first := Keystroke(Advance(s, s.clock + gap));
      Valid(first) && first.isTyping && first.sent == s.sent + [true]
      && Deadline(first) == first.clock + InactivityMs
  {
    assert !FiresBy(s, s.clock + gap);
  }

  /** 2000 ms of silence after a keystroke lets the timer post `false`. */
  lemma SilenceStops(r: EmitterState)
    requires Valid(r) && r.isTyping && Deadline(r) == r.clock + InactivityMs
    ensures Advance(r, r.clock + InactivityMs).sent == r.sent + [false]
    ensures !Advance(r, r.clock + InactivityMs).isTyping
  {
    assert FiresBy(r, r.clock + InactivityMs);
  }

  /**
   * A burst of keystrokes spaced under 2000 ms posts exactly one `true`, and
   * 2000 ms after the last keystroke exactly one `false`.
   */
  lemma BurstPostsOneStartOneStop(s: EmitterState, gaps: seq<nat>)
    requires HookValid(s) && !s.isTyping && |gaps| > 0
    requires forall i :: 1 <= i < |gaps| ==> gaps[i] < InactivityMs
    ensures var r := Burst(s, gaps);
      && r.sent == s.sent + [true]
      && Advance(r, r.clock + InactivityMs).sent == s.sent + [true, false]
      && !Advance(r, r.clock + InactivityMs).isTyping
  {
    FirstKeystroke(s, gaps[0]);
    var first := Keystroke(Advance(s, s.clock + gaps[0]));
    var rest := gaps[1..];
    forall i | 0 <= i < |rest|
      ensures rest[i] < InactivityMs
    {
      assert rest[i] == gaps[i + 1];
    }
    BurstWhileTyping(first, rest);
    assert Burst(s, gaps) == Burst(first, rest);
    SilenceStops(Burst(first, rest));
  }

  /** The state the `Emitter` fields stand for, with the same field names. */
  class Emitter {
    var isTyping: bool
    var timers: map<nat, int>
    var handle: Option<nat>
    var nextHandle: nat
    var clock: int
    var sent: seq<bool>

    function State(): EmitterState
      reads this
    {
      EmitterState(isTyping, timers, handle, nextHandle, clock, sent)
    }

    constructor ()
      ensures State() == Start()
    {
      isTyping, timers, handle, nextHandle, clock, sent := false, map[], None, 1, 0, [];
    }

    /** `handleTyping()`. */
    method HandleTyping()
      modifies this
      ensures State() == Keystroke(old(State()))
    {
      if !isTyping {
        isTyping := true;
        sent := sent + [true];
      }
      if handle.Some? {
        timers := timers - {handle.value};
      }
      timers := timers[nextHandle := clock + InactivityMs];
      handle := Some(nextHandle);
      nextHandle := nextHandle + 1;
    }

    /** The clock reaches `t`; the inactivity callback runs if its timer is due. */
    method AdvanceTo(t: int)
      requires t >= clock
      modifies this
      ensures State() == Advance(old(State()), t)
    {
      if handle.Some? && handle.value in timers && timers[handle.value] <= t {
        timers := timers - {handle.value};
        isTyping := false;
        sent := sent + [false];
      }
      clock := t;
    }

    /** The send path: lower the flag and post `false`, without touching the timer. */
    method StopTyping()
      modifies this
      ensures State() == Stop(old(State()))
    {
      isTyping := false;
      sent := sent + [false];
    }
  }
}
