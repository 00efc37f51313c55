/** The set of message ids whose reply thread is expanded (hooks/useThreadToggle.ts). */
module ThreadToggle {

  /** The expanded set when the view is created. */
  function Initial(): (r: set<string>)
    ensures forall id :: id !in r
  {
    {}
  }

  /** The `toggleThread(messageId)` updater: flip the membership of `id`, keep every other id as it was. */
  function Toggle(expanded: set<string>, id: string): (r: set<string>)
    ensures id in r <==> id !in expanded
    ensures forall x :: x != id ==> (x in r <==> x in expanded)
  {
    if id in expanded then expanded - {id} else expanded + {id}
  }

  /** Toggling the same id twice gives back the original set. */
  lemma ToggleTwice(expanded: set<string>, id: string)
    ensures Toggle(Toggle(expanded, id), id) == expanded
  {
  }

  /** The set after a run of toggles, in order. */
  function ToggleAll(expanded: set<string>, ids: seq<string>): set<string>
    decreases |ids|
  {
    if ids == [] then expanded else ToggleAll(Toggle(expanded, ids[0]), ids[1..])
  }

  /** After any run of toggles, an id has flipped exactly when it was toggled an odd number of times. */
  lemma {:induction false} ToggleAllParity(expanded: set<string>, ids: seq<string>, x: string)
    ensures x in ToggleAll(expanded, ids) <==> (x in expanded) != (multiset(ids)[x] % 2 == 1)
    decreases |ids|
  {
    if ids != [] {
      ToggleAllParity(Toggle(expanded, ids[0]), ids[1..], x);
      assert ids == [ids[0]] + ids[1..];
      assert multiset(ids) == multiset{ids[0]} + multiset(ids[1..]);
    }
  }

  /** An id that was never toggled is not expanded; one toggled once is. */
  lemma ExpandedFromStart(ids: seq<string>, x: string)
    ensures x !in ids ==> x !in ToggleAll(Initial(), ids)
    ensures multiset(ids)[x] == 1 ==> x in ToggleAll(Initial(), ids)
  {
    ToggleAllParity(Initial(), ids, x);
  }
}
