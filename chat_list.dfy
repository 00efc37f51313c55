/**
 * The conversation list's pure logic (components/ChatList.tsx): array
 * normalisation of untyped API bodies, the list shown for the current
 * query, the blank-query short-circuit and the active thread id.
 */
module ChatList {
  import opened Wrappers
  import opened JsText

  /** An untyped JavaScript value as returned by the API (numbers are kept as integers). */
  datatype Json =
    | JUndefined
    | JNull
    | JBool(b: bool)
    | JNumber(n: int)
    | JString(s: string)
    | JArray(items: seq<Json>)
    | JObject(fields: map<string, Json>)

  /** `value.key`, or `value?.key`: `undefined` unless `value` is an object with that field. */
  function Property(value: Json, key: string): (r: Json)
    ensures r != JUndefined ==> value.JObject? && key in value.fields && r == value.fields[key]
    ensures value.JObject? && key in value.fields ==> r == value.fields[key]
  {
    if value.JObject? && key in value.fields then value.fields[key] else JUndefined
  }

  /** `normalizeToArray(data)`. */
  function NormalizeToArray(data: Json): (r: seq<Json>)
    ensures data.JArray? ==> r == data.items
    ensures !data.JArray? && Property(data, "data").JArray? ==> r == Property(data, "data").items
    ensures !data.JArray? && !Property(data, "data").JArray? ==> r == []
  {
    if data.JArray? then data.items
    else if Property(data, "data").JArray? then Property(data, "data").items
    else []
  }

  /** Normalising an already normalised array returns the same array. */
  lemma NormalizeIdempotent(data: Json)
    ensures NormalizeToArray(JArray(NormalizeToArray(data))) == NormalizeToArray(data)
  {
  }

  /** `displayedList`: search hits when the query is not blank, the conversations otherwise. */
  function DisplayedList(query: string, conversations: Json, searchResults: Json): (r: seq<Json>)
    ensures IsBlank(query) ==> r == NormalizeToArray(conversations)
    ensures !IsBlank(query) ==> r == NormalizeToArray(Property(searchResults, "users"))
  {
    TrimEmptyIffBlank(query);
    if Trim(query) != "" then NormalizeToArray(Property(searchResults, "users"))
    else NormalizeToArray(conversations)
  }

  /** What the query effect does: clear the hits, or arm the 400 ms search timer. */
  datatype SearchEffect = ClearResults | ScheduleSearch(delayMs: int, username: string)

  /** The query effect's guard: a blank query clears the results and schedules nothing. */
  function QueryEffect(query: string): (r: SearchEffect)
    ensures r == ClearResults <==> IsBlank(query)
    ensures r.ScheduleSearch? ==> r.delayMs == 400 && r.username == query
  {
    TrimEmptyIffBlank(query);
    if Trim(query) == "" then ClearResults else ScheduleSearch(400, query)
  }

  const ThreadsSegment: string := "/threads/"

  /** The second piece of the path split at "/threads/", if there is one. */
  function ActiveId(pathname: string): (r: Option<string>)
    ensures r.None? <==> forall k :: 0 <= k <= |pathname| ==> !OccursAt(pathname, ThreadsSegment, k)
  {
    SecondPiece(pathname, ThreadsSegment)
  }

  /**
   * `v` is the piece of `s` that starts right after the first occurrence of
   * `sep` (at `i`) and ends at the next occurrence or at the end of `s`.
   */
  predicate PieceAfterFirst(s: string, sep: string, i: nat, v: string) {
    var start := i + |sep|;
    && OccursAt(s, sep, i)
    && (forall k :: 0 <= k < i ==> !OccursAt(s, sep, k))
    && start + |v| <= |s| && s[start..start + |v|] == v
    && (forall k :: start <= k < start + |v| ==> !OccursAt(s, sep, k))
    && (start + |v| == |s| || OccursAt(s, sep, start + |v|))
  }

  /** The active id is the text between the first `/threads/` and the next one, or the end of the path. */
  lemma ActiveIdShape(pathname: string)
    requires ActiveId(pathname).Some?
    ensures exists i :: PieceAfterFirst(pathname, ThreadsSegment, i, ActiveId(pathname).value)
  {
    var i := IndexOf(pathname, ThreadsSegment, 0).value;
    assert PieceAfterFirst(pathname, ThreadsSegment, i, ActiveId(pathname).value);
  }

  /** The links of the list point at `/threads/<id>`; such a path yields `<id>` back. */
  lemma ActiveIdOfThreadLink(id: string)
    requires forall k :: 0 <= k <= |id| ==> !OccursAt(id, ThreadsSegment, k)
    ensures ActiveId(ThreadsSegment + id) == Some(id)
  {
    var path := ThreadsSegment + id;
    assert OccursAt(path, ThreadsSegment, 0);
    forall k | |ThreadsSegment| <= k <= |path|
      ensures !OccursAt(path, ThreadsSegment, k)
    {
      if OccursAt(path, ThreadsSegment, k) {
        assert path[k..k + |ThreadsSegment|] == id[k - |ThreadsSegment|..k - |ThreadsSegment| + |ThreadsSegment|];
        assert OccursAt(id, ThreadsSegment, k - |ThreadsSegment|);
      }
    }
    assert path[|ThreadsSegment|..] == id;
  }
}
