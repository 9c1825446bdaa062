/** Paging through the events of a conversation (conversation-events.util.ts):
    one page function, and the walk of a client from the newest page back. */
module EventPaging {
  import opened JsText

  const PAGE_SIZE := 50

  datatype Event = Event(id: string, createdAt: int)

  /** The stored events, in the order of their creation. */
  ghost predicate Ascending(log: seq<Event>) {
    forall i, j | 0 <= i <= j < |log| :: log[i].createdAt <= log[j].createdAt
  }

  /** The `where` clause. */
  function Matching(log: seq<Event>, cursor: Option<int>): seq<Event> {
    if log == [] then [] else
    var before, e := Matching(log[..|log| - 1], cursor), log[|log| - 1];
    if cursor.None? || e.createdAt < cursor.value then before + [e] else before
  }

  function Reversed(es: seq<Event>): (r: seq<Event>)
    ensures |r| == |es| && forall i | 0 <= i < |es| :: r[i] == es[|es| - 1 - i]
  {
    seq(|es|, i requires 0 <= i < |es| => es[|es| - 1 - i])
  }

  datatype Page = Page(events: seq<Event>, hasMoreEvents: bool)

  /** The newest events before the cursor, one more than a page of them fetched. */
  function GetRecentConversationEvents(log: seq<Event>, cursor: Option<int>): Page {
    var sorted := Reversed(Matching(log, cursor));
    var rows := sorted[..Min(|sorted|, PAGE_SIZE + 1)];
    Page(Reversed(rows[..Min(|rows|, PAGE_SIZE)]), |rows| > PAGE_SIZE)
  }

  // ----- what a page is -----

  /** How many events come before the cursor. */
  function Below(log: seq<Event>, cursor: int): (n: nat)
    ensures n <= |log|
  {
    if log == [] then 0
    else if log[|log| - 1].createdAt < cursor then |log|
    else Below(log[..|log| - 1], cursor)
  }

  lemma {:induction false} AllMatch(log: seq<Event>, cursor: Option<int>)
    requires cursor.Some? ==> forall i | 0 <= i < |log| :: log[i].createdAt < cursor.value
    ensures Matching(log, cursor) == log
  {
    if log != [] {
      AllMatch(log[..|log| - 1], cursor);
      assert log[..|log| - 1] + [log[|log| - 1]] == log;
    }
  }

  lemma {:induction false} MatchingIsPrefix(log: seq<Event>, cursor: int)
    requires Ascending(log)
    ensures Matching(log, Some(cursor)) == log[..Below(log, cursor)]
    ensures forall i | 0 <= i < Below(log, cursor) :: log[i].createdAt < cursor
    ensures forall i | Below(log, cursor) <= i < |log| :: log[i].createdAt >= cursor
  {
    if log != [] {
      if log[|log| - 1].createdAt < cursor {
        AllMatch(log, Some(cursor));
        assert log[..|log|] == log;
      } else {
        MatchingIsPrefix(log[..|log| - 1], cursor);
      }
    }
  }

  /** A page is the newest stretch of what matches, in the order of creation. */
  lemma PageIs(log: seq<Event>, cursor: Option<int>)
    ensures var m, p := Matching(log, cursor), GetRecentConversationEvents(log, cursor);
      && p.events == m[Max(0, |m| - 50)..]
      && (p.hasMoreEvents <==> |m| > 50)
  {
    hide Matching, Reversed;
    var m := Matching(log, cursor);
    var rows := Reversed(m)[..Min(|m|, PAGE_SIZE + 1)];
    var n := Min(|rows|, PAGE_SIZE);
    assert rows[..n] == Reversed(m)[..n];
    ReversedFront(m, n);
  }

  /** The newest `n` events, put back in the order of creation. */
  lemma ReversedFront(m: seq<Event>, n: nat)
    requires n <= |m|
    ensures Reversed(Reversed(m)[..n]) == m[|m| - n..]
  {
    var rows := Reversed(m)[..n];
    forall i | 0 <= i < n ensures Reversed(rows)[i] == m[|m| - n + i] {
      assert Reversed(rows)[i] == rows[n - 1 - i];
    }
  }

  /** Events that are added while a client pages back do not disturb older pages. */
  lemma {:induction false} NewerEventsDoNotDisturb(log: seq<Event>, newer: seq<Event>, cursor: int)
    requires forall i | 0 <= i < |newer| :: newer[i].createdAt >= cursor
    ensures GetRecentConversationEvents(log + newer, Some(cursor)) == GetRecentConversationEvents(log, Some(cursor))
  {
    NewerDoNotMatch(log, newer, cursor);
  }

  lemma {:induction false} NewerDoNotMatch(log: seq<Event>, newer: seq<Event>, cursor: int)
    requires forall i | 0 <= i < |newer| :: newer[i].createdAt >= cursor
    ensures Matching(log + newer, Some(cursor)) == Matching(log, Some(cursor))
  {
    if newer == [] {
      assert log + newer == log;
    } else {
      NewerDoNotMatch(log, newer[..|newer| - 1], cursor);
      assert (log + newer)[..|log + newer| - 1] == log + newer[..|newer| - 1];
    }
  }

  // ----- the walk -----

  /** From a page back to the oldest one: while there is more, ask for what is older
      than the oldest event seen. */
  function Walk(log: seq<Event>, cursor: Option<int>): seq<Event>
    requires Ascending(log)
    decreases |Matching(log, cursor)|
  {
    var p := GetRecentConversationEvents(log, cursor);
    PageIs(log, cursor);
    if !p.hasMoreEvents then p.events else
    OlderAreFewer(log, cursor);
    Walk(log, Some(p.events[0].createdAt)) + p.events
  }

  /** What matches at the cursor is a prefix of the log. */
  function Reach(log: seq<Event>, cursor: Option<int>): (n: nat)
    ensures n <= |log|
  {
    if cursor.None? then |log| else Below(log, cursor.value)
  }

  lemma MatchingReach(log: seq<Event>, cursor: Option<int>)
    requires Ascending(log)
    ensures Matching(log, cursor) == log[..Reach(log, cursor)]
  {
    if cursor.None? {
      AllMatch(log, cursor);
      assert log[..|log|] == log;
    } else {
      MatchingIsPrefix(log, cursor.value);
    }
  }

  lemma OlderAreFewer(log: seq<Event>, cursor: Option<int>)
    requires Ascending(log) && |Matching(log, cursor)| > PAGE_SIZE
    ensures var m := Matching(log, cursor);
      |Matching(log, Some(m[|m| - PAGE_SIZE].createdAt))| <= |m| - PAGE_SIZE
    ensures GetRecentConversationEvents(log, cursor).events != []
    ensures var m := Matching(log, cursor);
      GetRecentConversationEvents(log, cursor).events[0] == m[|m| - PAGE_SIZE]
  {
    hide Matching, GetRecentConversationEvents;
    PageIs(log, cursor);
    MatchingReach(log, cursor);
    var first := Reach(log, cursor) - PAGE_SIZE;
    MatchingIsPrefix(log, log[first].createdAt);
  }

  lemma {:induction false} WalkNeverAdds(log: seq<Event>, cursor: Option<int>)
    requires Ascending(log)
    ensures |Walk(log, cursor)| <= Reach(log, cursor)
    decreases Reach(log, cursor)
  {
    hide Matching, GetRecentConversationEvents, Ascending;
    PageIs(log, cursor);
    MatchingReach(log, cursor);
    var n := Reach(log, cursor);
    if n > PAGE_SIZE {
      OlderAreFewer(log, cursor);
      var older := Some(log[n - PAGE_SIZE].createdAt);
      MatchingReach(log, older);
      WalkNeverAdds(log, older);
    }
  }

  /** No two events that stand on both sides of a page boundary were created together;
      boundaries are counted from the newest of the first `n` events. */
  predicate CleanBoundaries(log: seq<Event>, n: nat)
    requires n <= |log|
  {
    n <= PAGE_SIZE
    || (log[n - PAGE_SIZE - 1].createdAt < log[n - PAGE_SIZE].createdAt && CleanBoundaries(log, n - PAGE_SIZE))
  }

  lemma OlderReach(log: seq<Event>, k: nat)
    requires Ascending(log) && 0 < k < |log|
    ensures Below(log, log[k].createdAt) <= k
    ensures Below(log, log[k].createdAt) == k <==> log[k - 1].createdAt < log[k].createdAt
  {
    MatchingIsPrefix(log, log[k].createdAt);
  }

  /** The walk returns every event once, in order, exactly when no page boundary falls
      between two events of the same time. */
  lemma {:induction false} WalkIsComplete(log: seq<Event>, cursor: Option<int>)
    requires Ascending(log)
    ensures Walk(log, cursor) == log[..Reach(log, cursor)] <==> CleanBoundaries(log, Reach(log, cursor))
    decreases Reach(log, cursor)
  {
    hide Matching, GetRecentConversationEvents, Ascending, Below;
    PageIs(log, cursor);
    MatchingReach(log, cursor);
    var n := Reach(log, cursor);
    if n > PAGE_SIZE {
      var k := n - PAGE_SIZE;
      var older := Some(log[k].createdAt);
      OlderAreFewer(log, cursor);
      OlderReach(log, k);
      WalkNeverAdds(log, older);
      WalkIsComplete(log, older);
      assert log[..n] == log[..k] + log[k..n];
      WalkStep(Walk(log, older), log[k..n], log[..k]);
    }
  }

  lemma WalkStep(w: seq<Event>, page: seq<Event>, older: seq<Event>)
    ensures w + page == older + page <==> w == older
  {
    if w + page == older + page {
      assert |w| == |older|;
      assert w == (w + page)[..|w|] && older == (older + page)[..|w|];
    }
  }

  lemma {:induction false} StrictIsClean(log: seq<Event>, n: nat)
    requires n <= |log| && forall i, j | 0 <= i < j < |log| :: log[i].createdAt < log[j].createdAt
    ensures CleanBoundaries(log, n)
  {
    if n > PAGE_SIZE { StrictIsClean(log, n - PAGE_SIZE); }
  }

  /** When no two events share a time, the walk from the newest page is the whole log. */
  lemma DistinctTimesComplete(log: seq<Event>)
    requires forall i, j | 0 <= i < j < |log| :: log[i].createdAt < log[j].createdAt
    ensures Ascending(log) && Walk(log, None) == log
  {
    hide Walk;
    assert Ascending(log);
    StrictIsClean(log, |log|);
    WalkIsComplete(log, None);
    assert log[..|log|] == log;
  }
}
