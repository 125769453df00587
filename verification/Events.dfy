// Event delivery: the bounded pages of internal/store/store.go, the stream of
// internal/httpapi/httpapi.go with its cursor and reconnects, and the dashboard's paging and merging
// in web/src/App.tsx.
module EventDelivery {
  import opened Domain
  import opened Sequences

  datatype Event = Event(number: int, id: nat, run: Option<RunId>, issue: Option<IssueId>, created: string)

  datatype Filter = Everything | OfRun(r: RunId) | OfIssue(i: IssueId)

  const PAGE_SIZE := 200

  predicate Wanted(f: Filter, e: Event) {
    match f
    case Everything => true
    case OfRun(r) => e.run == Some(r)
    case OfIssue(i) => e.issue == Some(i)
  }

  predicate Ascending(es: seq<Event>) {
    forall i, j :: 0 <= i < j < |es| ==> es[i].number < es[j].number
  }

  // run_events: the key is AUTOINCREMENT, so rows are appended with ever greater numbers from 1 on.
  predicate IsTable(table: seq<Event>) {
    Ascending(table) && forall i :: 0 <= i < |table| ==> 0 < table[i].number
  }

  // The rows of the query without its limit.
  function Matching(table: seq<Event>, f: Filter, after: int): seq<Event> {
    if table == [] then []
    else
      var n := |table| - 1;
      Matching(table[..n], f, after) + if Wanted(f, table[n]) && after < table[n].number then [table[n]] else []
  }

  function Take(es: seq<Event>, n: int): seq<Event> {
    if 0 <= n < |es| then es[..n] else es
  }

  // RunEvents and IssueEvents
  function Page(table: seq<Event>, f: Filter, after: int, limit: int): seq<Event> {
    Take(Matching(table, f, after), if limit <= 0 then PAGE_SIZE else limit)
  }

  // ---- Facts about the query.

  lemma {:induction false} MatchingHolds(table: seq<Event>, f: Filter, after: int)
    ensures forall e :: e in Matching(table, f, after) <==> e in table && Wanted(f, e) && after < e.number
  {
    hide Wanted;
    if table != [] {
      var n := |table| - 1;
      MatchingHolds(table[..n], f, after);
      SplitLast(table);
      InLonger(table[..n], table[n]);
      InLonger(Matching(table[..n], f, after), table[n]);
      NothingAdded(Matching(table[..n], f, after));
    }
  }

  lemma AppendAscends(es: seq<Event>, e: Event)
    requires Ascending(es) && forall x :: x in es ==> x.number < e.number
    ensures Ascending(es + [e])
  {
    forall i | 0 <= i < |es| ensures es[i].number < e.number {
      assert es[i] in es;
    }
  }

  lemma LastIsGreatest(es: seq<Event>)
    requires es != [] && Ascending(es)
    ensures Ascending(es[..|es| - 1]) && forall x :: x in es[..|es| - 1] ==> x.number < es[|es| - 1].number
  {
  }

  lemma {:induction false} MatchingAscends(table: seq<Event>, f: Filter, after: int)
    requires Ascending(table)
    ensures Ascending(Matching(table, f, after))
  {
    if table != [] {
      var n := |table| - 1;
      LastIsGreatest(table);
      MatchingLast(table, f, after);
      hide Matching, Wanted, Ascending;
      MatchingAscends(table[..n], f, after);
      MatchingHolds(table[..n], f, after);
      NothingAdded(Matching(table[..n], f, after));
      AppendAscends(Matching(table[..n], f, after), table[n]);
    }
  }

  lemma MatchingLast(table: seq<Event>, f: Filter, after: int)
    requires table != []
    ensures var n := |table| - 1;
      Matching(table, f, after)
        == Matching(table[..n], f, after) + if Wanted(f, table[n]) && after < table[n].number then [table[n]] else []
  {
    hide Wanted;
  }

  // The query's rows are the wanted ones after the cursor, in order.
  lemma MatchingIsExact(table: seq<Event>, f: Filter, after: int)
    requires Ascending(table)
    ensures Ascending(Matching(table, f, after))
    ensures forall e :: e in Matching(table, f, after) <==> e in table && Wanted(f, e) && after < e.number
  {
    hide Matching, Wanted, Ascending;
    MatchingHolds(table, f, after);
    MatchingAscends(table, f, after);
  }

  // A page is the beginning of the wanted rows after the cursor, as long as its limit, or 200 without one,
  // allows; what is wanted are all rows, or those of the run or issue.
  lemma PageIsExact(table: seq<Event>, f: Filter, after: int, limit: int)
    requires Ascending(table)
    ensures var page, all := Page(table, f, after, limit), Matching(table, f, after);
      && page <= all && |page| == Min(|all|, if limit > 0 then limit else 200)
      && forall e :: e in all <==>
           && e in table && after < e.number
           && match f
              case Everything => true
              case OfRun(r) => e.run == Some(r)
              case OfIssue(i) => e.issue == Some(i)
  {
    MatchingIsExact(table, f, after);
    hide Matching, Ascending;
  }

  lemma {:induction false} MatchingGrows(table: seq<Event>, table': seq<Event>, f: Filter, after: int)
    requires table <= table'
    ensures Matching(table, f, after) <= Matching(table', f, after)
  {
    if |table| < |table'| {
      var n := |table'| - 1;
      MatchingGrows(table, table'[..n], f, after);
    } else {
      assert table == table';
    }
  }

  lemma TailIsAfter(es: seq<Event>, k: nat)
    requires Ascending(es) && 0 < k <= |es|
    ensures Ascending(es[k..]) && forall e :: e in es[k..] <==> e in es && es[k - 1].number < e.number
  {
    var rest := es[k..];
    forall e ensures e in rest <==> e in es && es[k - 1].number < e.number {
      if e in es && es[k - 1].number < e.number {
        var j :| 0 <= j < |es| && es[j] == e;
        assert k <= j;
        assert rest[j - k] == e;
      }
      if e in rest {
        var j :| 0 <= j < |rest| && rest[j] == e;
        assert es[k + j] == e;
      }
    }
  }

  // Moving the cursor to an event drops exactly the events up to it.
  lemma CursorMoves(table: seq<Event>, f: Filter, after: int, k: nat)
    requires Ascending(table) && 0 < k <= |Matching(table, f, after)|
    ensures Matching(table, f, Matching(table, f, after)[k - 1].number) == Matching(table, f, after)[k..]
  {
    hide Matching, Wanted, Ascending;
    var all := Matching(table, f, after);
    MatchingIsExact(table, f, after);
    MatchingIsExact(table, f, all[k - 1].number);
    TailIsAfter(all, k);
    assert all[k - 1] in all;
    AscendingListIsUnique(Matching(table, f, all[k - 1].number), all[k..]);
  }

  lemma {:induction false} AscendingListIsUnique(a: seq<Event>, b: seq<Event>)
    requires Ascending(a) && Ascending(b) && forall e :: e in a <==> e in b
    ensures a == b
  {
    if a != [] && b != [] {
      assert a[0] in b && b[0] in a;
      SplitHead(a);
      SplitHead(b);
      assert a[0] == b[0];
      forall e ensures e in a[1..] <==> e in b[1..] {
        assert e in a <==> e == a[0] || e in a[1..];
        assert e in b <==> e == b[0] || e in b[1..];
        assert a[0] !in a[1..] && b[0] !in b[1..];
      }
      AscendingListIsUnique(a[1..], b[1..]);
    } else {
      HasMember(a);
      HasMember(b);
    }
  }

  // ---- The stream.

  // The table as each poll finds it.
  ghost predicate Polls(polls: seq<seq<Event>>) {
    && (forall k :: 0 <= k < |polls| ==> IsTable(polls[k]))
    && forall j, k :: 0 <= j <= k < |polls| ==> polls[j] <= polls[k]
  }

  function Min(a: int, b: int): int {
    if a < b then a else b
  }

  // The number of the last event received, or where the client started.
  function Cursor(received: seq<Event>, start: int): int {
    if received == [] then start else received[|received| - 1].number
  }

  // Where the stream stands: what it has emitted is the beginning of what it is to emit.
  ghost predicate StandsAt(table: seq<Event>, f: Filter, start: int, emitted: seq<Event>, after: int) {
    && emitted <= Matching(table, f, start)
    && after == Cursor(emitted, start)
  }

  lemma StandsAtStart(table: seq<Event>, f: Filter, start: int)
    ensures StandsAt(table, f, start, [], start)
  {
  }

  lemma StandsWhenTableGrows(table: seq<Event>, table': seq<Event>, f: Filter, start: int, emitted: seq<Event>,
      after: int)
    requires table <= table' && StandsAt(table, f, start, emitted, after)
    ensures StandsAt(table', f, start, emitted, after)
  {
    MatchingGrows(table, table', f, start);
  }

  // What is left is what comes after the cursor.
  lemma CursorStands(table: seq<Event>, f: Filter, start: int, emitted: seq<Event>, after: int)
    requires IsTable(table) && StandsAt(table, f, start, emitted, after)
    ensures Matching(table, f, after) == Matching(table, f, start)[|emitted|..]
  {
    hide Matching;
    var all := Matching(table, f, start);
    if emitted == [] {
      assert all[0..] == all;
    } else {
      assert emitted[|emitted| - 1] == all[|emitted| - 1];
      CursorMoves(table, f, start, |emitted|);
    }
  }

  lemma TakingMore(all: seq<Event>, emitted: seq<Event>, page: seq<Event>)
    requires emitted <= all && page == Take(all[|emitted|..], PAGE_SIZE)
    ensures emitted + page <= all && |emitted + page| == Min(|all|, |emitted| + PAGE_SIZE)
  {
    assert emitted == all[..|emitted|];
    assert emitted + page == all[..|emitted| + |page|];
  }

  // The next page continues where the stream stands.
  lemma PageContinues(table: seq<Event>, f: Filter, start: int, emitted: seq<Event>, after: int)
    requires IsTable(table) && StandsAt(table, f, start, emitted, after)
    ensures var emitted' := emitted + Page(table, f, after, PAGE_SIZE);
      && StandsAt(table, f, start, emitted', Cursor(emitted', start))
      && |emitted'| == Min(|Matching(table, f, start)|, |emitted| + PAGE_SIZE)
  {
    CursorStands(table, f, start, emitted, after);
    hide Matching, Take;
    TakingMore(Matching(table, f, start), emitted, Page(table, f, after, PAGE_SIZE));
  }

  // The handler's captured cursor and what it has written to the connection.
  class Stream {
    const f: Filter
    var after: int
    var out: seq<Event>

    // The cursor is the greater of Last-Event-ID and after_seq.
    constructor (f: Filter, lastEventId: int, afterSeq: Option<int>)
      ensures this.f == f && out == []
      ensures after == if afterSeq.Some? && lastEventId < afterSeq.value then afterSeq.value else lastEventId
    {
      this.f := f;
      after := lastEventId;
      out := [];
      if afterSeq.Some? && afterSeq.value > lastEventId {
        after := afterSeq.value;
      }
    }

    // writeEvents
    method WriteEvents(table: seq<Event>)
      modifies this
      ensures out == old(out) + Page(table, f, old(after), PAGE_SIZE)
      ensures after == Cursor(Page(table, f, old(after), PAGE_SIZE), old(after))
    {
      var page := Page(table, f, after, PAGE_SIZE);
      assert page[..0] == [];
      NothingAdded(out);
      for i := 0 to |page|
        invariant out == old(out) + page[..i]
        invariant after == if i == 0 then old(after) else page[i - 1].number
      {
        assert page[..i + 1] == page[..i] + [page[i]];
        Assoc(old(out), page[..i], [page[i]]);
        out := out + [page[i]];
        after := page[i].number;
      }
      assert page[..|page|] == page;
    }
  }

  // After n polls the stream is behind none of them by more than the pages sent since.
  ghost predicate KeepsUp(polls: seq<seq<Event>>, n: nat, f: Filter, start: int, sent: nat)
    requires n <= |polls|
  {
    forall k {:trigger polls[k]} :: 0 <= k < n ==> Min(|Matching(polls[k], f, start)|, PAGE_SIZE * (n - k)) <= sent
  }

  lemma KeepsUpStep(polls: seq<seq<Event>>, n: nat, f: Filter, start: int, sent: nat, sent': nat)
    requires n < |polls| && Polls(polls) && KeepsUp(polls, n, f, start, sent)
    requires sent' == Min(|Matching(polls[n], f, start)|, sent + PAGE_SIZE)
    ensures KeepsUp(polls, n + 1, f, start, sent')
  {
    hide Matching;
    forall k | 0 <= k < n ensures Min(|Matching(polls[k], f, start)|, PAGE_SIZE * (n + 1 - k)) <= sent' {
      MatchingGrows(polls[k], polls[n], f, start);
    }
  }

  // The handler: one page at once and then one per tick, over a table that grows. It emits every
  // wanted event after the cursor once, in order, and falls behind no poll by more than the pages since.
  method Sse(f: Filter, lastEventId: int, afterSeq: Option<int>, polls: seq<seq<Event>>)
      returns (out: seq<Event>, start: int)
    requires polls != [] && Polls(polls)
    ensures start == if afterSeq.Some? && lastEventId < afterSeq.value then afterSeq.value else lastEventId
    ensures out <= Matching(polls[|polls| - 1], f, start)
    ensures KeepsUp(polls, |polls|, f, start, |out|)
  {
    assert forall start, sent: nat :: KeepsUp(polls, 0, f, start, sent);
    hide Matching, Take, KeepsUp, Ascending, Cursor;
    var stream := new Stream(f, lastEventId, afterSeq);
    start := stream.after;
    for n := 0 to |polls|
      invariant stream.f == f && fresh(stream)
      invariant n == 0 ==> stream.out == [] && stream.after == start
      invariant n > 0 ==> StandsAt(polls[n - 1], f, start, stream.out, stream.after)
      invariant KeepsUp(polls, n, f, start, |stream.out|)
    {
      ghost var before := stream.out;
      if n == 0 {
        StandsAtStart(polls[0], f, start);
        assert StandsAt(polls[0], f, start, stream.out, stream.after);
      } else {
        StandsWhenTableGrows(polls[n - 1], polls[n], f, start, stream.out, stream.after);
      }
      PageContinues(polls[n], f, start, stream.out, stream.after);
      NothingAdded(before);
      stream.WriteEvents(polls[n]);
      KeepsUpStep(polls, n, f, start, |before|, |stream.out|);
    }
    return stream.out, start;
  }

  // ---- Reconnects. The client reads what it is sent as far as the connection lasts and comes back
  // with the number of the last event it has.

  datatype Session = Session(table: seq<Event>, received: seq<Event>, connected: bool, cursor: int)

  datatype Move =
    | Append(e: Event)
    | Poll(read: nat)       // the server sends a page; the client reads this much before the line drops, or all
    | Drop
    | Reconnect

  ghost predicate Moves(s: Session, move: Move, s': Session, f: Filter, start: int) {
    match move
    case Append(e) => IsTable(s.table + [e]) && s' == s.(table := s.table + [e])
    case Poll(read) =>
      var page := Page(s.table, f, s.cursor, PAGE_SIZE);
      s.connected && s' == if read < |page| then s.(received := s.received + page[..read], connected := false)
                           else s.(received := s.received + page, cursor := Cursor(page, s.cursor))
    case Drop => s' == s.(connected := false)
    case Reconnect => s' == s.(connected := true, cursor := Cursor(s.received, start))
  }

  ghost predicate MovesAt(ss: seq<Session>, moves: seq<Move>, k: nat, f: Filter, start: int)
    requires k < |moves| < |ss|
  {
    Moves(ss[k], moves[k], ss[k + 1], f, start)
  }

  ghost predicate Connections(ss: seq<Session>, moves: seq<Move>, f: Filter, start: int) {
    && |ss| == |moves| + 1 && IsTable(ss[0].table) && ss[0].received == [] && !ss[0].connected
    && forall k {:trigger MovesAt(ss, moves, k, f, start)} :: 0 <= k < |moves| ==> MovesAt(ss, moves, k, f, start)
  }

  ghost predicate Delivered(s: Session, f: Filter, start: int) {
    && IsTable(s.table) && s.received <= Matching(s.table, f, start)
    && (s.connected ==> s.cursor == Cursor(s.received, start))
  }

  lemma MoveDelivers(s: Session, move: Move, s': Session, f: Filter, start: int)
    requires Delivered(s, f, start) && Moves(s, move, s', f, start)
    ensures Delivered(s', f, start)
  {
    hide Matching;
    match move
    case Append(e) => MatchingGrows(s.table, s'.table, f, start);
    case Poll(read) =>
      PageContinues(s.table, f, start, s.received, s.cursor);
      var page := Page(s.table, f, s.cursor, PAGE_SIZE);
      hide Take;
      assert read < |page| ==> s.received + page[..read] <= s.received + page;
      NothingAdded(s.received);
    case _ =>
  }

  // Over any appends, polls, cuts and reconnects, the client has received a beginning of the list of
  // wanted events after its start: each once, in order, none skipped.
  lemma {:induction false} ReconnectsLoseNothing(ss: seq<Session>, moves: seq<Move>, k: nat, f: Filter, start: int)
    requires Connections(ss, moves, f, start) && k < |ss|
    ensures Delivered(ss[k], f, start)
  {
    hide Moves;
    if k > 0 {
      hide Delivered;
      ReconnectsLoseNothing(ss, moves, k - 1, f, start);
      assert MovesAt(ss, moves, k - 1, f, start);
      MoveDelivers(ss[k - 1], moves[k - 1], ss[k], f, start);
    }
  }

  // A poll that the client reads in full brings it up to date or a whole page further.
  lemma PollCatchesUp(s: Session, read: nat, s': Session, f: Filter, start: int)
    requires Delivered(s, f, start) && Moves(s, Poll(read), s', f, start) && s'.connected
    ensures |s'.received| == Min(|Matching(s.table, f, start)|, |s.received| + 200)
  {
    hide Matching, Take;
    PageContinues(s.table, f, start, s.received, s.cursor);
  }

  // ---- The dashboard.

  // eventMaxSeq
  method EventMaxSeq(events: seq<Event>) returns (max: int)
    ensures 0 <= max && forall e :: e in events ==> e.number <= max
    ensures max == 0 || exists e :: e in events && e.number == max
  {
    max := 0;
    for i := 0 to |events|
      invariant 0 <= max && forall k :: 0 <= k < i ==> events[k].number <= max
      invariant max == 0 || exists k :: 0 <= k < i && events[k].number == max
    {
      if events[i].number > max {
        max := events[i].number;
      }
    }
  }

  // The greatest number of a page from a table is that of its last event.
  lemma PageMax(table: seq<Event>, f: Filter, after: int, max: int)
    requires IsTable(table) && 0 <= after
    requires var page := Page(table, f, after, PAGE_SIZE);
      && 0 <= max && (forall e :: e in page ==> e.number <= max)
          && (max == 0 || exists e :: e in page && e.number == max)
    ensures var page := Page(table, f, after, PAGE_SIZE);
      max == (if page == [] then 0 else page[|page| - 1].number) && (page != [] ==> after < max)
  {
    var page := Page(table, f, after, PAGE_SIZE);
    MatchingIsExact(table, f, after);
    hide Matching;
    forall k | 0 <= k < |page| ensures after < page[k].number <= page[|page| - 1].number {
      assert page[k] in Matching(table, f, after);
    }
    if page != [] {
      assert page[|page| - 1] in page;
      if max != 0 {
        var e :| e in page && e.number == max;
        var k :| 0 <= k < |page| && page[k] == e;
      }
    }
  }

  // Loading is over after its k-th read, which finds this table, if not before.
  ghost predicate IsLastRead(table: seq<Event>, r: RunId, k: nat) {
    |Matching(table, OfRun(r), 0)| < PAGE_SIZE * (k + 1)
  }

  // A page is short, and so the read the last one, exactly when it brings the list up to date.
  lemma LastReadIsComplete(table: seq<Event>, r: RunId, k: nat, before: seq<Event>, after: int)
    requires IsTable(table) && StandsAt(table, OfRun(r), 0, before, after) && |before| == PAGE_SIZE * k
    ensures var loaded := Page(table, OfRun(r), after, PAGE_SIZE);
      && StandsAt(table, OfRun(r), 0, before + loaded, Cursor(before + loaded, 0))
      && (IsLastRead(table, r, k) <==> |loaded| < PAGE_SIZE)
      && (IsLastRead(table, r, k) ==> before + loaded == Matching(table, OfRun(r), 0))
      && (!IsLastRead(table, r, k) ==> |before + loaded| == PAGE_SIZE * (k + 1))
  {
    PageContinues(table, OfRun(r), 0, before, after);
    hide Matching, Take;
  }

  // loadRunEvents, over a table that others may go on appending to for ever, and up to so many reads:
  // it has at any time a beginning of the run's events, and ends at the first read that finds the table
  // less than a page ahead, with all that this read found.
  method LoadRunEvents(r: RunId, tables: nat -> seq<Event>, patience: nat)
    returns (events: seq<Event>, finished: bool)
    requires forall k :: IsTable(tables(k))
    requires forall j, k :: j <= k ==> tables(j) <= tables(k)
    ensures finished <==> exists k: nat :: k < patience && IsLastRead(tables(k), r, k)
    ensures finished ==> exists k: nat :: k < patience && events == Matching(tables(k), OfRun(r), 0)
    ensures finished ==> Matching(tables(0), OfRun(r), 0) <= events
    ensures !finished ==> events <= Matching(tables(patience), OfRun(r), 0) && |events| == 200 * patience
  {
    hide Matching, Page, IsTable, StandsAt, IsLastRead;
    var f := OfRun(r);
    events, finished := [], false;
    var after, n := 0, 0;
    StandsAtStart(tables(0), f, 0);
    while n < patience
      invariant 0 <= after && n <= patience
      invariant StandsAt(tables(n), f, 0, events, after)
      invariant |events| == PAGE_SIZE * n
      invariant forall k :: 0 <= k < n ==> !IsLastRead(tables(k), r, k)
    {
      var table := tables(n);
      LastReadIsComplete(table, r, n, events, after);
      var loaded := Page(table, f, after, PAGE_SIZE);
      var max := EventMaxSeq(loaded);
      PageMax(table, f, after, max);
      NothingAdded(events);
      events := events + loaded;
      var next := if max > after then max else after;
      if |loaded| < PAGE_SIZE || after == next {
        MatchingGrows(tables(0), table, f, 0);
        finished := true;
        return;
      }
      StandsWhenTableGrows(table, tables(n + 1), f, 0, events, next);
      after, n := next, n + 1;
    }
    StandsPrefix(tables(n), f, events, after);
  }

  lemma StandsPrefix(table: seq<Event>, f: Filter, events: seq<Event>, after: int)
    requires StandsAt(table, f, 0, events, after)
    ensures events <= Matching(table, f, 0)
  {
    hide Matching;
  }

  // ---- Merging.

  datatype Key = BySeq(n: int) | ById(id: nat)

  // eventKey
  function KeyOf(e: Event): Key {
    if e.number > 0 then BySeq(e.number) else ById(e.id)
  }

  // The last event of the list that has this key.
  function Latest(es: seq<Event>, k: Key): (o: Option<Event>)
    ensures o.Some? ==> o.value in es && KeyOf(o.value) == k
  {
    if es == [] then None
    else if KeyOf(es[|es| - 1]) == k then Some(es[|es| - 1])
    else Latest(es[..|es| - 1], k)
  }

  // localeCompare(a, b) <= 0 in the browser's locale: a total preorder, in which different strings may
  // be equal.
  type Locale = (string, string) -> bool

  ghost predicate IsLocale(locale: Locale) {
    && (forall a, b :: locale(a, b) || locale(b, a))
    && forall a, b, c :: locale(a, b) && locale(b, c) ==> locale(a, c)
  }

  // The comparison of the sort: by number, then by time.
  predicate NotAfter(locale: Locale, a: Event, b: Event) {
    a.number < b.number || (a.number == b.number && locale(a.created, b.created))
  }

  ghost predicate Sorted(locale: Locale, es: seq<Event>) {
    forall i, j :: 0 <= i < j < |es| ==> NotAfter(locale, es[i], es[j])
  }

  ghost predicate DistinctKeys(es: seq<Event>) {
    forall i, j :: 0 <= i < j < |es| ==> KeyOf(es[i]) != KeyOf(es[j])
  }

  // For every key of `all` its latest event, in order.
  ghost predicate IsMerge(locale: Locale, all: seq<Event>, merged: seq<Event>) {
    && Sorted(locale, merged) && DistinctKeys(merged)
    && forall e :: e in merged <==> Latest(all, KeyOf(e)) == Some(e)
  }

  ghost predicate Merged(locale: Locale, existing: seq<Event>, incoming: seq<Event>, merged: seq<Event>) {
    if incoming == [] then merged == existing else IsMerge(locale, existing + incoming, merged)
  }

  // A stable insertion.
  function Insert(locale: Locale, es: seq<Event>, e: Event): seq<Event> {
    if es == [] || !NotAfter(locale, es[0], e) then [e] + es else [es[0]] + Insert(locale, es[1..], e)
  }

  lemma {:induction false} InsertSorts(locale: Locale, es: seq<Event>, e: Event)
    requires IsLocale(locale) && Sorted(locale, es)
    ensures Sorted(locale, Insert(locale, es, e)) && forall x :: x in Insert(locale, es, e) <==> x in es || x == e
  {
    if es != [] && NotAfter(locale, es[0], e) {
      InsertSorts(locale, es[1..], e);
      SplitHead(es);
      var rest := Insert(locale, es[1..], e);
      forall i | 0 <= i < |rest| ensures NotAfter(locale, es[0], rest[i]) {
        assert rest[i] in rest;
        if rest[i] != e {
          var j :| 0 <= j < |es[1..]| && es[1..][j] == rest[i];
          assert es[j + 1] == rest[i];
        }
      }
    }
  }

  lemma {:induction false} InsertKeepsKeysDistinct(locale: Locale, es: seq<Event>, e: Event)
    requires IsLocale(locale) && Sorted(locale, es) && DistinctKeys(es) && forall x :: x in es ==> KeyOf(x) != KeyOf(e)
    ensures DistinctKeys(Insert(locale, es, e))
  {
    if es != [] && NotAfter(locale, es[0], e) {
      SplitHead(es);
      InsertKeepsKeysDistinct(locale, es[1..], e);
      InsertSorts(locale, es[1..], e);
      var rest := Insert(locale, es[1..], e);
      forall i | 0 <= i < |rest| ensures KeyOf(es[0]) != KeyOf(rest[i]) {
        assert rest[i] in rest;
        if rest[i] != e {
          var j :| 0 <= j < |es[1..]| && es[1..][j] == rest[i];
          assert es[j + 1] == rest[i];
        }
      }
    } else {
      assert forall i :: 0 <= i < |es| ==> es[i] in es;
    }
  }

  // What a JavaScript Map that was filled from a list holds, and the order of its keys.
  ghost predicate Filled(all: seq<Event>, byKey: map<Key, Event>, order: seq<Key>) {
    && (forall k :: k in byKey <==> Latest(all, k).Some?)
    && (forall k :: k in byKey ==> Latest(all, k) == Some(byKey[k]))
    && (forall k :: k in order <==> k in byKey)
    && forall i, j :: 0 <= i < j < |order| ==> order[i] != order[j]
  }

  method Fill(all: seq<Event>) returns (byKey: map<Key, Event>, order: seq<Key>)
    ensures Filled(all, byKey, order)
  {
    byKey, order := map[], [];
    for i := 0 to |all|
      invariant Filled(all[..i], byKey, order)
    {
      assert all[..i + 1][..i] == all[..i];
      var k := KeyOf(all[i]);
      if k !in byKey {
        ghost var before := order;
        order := order + [k];
        assert forall x :: x in order <==> x in before || x == k;
      }
      byKey := byKey[k := all[i]];
    }
    assert all[..|all|] == all;
  }

  // mergeEvents
  method MergeEvents(locale: Locale, existing: seq<Event>, incoming: seq<Event>) returns (merged: seq<Event>)
    requires IsLocale(locale)
    ensures Merged(locale, existing, incoming, merged)
  {
    if incoming == [] {
      return existing;
    }
    var byKey, order := Fill(existing + incoming);
    merged := [];
    for i := 0 to |order|
      invariant Sorted(locale, merged) && DistinctKeys(merged)
      invariant forall e :: e in merged <==> KeyOf(e) in order[..i] && KeyOf(e) in byKey && byKey[KeyOf(e)] == e
    {
      var k := order[i];
      assert k in order;
      assert order[..i + 1] == order[..i] + [k];
      assert k !in order[..i];
      InsertSorts(locale, merged, byKey[k]);
      InsertKeepsKeysDistinct(locale, merged, byKey[k]);
      merged := Insert(locale, merged, byKey[k]);
    }
    assert order[..|order|] == order;
  }

  // ---- Convergence.

  lemma {:induction false} LatestInTable(all: seq<Event>, table: seq<Event>, e: Event)
    requires IsTable(table) && e in table && forall x :: x in all ==> x in table
    ensures Latest(all, KeyOf(e)) == Some(e) <==> e in all
  {
    if all != [] {
      var n := |all| - 1;
      SplitLast(all);
      LatestInTable(all[..n], table, e);
      assert all[n] in table;
      assert KeyOf(all[n]) == KeyOf(e) ==> all[n] == e;
      assert e in all <==> e in all[..n] || e == all[n];
    }
  }

  lemma MergeOfTableRows(locale: Locale, existing: seq<Event>, incoming: seq<Event>, merged: seq<Event>,
      table: seq<Event>)
    requires IsTable(table) && Merged(locale, existing, incoming, merged) && Ascending(existing)
    requires forall e :: e in existing || e in incoming ==> e in table
    ensures Ascending(merged) && forall e :: e in merged <==> e in existing || e in incoming
  {
    if incoming != [] {
      var all := existing + incoming;
      hide Latest;
      forall e ensures e in merged <==> e in all {
        if e in all {
          LatestInTable(all, table, e);
        }
      }
      forall i, j | 0 <= i < j < |merged| ensures merged[i].number < merged[j].number {
        assert merged[i] in merged && merged[j] in merged;
        assert merged[i] in table && merged[j] in table;
        assert NotAfter(locale, merged[i], merged[j]) && KeyOf(merged[i]) != KeyOf(merged[j]);
      }
    }
  }

  // What the dashboard shows after merging pages one by one.
  ghost predicate Shows(locale: Locale, shown: seq<seq<Event>>, pages: seq<seq<Event>>) {
    && |shown| == |pages| + 1 && shown[0] == []
    && forall k {:trigger shown[k + 1]} :: 0 <= k < |pages| ==> Merged(locale, shown[k], pages[k], shown[k + 1])
  }

  predicate InSome(e: Event, pages: seq<seq<Event>>) {
    exists k :: 0 <= k < |pages| && e in pages[k]
  }

  // Pages of one table, in any order, with any overlaps and repeats: what is shown is the ascending
  // list of the distinct events in them.
  lemma {:induction false} MergingConverges(locale: Locale, shown: seq<seq<Event>>, pages: seq<seq<Event>>,
      table: seq<Event>)
    requires IsTable(table) && Shows(locale, shown, pages)
    requires forall e :: InSome(e, pages) ==> e in table
    ensures Ascending(shown[|pages|]) && forall e :: e in shown[|pages|] <==> InSome(e, pages)
    decreases |pages|
  {
    if pages != [] {
      var n := |pages| - 1;
      var before := pages[..n];
      forall e ensures InSome(e, pages) <==> InSome(e, before) || e in pages[n] {
        if InSome(e, pages) {
          var k :| 0 <= k < |pages| && e in pages[k];
          assert k < n ==> before[k] == pages[k];
        }
        if InSome(e, before) {
          var k :| 0 <= k < |before| && e in before[k];
          assert pages[k] == before[k];
        }
      }
      hide InSome;
      MergingConverges(locale, shown[..n + 1], before, table);
      assert Merged(locale, shown[n], pages[n], shown[n + 1]);
      MergeOfTableRows(locale, shown[n], pages[n], shown[n + 1], table);
    }
  }

  // Two dashboards that were sent the same events show the same list, whatever the pages and
  // the locales were.
  lemma DashboardsAgree(locale: Locale, shown: seq<seq<Event>>, pages: seq<seq<Event>>,
                        locale': Locale, shown': seq<seq<Event>>, pages': seq<seq<Event>>, table: seq<Event>)
    requires IsTable(table) && Shows(locale, shown, pages) && Shows(locale', shown', pages')
    requires forall e :: InSome(e, pages) ==> e in table
    requires forall e :: InSome(e, pages) <==> InSome(e, pages')
    ensures shown[|pages|] == shown'[|pages'|]
  {
    MergingConverges(locale, shown, pages, table);
    MergingConverges(locale', shown', pages', table);
    AscendingListIsUnique(shown[|pages|], shown'[|pages'|]);
  }
}
