/** The transactional outbox and its relay (app/worker.py:116-132, app/briefing_store.py:253-274). Jobs
    are written with the transaction that wants them; relays put them in the queue and mark them sent.
    Any number of relays may run at once and each may die at any point. */
module Outbox {
  import opened Wrappers
  import opened BriefingSchema

  const LIMIT: nat := 100

  type Rows = map<nat, OutboxRow>

  ghost function Pending(rows: Rows): set<nat> {
    set i | i in rows && !rows[i].sent
  }

  /** What the query for pending rows may return: the oldest ones, in order, up to the limit. */
  ghost predicate Lists(rows: Rows, ids: seq<nat>) {
    && |ids| == (if |Pending(rows)| < LIMIT then |Pending(rows)| else LIMIT)
    && (forall i, j :: 0 <= i < j < |ids| ==> ids[i] != ids[j])
    && (forall i :: 0 <= i < |ids| ==> ids[i] in Pending(rows))
    && (forall i, j :: 0 <= i < j < |ids| ==> rows[ids[i]].created <= rows[ids[j]].created)
    && (forall i, p :: 0 <= i < |ids| && p in Pending(rows) && p !in ids ==> rows[ids[i]].created <= rows[p].created)
  }

  /** An entry of the job queue remembers the row it came from. */
  datatype Entry = Entry(row: nat, job: Job)

  // ---- Relays and crashes ----

  /** A relay at work: the rows it listed and how many of them it has put in the queue. */
  datatype Relay = Relay(ids: seq<nat>, done: nat)

  datatype World = World(rows: Rows, queue: seq<Entry>, relays: map<nat, Relay>)

  datatype Event =
    | Insert(id: nat, row: OutboxRow)
    | Begin(relay: nat, ids: seq<nat>)
    | Enqueue(relay: nat)
    | Finish(relay: nat)
    | Crash(relay: nat)

  ghost predicate Step(w: World, e: Event, w': World) {
    match e
    case Insert(id, row) =>
      id !in w.rows && !row.sent && w' == w.(rows := w.rows[id := row])
    case Begin(r, ids) =>
      r !in w.relays && Lists(w.rows, ids) && w' == w.(relays := w.relays[r := Relay(ids, 0)])
    case Enqueue(r) =>
      r in w.relays && w.relays[r].done < |w.relays[r].ids| && w.relays[r].ids[w.relays[r].done] in w.rows
      && var id := w.relays[r].ids[w.relays[r].done];
         w' == w.(queue := w.queue + [Entry(id, w.rows[id].job)],
                  relays := w.relays[r := w.relays[r].(done := w.relays[r].done + 1)])
    case Finish(r) =>
      r in w.relays && w.relays[r].done == |w.relays[r].ids|
      && w' == w.(rows := MarkedSent(w.rows, set i | i in w.relays[r].ids), relays := w.relays - {r})
    case Crash(r) =>
      r in w.relays && w' == w.(relays := w.relays - {r})
  }

  ghost predicate Path(trace: seq<World>, events: seq<Event>) {
    && |trace| == |events| + 1
    && forall i :: 0 <= i < |events| ==> Step(trace[i], events[i], trace[i + 1])
  }

  ghost predicate Run(trace: seq<World>, events: seq<Event>) {
    Path(trace, events) && trace[0] == World(map[], [], map[])
  }

  ghost predicate Enqueued(w: World, id: nat) {
    id in w.rows && Entry(id, w.rows[id].job) in w.queue
  }

  /** Sent rows were queued, queued jobs are rows, and relays have queued what they say. */
  ghost predicate Inv(w: World) {
    && (forall i :: i in w.rows && w.rows[i].sent ==> Enqueued(w, i))
    && (forall e :: e in w.queue ==> e.row in w.rows && w.rows[e.row].job == e.job)
    && (forall r :: r in w.relays ==> RelayInv(w, w.relays[r]))
  }

  ghost predicate RelayInv(w: World, r: Relay) {
    && r.done <= |r.ids|
    && (forall i :: 0 <= i < |r.ids| ==> r.ids[i] in w.rows)
    && (forall i :: 0 <= i < r.done ==> Enqueued(w, r.ids[i]))
  }

  ghost predicate Grows(w: World, w': World) {
    && (forall i :: i in w.rows ==>
      i in w'.rows && w'.rows[i].(sent := w.rows[i].sent) == w.rows[i] && (w.rows[i].sent ==> w'.rows[i].sent))
    && w.queue <= w'.queue
  }

  lemma GrowsKeepsEnqueued(w: World, w': World, id: nat)
    requires Grows(w, w') && Enqueued(w, id)
    ensures Enqueued(w', id)
  {
    var k :| 0 <= k < |w.queue| && w.queue[k] == Entry(id, w.rows[id].job);
    assert w'.queue[k] == w.queue[k];
  }

  lemma GrowsKeepsRelay(w: World, w': World, r: Relay)
    requires Grows(w, w') && RelayInv(w, r)
    ensures RelayInv(w', r)
  {
    forall i | 0 <= i < r.done
      ensures Enqueued(w', r.ids[i])
    {
      GrowsKeepsEnqueued(w, w', r.ids[i]);
    }
  }

  lemma StepKeeps(w: World, e: Event, w': World)
    requires Inv(w) && Step(w, e, w')
    ensures Inv(w') && Grows(w, w')
  {
    assert Grows(w, w');
    forall i | i in w.rows && Enqueued(w, i)
      ensures Enqueued(w', i)
    {
      GrowsKeepsEnqueued(w, w', i);
    }
    forall r | r in w.relays
      ensures RelayInv(w', w.relays[r])
    {
      GrowsKeepsRelay(w, w', w.relays[r]);
    }
    if e.Enqueue? {
      var id := w.relays[e.relay].ids[w.relays[e.relay].done];
      assert w'.queue[|w.queue|] == Entry(id, w'.rows[id].job);
    }
  }

  lemma {:induction false} RunKeeps(trace: seq<World>, events: seq<Event>, i: nat)
    requires Run(trace, events) && i < |trace|
    ensures Inv(trace[i])
  {
    if i > 0 {
      RunKeeps(trace, events, i - 1);
      assert Step(trace[i - 1], events[i - 1], trace[i - 1 + 1]);
      StepKeeps(trace[i - 1], events[i - 1], trace[i]);
    }
  }

  lemma {:induction false} RunGrows(trace: seq<World>, events: seq<Event>, i: nat, j: nat)
    requires Run(trace, events) && i <= j < |trace|
    ensures Grows(trace[i], trace[j])
  {
    if i < j {
      RunGrows(trace, events, i, j - 1);
      RunKeeps(trace, events, j - 1);
      assert Step(trace[j - 1], events[j - 1], trace[j - 1 + 1]);
      StepKeeps(trace[j - 1], events[j - 1], trace[j]);
    }
  }

  /** No start is lost and none is made up: whatever is marked sent has been put in the queue, and
      whatever is in the queue is a committed row's job. */
  lemma SentWereEnqueued(trace: seq<World>, events: seq<Event>, i: nat)
    requires Run(trace, events) && i < |trace|
    ensures forall id :: id in trace[i].rows && trace[i].rows[id].sent ==>
      Entry(id, trace[i].rows[id].job) in trace[i].queue
    ensures forall e :: e in trace[i].queue ==> e.row in trace[i].rows && trace[i].rows[e.row].job == e.job
  {
    RunKeeps(trace, events, i);
    assert forall id :: id in trace[i].rows && trace[i].rows[id].sent ==> Enqueued(trace[i], id);
  }

  // ---- Draining without crashes ----

  function Elements(ids: seq<nat>): set<nat> { set i | i in ids }

  /** What listed rows put in the queue. */
  function Entries(rows: Rows, ids: seq<nat>): (entries: seq<Entry>)
    requires forall i :: 0 <= i < |ids| ==> ids[i] in rows
    ensures |entries| == |ids| && forall i :: 0 <= i < |ids| ==> entries[i] == Entry(ids[i], rows[ids[i]].job)
  {
    seq(|ids|, i requires 0 <= i < |ids| => Entry(ids[i], rows[ids[i]].job))
  }

  class Table {
    var rows: Rows
    var queue: seq<Entry>

    constructor ()
      ensures rows == map[] && queue == []
    {
      rows, queue := map[], [];
    }

    /** One relay round: `ids` is what the query for pending rows returned. */
    method Drain(ids: seq<nat>) returns (sent: nat)
      requires Lists(rows, ids)
      modifies this
      ensures sent == |ids|
      ensures queue == old(queue) + Entries(old(rows), ids)
      ensures rows == MarkedSent(old(rows), Elements(ids))
    {
      sent := 0;
      ghost var was := rows;
      for i := 0 to |ids|
        invariant sent == i
        invariant queue == old(queue) + Entries(was, ids[..i])
        invariant rows == MarkedSent(was, Elements(ids[..i]))
      {
        queue := queue + [Entry(ids[i], rows[ids[i]].job)];
        rows := rows[ids[i] := rows[ids[i]].(sent := true)];
        sent := sent + 1;
        assert ids[..i + 1] == ids[..i] + [ids[i]];
      }
      assert ids[..|ids|] == ids;
    }
  }

  /** A drain is one relay's way through the steps above: list, queue each row, finish. */
  lemma DrainIsPath(w: World, r: nat, ids: seq<nat>) returns (trace: seq<World>, events: seq<Event>)
    requires r !in w.relays && Lists(w.rows, ids)
    ensures Path(trace, events) && trace[0] == w
    ensures Last(trace) == World(MarkedSent(w.rows, Elements(ids)), w.queue + Entries(w.rows, ids), w.relays)
  {
    var at := w.(relays := w.relays[r := Relay(ids, 0)]);
    trace, events := [w, at], [Begin(r, ids)];
    assert Entries(w.rows, ids[..0]) == [];
    for i := 0 to |ids|
      invariant Path(trace, events) && trace[0] == w && Last(trace) == at
      invariant at == World(w.rows, w.queue + Entries(w.rows, ids[..i]), w.relays[r := Relay(ids, i)])
    {
      assert ids[i] in Pending(w.rows);
      var next := World(w.rows, at.queue + [Entry(ids[i], w.rows[ids[i]].job)], w.relays[r := Relay(ids, i + 1)]);
      assert w.relays[r := Relay(ids, i)][r := Relay(ids, i + 1)] == w.relays[r := Relay(ids, i + 1)];
      trace, events := PathGrows(trace, events, Enqueue(r), next);
      assert Entries(w.rows, ids[..i + 1]) == Entries(w.rows, ids[..i]) + [Entry(ids[i], w.rows[ids[i]].job)];
      at := next;
    }
    assert ids[..|ids|] == ids;
    var done := World(MarkedSent(w.rows, Elements(ids)), at.queue, w.relays);
    assert at.relays - {r} == w.relays;
    assert (set i | i in ids) == Elements(ids);
    trace, events := PathGrows(trace, events, Finish(r), done);
  }

  lemma PathGrows(trace: seq<World>, events: seq<Event>, e: Event, next: World)
    returns (longer: seq<World>, more: seq<Event>)
    requires Path(trace, events) && Step(Last(trace), e, next)
    ensures longer == trace + [next] && more == events + [e] && Path(longer, more)
  {
    hide Step;
    longer, more := trace + [next], events + [e];
  }

  /** Drains one after another, with no rows arriving. */
  ghost predicate Drains(states: seq<Rows>, lists: seq<seq<nat>>) {
    && |states| == |lists| + 1
    && forall k :: 0 <= k < |lists| ==>
      Lists(states[k], lists[k]) && states[k + 1] == MarkedSent(states[k], Elements(lists[k]))
  }

  function Flat(lists: seq<seq<nat>>): seq<nat> {
    if lists == [] then [] else Flat(lists[..|lists| - 1]) + Last(lists)
  }

  lemma {:induction false} CountOf(ids: seq<nat>)
    requires forall i, j :: 0 <= i < j < |ids| ==> ids[i] != ids[j]
    ensures |Elements(ids)| == |ids|
  {
    if ids != [] {
      var init := ids[..|ids| - 1];
      CountOf(init);
      assert Elements(ids) == Elements(init) + {Last(ids)};
      assert Last(ids) !in Elements(init);
    } else {
      assert Elements(ids) == {};
    }
  }

  lemma PendingAfter(rows: Rows, ids: seq<nat>)
    requires Lists(rows, ids)
    ensures Pending(MarkedSent(rows, Elements(ids))) == Pending(rows) - Elements(ids)
    ensures |Pending(MarkedSent(rows, Elements(ids)))| == |Pending(rows)| - |ids|
  {
    CountOf(ids);
    assert Elements(ids) <= Pending(rows);
  }

  /** `taken` are the oldest of the rows pending in `rows`, oldest first, each once. */
  ghost predicate OldestFirst(rows: Rows, taken: seq<nat>) {
    && (forall i :: 0 <= i < |taken| ==> taken[i] in Pending(rows))
    && (forall i, j :: 0 <= i < j < |taken| ==>
      taken[i] != taken[j] && rows[taken[i]].created <= rows[taken[j]].created)
    && (forall i, p :: 0 <= i < |taken| && p in Pending(rows) && p !in taken ==>
      rows[taken[i]].created <= rows[p].created)
  }

  lemma MarkTwice(rows: Rows, s: set<nat>, t: set<nat>)
    ensures MarkedSent(MarkedSent(rows, s), t) == MarkedSent(rows, s + t)
    ensures Pending(MarkedSent(rows, s)) == Pending(rows) - s
  {
  }

  lemma TakeMore(rows: Rows, taken: seq<nat>, ids: seq<nat>)
    requires OldestFirst(rows, taken) && Lists(MarkedSent(rows, Elements(taken)), ids)
    ensures OldestFirst(rows, taken + ids)
  {
    var rest, all := MarkedSent(rows, Elements(taken)), taken + ids;
    MarkTwice(rows, Elements(taken), {});
    assert forall p :: p in Pending(rest) <==> p in Pending(rows) && p !in taken;
    assert forall p :: p in rows ==> rest[p].created == rows[p].created;
    forall i | 0 <= i < |all|
      ensures all[i] in Pending(rows)
    {
      if i >= |taken| {
        assert ids[i - |taken|] in Pending(rest);
      }
    }
    forall i, j | 0 <= i < j < |all|
      ensures all[i] != all[j] && rows[all[i]].created <= rows[all[j]].created
    {
      if j >= |taken| {
        assert ids[j - |taken|] in Pending(rest);
      }
    }
    forall i, p | 0 <= i < |all| && p in Pending(rows) && p !in all
      ensures rows[all[i]].created <= rows[p].created
    {
      assert p !in taken && p !in ids;
      if i >= |taken| {
        assert rest[ids[i - |taken|]].created <= rest[p].created;
      }
    }
  }

  lemma OneMoreDrain(rows: Rows, taken: seq<nat>, ids: seq<nat>)
    requires OldestFirst(rows, taken) && Lists(MarkedSent(rows, Elements(taken)), ids)
    ensures OldestFirst(rows, taken + ids)
    ensures MarkedSent(MarkedSent(rows, Elements(taken)), Elements(ids)) == MarkedSent(rows, Elements(taken + ids))
    ensures |Pending(MarkedSent(rows, Elements(taken + ids)))| == |Pending(MarkedSent(rows, Elements(taken)))| - |ids|
  {
    hide OldestFirst, Lists, MarkedSent, Pending;
    TakeMore(rows, taken, ids);
    PendingAfter(MarkedSent(rows, Elements(taken)), ids);
    MarkTwice(rows, Elements(taken), Elements(ids));
    assert Elements(taken + ids) == Elements(taken) + Elements(ids);
  }

  lemma DrainsPrefix(states: seq<Rows>, lists: seq<seq<nat>>)
    requires Drains(states, lists) && lists != []
    ensures
      var k := |lists| - 1;
      |states| == k + 2 && Drains(states[..k + 1], lists[..k]) && Lists(states[k], lists[k])
      && states[k + 1] == MarkedSent(states[k], Elements(lists[k]))
      && |lists[k]| == if |Pending(states[k])| < LIMIT then |Pending(states[k])| else LIMIT
  {
    var k := |lists| - 1;
    assert Lists(states[k], lists[k]);
    hide MarkedSent;
    forall i | 0 <= i < k
      ensures Lists(states[..k + 1][i], lists[..k][i])
        && states[..k + 1][i + 1] == MarkedSent(states[..k + 1][i], Elements(lists[..k][i]))
    {
      assert Lists(states[i], lists[i]);
    }
  }

  /** After k drains the oldest 100k rows have been queued, oldest first and each once, and the others
      are pending; so n rows need exactly as many drains as 100 goes into n, rounded up. */
  lemma {:induction false} DrainsInOrder(states: seq<Rows>, lists: seq<seq<nat>>)
    requires Drains(states, lists)
    ensures |states| == |lists| + 1
    ensures OldestFirst(states[0], Flat(lists)) && Last(states) == MarkedSent(states[0], Elements(Flat(lists)))
    ensures |Flat(lists)| == if |Pending(states[0])| < 100 * |lists| then |Pending(states[0])| else 100 * |lists|
    ensures |Pending(Last(states))| == |Pending(states[0])| - |Flat(lists)|
    ensures Pending(Last(states)) == {} <==> |Pending(states[0])| <= 100 * |lists|
  {
    if lists == [] {
      assert MarkedSent(states[0], {}) == states[0] && Elements([]) == {};
    } else {
      DrainsPrefix(states, lists);
      hide Drains, Lists, OldestFirst, MarkedSent;
      var k := |lists| - 1;
      DrainsInOrder(states[..k + 1], lists[..k]);
      assert Last(states[..k + 1]) == states[k];
      OneMoreDrain(states[0], Flat(lists[..k]), lists[k]);
    }
  }

  /** The query always has an answer. */
  lemma {:induction false} ListingExists(rows: Rows, n: nat) returns (ids: seq<nat>)
    requires n <= |Pending(rows)|
    ensures OldestFirst(rows, ids) && |ids| == n
    ensures n == (if |Pending(rows)| < LIMIT then |Pending(rows)| else LIMIT) ==> Lists(rows, ids)
  {
    ids := [];
    for i := 0 to n
      invariant OldestFirst(rows, ids) && |ids| == i
    {
      CountOf(ids);
      assert Elements(ids) <= Pending(rows);
      var left := Pending(rows) - Elements(ids);
      assert |left| == |Pending(rows)| - i;
      var p := Oldest(rows, left);
      ids := ids + [p];
    }
  }

  lemma {:induction false} Oldest(rows: Rows, s: set<nat>) returns (p: nat)
    requires s != {} && s <= Pending(rows)
    ensures p in s && forall q :: q in s ==> rows[p].created <= rows[q].created
    decreases |s|
  {
    p :| p in s;
    if s != {p} {
      var q := Oldest(rows, s - {p});
      if rows[q].created < rows[p].created {
        p := q;
      }
    }
  }
}
