/** The code-graph index: loading `graph.json` into an undirected adjacency map, name
    resolution, and breadth-first search for a route between two nodes
    (app/clients/graph.py). */
module CodeGraph {
  import opened Wrappers

  type NodeId = string

  datatype Node = Node(name: string, summary: string)

  // One parsed JSON object each. A missing or falsy field is the empty string, which is how
  // the loader's `or` chains treat it.
  datatype NodeRecord = NodeRecord(
    id: string, name: string, tag: string, title: string,
    summary: string, description: string, body: string)
  datatype EdgeRecord = EdgeRecord(
    source: string, src: string, origin: string,
    target: string, dst: string, destination: string)
  datatype GraphFile = GraphFile(nodes: seq<NodeRecord>, edges: seq<EdgeRecord>, links: seq<EdgeRecord>)

  /** Python's `x or y or ...` over strings. */
  function FirstGiven(options: seq<string>): string {
    if options == [] then "" else if options[0] != "" then options[0] else FirstGiven(options[1..])
  }

  // What the loader takes from a record: its id, its lower-cased name, and the stored node.
  datatype Entry = Entry(id: NodeId, key: string, node: Node)
  datatype Ends = Ends(source: NodeId, target: NodeId)

  function EntryOf(r: NodeRecord): Entry {
    var id := FirstGiven([r.id, r.name, r.tag]);
    var name := FirstGiven([r.name, r.tag, r.title, id]);
    Entry(id, Lower(name), Node(name, FirstGiven([r.summary, r.description, r.body])))
  }

  function EndsOf(e: EdgeRecord): Ends {
    Ends(FirstGiven([e.source, e.src, e.origin]), FirstGiven([e.target, e.dst, e.destination]))
  }

  function Entries(file: Option<GraphFile>): seq<Entry> {
    if file.None? then []
    else seq(|file.value.nodes|, i requires 0 <= i < |file.value.nodes| => EntryOf(file.value.nodes[i]))
  }

  function EdgeEnds(file: Option<GraphFile>): seq<Ends> {
    if file.None? then [] else
      var edges := if file.value.edges != [] then file.value.edges else file.value.links;
      seq(|edges|, i requires 0 <= i < |edges| => EndsOf(edges[i]))
  }

  // ---- What the loaded index means, in terms of the file ----

  /** A node exists when some record has that non-empty id. */
  ghost predicate IdsMatch(entries: seq<Entry>, nodes: map<NodeId, Node>) {
    forall id :: id in nodes <==> id != "" && Declared(entries, id)
  }

  ghost predicate Declared(entries: seq<Entry>, id: NodeId) {
    exists i :: 0 <= i < |entries| && entries[i].id == id
  }

  /** Entry `i` is the last one that declares its id; later entries overwrite earlier ones. */
  ghost predicate IsLast(entries: seq<Entry>, i: nat) {
    i < |entries| && forall j :: i < j < |entries| ==> entries[j].id != entries[i].id
  }

  ghost predicate DataMatch(entries: seq<Entry>, nodes: map<NodeId, Node>) {
    forall i: nat :: IsLast(entries, i) && entries[i].id in nodes ==> nodes[entries[i].id] == entries[i].node
  }

  /** Entry `i` is the first usable one with this lower-cased name. */
  ghost predicate FirstNamed(entries: seq<Entry>, key: string, i: nat) {
    && i < |entries| && entries[i].id != "" && entries[i].key == key
    && forall j :: 0 <= j < i ==> entries[j].id == "" || entries[j].key != key
  }

  ghost predicate NamesMatch(entries: seq<Entry>, names: map<string, NodeId>) {
    && (forall key, i: nat :: FirstNamed(entries, key, i) ==> key in names && names[key] == entries[i].id)
    && (forall key :: key in names ==> exists i: nat :: FirstNamed(entries, key, i))
  }

  /** Some edge joins `u` and `v`, in either direction. */
  ghost predicate Linked(edges: seq<Ends>, u: NodeId, v: NodeId) {
    exists i :: 0 <= i < |edges| && Joins(edges[i], u, v)
  }

  predicate Joins(e: Ends, u: NodeId, v: NodeId) {
    e == Ends(u, v) || e == Ends(v, u)
  }

  ghost predicate AdjacencyMatches(edges: seq<Ends>, ids: set<NodeId>, adj: map<NodeId, set<NodeId>>) {
    && adj.Keys == ids
    && forall u, v :: u in adj ==> (v in adj[u] <==> v in ids && Linked(edges, u, v))
  }

  // ---- Walks ----

  ghost predicate Closed(adj: map<NodeId, set<NodeId>>) {
    forall u :: u in adj ==> adj[u] <= adj.Keys
  }

  ghost predicate IsWalk(adj: map<NodeId, set<NodeId>>, w: seq<NodeId>, a: NodeId, b: NodeId) {
    && |w| > 0 && w[0] == a && Last(w) == b
    && forall i :: 0 <= i < |w| - 1 ==> w[i] in adj && w[i + 1] in adj[w[i]]
  }

  ghost predicate Reachable(adj: map<NodeId, set<NodeId>>, a: NodeId, b: NodeId) {
    exists w :: IsWalk(adj, w, a, b)
  }

  ghost predicate Shortest(adj: map<NodeId, set<NodeId>>, w: seq<NodeId>, a: NodeId, b: NodeId) {
    IsWalk(adj, w, a, b) && forall other :: IsWalk(adj, other, a, b) ==> |w| <= |other|
  }

  // ---- Invariants of the search ----

  /** `prev` is a tree rooted at `a` whose edges are graph edges; `depth` counts its levels. */
  ghost predicate ParentTree(adj: map<NodeId, set<NodeId>>, a: NodeId, prev: map<NodeId, NodeId>,
                             depth: map<NodeId, nat>)
  {
    && prev.Keys == depth.Keys <= adj.Keys
    && a in prev && prev[a] == a && depth[a] == 0
    && forall v {:trigger prev[v]} :: v in prev && v != a ==>
      prev[v] in prev && v in adj[prev[v]] && depth[v] == depth[prev[v]] + 1
  }

  /** Every node of `done` has all its neighbours discovered, at most one level deeper. */
  ghost predicate Expanded(adj: map<NodeId, set<NodeId>>, done: set<NodeId>, depth: map<NodeId, nat>) {
    forall u, v {:trigger u in done, v in adj[u]} :: u in done && u in adj && v in adj[u] ==>
      u in depth && v in depth && depth[v] <= depth[u] + 1
  }

  /** The queue holds discovered nodes, nearest first, all within one level of `level`. */
  ghost predicate LevelOrder(queue: seq<NodeId>, depth: map<NodeId, nat>, level: nat) {
    && (forall i :: 0 <= i < |queue| ==> queue[i] in depth && level <= depth[queue[i]] <= level + 1)
    && (forall i, j :: 0 <= i < j < |queue| ==> depth[queue[i]] <= depth[queue[j]])
    && (forall v :: v in depth ==> depth[v] <= level + 1)
  }

  /** A walk that starts at the root meets, at position k, a node at depth at most k, as long
      as every node shallower than `level` has been expanded. */
  lemma {:induction false} WalkDepth(adj: map<NodeId, set<NodeId>>, w: seq<NodeId>, a: NodeId, b: NodeId,
                                     done: set<NodeId>, depth: map<NodeId, nat>, level: nat, k: nat)
    requires IsWalk(adj, w, a, b) && a in depth && depth[a] == 0
    requires Expanded(adj, done, depth)
    requires forall v :: v in depth && depth[v] < level ==> v in done
    requires k < |w| && k <= level
    ensures w[k] in depth && depth[w[k]] <= k
  {
    if k > 0 {
      WalkDepth(adj, w, a, b, done, depth, level, k - 1);
      assert w[k - 1] in adj && w[k] in adj[w[k - 1]];
    }
  }

  /** When everything discovered has been expanded, every walk stays inside it. */
  lemma {:induction false} WalkStaysInside(adj: map<NodeId, set<NodeId>>, w: seq<NodeId>, a: NodeId, b: NodeId,
                                           depth: map<NodeId, nat>, k: nat)
    requires IsWalk(adj, w, a, b) && a in depth
    requires Expanded(adj, depth.Keys, depth)
    requires k < |w|
    ensures w[k] in depth
  {
    if k > 0 {
      WalkStaysInside(adj, w, a, b, depth, k - 1);
      assert w[k - 1] in adj && w[k] in adj[w[k - 1]];
    }
  }

  /** Reversal of the parent chain. */
  function Reversed<T>(s: seq<T>): (r: seq<T>)
    ensures |r| == |s|
    ensures forall i :: 0 <= i < |s| ==> r[i] == s[|s| - 1 - i]
  {
    if s == [] then [] else Reversed(s[1..]) + [s[0]]
  }

  /** Follows parents from `b` back to `a`; the chain ends because depth strictly falls. */
  method ParentChain(adj: map<NodeId, set<NodeId>>, a: NodeId, b: NodeId, prev: map<NodeId, NodeId>,
                     ghost depth: map<NodeId, nat>)
    returns (walk: seq<NodeId>)
    requires ParentTree(adj, a, prev, depth) && b in prev
    ensures IsWalk(adj, walk, a, b) && |walk| == depth[b] + 1
  {
    var chain := [b];
    while Last(chain) != a
      invariant |chain| > 0 && chain[0] == b
      invariant forall i :: 0 <= i < |chain| ==> chain[i] in prev
      invariant |chain| + depth[Last(chain)] == depth[b] + 1
      invariant forall i, j :: 0 <= i < |chain| - 1 && j == i + 1 ==> chain[j] in adj && chain[i] in adj[chain[j]]
      decreases depth[Last(chain)]
    {
      chain := chain + [prev[Last(chain)]];
    }
    walk := Reversed(chain);
    forall i | 0 <= i < |walk| - 1
      ensures walk[i] in adj && walk[i + 1] in adj[walk[i]]
    {
      var j := |chain| - 2 - i;
      assert walk[i] == chain[j + 1] && walk[i + 1] == chain[j];
    }
  }

  /** The state of the search between two dequeues: `queue` is what is discovered but not in
      `done`, without repetition. */
  ghost predicate Frontier(adj: map<NodeId, set<NodeId>>, a: NodeId, prev: map<NodeId, NodeId>, depth: map<NodeId, nat>,
                           done: set<NodeId>, queue: seq<NodeId>, level: nat)
  {
    && ParentTree(adj, a, prev, depth) && Expanded(adj, done, depth) && LevelOrder(queue, depth, level)
    && (forall v :: v in prev <==> v in done || v in queue)
    && (forall i :: 0 <= i < |queue| ==> queue[i] !in done)
    && (forall i, j :: 0 <= i < j < |queue| ==> queue[i] != queue[j])
  }

  /** The state while the neighbours of `cur` are scanned; `scanned` are those already seen. */
  ghost predicate Scanning(adj: map<NodeId, set<NodeId>>, a: NodeId, prev: map<NodeId, NodeId>, depth: map<NodeId, nat>,
                           done: set<NodeId>, queue: seq<NodeId>, cur: NodeId, scanned: set<NodeId>)
  {
    && ParentTree(adj, a, prev, depth) && Expanded(adj, done, depth)
    && cur in prev && LevelOrder(queue, depth, depth[cur])
    && scanned <= prev.Keys
    && (forall v :: v in prev <==> v in done || v in queue || v == cur)
    && cur !in done && cur !in queue
    && (forall i :: 0 <= i < |queue| ==> queue[i] !in done)
    && (forall i, j :: 0 <= i < j < |queue| ==> queue[i] != queue[j])
  }

  lemma DequeueKeepsOrder(queue: seq<NodeId>, depth: map<NodeId, nat>, level: nat)
    requires LevelOrder(queue, depth, level) && queue != []
    ensures LevelOrder(queue[1..], depth, depth[queue[0]])
  {
  }

  lemma DequeueStartsScan(adj: map<NodeId, set<NodeId>>, a: NodeId, prev: map<NodeId, NodeId>, depth: map<NodeId, nat>,
                          done: set<NodeId>, queue: seq<NodeId>, level: nat)
    requires Frontier(adj, a, prev, depth, done, queue, level) && queue != []
    ensures Scanning(adj, a, prev, depth, done, queue[1..], queue[0], {})
  {
    var cur, rest := queue[0], queue[1..];
    assert queue == [cur] + rest;
    assert forall i :: 0 <= i < |rest| ==> rest[i] == queue[i + 1];
    DequeueKeepsOrder(queue, depth, level);
  }

  lemma DiscoverKeepsScan(adj: map<NodeId, set<NodeId>>, a: NodeId, prev: map<NodeId, NodeId>, depth: map<NodeId, nat>,
                          done: set<NodeId>, queue: seq<NodeId>, cur: NodeId, scanned: set<NodeId>, nxt: NodeId)
    requires Scanning(adj, a, prev, depth, done, queue, cur, scanned)
    requires cur in adj && nxt in adj[cur] && nxt in adj && nxt !in prev
    ensures Scanning(adj, a, prev[nxt := cur], depth[nxt := depth[cur] + 1], done, queue + [nxt], cur, scanned + {nxt})
  {
  }

  lemma ScanDoneIsFrontier(adj: map<NodeId, set<NodeId>>, a: NodeId, prev: map<NodeId, NodeId>, depth: map<NodeId, nat>,
                           done: set<NodeId>, queue: seq<NodeId>, cur: NodeId)
    requires cur in adj && Scanning(adj, a, prev, depth, done, queue, cur, adj[cur])
    ensures Frontier(adj, a, prev, depth, done + {cur}, queue, depth[cur])
  {
  }

  /** A node first seen while `cur` is scanned is not reachable by fewer steps. */
  lemma FirstSightIsShortest(adj: map<NodeId, set<NodeId>>, a: NodeId, prev: map<NodeId, NodeId>,
                             depth: map<NodeId, nat>,
                             done: set<NodeId>, queue: seq<NodeId>, cur: NodeId, scanned: set<NodeId>,
                             b: NodeId, w: seq<NodeId>)
    requires Scanning(adj, a, prev, depth, done, queue, cur, scanned) && b !in prev
    requires IsWalk(adj, w, a, b)
    ensures depth[cur] + 2 <= |w|
  {
    if |w| < depth[cur] + 2 {
      WalkDepth(adj, w, a, b, done, depth, depth[cur], |w| - 1);
    }
  }

  /** Breadth-first search with exit on discovery: an empty answer means there is no walk, any
      other answer is a walk of least length. */
  method Search(adj: map<NodeId, set<NodeId>>, a: NodeId, b: NodeId) returns (walk: seq<NodeId>)
    requires Closed(adj) && a in adj && b in adj && a != b
    ensures walk == [] <==> !Reachable(adj, a, b)
    ensures walk != [] ==> Shortest(adj, walk, a, b)
  {
    var prev, queue := map[a := a], [a];
    ghost var depth: map<NodeId, nat>, done, level := map[a := 0], {}, 0;
    while queue != []
      invariant Frontier(adj, a, prev, depth, done, queue, level) && b !in prev
      decreases adj.Keys - done
    {
      var cur := queue[0];
      DequeueStartsScan(adj, a, prev, depth, done, queue, level);
      queue := queue[1..];
      var todo := adj[cur];
      while todo != {}
        invariant todo <= adj[cur]
        invariant Scanning(adj, a, prev, depth, done, queue, cur, adj[cur] - todo) && b !in prev
        decreases todo
      {
        var nxt :| nxt in todo;
        ghost var scanned := adj[cur] - todo;
        todo := todo - {nxt};
        assert adj[cur] - todo == scanned + {nxt};
        if nxt !in prev {
          DiscoverKeepsScan(adj, a, prev, depth, done, queue, cur, scanned, nxt);
          ghost var before, seen := prev, depth;
          prev, depth := prev[nxt := cur], depth[nxt := depth[cur] + 1];
          if nxt == b {
            walk := ParentChain(adj, a, b, prev, depth);
            forall w | IsWalk(adj, w, a, b)
              ensures |walk| <= |w|
            {
              FirstSightIsShortest(adj, a, before, seen, done, queue, cur, scanned, b, w);
            }
            return;
          }
          queue := queue + [nxt];
        }
      }
      ScanDoneIsFrontier(adj, a, prev, depth, done, queue, cur);
      level := depth[cur];
      done := done + {cur};
    }
    assert done == depth.Keys;
    forall w | IsWalk(adj, w, a, b)
      ensures false
    {
      WalkStaysInside(adj, w, a, b, depth, |w| - 1);
    }
    walk := [];
  }

  /** Maps node ids to display names. */
  function NamesOf(nodes: map<NodeId, Node>, walk: seq<NodeId>): (names: seq<string>)
    requires forall i :: 0 <= i < |walk| ==> walk[i] in nodes
    ensures |names| == |walk|
    ensures forall i :: 0 <= i < |walk| ==> names[i] == nodes[walk[i]].name
  {
    seq(|walk|, i requires 0 <= i < |walk| => nodes[walk[i]].name)
  }

  lemma WalkInside(adj: map<NodeId, set<NodeId>>, w: seq<NodeId>, a: NodeId, b: NodeId)
    requires Closed(adj) && a in adj && IsWalk(adj, w, a, b)
    ensures forall i :: 0 <= i < |w| ==> w[i] in adj
  {
    forall i | 0 <= i < |w|
      ensures w[i] in adj
    {
      if i > 0 {
        assert w[i - 1] in adj && w[i] in adj[w[i - 1]];
      }
    }
  }

  // ---- Loading, one record at a time ----

  lemma NextEntryIds(entries: seq<Entry>, k: nat, nodes: map<NodeId, Node>)
    requires k < |entries| && IdsMatch(entries[..k], nodes)
    ensures IdsMatch(entries[..k + 1], if entries[k].id == "" then nodes else nodes[entries[k].id := entries[k].node])
  {
    var pre, post := entries[..k], entries[..k + 1];
    assert post == pre + [entries[k]];
    forall id
      ensures Declared(post, id) <==> Declared(pre, id) || entries[k].id == id
    {
      if i :| 0 <= i < |pre| && pre[i].id == id {
        assert post[i].id == id;
      }
      assert post[k] == entries[k];
    }
  }

  lemma NextEntryData(entries: seq<Entry>, k: nat, nodes: map<NodeId, Node>)
    requires k < |entries| && DataMatch(entries[..k], nodes) && "" !in nodes
    ensures DataMatch(entries[..k + 1], if entries[k].id == "" then nodes else nodes[entries[k].id := entries[k].node])
  {
    var pre, post := entries[..k], entries[..k + 1];
    assert post == pre + [entries[k]];
    forall i: nat | IsLast(post, i) && i < k
      ensures IsLast(pre, i) && post[i].id != entries[k].id
    {
      assert post[k].id != post[i].id;
      forall j | i < j < |pre|
        ensures pre[j].id != pre[i].id
      {
        assert post[j].id != post[i].id;
      }
    }
  }

  lemma NextEntryNames(entries: seq<Entry>, k: nat, names: map<string, NodeId>)
    requires k < |entries| && NamesMatch(entries[..k], names)
    ensures NamesMatch(entries[..k + 1],
                       if entries[k].id == "" || entries[k].key in names then names
                       else names[entries[k].key := entries[k].id])
  {
    var pre, post, e := entries[..k], entries[..k + 1], entries[k];
    assert post == pre + [e];
    forall key, i: nat | i < k
      ensures FirstNamed(post, key, i) <==> FirstNamed(pre, key, i)
    {
    }
    if e.id != "" && e.key !in names {
      NoNameSoFar(pre, e.key, k);
      assert FirstNamed(post, e.key, k);
    }
    forall key | key in names
      ensures !FirstNamed(post, key, k) && exists i: nat :: FirstNamed(post, key, i)
    {
      var i0: nat :| FirstNamed(pre, key, i0);
      assert FirstNamed(post, key, i0);
      assert post[i0].id != "" && post[i0].key == key;
    }
  }

  /** If no entry is the first with this name, no entry has it. */
  lemma {:induction false} NoNameSoFar(entries: seq<Entry>, key: string, n: nat)
    requires n <= |entries| && !exists i: nat :: FirstNamed(entries, key, i)
    ensures forall j :: 0 <= j < n ==> entries[j].id == "" || entries[j].key != key
  {
    if n > 0 {
      NoNameSoFar(entries, key, n - 1);
      assert !FirstNamed(entries, key, n - 1);
    }
  }

  datatype Index = Index(nodes: map<NodeId, Node>, adj: map<NodeId, set<NodeId>>, names: map<string, NodeId>)

  /** The node part of the index after these entries, in order. */
  function IndexOf(entries: seq<Entry>): Index {
    if entries == [] then Index(map[], map[], map[])
    else
      var ix, e := IndexOf(entries[..|entries| - 1]), Last(entries);
      if e.id == "" then ix
      else Index(ix.nodes[e.id := e.node],
                 if e.id in ix.adj then ix.adj else ix.adj[e.id := {}],
                 if e.key in ix.names then ix.names else ix.names[e.key := e.id])
  }

  ghost predicate Bare(ix: Index) {
    ix.adj.Keys == ix.nodes.Keys && forall u :: u in ix.adj ==> ix.adj[u] == {}
  }

  lemma {:induction false} IndexMeans(entries: seq<Entry>)
    ensures IdsMatch(entries, IndexOf(entries).nodes)
    ensures DataMatch(entries, IndexOf(entries).nodes)
    ensures NamesMatch(entries, IndexOf(entries).names)
    ensures Bare(IndexOf(entries))
  {
    if entries != [] {
      var k := |entries| - 1;
      IndexMeans(entries[..k]);
      assert entries == entries[..k + 1];
      NextEntryIds(entries, k, IndexOf(entries[..k]).nodes);
      NextEntryData(entries, k, IndexOf(entries[..k]).nodes);
      NextEntryNames(entries, k, IndexOf(entries[..k]).names);
    }
  }

  lemma NextEdge(edges: seq<Ends>, k: nat, ids: set<NodeId>, adj: map<NodeId, set<NodeId>>,
                 adj': map<NodeId, set<NodeId>>)
    requires k < |edges| && AdjacencyMatches(edges[..k], ids, adj) && adj'.Keys == ids
    requires forall u, v :: u in ids ==>
      (v in adj'[u] <==> (v in adj[u] || (Joins(edges[k], u, v) && v in ids)))
    ensures AdjacencyMatches(edges[..k + 1], ids, adj')
  {
    var pre, post := edges[..k], edges[..k + 1];
    forall u, v
      ensures Linked(post, u, v) <==> Linked(pre, u, v) || Joins(edges[k], u, v)
    {
      if i :| 0 <= i < |pre| && Joins(pre[i], u, v) {
        assert Joins(post[i], u, v);
      }
      assert post[k] == edges[k];
    }
  }

  // ---- What the index says of the records of the file ----

  /** `x` is the first of these that is not empty, or empty if all are. */
  ghost predicate IsFirst(options: seq<string>, x: string) {
    if forall i :: 0 <= i < |options| ==> options[i] == "" then x == ""
    else exists i :: 0 <= i < |options| && x == options[i] != "" && forall j :: 0 <= j < i ==> options[j] == ""
  }

  lemma {:induction false} FirstGivenIs(options: seq<string>, x: string)
    ensures IsFirst(options, x) <==> x == FirstGiven(options)
  {
    if options != [] {
      var rest := options[1..];
      FirstGivenIs(rest, x);
      assert forall i :: 1 <= i < |options| ==> options[i] == rest[i - 1];
      assert forall i :: 0 <= i < |rest| ==> rest[i] == options[i + 1];
      if options[0] == "" {
        if i :| 0 <= i < |rest| && x == rest[i] != "" && forall j :: 0 <= j < i ==> rest[j] == "" {
          assert x == options[i + 1] && forall j :: 0 <= j < i + 1 ==> options[j] == "";
        }
        if i :| 0 <= i < |options| && x == options[i] != "" && forall j :: 0 <= j < i ==> options[j] == "" {
          assert x == rest[i - 1] && forall j :: 0 <= j < i - 1 ==> rest[j] == options[j + 1];
        }
      }
    }
  }

  ghost predicate HasId(r: NodeRecord, id: NodeId) { IsFirst([r.id, r.name, r.tag], id) }

  ghost predicate HasName(r: NodeRecord, name: string) {
    exists id :: HasId(r, id) && IsFirst([r.name, r.tag, r.title, id], name)
  }

  ghost predicate HasSummary(r: NodeRecord, text: string) { IsFirst([r.summary, r.description, r.body], text) }

  /** The record has an id, and this name in some case. */
  ghost predicate HasKey(r: NodeRecord, key: string) {
    !HasId(r, "") && exists name :: HasName(r, name) && Lower(name) == key
  }

  ghost predicate Connects(e: EdgeRecord, u: NodeId, v: NodeId) {
    IsFirst([e.source, e.src, e.origin], u) && IsFirst([e.target, e.dst, e.destination], v)
  }

  ghost predicate IsNode(file: GraphFile, id: NodeId) {
    id != "" && exists i :: 0 <= i < |file.nodes| && HasId(file.nodes[i], id)
  }

  /** Record `i` is the last with this id. */
  ghost predicate LastWith(file: GraphFile, id: NodeId, i: nat) {
    && i < |file.nodes| && HasId(file.nodes[i], id)
    && forall j :: i < j < |file.nodes| ==> !HasId(file.nodes[j], id)
  }

  /** Record `i` is the first with this name in some case. */
  ghost predicate FirstWith(file: GraphFile, key: string, i: nat) {
    && i < |file.nodes| && HasKey(file.nodes[i], key)
    && forall j :: 0 <= j < i ==> !HasKey(file.nodes[j], key)
  }

  ghost predicate JoinedBy(records: seq<EdgeRecord>, u: NodeId, v: NodeId) {
    exists i :: 0 <= i < |records| && (Connects(records[i], u, v) || Connects(records[i], v, u))
  }

  /** Some record under `edges` joins the two, or under `links` if there is none under `edges`. */
  ghost predicate AreJoined(file: GraphFile, u: NodeId, v: NodeId) {
    if file.edges == [] then JoinedBy(file.links, u, v) else JoinedBy(file.edges, u, v)
  }

  /** The index says what the records say: which nodes there are, their names and summaries, which name leads to which
      node, and which nodes some edge joins. */
  ghost predicate Says(file: GraphFile, nodes: map<NodeId, Node>, adj: map<NodeId, set<NodeId>>,
                       names: map<string, NodeId>)
  {
    && (forall id :: id in nodes <==> IsNode(file, id))
    && (forall id, i: nat :: id in nodes && LastWith(file, id, i) ==>
      HasName(file.nodes[i], nodes[id].name) && HasSummary(file.nodes[i], nodes[id].summary))
    && (forall key :: key in names <==> exists i :: 0 <= i < |file.nodes| && HasKey(file.nodes[i], key))
    && (forall key, i: nat :: FirstWith(file, key, i) ==> key in names && HasId(file.nodes[i], names[key]))
    && adj.Keys == nodes.Keys
    && (forall u, v :: u in nodes ==> (v in adj[u] <==> v in nodes && AreJoined(file, u, v)))
  }

  lemma EntryIs(r: NodeRecord)
    ensures forall id :: HasId(r, id) <==> id == EntryOf(r).id
    ensures forall name :: HasName(r, name) <==> name == EntryOf(r).node.name
    ensures forall text :: HasSummary(r, text) <==> text == EntryOf(r).node.summary
    ensures forall key :: HasKey(r, key) <==> EntryOf(r).id != "" && key == EntryOf(r).key
  {
    hide IsFirst, FirstGiven, Lower;
    forall id
      ensures HasId(r, id) <==> id == EntryOf(r).id
    {
      FirstGivenIs([r.id, r.name, r.tag], id);
    }
    forall name
      ensures HasName(r, name) <==> name == EntryOf(r).node.name
    {
      FirstGivenIs([r.name, r.tag, r.title, EntryOf(r).id], name);
    }
    forall text
      ensures HasSummary(r, text) <==> text == EntryOf(r).node.summary
    {
      FirstGivenIs([r.summary, r.description, r.body], text);
    }
  }

  lemma EndsAre(e: EdgeRecord, u: NodeId, v: NodeId)
    ensures Connects(e, u, v) <==> EndsOf(e) == Ends(u, v)
  {
    hide IsFirst, FirstGiven;
    FirstGivenIs([e.source, e.src, e.origin], u);
    FirstGivenIs([e.target, e.dst, e.destination], v);
  }

  lemma NodesSay(file: GraphFile, nodes: map<NodeId, Node>)
    requires IdsMatch(Entries(Some(file)), nodes) && DataMatch(Entries(Some(file)), nodes)
    ensures forall id :: id in nodes <==> IsNode(file, id)
    ensures forall id, i: nat :: id in nodes && LastWith(file, id, i) ==>
      HasName(file.nodes[i], nodes[id].name) && HasSummary(file.nodes[i], nodes[id].summary)
  {
    hide EntryOf, HasId, HasName, HasSummary;
    var entries := Entries(Some(file));
    forall i | 0 <= i < |entries|
      ensures forall id :: HasId(file.nodes[i], id) <==> id == entries[i].id
      ensures HasName(file.nodes[i], entries[i].node.name) && HasSummary(file.nodes[i], entries[i].node.summary)
    {
      EntryIs(file.nodes[i]);
    }
    forall id, i: nat | id in nodes && LastWith(file, id, i)
      ensures IsLast(entries, i) && entries[i].id == id
    {
    }
  }

  lemma NamesSay(file: GraphFile, names: map<string, NodeId>)
    requires NamesMatch(Entries(Some(file)), names)
    ensures forall key :: key in names <==> exists i :: 0 <= i < |file.nodes| && HasKey(file.nodes[i], key)
    ensures forall key, i: nat :: FirstWith(file, key, i) ==> key in names && HasId(file.nodes[i], names[key])
  {
    hide EntryOf, HasId, HasKey;
    var entries := Entries(Some(file));
    forall i | 0 <= i < |entries|
      ensures forall key :: HasKey(file.nodes[i], key) <==> entries[i].id != "" && entries[i].key == key
      ensures HasId(file.nodes[i], entries[i].id)
    {
      EntryIs(file.nodes[i]);
    }
    forall key, i: nat | FirstWith(file, key, i)
      ensures FirstNamed(entries, key, i)
    {
    }
    forall key
      ensures key in names <==> exists i :: 0 <= i < |file.nodes| && HasKey(file.nodes[i], key)
    {
      if key in names {
        var i: nat :| FirstNamed(entries, key, i);
        assert HasKey(file.nodes[i], key);
      } else if i :| 0 <= i < |file.nodes| && HasKey(file.nodes[i], key) {
        NoNameSoFar(entries, key, |entries|);
      }
    }
  }

  lemma EdgesSay(file: GraphFile, u: NodeId, v: NodeId)
    ensures Linked(EdgeEnds(Some(file)), u, v) <==> AreJoined(file, u, v)
  {
    hide EndsOf, Connects;
    var ends, records := EdgeEnds(Some(file)), if file.edges == [] then file.links else file.edges;
    assert |ends| == |records|;
    forall i | 0 <= i < |ends|
      ensures Joins(ends[i], u, v) <==> Connects(records[i], u, v) || Connects(records[i], v, u)
    {
      EndsAre(records[i], u, v);
      EndsAre(records[i], v, u);
    }
  }

  /** A loaded index says what the file says. */
  lemma IndexSays(file: GraphFile, nodes: map<NodeId, Node>, adj: map<NodeId, set<NodeId>>, names: map<string, NodeId>)
    requires IdsMatch(Entries(Some(file)), nodes) && DataMatch(Entries(Some(file)), nodes)
    requires NamesMatch(Entries(Some(file)), names) && AdjacencyMatches(EdgeEnds(Some(file)), nodes.Keys, adj)
    ensures Says(file, nodes, adj, names)
  {
    NodesSay(file, nodes);
    NamesSay(file, names);
    hide IsNode, LastWith, FirstWith, HasName, HasSummary, HasKey, HasId, AreJoined, Linked;
    forall u, v
      ensures Linked(EdgeEnds(Some(file)), u, v) <==> AreJoined(file, u, v)
    {
      EdgesSay(file, u, v);
    }
  }

  /** The node a text names: the one with that id, or else the first with that name in some case. */
  ghost predicate Means(file: GraphFile, text: string, id: NodeId) {
    if IsNode(file, text) then id == text
    else exists i: nat :: FirstWith(file, Lower(text), i) && HasId(file.nodes[i], id)
  }

  /** An id is itself; otherwise the first node with that name, ignoring case. */
  function Resolve(nodes: map<NodeId, Node>, names: map<string, NodeId>, nameOrId: string): Option<NodeId> {
    if nameOrId in nodes then Some(nameOrId)
    else if Lower(nameOrId) in names then Some(names[Lower(nameOrId)])
    else None
  }

  lemma {:induction false} FirstWithExists(file: GraphFile, key: string, n: nat) returns (i: nat)
    requires n < |file.nodes| && HasKey(file.nodes[n], key)
    ensures FirstWith(file, key, i)
    decreases n
  {
    if j: nat :| j < n && HasKey(file.nodes[j], key) {
      i := FirstWithExists(file, key, j);
    } else {
      i := n;
    }
  }

  lemma ResolveMeans(file: GraphFile, nodes: map<NodeId, Node>, adj: map<NodeId, set<NodeId>>,
                     names: map<string, NodeId>, text: string)
    requires Says(file, nodes, adj, names)
    ensures forall id :: Resolve(nodes, names, text) == Some(id) <==> Means(file, text, id)
  {
    hide HasKey, HasId, HasName, HasSummary, IsNode, AreJoined, LastWith;
    var key := Lower(text);
    if text !in nodes && key in names {
      var n :| 0 <= n < |file.nodes| && HasKey(file.nodes[n], key);
      var i := FirstWithExists(file, key, n);
      EntryIs(file.nodes[i]);
      forall id, j: nat | FirstWith(file, key, j) && HasId(file.nodes[j], id)
        ensures j == i && id == names[key]
      {
        assert HasKey(file.nodes[j], key) && HasKey(file.nodes[i], key);
      }
    }
  }

  // ---- The index object ----

  class GraphifyGraph {
    const file: Option<GraphFile>  // None: no such file, or not JSON
    var loaded: bool
    var nodes: map<NodeId, Node>
    var adj: map<NodeId, set<NodeId>>
    var nameToId: map<string, NodeId>

    /** Once loaded, the three maps say exactly what the file says. */
    ghost predicate Valid()
      reads this
    {
      if loaded then
        && IdsMatch(Entries(file), nodes) && DataMatch(Entries(file), nodes)
        && NamesMatch(Entries(file), nameToId)
        && AdjacencyMatches(EdgeEnds(file), nodes.Keys, adj)
      else
        nodes == map[] && adj == map[] && nameToId == map[]
    }

    constructor (file: Option<GraphFile>)
      ensures Valid() && !loaded && this.file == file
    {
      this.file := file;
      loaded, nodes, adj, nameToId := false, map[], map[], map[];
    }

    method EnsureLoaded()
      requires Valid()
      modifies this
      ensures Valid() && loaded
      ensures file.Some? ==> Says(file.value, nodes, adj, nameToId)
      ensures file.None? ==> nodes == map[] && adj == map[] && nameToId == map[]
      ensures old(loaded) ==> nodes == old(nodes) && adj == old(adj) && nameToId == old(nameToId)
    {
      if !loaded {
        loaded := true;
        LoadNodes(Entries(file));
        IndexMeans(Entries(file));
        LoadEdges(EdgeEnds(file));
      }
      if file.Some? {
        IndexSays(file.value, nodes, adj, nameToId);
      } else {
        NothingSaid(nodes, adj, nameToId);
      }
    }

    method LoadNodes(entries: seq<Entry>)
      requires nodes == map[] && adj == map[] && nameToId == map[]
      modifies `nodes, `adj, `nameToId
      ensures Index(nodes, adj, nameToId) == IndexOf(entries)
    {
      for k := 0 to |entries|
        invariant Index(nodes, adj, nameToId) == IndexOf(entries[..k])
      {
        var e := entries[k];
        assert entries[..k + 1][..k] == entries[..k];
        if e.id == "" {
          continue;
        }
        nodes := nodes[e.id := e.node];
        adj := if e.id in adj then adj else adj[e.id := {}];
        nameToId := if e.key in nameToId then nameToId else nameToId[e.key := e.id];
      }
      assert entries[..|entries|] == entries;
    }

    method LoadEdges(edges: seq<Ends>)
      requires adj.Keys == nodes.Keys && forall u :: u in adj ==> adj[u] == {}
      modifies `adj
      ensures AdjacencyMatches(edges, nodes.Keys, adj)
    {
      for k := 0 to |edges|
        invariant AdjacencyMatches(edges[..k], nodes.Keys, adj)
      {
        var src, dst := edges[k].source, edges[k].target;
        ghost var before := adj;
        if src in nodes && dst in nodes {
          adj := adj[src := adj[src] + {dst}];
          adj := adj[dst := adj[dst] + {src}];
        }
        NextEdge(edges, k, nodes.Keys, before, adj);
      }
      assert edges[..|edges|] == edges;
    }

    function Resolved(nameOrId: string): Option<NodeId>
      reads this
    {
      Resolve(nodes, nameToId, nameOrId)
    }

    /** The display names along a shortest walk, or nothing. `walk` is the walk itself. */
    method Path(src: string, dst: string) returns (route: seq<string>, ghost walk: seq<NodeId>)
      requires Valid()
      modifies this
      ensures Valid() && loaded
      ensures file.Some? ==> Says(file.value, nodes, adj, nameToId)
      ensures file.Some? ==> forall id ::
        (Resolved(src) == Some(id) <==> Means(file.value, src, id))
        && (Resolved(dst) == Some(id) <==> Means(file.value, dst, id))
      ensures file.None? ==> route == []
      ensures route == [] <==>
        (Resolved(src).None? || Resolved(dst).None? || !Reachable(adj, Resolved(src).value, Resolved(dst).value))
      ensures route != [] ==>
        Shortest(adj, walk, Resolved(src).value, Resolved(dst).value) && Spells(nodes, walk, route)
    {
      EnsureLoaded();
      assert Closed(adj) by {
        UndirectedAndClosed(EdgeEnds(file), nodes.Keys, adj);
      }
      if file.Some? {
        ResolveMeans(file.value, nodes, adj, nameToId, src);
        ResolveMeans(file.value, nodes, adj, nameToId, dst);
      }
      var a, b := Resolved(src), Resolved(dst);
      if a.None? || b.None? {
        return [], [];
      }
      assert a.value in nodes && b.value in nodes by {
        NamesAreNodes(Entries(file), nodes, nameToId);
      }
      route, walk := Route(nodes, adj, a.value, b.value);
    }
  }

  /** Without a file there is no node. */
  lemma NothingSaid(nodes: map<NodeId, Node>, adj: map<NodeId, set<NodeId>>, names: map<string, NodeId>)
    requires IdsMatch([], nodes) && NamesMatch([], names) && adj.Keys == nodes.Keys
    ensures nodes == map[] && adj == map[] && names == map[]
  {
    assert forall id :: id !in nodes;
    forall key
      ensures key !in names
    {
      assert forall i: nat :: !FirstNamed([], key, i);
    }
  }

  ghost predicate Spells(nodes: map<NodeId, Node>, walk: seq<NodeId>, route: seq<string>) {
    |route| == |walk| && forall i :: 0 <= i < |walk| ==> walk[i] in nodes && route[i] == nodes[walk[i]].name
  }

  /** The part of `path` after name resolution. */
  method Route(nodes: map<NodeId, Node>, adj: map<NodeId, set<NodeId>>, a: NodeId, b: NodeId)
    returns (route: seq<string>, walk: seq<NodeId>)
    requires Closed(adj) && adj.Keys == nodes.Keys && a in nodes && b in nodes
    ensures route == [] <==> !Reachable(adj, a, b)
    ensures route != [] ==> Shortest(adj, walk, a, b) && Spells(nodes, walk, route)
  {
    if a == b {
      walk := [a];
      assert IsWalk(adj, walk, a, b);
      return [nodes[a].name], walk;
    }
    walk := Search(adj, a, b);
    if walk != [] {
      WalkInside(adj, walk, a, b);
    }
    route := NamesOf(nodes, walk);
  }

  /** A loaded adjacency map is an undirected graph on its own nodes. */
  lemma UndirectedAndClosed(edges: seq<Ends>, ids: set<NodeId>, adj: map<NodeId, set<NodeId>>)
    requires AdjacencyMatches(edges, ids, adj)
    ensures Closed(adj)
    ensures forall u, v :: u in adj && v in adj[u] ==> v in adj && u in adj[v]
  {
    forall u, v | u in adj && v in adj[u]
      ensures v in adj && u in adj[v]
    {
      assert Linked(edges, u, v);
      var i :| 0 <= i < |edges| && Joins(edges[i], u, v);
      assert Joins(edges[i], v, u);
    }
  }

  /** Every name in the index leads to a node. */
  lemma NamesAreNodes(entries: seq<Entry>, nodes: map<NodeId, Node>, names: map<string, NodeId>)
    requires IdsMatch(entries, nodes) && NamesMatch(entries, names)
    ensures forall key :: key in names ==> names[key] in nodes
  {
    forall key | key in names
      ensures names[key] in nodes
    {
      var i: nat :| FirstNamed(entries, key, i);
      assert Declared(entries, entries[i].id);
    }
  }
}
