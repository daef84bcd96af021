/** The cluster view one scheduling round works on, and the placement
    routines that DummyPolicy and FixedWidthPolicy share word for word:
    the node order of `_sort_nodes`, the single-node first-fit of
    `allocate_job`, the per-node GPU table `available_gpus`, and the greedy
    node-by-node fill of a job in the second pass of `optimize`. */
module Cluster {
  import opened Common

  /** The resource name of a GPU. */
  const GPU: string := "nvidia.com/gpu"

  datatype Node = Node(resources: map<string, int>, preemptible: bool)

  datatype JobInfo = JobInfo(resources: map<string, int>, minReplicas: int, application: string, epoch: int)

  /** One `(name, node)` item of the `nodes` dict. */
  type NodeEntry = (string, Node)

  /* ---------- `_sort_nodes` ---------- */

  /** Python's `<` on str: lexicographic by code point. */
  predicate StrLess(a: string, b: string)
    decreases |a|
  {
    if a == [] then b != []
    else if b == [] then false
    else if a[0] != b[0] then a[0] < b[0]
    else StrLess(a[1..], b[1..])
  }

  lemma {:induction false} StrLessIrreflexive(a: string)
    ensures !StrLess(a, a)
    decreases |a|
  {
    if a != [] { StrLessIrreflexive(a[1..]); }
  }

  lemma {:induction false} StrLessTransitive(a: string, b: string, c: string)
    requires StrLess(a, b) && StrLess(b, c)
    ensures StrLess(a, c)
    decreases |a|
  {
    if a != [] && a[0] == b[0] && b[0] == c[0] {
      StrLessTransitive(a[1..], b[1..], c[1..]);
    }
  }

  lemma {:induction false} StrLessTotal(a: string, b: string)
    requires a != b
    ensures StrLess(a, b) || StrLess(b, a)
    decreases |a|
  {
    if a != [] && b != [] && a[0] == b[0] {
      assert a == [a[0]] + a[1..] && b == [b[0]] + b[1..];
      StrLessTotal(a[1..], b[1..]);
    }
  }

  /** The sort key `(node.preemptible, name)` of `_sort_nodes`, compared as
      a Python tuple (False < True), strictly. */
  predicate EntryLess(x: NodeEntry, y: NodeEntry)
  {
    (!x.1.preemptible && y.1.preemptible)
    || (x.1.preemptible == y.1.preemptible && StrLess(x.0, y.0))
  }

  lemma EntryLessAsymmetric(x: NodeEntry, y: NodeEntry)
    requires EntryLess(x, y)
    ensures !EntryLess(y, x)
  {
    if x.1.preemptible == y.1.preemptible && StrLess(y.0, x.0) {
      StrLessTransitive(x.0, y.0, x.0);
      StrLessIrreflexive(x.0);
    }
  }

  /** "Not after" is transitive: the key order is a total preorder. */
  lemma EntryNotLessTransitive(x: NodeEntry, y: NodeEntry, z: NodeEntry)
    requires !EntryLess(y, x) && !EntryLess(z, y)
    ensures !EntryLess(z, x)
  {
    if EntryLess(z, x) && x.1.preemptible == y.1.preemptible && y.1.preemptible == z.1.preemptible {
      if x.0 == y.0 {
      } else {
        StrLessTotal(x.0, y.0);
        StrLessTransitive(z.0, x.0, y.0);
      }
    }
  }

  /** No element has a strictly smaller key than an element before it. */
  predicate Sorted(s: seq<NodeEntry>)
  {
    forall i, j :: 0 <= i < j < |s| ==> !EntryLess(s[j], s[i])
  }

  function Insert(x: NodeEntry, s: seq<NodeEntry>): (r: seq<NodeEntry>)
    ensures multiset(r) == multiset(s) + multiset{x}
    ensures |r| == |s| + 1
  {
    if s == [] then [x]
    else
      assert s == [s[0]] + s[1..];
      if EntryLess(s[0], x) then [s[0]] + Insert(x, s[1..]) else [x] + s
  }

  lemma {:induction false} InsertSorted(x: NodeEntry, s: seq<NodeEntry>)
    requires Sorted(s)
    ensures Sorted(Insert(x, s))
    decreases |s|
  {
    if s == [] {
    } else if EntryLess(s[0], x) {
      InsertSorted(x, s[1..]);
      var r := Insert(x, s);
      var t := Insert(x, s[1..]);
      assert r == [s[0]] + t;
      forall j | 0 < j < |r| ensures !EntryLess(r[j], s[0]) {
        var y := t[j - 1];
        assert y in multiset(t);
        assert y == x || y in multiset(s[1..]);
        if y == x {
          EntryLessAsymmetric(s[0], x);
        } else {
          var k :| 0 <= k < |s[1..]| && s[1..][k] == y;
          assert s[k + 1] == y;
        }
      }
    } else {
      var r := Insert(x, s);
      assert r == [x] + s;
      forall i, j | 0 <= i < j < |r| ensures !EntryLess(r[j], r[i]) {
        if i == 0 && j > 1 {
          EntryNotLessTransitive(x, s[0], s[j - 1]);
        }
      }
    }
  }

  /** `_sort_nodes`: the nodes ordered by (preemptible, name). */
  function SortNodes(nodes: seq<NodeEntry>): (r: seq<NodeEntry>)
    ensures multiset(r) == multiset(nodes)
    ensures |r| == |nodes|
    ensures Sorted(r)
  {
    if nodes == [] then []
    else
      var rest := SortNodes(nodes[1..]);
      InsertSorted(nodes[0], rest);
      assert nodes == [nodes[0]] + nodes[1..];
      Insert(nodes[0], rest)
  }

  lemma {:induction false} InsertDistinct(x: NodeEntry, s: seq<NodeEntry>)
    requires DistinctKeys(s) && !HasKey(s, x.0)
    ensures DistinctKeys(Insert(x, s))
    decreases |s|
  {
    if s != [] && EntryLess(s[0], x) {
      assert !HasKey(s[1..], x.0);
      InsertDistinct(x, s[1..]);
      var t := Insert(x, s[1..]);
      forall j | 0 <= j < |t| ensures t[j].0 != s[0].0 {
        assert t[j] in multiset(t);
        if t[j] != x {
          assert t[j] in multiset(s[1..]);
          var i :| 0 <= i < |s[1..]| && s[1..][i] == t[j];
          assert s[i + 1] == t[j];
        } else {
          assert s[0].0 != x.0;
        }
      }
    }
  }

  lemma {:induction false} SortNodesDistinct(nodes: seq<NodeEntry>)
    requires DistinctKeys(nodes)
    ensures DistinctKeys(SortNodes(nodes))
    decreases |nodes|
  {
    if nodes != [] {
      var rest := SortNodes(nodes[1..]);
      SortNodesDistinct(nodes[1..]);
      forall j | 0 <= j < |rest| ensures rest[j].0 != nodes[0].0 {
        assert rest[j] in multiset(nodes[1..]);
        var i :| 0 <= i < |nodes[1..]| && nodes[1..][i] == rest[j];
        assert nodes[i + 1] == rest[j];
      }
      InsertDistinct(nodes[0], rest);
    }
  }

  /** The order `_sort_nodes` promises: every non-preemptible node comes before
      every preemptible one, each group is in ascending name order, and the
      result is a permutation of the nodes. */
  lemma SortNodesOrder(nodes: seq<NodeEntry>)
    requires DistinctKeys(nodes)
    ensures multiset(SortNodes(nodes)) == multiset(nodes)
    ensures var r := SortNodes(nodes);
      forall i, j :: 0 <= i < j < |r| ==> (r[j].1.preemptible || !r[i].1.preemptible)
    ensures var r := SortNodes(nodes);
      forall i, j :: (0 <= i < j < |r| && r[i].1.preemptible == r[j].1.preemptible) ==> StrLess(r[i].0, r[j].0)
  {
    var r := SortNodes(nodes);
    SortNodesDistinct(nodes);
    forall i, j | 0 <= i < j < |r| && r[i].1.preemptible == r[j].1.preemptible
      ensures StrLess(r[i].0, r[j].0)
    {
      assert !EntryLess(r[j], r[i]);
      StrLessTotal(r[i].0, r[j].0);
    }
  }

  /* ---------- `allocate_job` ---------- */

  /** `node.resources.get(key, 0) // val >= m` for every requested resource. */
  predicate Fits(node: Node, request: map<string, int>, m: int)
    requires 0 !in request.Values
  {
    forall k :: k in request ==> FloorDiv(Get(node.resources, k, 0), request[k]) >= m
  }

  /** `min(node.resources.get(key, 0) // val for key, val in request.items())`
      over the keys ks (the order of keys does not change a minimum). */
  ghost function MinQuotient(have: map<string, int>, request: map<string, int>, ks: set<string>): int
    requires ks != {} && ks <= request.Keys && 0 !in request.Values
    decreases ks
  {
    var k :| k in ks;
    var q := FloorDiv(Get(have, k, 0), request[k]);
    if ks == {k} then q else Min(q, MinQuotient(have, request, ks - {k}))
  }

  lemma {:induction false} MinQuotientAtLeast(have: map<string, int>, request: map<string, int>, ks: set<string>, m: int)
    requires ks != {} && ks <= request.Keys && 0 !in request.Values
    ensures MinQuotient(have, request, ks) >= m <==>
            forall k :: k in ks ==> FloorDiv(Get(have, k, 0), request[k]) >= m
    decreases ks
  {
    var k :| k in ks && MinQuotient(have, request, ks) ==
      (var q := FloorDiv(Get(have, k, 0), request[k]);
       if ks == {k} then q else Min(q, MinQuotient(have, request, ks - {k})));
    var q := FloorDiv(Get(have, k, 0), request[k]);
    if ks != {k} {
      MinQuotientAtLeast(have, request, ks - {k}, m);
      assert MinQuotient(have, request, ks) == Min(q, MinQuotient(have, request, ks - {k}));
      assert (forall j :: j in ks ==> FloorDiv(Get(have, j, 0), request[j]) >= m) <==>
             q >= m && forall j :: j in ks - {k} ==> FloorDiv(Get(have, j, 0), request[j]) >= m;
    } else {
      assert MinQuotient(have, request, ks) == q;
      assert forall j :: j in ks <==> j == k;
    }
  }

  /** `replica_this`: how many replicas of the request fit on the node. */
  ghost function ReplicasThatFit(node: Node, request: map<string, int>): int
    requires request != map[] && 0 !in request.Values
  {
    MinQuotient(node.resources, request, request.Keys)
  }

  lemma FitsIffReplicas(node: Node, request: map<string, int>, m: int)
    requires request != map[] && 0 !in request.Values
    ensures Fits(node, request, m) <==> ReplicasThatFit(node, request) >= m
  {
    assert request.Keys != {} by { var k :| k in request; }
    MinQuotientAtLeast(node.resources, request, request.Keys, m);
  }

  /** The index of the first node, from i on, that can host m replicas. */
  function FirstFitFrom(s: seq<NodeEntry>, request: map<string, int>, m: int, i: nat): (r: Option<nat>)
    requires 0 !in request.Values && i <= |s|
    ensures r.Some? ==> i <= r.value < |s| && Fits(s[r.value].1, request, m)
    ensures r.Some? ==> forall j :: i <= j < r.value ==> !Fits(s[j].1, request, m)
    ensures r.None? ==> forall j :: i <= j < |s| ==> !Fits(s[j].1, request, m)
    decreases |s| - i
  {
    if i == |s| then None
    else if Fits(s[i].1, request, m) then Some(i)
    else FirstFitFrom(s, request, m, i + 1)
  }

  /** `allocate_job`: `max(min_replicas, 1)` replicas all on the first node,
      in `_sort_nodes` order, that can host that many, or `[]` when none
      can. Python's `min` over an empty request raises ValueError, and a
      zero request raises ZeroDivisionError, as soon as there is a node to
      look at. */
  function AllocateJob(job: JobInfo, nodes: seq<NodeEntry>): (r: Result<seq<string>>)
    ensures r.Err? <==> nodes != [] && (job.resources == map[] || 0 in job.resources.Values)
    ensures r.Err? ==> r.error == if job.resources == map[] then ValueError else ZeroDivisionError
    ensures var sorted, m := SortNodes(nodes), Max(job.minReplicas, 1);
      r.Ok? && r.value != [] ==>
        (0 !in job.resources.Values &&
         exists i :: 0 <= i < |sorted| && r.value == Repeat(sorted[i].0, m) &&
           Fits(sorted[i].1, job.resources, m) &&
           (forall j :: 0 <= j < i ==> !Fits(sorted[j].1, job.resources, m)))
    ensures var sorted, m := SortNodes(nodes), Max(job.minReplicas, 1);
      (r.Ok? && r.value == [] && 0 !in job.resources.Values) ==>
        forall i :: 0 <= i < |sorted| ==> !Fits(sorted[i].1, job.resources, m)
  {
    var m := Max(job.minReplicas, 1);
    var sorted := SortNodes(nodes);
    if sorted == [] then Ok([])
    else if job.resources == map[] then Err(ValueError)
    else if 0 in job.resources.Values then Err(ZeroDivisionError)
    else
      match FirstFitFrom(sorted, job.resources, m, 0)
      case None => Ok([])
      case Some(i) => Ok(Repeat(sorted[i].0, m))
  }

  /* ---------- `available_gpus` and the greedy fill ---------- */

  /** `{name: node.resources.get(GPU, 0) for name, node in nodes.items()}` */
  function GpuCapacity(nodes: seq<NodeEntry>): (avail: map<string, int>)
    ensures avail.Keys == KeySet(nodes)
  {
    if nodes == [] then map[]
    else
      var prefix := nodes[..|nodes| - 1];
      var last := nodes[|nodes| - 1];
      assert forall k :: HasKey(nodes, k) <==> HasKey(prefix, k) || k == last.0 by {
        assert nodes == prefix + [last];
        forall k { HasKeyAppend(prefix, last, k); }
      }
      GpuCapacity(prefix)[last.0 := Get(last.1.resources, GPU, 0)]
  }

  /** With distinct node names, every node's entry is the GPU count it advertises. */
  lemma {:induction false} GpuCapacityAt(nodes: seq<NodeEntry>, i: int)
    requires DistinctKeys(nodes) && 0 <= i < |nodes|
    ensures GpuCapacity(nodes)[nodes[i].0] == Get(nodes[i].1.resources, GPU, 0)
    decreases |nodes|
  {
    var prefix := nodes[..|nodes| - 1];
    if i < |nodes| - 1 {
      assert DistinctKeys(prefix) by {
        forall a, b | 0 <= a < b < |prefix| ensures prefix[a].0 != prefix[b].0 {
          assert prefix[a] == nodes[a] && prefix[b] == nodes[b];
        }
      }
      assert prefix[i] == nodes[i];
      assert nodes[i].0 != nodes[|nodes| - 1].0;
      GpuCapacityAt(prefix, i);
    }
  }

  /** How many replicas the inner `while` loop puts on a node with `free`
      GPUs when the job already has `have` of the `want` it asks for. */
  function Take(want: int, have: int, free: int): int
  {
    if have < want && free >= 1 then Min(want - have, free) else 0
  }

  /** The fill of one job: visit the nodes in order and take GPUs from each
      until the job has `want` replicas or the node has none left. Returns
      the job's node list and the residual GPUs. */
  function Fill(names: seq<string>, avail: map<string, int>, want: int): (res: (seq<string>, map<string, int>))
    requires forall i :: 0 <= i < |names| ==> names[i] in avail
    ensures res.1.Keys == avail.Keys
    decreases |names|
  {
    if names == [] then ([], avail)
    else
      var done := Fill(names[..|names| - 1], avail, want);
      var n := names[|names| - 1];
      var k := Take(want, |done.0|, done.1[n]);
      (done.0 + Repeat(n, k), done.1[n := done.1[n] - k])
  }

  /** Position of x in s. */
  function IndexOf(s: seq<string>, x: string): (i: nat)
    requires x in s
    ensures i < |s| && s[i] == x
  {
    if s[0] == x then 0 else 1 + IndexOf(s[1..], x)
  }

  lemma IndexOfDistinct(s: seq<string>, i: nat)
    requires Distinct(s) && i < |s|
    ensures IndexOf(s, s[i]) == i
  {
  }

  /** A fill never gives a job more than it asks for. */
  lemma {:induction false} FillLength(names: seq<string>, avail: map<string, int>, want: int)
    requires forall i :: 0 <= i < |names| ==> names[i] in avail
    ensures |Fill(names, avail, want).0| <= Max(want, 0)
    decreases |names|
  {
    if names != [] {
      FillLength(names[..|names| - 1], avail, want);
    }
  }

  /** Each node gives up exactly the replicas placed on it, and only while it
      had a free GPU, so the residual of every node used stays non-negative;
      only nodes of the list are used. */
  lemma {:induction false} FillConserves(names: seq<string>, avail: map<string, int>, want: int)
    requires forall i :: 0 <= i < |names| ==> names[i] in avail
    ensures var (cur, av) := Fill(names, avail, want);
      forall n :: n in avail ==> av[n] == avail[n] - Count(n, cur)
    ensures var (cur, av) := Fill(names, avail, want);
      forall n :: n in cur ==> n in names && av[n] >= 0
    decreases |names|
  {
    if names != [] {
      var prefix := names[..|names| - 1];
      var n := names[|names| - 1];
      FillConserves(prefix, avail, want);
      var (cur, av) := Fill(prefix, avail, want);
      var k := Take(want, |cur|, av[n]);
      var cur' := cur + Repeat(n, k);
      var av' := av[n := av[n] - k];
      assert Fill(names, avail, want) == (cur', av');
      forall m | m in avail ensures av'[m] == avail[m] - Count(m, cur') {
        CountAppend(m, cur, Repeat(n, k));
        CountRepeat(m, n, k);
      }
      forall m | m in cur' ensures m in names && av'[m] >= 0 {
        if m in cur {
          assert m in prefix;
        }
      }
    }
  }

  /** A job left short of `want` has exhausted every node it visited. */
  lemma {:induction false} FillShortExhausts(names: seq<string>, avail: map<string, int>, want: int)
    requires forall i :: 0 <= i < |names| ==> names[i] in avail
    ensures var (cur, av) := Fill(names, avail, want);
      |cur| < want ==> forall i :: 0 <= i < |names| ==> av[names[i]] <= 0
    decreases |names|
  {
    if names != [] {
      var prefix := names[..|names| - 1];
      var n := names[|names| - 1];
      FillShortExhausts(prefix, avail, want);
      var (cur, av) := Fill(prefix, avail, want);
      var k := Take(want, |cur|, av[n]);
      var cur' := cur + Repeat(n, k);
      var av' := av[n := av[n] - k];
      assert Fill(names, avail, want) == (cur', av');
      if |cur'| < want {
        forall i | 0 <= i < |names| ensures av'[names[i]] <= 0 {
          if i < |names| - 1 { assert names[i] == prefix[i]; }
        }
      }
    }
  }

  /** Every replica is on a listed node, and replicas on earlier nodes of
      the list come first. */
  ghost predicate RunsIn(names: seq<string>, cur: seq<string>)
  {
    (forall n :: n in cur ==> n in names) &&
    forall i, j :: 0 <= i < j < |cur| ==> IndexOf(names, cur[i]) <= IndexOf(names, cur[j])
  }

  lemma IndexOfPrefix(names: seq<string>, m: string)
    requires Distinct(names) && |names| > 0 && m in names[..|names| - 1]
    ensures m in names && IndexOf(names, m) == IndexOf(names[..|names| - 1], m) < |names| - 1
  {
    var a := IndexOf(names[..|names| - 1], m);
    assert names[a] == m;
    IndexOfDistinct(names, a);
  }

  /** Appending replicas on the last node keeps the runs in list order. */
  lemma RunsExtend(names: seq<string>, cur: seq<string>, k: int)
    requires Distinct(names) && |names| > 0
    requires RunsIn(names[..|names| - 1], cur)
    ensures RunsIn(names, cur + Repeat(names[|names| - 1], k))
  {
    var prefix, last := names[..|names| - 1], |names| - 1;
    var n := names[last];
    var cur' := cur + Repeat(n, k);
    IndexOfDistinct(names, last);
    forall m | m in cur' ensures m in names {
      var a :| 0 <= a < |cur'| && cur'[a] == m;
      if a < |cur| {
        assert cur[a] == m;
        IndexOfPrefix(names, m);
      }
    }
    forall i, j | 0 <= i < j < |cur'| ensures IndexOf(names, cur'[i]) <= IndexOf(names, cur'[j]) {
      if j < |cur| {
        assert cur'[i] == cur[i] && cur'[j] == cur[j];
        IndexOfPrefix(names, cur[i]);
        IndexOfPrefix(names, cur[j]);
      } else if i < |cur| {
        assert cur'[i] == cur[i] && cur'[j] == n;
        IndexOfPrefix(names, cur[i]);
      } else {
        assert cur'[i] == n && cur'[j] == n;
      }
    }
  }

  /** The replicas of one fill are runs of node names in the order of the
      list (the insertion order of `available_gpus`). */
  lemma {:induction false} FillRuns(names: seq<string>, avail: map<string, int>, want: int)
    requires forall i :: 0 <= i < |names| ==> names[i] in avail
    requires Distinct(names)
    ensures RunsIn(names, Fill(names, avail, want).0)
    decreases |names|
  {
    if names != [] {
      var prefix := names[..|names| - 1];
      assert Distinct(prefix);
      FillRuns(prefix, avail, want);
      var (cur, av) := Fill(prefix, avail, want);
      var n := names[|names| - 1];
      var k := Take(want, |cur|, av[n]);
      assert Fill(names, avail, want).0 == cur + Repeat(n, k);
      RunsExtend(names, cur, k);
    }
  }

  /** The second-pass fill loop of `optimize` (identical in both policies). */
  method FillJob(names: seq<string>, avail: map<string, int>, want: int)
    returns (current: seq<string>, residual: map<string, int>)
    requires forall i :: 0 <= i < |names| ==> names[i] in avail
    ensures (current, residual) == Fill(names, avail, want)
  {
    current, residual := [], avail;
    for i := 0 to |names|
      invariant (current, residual) == Fill(names[..i], avail, want)
    {
      assert names[..i + 1][..i] == names[..i];
      current, residual := TakeFrom(names[i], current, residual, want);
    }
    assert names[..|names|] == names;
  }

  /** The inner `while` loop on node n: one replica per free GPU until the
      job has what it wants. */
  method TakeFrom(n: string, current: seq<string>, residual: map<string, int>, want: int)
    returns (current': seq<string>, residual': map<string, int>)
    requires n in residual
    ensures var k := Take(want, |current|, residual[n]);
      current' == current + Repeat(n, k) && residual' == residual[n := residual[n] - k]
  {
    ghost var k := Take(want, |current|, residual[n]);
    current', residual' := current, residual;
    var gpus := residual[n];
    assert residual' == residual[n := gpus];
    while |current'| < want && gpus >= 1
      invariant 0 <= |current'| - |current| <= k
      invariant current' == current + Repeat(n, |current'| - |current|)
      invariant gpus == residual[n] - (|current'| - |current|)
      invariant residual' == residual[n := gpus]
      decreases gpus
    {
      current' := current' + [n];
      gpus := gpus - 1;
      residual' := residual'[n := gpus];
    }
  }

  /* ---------- allocations and GPU accounting ---------- */

  /** `new_allocations`: job key -> one node name per replica, in insertion order. */
  type Allocation = seq<(string, seq<string>)>

  /** GPUs per replica a job requests; 1 when it does not say. */
  function GpusPerReplica(job: JobInfo): int
  {
    Get(job.resources, GPU, 1)
  }

  /** `for name in prev_alloc: available_gpus[name] -= 1`. The callers
      either have checked that every node is present or raise `KeyError`
      first; a node that is not a key is skipped, which keeps the function
      total. */
  function Deduct(avail: map<string, int>, nodes: seq<string>): (r: map<string, int>)
    ensures r.Keys == avail.Keys
    ensures forall n :: n in avail ==> r[n] == avail[n] - Count(n, nodes)
  {
    if nodes == [] then avail
    else
      var d, n := Deduct(avail, nodes[..|nodes| - 1]), nodes[|nodes| - 1];
      if n in d then d[n := d[n] - 1] else d
  }

  /** Replicas placed on node n by all the allocations. */
  function Used(n: string, allocs: Allocation): nat
  {
    if allocs == [] then 0 else Used(n, allocs[..|allocs| - 1]) + Count(n, allocs[|allocs| - 1].1)
  }

  lemma {:induction false} UsedPrefix(n: string, allocs: Allocation, k: nat)
    requires k <= |allocs|
    ensures Used(n, allocs[..k]) <= Used(n, allocs)
    decreases |allocs|
  {
    if k < |allocs| {
      assert allocs[..|allocs| - 1][..k] == allocs[..k];
      UsedPrefix(n, allocs[..|allocs| - 1], k);
    } else {
      assert allocs[..k] == allocs;
    }
  }

  /** Every node an allocation names is a node of the cluster, and no node
      carries more replicas than it had GPUs (a node that reported a negative
      count carries none): the residual of each node is its capacity minus
      the replicas placed on it and is never negative once it is used. */
  ghost predicate Accounted(cap: map<string, int>, avail: map<string, int>, allocs: Allocation)
  {
    && avail.Keys == cap.Keys
    && (forall n :: n in cap ==> avail[n] == cap[n] - Used(n, allocs))
    && (forall n :: n in cap && Used(n, allocs) > 0 ==> avail[n] >= 0)
    && (forall i, x :: 0 <= i < |allocs| && x in allocs[i].1 ==> x in cap)
  }

  lemma AccountedBounds(cap: map<string, int>, avail: map<string, int>, allocs: Allocation)
    requires Accounted(cap, avail, allocs)
    ensures forall n :: n in cap ==> Used(n, allocs) <= Max(cap[n], 0)
  {
  }

  lemma UsedAppend(n: string, allocs: Allocation, e: (string, seq<string>))
    ensures Used(n, allocs + [e]) == Used(n, allocs) + Count(n, e.1)
  {
    assert (allocs + [e])[..|allocs|] == allocs;
  }

  /** Placing one more allocation keeps the books when the residual drops by
      its replicas and no node it uses goes negative. */
  lemma AccountedAppend(cap: map<string, int>, avail: map<string, int>, allocs: Allocation,
                        e: (string, seq<string>), avail': map<string, int>)
    requires Accounted(cap, avail, allocs)
    requires avail'.Keys == avail.Keys
    requires forall n :: n in avail ==> avail'[n] == avail[n] - Count(n, e.1)
    requires forall n :: n in e.1 ==> n in cap && avail'[n] >= 0
    ensures Accounted(cap, avail', allocs + [e])
  {
    var allocs' := allocs + [e];
    forall n | n in cap
      ensures avail'[n] == cap[n] - Used(n, allocs')
      ensures Used(n, allocs') > 0 ==> avail'[n] >= 0
    {
      UsedAppend(n, allocs, e);
      CountPositive(n, e.1);
    }
    forall i, x | 0 <= i < |allocs'| && x in allocs'[i].1
      ensures x in cap
    {
      if i < |allocs| { assert allocs'[i] == allocs[i]; }
    }
  }
}
