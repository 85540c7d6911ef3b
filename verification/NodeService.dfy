/**
 VIP allocation over the database: a reuse pool of rows and an index counter, both claimed by
 compare-and-set, with any number of requests interleaved statement by statement.

 One tenant; every statement is atomic and every request commits. A VIP is its index in the pool's block.
 */
module NodeService {
  import opened Wrappers
  import opened Bytes
  import opened IPUtil
  import D = Cidr

  type Node = nat
  type Task = nat

  /** The tenant's block: how many addresses, and which indexes isAvailableIp accepts. */
  datatype Pool = Pool(count: nat, available: int -> bool)

  function PoolOf(c: D.Cidr): (p: Pool)
    requires D.Valid(c)
    ensures p.count == c.count == D.CalcCount(c.maskBits)
    ensures forall idx :: Available(p, idx) <==> D.IsAvailableIp(c, D.GenIpByIdx(c, idx))
  {
    hide Int2Ip, Ip2Long, IsIp, D.CalcCount;
    Pool(c.count, idx => D.IsAvailableIp(c, D.GenIpByIdx(c, idx)))
  }

  /** A row of the VIP pool; its id is its position, since rows are never deleted. */
  datatype Row = Row(idx: int, used: bool)

  predicate Available(c: Pool, idx: int) {
    c.available(idx)
  }

  /** The statement a request executes next. `seen` is the counter as the request last knew it. */
  datatype Phase =
    | Reusing(seen: int)
    | Peeked(seen: int, row: nat)
    | Guarding(seen: int)
    | Selecting(seen: int)
    | Claimed(idx: int)
    | Holding(vip: int)
    | Deleting(found: Option<int>)
    | Deleted

  /** `inserts` tells a request that adds its node at the end from one that updates an existing node. */
  datatype Request = Request(node: Node, inserts: bool, phase: Phase)

  datatype State = State(
    rows: seq<Row>,
    ipIndex: int,
    nodes: map<Node, Option<int>>,
    tasks: map<Task, Request>)

  /** The counter's column default. */
  const INITIAL := State([], -1, map[], map[])

  datatype Step =
    | Start(task: Task, node: Node, inserts: bool)
    | Peek(task: Task, row: nat)
    | NothingToReuse(task: Task)
    | Reuse(task: Task)
    | Guard(task: Task)
    | Select(task: Task)
    | Insert(task: Task)
    | Store(task: Task)
    | StartDelete(task: Task, node: Node)
    | Release(task: Task)
    | Delete(task: Task)

  /** A registration inserts its node without a VIP first, when the MAC address is new. */
  function Begin(s: State, t: Task, n: Node, inserts: bool): State {
    s.(tasks := s.tasks[t := Request(n, inserts, Reusing(s.ipIndex))],
       nodes := if inserts || n in s.nodes then s.nodes else s.nodes[n := None])
  }

  function SetPhase(s: State, t: Task, p: Phase): State
    requires t in s.tasks
  {
    s.(tasks := s.tasks[t := s.tasks[t].(phase := p)])
  }

  function Finish(s: State, t: Task): State {
    s.(tasks := s.tasks - {t})
  }

  function ReuseRow(s: State, t: Task): State
    requires t in s.tasks && s.tasks[t].phase.Peeked? && s.tasks[t].phase.row < |s.rows|
  {
    var p := s.tasks[t].phase;
    if s.rows[p.row].used then SetPhase(s, t, Reusing(p.seen))
    else SetPhase(s, t, Holding(s.rows[p.row].idx)).(rows := s.rows[p.row := Row(s.rows[p.row].idx, true)])
  }

  /** The guard looks at the index before the increment. */
  function GuardCount(c: Pool, s: State, t: Task): State
    requires t in s.tasks && s.tasks[t].phase.Guarding?
  {
    var p := s.tasks[t].phase;
    if p.seen > c.count then Finish(s, t) else SetPhase(s, t, Selecting(p.seen))
  }

  /** One round of selectIdx. */
  function SelectNext(s: State, t: Task): State
    requires t in s.tasks && s.tasks[t].phase.Selecting?
  {
    var p := s.tasks[t].phase;
    if s.ipIndex == p.seen then SetPhase(s, t, Claimed(p.seen + 1)).(ipIndex := p.seen + 1)
    else SetPhase(s, t, Selecting(p.seen + 1))
  }

  function InsertRow(c: Pool, s: State, t: Task): State
    requires t in s.tasks && s.tasks[t].phase.Claimed?
  {
    var p := s.tasks[t].phase;
    if Available(c, p.idx) then SetPhase(s, t, Holding(p.idx)).(rows := s.rows + [Row(p.idx, true)])
    else SetPhase(s, t, Guarding(p.idx))
  }

  /** An update of a node that has been deleted meanwhile changes nothing. */
  function StoreVip(s: State, t: Task): State
    requires t in s.tasks && s.tasks[t].phase.Holding?
  {
    var r := s.tasks[t];
    if r.inserts || r.node in s.nodes then Finish(s, t).(nodes := s.nodes[r.node := Some(r.phase.vip)])
        else Finish(s, t)
  }

  /** Every row with the VIP the request has read. */
  function ReleaseRow(s: State, t: Task): State
    requires t in s.tasks && s.tasks[t].phase.Deleting?
  {
    var found := s.tasks[t].phase.found;
    var freed := if found == None then s.rows else Freed(s.rows, found.value);
    SetPhase(s, t, Deleted).(rows := freed)
  }

  function Freed(rows: seq<Row>, vip: int): (r: seq<Row>)
    ensures |r| == |rows|
    ensures forall i :: 0 <= i < |rows| ==> r[i] == if rows[i].idx == vip then Row(vip, false) else rows[i]
  {
    seq(|rows|, i requires 0 <= i < |rows| => if rows[i].idx == vip then Row(vip, false) else rows[i])
  }

  function DeleteNode(s: State, t: Task): State
    requires t in s.tasks
  {
    Finish(s, t).(nodes := s.nodes - {s.tasks[t].node})
  }

  predicate Enabled(s: State, step: Step) {
    match step
    case Start(t, n, inserts) => t !in s.tasks && (if inserts then n !in s.nodes else n in s.nodes ==>
        s.nodes[n] == None)
    case Peek(t, r) => t in s.tasks && s.tasks[t].phase.Reusing? && r < |s.rows| && !s.rows[r].used
    case NothingToReuse(t) => t in s.tasks && s.tasks[t].phase.Reusing? && forall i :: 0 <= i < |s.rows| ==>
        s.rows[i].used
    case Reuse(t) => t in s.tasks && s.tasks[t].phase.Peeked? && s.tasks[t].phase.row < |s.rows|
    case Guard(t) => t in s.tasks && s.tasks[t].phase.Guarding?
    case Select(t) => t in s.tasks && s.tasks[t].phase.Selecting?
    case Insert(t) => t in s.tasks && s.tasks[t].phase.Claimed?
    case Store(t) => t in s.tasks && s.tasks[t].phase.Holding?
    case StartDelete(t, n) => t !in s.tasks && n in s.nodes
    case Release(t) => t in s.tasks && s.tasks[t].phase.Deleting?
    case Delete(t) => t in s.tasks && s.tasks[t].phase.Deleted?
  }

  function Next(c: Pool, s: State, step: Step): State
    requires Enabled(s, step)
  {
    match step
    case Start(t, n, inserts) => Begin(s, t, n, inserts)
    case Peek(t, r) => SetPhase(s, t, Peeked(s.tasks[t].phase.seen, r))
    case NothingToReuse(t) => SetPhase(s, t, Guarding(s.tasks[t].phase.seen))
    case Reuse(t) => ReuseRow(s, t)
    case Guard(t) => GuardCount(c, s, t)
    case Select(t) => SelectNext(s, t)
    case Insert(t) => InsertRow(c, s, t)
    case Store(t) => StoreVip(s, t)
    case StartDelete(t, n) => s.(tasks := s.tasks[t := Request(n, false, Deleting(s.nodes[n]))])
    case Release(t) => ReleaseRow(s, t)
    case Delete(t) => DeleteNode(s, t)
  }

  /** The state after a run; a step that is not enabled does nothing. */
  function Run(c: Pool, steps: seq<Step>): State {
    if steps == [] then INITIAL
    else
      var (before, step) := (Run(c, steps[..|steps| - 1]), steps[|steps| - 1]);
      if Enabled(before, step) then Next(c, before, step) else before
  }

  // ----- what holds under any interleaving -----

  /** No two rows have one VIP, and none is beyond the counter. */
  ghost predicate DistinctRows(s: State) {
    && -1 <= s.ipIndex && (forall i :: 0 <= i < |s.rows| ==> 0 <= s.rows[i].idx <= s.ipIndex)
    && (forall i, j :: 0 <= i < j < |s.rows| ==> s.rows[i].idx != s.rows[j].idx)
  }

  /** A request never knows more than the counter, and an index it has claimed is in no row yet. */
  ghost predicate Sane(s: State, t: Task) {
    t in s.tasks ==>
      match s.tasks[t].phase
      case Reusing(seen) => -1 <= seen <= s.ipIndex
      case Peeked(seen, row) => -1 <= seen <= s.ipIndex && row < |s.rows|
      case Guarding(seen) => -1 <= seen <= s.ipIndex
      case Selecting(seen) => -1 <= seen <= s.ipIndex
      case Claimed(idx) => 0 <= idx <= s.ipIndex && forall i :: 0 <= i < |s.rows| ==> s.rows[i].idx != idx
      case _ => true
  }

  ghost predicate ClaimsDiffer(s: State, t: Task, u: Task) {
    t != u && t in s.tasks && u in s.tasks && s.tasks[t].phase.Claimed? && s.tasks[u].phase.Claimed? ==>
      s.tasks[t].phase.idx != s.tasks[u].phase.idx
  }

  ghost predicate Distinct(s: State) {
    && DistinctRows(s)
    && (forall t :: Sane(s, t))
    && (forall t, u :: ClaimsDiffer(s, t, u))
  }

  /** Rows keep their VIPs and are only appended to; the counter never decreases. */
  lemma StepIsMonotonic(c: Pool, s: State, step: Step)
    requires Enabled(s, step) && Sane(s, step.task)
    ensures var t := Next(c, s, step);
      && s.ipIndex <= t.ipIndex && |s.rows| <= |t.rows|
      && forall i :: 0 <= i < |s.rows| ==> t.rows[i].idx == s.rows[i].idx
  {
    hide Available;
  }

  lemma StepKeepsDistinctRows(c: Pool, s: State, step: Step)
    requires Enabled(s, step) && DistinctRows(s) && Sane(s, step.task)
    ensures DistinctRows(Next(c, s, step))
  {
    hide Available;
  }

  lemma OthersStaySane(c: Pool, s: State, step: Step, u: Task)
    requires Enabled(s, step) && Sane(s, u) && Sane(s, step.task) && ClaimsDiffer(s, u, step.task) && u != step.task
    ensures Sane(Next(c, s, step), u)
    ensures u in Next(c, s, step).tasks <==> u in s.tasks
    ensures u in s.tasks ==> Next(c, s, step).tasks[u] == s.tasks[u]
  {
    hide Available;
  }

  lemma OwnStaysSane(c: Pool, s: State, step: Step)
    requires Enabled(s, step) && Sane(s, step.task) && DistinctRows(s)
    ensures Sane(Next(c, s, step), step.task)
  {
    hide Available;
  }

  lemma NewClaimDiffers(c: Pool, s: State, step: Step, u: Task)
    requires Enabled(s, step) && Sane(s, step.task) && Sane(s, u) && ClaimsDiffer(s, step.task, u) && u != step.task
    ensures ClaimsDiffer(Next(c, s, step), step.task, u) && ClaimsDiffer(Next(c, s, step), u, step.task)
  {
    hide Available;
  }

  lemma StepKeepsDistinct(c: Pool, s: State, step: Step)
    requires Enabled(s, step) && Distinct(s)
    ensures Distinct(Next(c, s, step))
  {
    hide Next, Enabled, Sane, ClaimsDiffer, DistinctRows;
    var (n, t) := (Next(c, s, step), step.task);
    assert Sane(s, t);
    StepKeepsDistinctRows(c, s, step);
    forall u ensures Sane(n, u) {
      assert Sane(s, u) && ClaimsDiffer(s, u, t);
      if u == t { OwnStaysSane(c, s, step); } else { OthersStaySane(c, s, step, u); }
    }
    forall u, w ensures ClaimsDiffer(n, u, w) {
      assert Sane(s, u) && Sane(s, w) && ClaimsDiffer(s, u, w);
      assert ClaimsDiffer(s, t, u) && ClaimsDiffer(s, t, w) && ClaimsDiffer(s, u, t) && ClaimsDiffer(s, w, t);
      OtherClaims(c, s, step, u, w);
    }
  }

  lemma OtherClaims(c: Pool, s: State, step: Step, u: Task, w: Task)
    requires Enabled(s, step) && Sane(s, step.task) && Sane(s, u) && Sane(s, w) && ClaimsDiffer(s, u, w)
    requires ClaimsDiffer(s, step.task, u) && ClaimsDiffer(s, step.task, w) && ClaimsDiffer(s, u, step.task) &&
        ClaimsDiffer(s, w, step.task)
    ensures ClaimsDiffer(Next(c, s, step), u, w)
  {
    hide Next, Enabled, Sane;
    if u != w {
      if u == step.task {
        NewClaimDiffers(c, s, step, w);
      } else if w == step.task {
        NewClaimDiffers(c, s, step, u);
      } else {
        OthersStaySane(c, s, step, u);
        OthersStaySane(c, s, step, w);
      }
    }
  }

  /** Whatever interleaves, even requests on one node: pool rows hold distinct VIPs and no two requests
      claim one index. */
  lemma {:induction false} RunIsDistinct(c: Pool, steps: seq<Step>)
    ensures Distinct(Run(c, steps))
  {
    hide Next, Enabled, Distinct;
    if steps == [] {
      InitiallyDistinct();
    } else {
      var (before, step) := (Run(c, steps[..|steps| - 1]), steps[|steps| - 1]);
      RunIsDistinct(c, steps[..|steps| - 1]);
      if Enabled(before, step) {
        StepKeepsDistinct(c, before, step);
      }
    }
  }

  lemma InitiallyDistinct()
    ensures Distinct(INITIAL)
  {
  }

  // ----- who owns a VIP, when requests on one node do not overlap -----

  datatype Owner = ByTask(task: Task) | ByNode(node: Node)

  /** The node's VIP has been given back but its record is not deleted yet. */
  ghost predicate Released(s: State, n: Node) {
    exists t :: t in s.tasks && s.tasks[t].node == n && s.tasks[t].phase == Deleted
  }

  ghost function Owns(s: State, o: Owner): Option<int> {
    match o
    case ByTask(t) => if t in s.tasks && s.tasks[t].phase.Holding? then Some(s.tasks[t].phase.vip) else None
    case ByNode(n) => if n in s.nodes && !Released(s, n) then s.nodes[n] else None
  }

  ghost predicate UsedRow(rows: seq<Row>, v: int) {
    exists i :: 0 <= i < |rows| && rows[i] == Row(v, true)
  }

  /** Every owned VIP has a used row, every used row an owner, and no VIP two owners. */
  ghost predicate Exact(s: State) {
    && (forall o :: Owns(s, o).Some? ==> UsedRow(s.rows, Owns(s, o).value))
    && (forall v :: UsedRow(s.rows, v) ==> exists o :: Owns(s, o) == Some(v))
    && (forall o, p :: o != p && Owns(s, o).Some? ==> Owns(s, o) != Owns(s, p))
  }

  /** A request's phase and its node's record agree. */
  ghost predicate Coherent(s: State, t: Task) {
    t in s.tasks ==>
      var r := s.tasks[t];
      match r.phase
      case Deleting(found) => r.node in s.nodes && s.nodes[r.node] == found
      case Deleted => r.node in s.nodes
      case _ => (r.inserts || r.node in s.nodes) && (r.node in s.nodes ==> s.nodes[r.node] == None)
  }

  ghost predicate OneRequest(s: State, t: Task, u: Task) {
    t != u && t in s.tasks && u in s.tasks ==> s.tasks[t].node != s.tasks[u].node
  }

  ghost predicate Settled(s: State) {
    && (forall t :: Coherent(s, t))
    && (forall t, u :: OneRequest(s, t, u))
  }

  /** The step starts no request on a node that another request is working on. */
  ghost predicate Alone(s: State, step: Step) {
    step.Start? || step.StartDelete? ==> forall u :: u in s.tasks ==> s.tasks[u].node != step.node
  }

  ghost predicate Serialized(c: Pool, steps: seq<Step>) {
    steps != [] ==>
      var n := |steps| - 1;
      && Serialized(c, steps[..n])
      && (Enabled(Run(c, steps[..n]), steps[n]) ==> Alone(Run(c, steps[..n]), steps[n]))
  }

  lemma StepKeepsCoherent(c: Pool, s: State, step: Step, u: Task)
    requires Enabled(s, step) && Coherent(s, u) && OneRequest(s, step.task, u) && Alone(s, step)
    ensures Coherent(Next(c, s, step), u)
  {
    hide Available;
    match step
    case Start(t, n, inserts) => BeginCoherent(s, t, n, inserts, u); hide Next;
    case Store(t) => hide ReuseRow, GuardCount, SelectNext, InsertRow, ReleaseRow, Begin;
    case StartDelete(t, n) => hide ReuseRow, GuardCount, SelectNext, InsertRow, ReleaseRow, StoreVip, Begin;
    case _ => hide StoreVip, Begin;
  }

  lemma BeginCoherent(s: State, t: Task, n: Node, inserts: bool, u: Task)
    requires Enabled(s, Start(t, n, inserts)) && Coherent(s, u) && Alone(s, Start(t, n, inserts))
    ensures Coherent(Begin(s, t, n, inserts), u)
  {
  }

  lemma StepKeepsOneRequest(c: Pool, s: State, step: Step, u: Task, w: Task)
    requires Enabled(s, step) && OneRequest(s, u, w) && Alone(s, step)
    ensures OneRequest(Next(c, s, step), u, w)
  {
    hide Available;
  }

  lemma StepKeepsSettled(c: Pool, s: State, step: Step)
    requires Enabled(s, step) && Settled(s) && Alone(s, step)
    ensures Settled(Next(c, s, step))
  {
    hide Next, Enabled, Coherent, OneRequest, Alone;
    forall u ensures Coherent(Next(c, s, step), u) {
      assert Coherent(s, u) && OneRequest(s, step.task, u);
      StepKeepsCoherent(c, s, step, u);
    }
    forall u, w ensures OneRequest(Next(c, s, step), u, w) {
      assert OneRequest(s, u, w);
      StepKeepsOneRequest(c, s, step, u, w);
    }
  }

  // ----- the four ways ownership moves -----

  lemma Unmoved(s: State, t: State)
    requires Exact(s) && t.rows == s.rows && forall o :: Owns(t, o) == Owns(s, o)
    ensures Exact(t)
  {
    hide Owns, UsedRow;
  }

  lemma Taken(s: State, t: State, o: Owner, v: int)
    requires Exact(s) && !UsedRow(s.rows, v) && (forall w :: UsedRow(t.rows, w) <==> w == v || UsedRow(s.rows, w))
    requires Owns(s, o) == None && Owns(t, o) == Some(v) && forall p :: p != o ==> Owns(t, p) == Owns(s, p)
    ensures Exact(t)
  {
    hide Owns, UsedRow;
    forall w | UsedRow(t.rows, w) ensures exists p :: Owns(t, p) == Some(w) {
      if w != v {
        var p :| Owns(s, p) == Some(w);
        assert Owns(t, p) == Some(w);
      }
    }
  }

  lemma Moved(s: State, t: State, from: Owner, to: Owner, v: int)
    requires Exact(s) && t.rows == s.rows && from != to
    requires Owns(s, from) == Some(v) && Owns(t, from) == None && Owns(s, to) == None && Owns(t, to) == Some(v)
    requires forall p :: p != from && p != to ==> Owns(t, p) == Owns(s, p)
    ensures Exact(t)
  {
    hide Owns, UsedRow;
    forall w | UsedRow(t.rows, w) ensures exists p :: Owns(t, p) == Some(w) {
      var p :| Owns(s, p) == Some(w);
      assert Owns(t, if p == from then to else p) == Some(w);
    }
  }

  lemma Given(s: State, t: State, o: Owner, v: int)
    requires Exact(s) && (forall w :: UsedRow(t.rows, w) <==> w != v && UsedRow(s.rows, w))
    requires Owns(s, o) == Some(v) && Owns(t, o) == None && forall p :: p != o ==> Owns(t, p) == Owns(s, p)
    ensures Exact(t)
  {
    hide Owns, UsedRow;
    forall w | UsedRow(t.rows, w) ensures exists p :: Owns(t, p) == Some(w) {
      var p :| Owns(s, p) == Some(w);
      assert Owns(t, p) == Some(w);
    }
  }

  lemma NodeUnreleased(s: State, t: Task)
    requires Settled(s) && t in s.tasks && s.tasks[t].phase != Deleted
    ensures !Released(s, s.tasks[t].node)
  {
    hide Coherent;
    forall u | u in s.tasks && s.tasks[u].node == s.tasks[t].node
      ensures s.tasks[u].phase != Deleted
    {
      assert OneRequest(s, t, u);
    }
  }

  /** A change of t's phase that is neither to nor from Deleted releases nothing. */
  lemma SameReleased(s: State, n: State, t: Task, m: Node)
    requires forall u :: u != t ==> (u in n.tasks <==> u in s.tasks) && (u in s.tasks ==> n.tasks[u] == s.tasks[u])
    requires t in s.tasks ==> s.tasks[t].phase != Deleted || s.tasks[t].node != m
    requires t in n.tasks ==> n.tasks[t].phase != Deleted || n.tasks[t].node != m
    ensures Released(n, m) <==> Released(s, m)
  {
    if u :| u in n.tasks && n.tasks[u].node == m && n.tasks[u].phase == Deleted {
      assert s.tasks[u].phase == Deleted;
    }
    if u :| u in s.tasks && s.tasks[u].node == m && s.tasks[u].phase == Deleted {
      assert n.tasks[u].phase == Deleted;
    }
  }

  /** Steps that move no ownership. */
  predicate Neutral(c: Pool, s: State, step: Step)
    requires Enabled(s, step)
  {
    match step
    case Reuse(t) => s.rows[s.tasks[t].phase.row].used
    case Insert(t) => !Available(c, s.tasks[t].phase.idx)
    case Store(_) => false
    case Release(_) => false
    case Delete(_) => false
    case _ => true
  }

  lemma NeutralTasks(c: Pool, s: State, step: Step, u: Task)
    requires Enabled(s, step) && Neutral(c, s, step)
    ensures var n := Next(c, s, step);
      && n.rows == s.rows && Owns(n, ByTask(u)) == Owns(s, ByTask(u))
      && (u != step.task ==> (u in n.tasks <==> u in s.tasks) && (u in s.tasks ==> n.tasks[u] == s.tasks[u]))
      && (forall m :: (if m in n.nodes then n.nodes[m] else None) == if m in s.nodes then s.nodes[m] else None)
      && (u == step.task && u in s.tasks ==> s.tasks[u].phase != Deleted)
      && (u == step.task && u in n.tasks ==> n.tasks[u].phase != Deleted)
  {
    hide Available, Released;
  }

  lemma NeutralMovesNothing(c: Pool, s: State, step: Step)
    requires Enabled(s, step) && Neutral(c, s, step)
    ensures Next(c, s, step).rows == s.rows && forall o :: Owns(Next(c, s, step), o) == Owns(s, o)
  {
    hide Next, Enabled, Neutral;
    var n := Next(c, s, step);
    NeutralTasks(c, s, step, step.task);
    forall o ensures Owns(n, o) == Owns(s, o) {
      match o
      case ByTask(u) => NeutralTasks(c, s, step, u);
      case ByNode(m) =>
        forall u ensures u != step.task ==> (u in n.tasks <==> u in s.tasks) && (u in s.tasks ==>
            n.tasks[u] == s.tasks[u]) {
          NeutralTasks(c, s, step, u);
        }
        SameReleased(s, n, step.task, m);
    }
  }

  lemma ReuseTakes(s: State, t: Task)
    requires DistinctRows(s) && t in s.tasks && s.tasks[t].phase.Peeked? && s.tasks[t].phase.row < |s.rows|
    requires !s.rows[s.tasks[t].phase.row].used && Exact(s)
    ensures Exact(ReuseRow(s, t))
  {
    hide Exact;
    var (n, r) := (ReuseRow(s, t), s.tasks[t].phase.row);
    var v := s.rows[r].idx;
    assert n.rows[r] == Row(v, true);
    forall w ensures UsedRow(n.rows, w) <==> w == v || UsedRow(s.rows, w) {
      if i :| 0 <= i < |s.rows| && s.rows[i] == Row(w, true) {
        assert n.rows[i] == Row(w, true);
      }
    }
    assert !UsedRow(s.rows, v);
    forall p | p != ByTask(t) ensures Owns(n, p) == Owns(s, p) {
      if p.ByNode? {
        SameReleased(s, n, t, p.node);
      }
    }
    Taken(s, n, ByTask(t), v);
  }

  lemma InsertTakes(c: Pool, s: State, t: Task)
    requires Sane(s, t) && t in s.tasks && s.tasks[t].phase.Claimed? && Available(c, s.tasks[t].phase.idx)
    requires Exact(s)
    ensures Exact(InsertRow(c, s, t))
  {
    hide Exact, Available;
    var (n, v) := (InsertRow(c, s, t), s.tasks[t].phase.idx);
    assert n.rows[|s.rows|] == Row(v, true);
    forall w ensures UsedRow(n.rows, w) <==> w == v || UsedRow(s.rows, w) {
      if i :| 0 <= i < |s.rows| && s.rows[i] == Row(w, true) {
        assert n.rows[i] == Row(w, true);
      }
    }
    forall p | p != ByTask(t) ensures Owns(n, p) == Owns(s, p) {
      if p.ByNode? {
        SameReleased(s, n, t, p.node);
      }
    }
    Taken(s, n, ByTask(t), v);
  }

  /** Storing and releasing are safe when the node's record is as the request has read it: still there,
      without a VIP, for an assignment, and with the VIP found, or already without any, for a delete. */
  ghost predicate Safe(s: State, step: Step)
    requires Enabled(s, step)
  {
    match step
    case Store(t) =>
      var r := s.tasks[t];
      (r.inserts || r.node in s.nodes) && (r.node in s.nodes ==> s.nodes[r.node] == None) && !Released(s, r.node)
    case Release(t) =>
      var (held, found) := (Owns(s, ByNode(s.tasks[t].node)), s.tasks[t].phase.found);
      held == found || (held == None && !UsedRow(s.rows, found.value))
    case _ => true
  }

  /** A used row that nobody owns any more. */
  lemma Orphaned(t: State, v: int)
    requires UsedRow(t.rows, v) && forall p :: Owns(t, p) != Some(v)
    ensures !Exact(t)
  {
    hide Owns, UsedRow;
  }

  /** An owner whose row has been given away. */
  lemma Robbed(t: State, p: Owner)
    requires Owns(t, p).Some? && !UsedRow(t.rows, Owns(t, p).value)
    ensures !Exact(t)
  {
    hide Owns, UsedRow;
  }

  /** Who owns what after a request has stored its VIP. */
  lemma StoreOwners(s: State, t: Task)
    requires t in s.tasks && s.tasks[t].phase.Holding?
    ensures var (n, m, v) := (StoreVip(s, t), s.tasks[t].node, s.tasks[t].phase.vip);
      && n.rows == s.rows && Owns(s, ByTask(t)) == Some(v) && Owns(n, ByTask(t)) == None
      && (forall p :: p != ByTask(t) && p != ByNode(m) ==> Owns(n, p) == Owns(s, p))
      && Owns(n, ByNode(m)) ==
         if Released(s, m) then None else if s.tasks[t].inserts || m in s.nodes then Some(v) else Owns(s, ByNode(m))
  {
    var (n, m, v) := (StoreVip(s, t), s.tasks[t].node, s.tasks[t].phase.vip);
    SameReleased(s, n, t, m);
    forall p | p != ByTask(t) && p != ByNode(m) ensures Owns(n, p) == Owns(s, p) {
      if p.ByNode? {
        SameReleased(s, n, t, p.node);
      }
    }
  }

  lemma StoreIff(s: State, t: Task)
    requires t in s.tasks && s.tasks[t].phase.Holding? && Exact(s)
    ensures Exact(StoreVip(s, t)) <==> Safe(s, Store(t))
  {
    var (n, m, v) := (StoreVip(s, t), s.tasks[t].node, s.tasks[t].phase.vip);
    StoreOwners(s, t);
    SoleOwner(s, ByTask(t));
    if Safe(s, Store(t)) {
      assert Owns(s, ByNode(m)) == None;
      hide Exact, Owns, UsedRow, Released, StoreVip;
      Moved(s, n, ByTask(t), ByNode(m), v);
    } else if Owns(n, ByNode(m)) == Some(v) {
      StoreOverwrites(s, t);
    } else {
      hide Exact, Owns, UsedRow, Released, StoreVip, Safe;
      Orphaned(n, v);
    }
  }

  /** The node had a VIP already: its row has no owner any more. */
  lemma StoreOverwrites(s: State, t: Task)
    requires t in s.tasks && s.tasks[t].phase.Holding? && Exact(s) && !Safe(s, Store(t))
    requires Owns(StoreVip(s, t), ByNode(s.tasks[t].node)) == Some(s.tasks[t].phase.vip)
    ensures !Exact(StoreVip(s, t))
  {
    var (n, m) := (StoreVip(s, t), s.tasks[t].node);
    StoreOwners(s, t);
    assert Owns(s, ByNode(m)).Some?;
    hide Exact, Owns, UsedRow, Released, StoreVip, Safe;
    SoleOwner(s, ByNode(m));
    SoleOwner(s, ByTask(t));
    Orphaned(n, Owns(s, ByNode(m)).value);
  }

  /** Who owns what, and which rows are used, after a delete has given the VIP back. */
  lemma ReleaseOwners(s: State, t: Task)
    requires t in s.tasks && s.tasks[t].phase.Deleting?
    ensures var (n, m, found) := (ReleaseRow(s, t), s.tasks[t].node, s.tasks[t].phase.found);
      && Owns(n, ByNode(m)) == None && (forall p :: p != ByNode(m) ==> Owns(n, p) == Owns(s, p))
      && (forall w :: UsedRow(n.rows, w) <==> Some(w) != found && UsedRow(s.rows, w))
      && (found == None ==> n.rows == s.rows)
  {
    var (n, m, found) := (ReleaseRow(s, t), s.tasks[t].node, s.tasks[t].phase.found);
    assert n.tasks[t].phase == Deleted && Released(n, m);
    forall w ensures UsedRow(n.rows, w) <==> Some(w) != found && UsedRow(s.rows, w) {
      if i :| 0 <= i < |s.rows| && s.rows[i] == Row(w, true) {
        assert Some(w) != found ==> n.rows[i] == Row(w, true);
      }
      if i :| 0 <= i < |n.rows| && n.rows[i] == Row(w, true) {
        assert s.rows[i] == Row(w, true);
      }
    }
    forall p | p != ByNode(m) ensures Owns(n, p) == Owns(s, p) {
      if p.ByNode? {
        SameReleased(s, n, t, p.node);
      }
    }
  }

  /** Nothing changes hands: the same used rows, the same owners. */
  lemma SameUse(s: State, t: State)
    requires Exact(s)
    requires (forall w :: UsedRow(t.rows, w) <==> UsedRow(s.rows, w)) && forall o :: Owns(t, o) == Owns(s, o)
    ensures Exact(t)
  {
    hide Owns, UsedRow;
  }

  lemma ReleaseIff(s: State, t: Task)
    requires t in s.tasks && s.tasks[t].phase.Deleting? && Exact(s)
    ensures Exact(ReleaseRow(s, t)) <==> Safe(s, Release(t))
  {
    var (n, m, found) := (ReleaseRow(s, t), s.tasks[t].node, s.tasks[t].phase.found);
    var held := Owns(s, ByNode(m));
    ReleaseOwners(s, t);
    assert Safe(s, Release(t)) <==> held == found || (held == None && !UsedRow(s.rows, found.value));
    hide Exact, Owns, UsedRow, Released, ReleaseRow, Safe;
    if held.Some? {
      SoleOwner(s, ByNode(m));
      if held == found {
        Given(s, n, ByNode(m), held.value);
      } else {
        Orphaned(n, held.value);
      }
    } else if found == None || !UsedRow(s.rows, found.value) {
      SameUse(s, n);
    } else {
      var p := OwnerOf(s, found.value);
      Robbed(n, p);
    }
  }

  lemma OwnerOf(s: State, v: int) returns (p: Owner)
    requires Exact(s) && UsedRow(s.rows, v)
    ensures Owns(s, p) == Some(v)
  {
    hide Owns, UsedRow;
    p :| Owns(s, p) == Some(v);
  }

  lemma DeleteMovesNothing(s: State, t: Task)
    requires t in s.tasks && s.tasks[t].phase == Deleted
    ensures DeleteNode(s, t).rows == s.rows && forall o :: Owns(DeleteNode(s, t), o) == Owns(s, o)
  {
    var (n, m) := (DeleteNode(s, t), s.tasks[t].node);
    assert Released(s, m);
    forall o ensures Owns(n, o) == Owns(s, o) {
      if o.ByNode? && o.node != m {
        SameReleased(s, n, t, o.node);
      }
    }
  }

  /** Exactly the safe steps keep used rows and owners in step, whatever else is under way. */
  lemma ExactIff(c: Pool, s: State, step: Step)
    requires Enabled(s, step) && Distinct(s) && Exact(s)
    ensures Exact(Next(c, s, step)) <==> Safe(s, step)
  {
    assert Sane(s, step.task) && DistinctRows(s);
    hide Exact, Distinct, Sane, DistinctRows, Available, Owns, UsedRow, Released,
         ReuseRow, InsertRow, StoreVip, ReleaseRow, DeleteNode, SetPhase;
    if Neutral(c, s, step) {
      NeutralMovesNothing(c, s, step);
      Unmoved(s, Next(c, s, step));
    } else {
      match step
      case Reuse(t) => ReuseTakes(s, t);
      case Insert(t) => InsertTakes(c, s, t);
      case Store(t) => StoreIff(s, t);
      case Release(t) => ReleaseIff(s, t);
      case Delete(t) => DeleteMovesNothing(s, t); Unmoved(s, DeleteNode(s, t));
    }
  }

  ghost predicate AlwaysExact(c: Pool, steps: seq<Step>) {
    Exact(Run(c, steps)) && (steps != [] ==> AlwaysExact(c, steps[..|steps| - 1]))
  }

  ghost predicate AlwaysSafe(c: Pool, steps: seq<Step>) {
    steps != [] ==>
      var n := |steps| - 1;
      && AlwaysSafe(c, steps[..n])
      && (Enabled(Run(c, steps[..n]), steps[n]) ==> Safe(Run(c, steps[..n]), steps[n]))
  }

  /** For every run, requests overlapping in any way: the VIPs of the nodes and of the requests under way
      are throughout exactly the used rows, each owned once, if and only if every store and every release
      meets the record it has read. */
  lemma {:induction false} RunIsExactIff(c: Pool, steps: seq<Step>)
    ensures AlwaysExact(c, steps) <==> AlwaysSafe(c, steps)
    decreases |steps|
  {
    hide Next, Enabled, Exact, Safe;
    if steps == [] {
      InitiallyExact();
    } else {
      var (before, step) := (Run(c, steps[..|steps| - 1]), steps[|steps| - 1]);
      RunIsExactIff(c, steps[..|steps| - 1]);
      RunIsDistinct(c, steps[..|steps| - 1]);
      NowExact(c, steps[..|steps| - 1]);
      if Enabled(before, step) && Exact(before) {
        ExactIff(c, before, step);
      }
    }
  }

  lemma NowExact(c: Pool, steps: seq<Step>)
    ensures AlwaysExact(c, steps) ==> Exact(Run(c, steps))
  {
    hide Exact, Run;
  }

  /** Requests that do not overlap on a node meet the records they have read. */
  lemma SettledIsSafe(s: State, step: Step)
    requires Enabled(s, step) && Settled(s)
    ensures Safe(s, step)
  {
    assert Coherent(s, step.task);
    if step.Store? || step.Release? {
      NodeUnreleased(s, step.task);
    }
  }

  lemma {:induction false} SerializedIsSafe(c: Pool, steps: seq<Step>)
    requires Serialized(c, steps)
    ensures Settled(Run(c, steps)) && AlwaysSafe(c, steps)
    decreases |steps|
  {
    hide Next, Enabled, Settled, Exact, Safe, Alone;
    if steps == [] {
      InitiallyExact();
    } else {
      var (before, step) := (Run(c, steps[..|steps| - 1]), steps[|steps| - 1]);
      SerializedIsSafe(c, steps[..|steps| - 1]);
      if Enabled(before, step) {
        StepKeepsSettled(c, before, step);
        SettledIsSafe(before, step);
      }
    }
  }

  /** In particular when requests on one node do not overlap at all. */
  lemma RunIsExact(c: Pool, steps: seq<Step>)
    requires Serialized(c, steps)
    ensures Settled(Run(c, steps)) && Exact(Run(c, steps))
  {
    hide Run, Settled, Exact, Serialized, AlwaysExact, AlwaysSafe;
    SerializedIsSafe(c, steps);
    RunIsExactIff(c, steps);
    NowExact(c, steps);
  }

  lemma InitiallyExact()
    ensures Settled(INITIAL) && Exact(INITIAL)
  {
  }

  lemma SoleOwner(s: State, o: Owner)
    requires Exact(s) && Owns(s, o).Some?
    ensures UsedRow(s.rows, Owns(s, o).value) && forall p :: p != o ==> Owns(s, p) != Owns(s, o)
  {
    hide Owns, UsedRow;
  }

  // ----- runs in which requests on one node overlap -----

  ghost predicate Reached(c: Pool, s: State) {
    exists steps :: s == Run(c, steps)
  }

  lemma Onward(c: Pool, s: State, step: Step)
    requires Reached(c, s) && Enabled(s, step)
    ensures Reached(c, Next(c, s, step))
  {
    hide Next, Enabled;
    var steps :| s == Run(c, steps);
    assert (steps + [step])[..|steps + [step]| - 1] == steps;
    assert Next(c, s, step) == Run(c, steps + [step]);
  }

  /** A request alone at the counter gets the first usable index. */
  lemma {:induction false} ReachesFresh(c: Pool, s: State, t: Task)
    requires Reached(c, s) && t in s.tasks && s.tasks[t].phase == Guarding(s.ipIndex)
    requires Fresh(c, s.ipIndex, s.ipIndex).Some?
    ensures var v := Fresh(c, s.ipIndex, s.ipIndex).value;
      Reached(c, SetPhase(s, t, Holding(v)).(rows := s.rows + [Row(v, true)], ipIndex := v))
    decreases c.count + 1 - s.ipIndex
  {
    hide Reached, Available;
    var k := s.ipIndex;
    Onward(c, s, Guard(t));
    var selecting := SetPhase(s, t, Selecting(k));
    Onward(c, selecting, Select(t));
    var claimed := SetPhase(s, t, Claimed(k + 1)).(ipIndex := k + 1);
    assert SelectNext(selecting, t) == claimed;
    Onward(c, claimed, Insert(t));
    var next := InsertRow(c, claimed, t);
    if Available(c, k + 1) {
      assert next == SetPhase(s, t, Holding(k + 1)).(rows := s.rows + [Row(k + 1, true)], ipIndex := k + 1);
    } else {
      assert next == SetPhase(s, t, Guarding(k + 1)).(ipIndex := k + 1);
      ReachesFresh(c, next, t);
      var v := Fresh(c, k, k).value;
      assert SetPhase(next, t, Holding(v)).(rows := s.rows + [Row(v, true)], ipIndex := v)
          == SetPhase(s, t, Holding(v)).(rows := s.rows + [Row(v, true)], ipIndex := v);
    }
  }

  /** The first registration of all, up to the point where it holds its VIP. */
  lemma ReachesHolding(c: Pool, n: Node, t: Task) returns (v: int)
    requires Fresh(c, -1, -1).Some?
    ensures Reached(c, State([Row(v, true)], v, map[n := None], map[t := Request(n, false, Holding(v))]))
  {
    hide Reached, Fresh;
    v := Fresh(c, -1, -1).value;
    StartReached(c);
    Onward(c, INITIAL, Start(t, n, false));
    var s1 := Begin(INITIAL, t, n, false);
    Onward(c, s1, NothingToReuse(t));
    var s2 := SetPhase(s1, t, Guarding(-1));
    ReachesFresh(c, s2, t);
    assert SetPhase(s2, t, Holding(v)).(rows := s2.rows + [Row(v, true)], ipIndex := v)
        == State([Row(v, true)], v, map[n := None], map[t := Request(n, false, Holding(v))]);
  }

  lemma StartReached(c: Pool)
    ensures Reached(c, INITIAL)
  {
    assert Run(c, []) == INITIAL;
  }

  /** Deleting a node whose registration holds a VIP it has not stored yet: the run ends with a used row
      that nobody owns. */
  lemma DeleteDuringRegistrationLeaks(c: Pool) returns (s: State, v: int)
    requires Fresh(c, -1, -1).Some?
    ensures Reached(c, s) && UsedRow(s.rows, v) && s.tasks == map[] && forall o :: Owns(s, o) == None
  {
    hide Reached, Fresh;
    var (n, t, d) := (0, 0, 1);
    v := ReachesHolding(c, n, t);
    var holding := Request(n, false, Holding(v));
    var s0 := State([Row(v, true)], v, map[n := None], map[t := holding]);
    Onward(c, s0, StartDelete(d, n));
    var s1 := s0.(tasks := map[t := holding, d := Request(n, false, Deleting(None))]);
    assert s0.tasks[d := Request(n, false, Deleting(None))] == s1.tasks;
    Onward(c, s1, Release(d));
    var s2 := ReleaseRow(s1, d);
    Onward(c, s2, Delete(d));
    var s3 := s0.(nodes := map[]);
    assert DeleteNode(s2, d) == s3;
    Onward(c, s3, Store(t));
    s := s3.(tasks := map[]);
    assert StoreVip(s3, t) == s;
    assert s.rows[0] == Row(v, true);
  }

  /** Two deletes of one node give its VIP back twice; the second takes it from the request that reused
      it in between, and the run ends with two requests holding it. */
  lemma OverlappingDeletesShareVip(c: Pool) returns (s: State, x: Task, y: Task)
    requires Fresh(c, -1, -1).Some?
    ensures Reached(c, s) && x != y && Owns(s, ByTask(x)).Some? && Owns(s, ByTask(x)) == Owns(s, ByTask(y))
  {
    hide Reached, Fresh, ReleaseRow, Next, Enabled;
    var v := TwoDeletes(c, 0);
    var s0 := State([Row(v, true)], v, map[0 := Some(v)], map[1 := BothDelete(v), 2 := BothDelete(v)]);
    var s1 := ReleasesFirstRow(c, s0, 1, v);
    var s2 := ReusesFirstRow(c, s1, 3, 7, v);
    var s3 := ReleasesFirstRow(c, s2, 2, v);
    s := ReusesFirstRow(c, s3, 4, 8, v);
    x, y := 3, 4;
  }

  function BothDelete(v: int): Request {
    Request(0, false, Deleting(Some(v)))
  }

  lemma TwoDeletes(c: Pool, n: Node) returns (v: int)
    requires Fresh(c, -1, -1).Some? && n == 0
    ensures Reached(c, State([Row(v, true)], v, map[n := Some(v)], map[1 := BothDelete(v), 2 := BothDelete(v)]))
  {
    hide Reached, Fresh;
    v := ReachesHolding(c, n, 0);
    var s0 := State([Row(v, true)], v, map[n := None], map[0 := Request(n, false, Holding(v))]);
    Onward(c, s0, Store(0));
    var s1 := State([Row(v, true)], v, map[n := Some(v)], map[]);
    assert StoreVip(s0, 0) == s1;
    Onward(c, s1, StartDelete(1, n));
    var s2 := s1.(tasks := map[1 := BothDelete(v)]);
    assert Next(c, s1, StartDelete(1, n)) == s2;
    Onward(c, s2, StartDelete(2, n));
    assert s2.tasks[2 := BothDelete(v)] == map[1 := BothDelete(v), 2 := BothDelete(v)];
  }

  lemma ReleasesFirstRow(c: Pool, s: State, t: Task, v: int) returns (n: State)
    requires Reached(c, s) && t in s.tasks && s.tasks[t] == BothDelete(v) && s.rows == [Row(v, true)]
    ensures Reached(c, n) && n.rows == [Row(v, false)] && n.nodes == s.nodes
    ensures n.tasks == s.tasks[t := s.tasks[t].(phase := Deleted)]
  {
    hide Reached;
    Onward(c, s, Release(t));
    n := ReleaseRow(s, t);
  }

  /** A registration of a new node that finds the first row unused takes it. */
  lemma ReusesFirstRow(c: Pool, s: State, t: Task, m: Node, v: int) returns (n: State)
    requires Reached(c, s) && t !in s.tasks && m !in s.nodes && s.rows == [Row(v, false)]
    ensures Reached(c, n) && n.rows == [Row(v, true)] && n.nodes == s.nodes[m := None]
    ensures n.tasks == s.tasks[t := Request(m, false, Holding(v))]
  {
    hide Reached;
    Onward(c, s, Start(t, m, false));
    var s1 := Begin(s, t, m, false);
    Onward(c, s1, Peek(t, 0));
    var s2 := SetPhase(s1, t, Peeked(s.ipIndex, 0));
    Onward(c, s2, Reuse(t));
    n := ReuseRow(s2, t);
  }

  // ----- how far the counter runs -----

  /** A request that may still advance the counter. */
  predicate Stale(c: Pool, r: Request) {
    match r.phase
    case Reusing(seen) => seen <= c.count
    case Peeked(seen, _) => seen <= c.count
    case Guarding(seen) => seen <= c.count
    case Selecting(_) => true
    case Claimed(idx) => idx <= c.count
    case _ => false
  }

  function StaleTasks(c: Pool, s: State): set<Task> {
    set t | t in s.tasks && Stale(c, s.tasks[t])
  }

  /** Beyond the pool every further advance uses up a request that was under way when the pool ended. */
  ghost predicate Limited(c: Pool, s: State, m: nat) {
    s.ipIndex > c.count ==> s.ipIndex + |StaleTasks(c, s)| <= c.count + m
  }

  /** Never more than m requests at once. */
  ghost predicate AtMost(c: Pool, steps: seq<Step>, m: nat) {
    && |Run(c, steps).tasks| <= m
    && (steps != [] ==> AtMost(c, steps[..|steps| - 1], m))
  }

  lemma StaleBefore(c: Pool, s: State, step: Step, t: Task)
    requires Enabled(s, step) && Next(c, s, step).ipIndex == s.ipIndex > c.count
    requires t in Next(c, s, step).tasks && Stale(c, Next(c, s, step).tasks[t])
    ensures t in s.tasks && Stale(c, s.tasks[t])
  {
    hide Available;
  }

  lemma Advancing(c: Pool, s: State, step: Step)
    requires Enabled(s, step) && Next(c, s, step).ipIndex != s.ipIndex
    ensures step.Select? && step.task in s.tasks && s.tasks[step.task].phase == Selecting(s.ipIndex)
    ensures Next(c, s, step) == SetPhase(s, step.task, Claimed(s.ipIndex + 1)).(ipIndex := s.ipIndex + 1)
  {
    hide Available;
  }

  lemma Fewer(a: set<Task>, b: set<Task>)
    requires a <= b
    ensures |a| <= |b|
  {
    assert b == a + (b - a);
  }

  lemma StepKeepsLimit(c: Pool, s: State, step: Step, m: nat)
    requires Enabled(s, step) && Limited(c, s, m) && |s.tasks| <= m
    ensures Limited(c, Next(c, s, step), m)
  {
    hide Next, Enabled, Stale;
    var n := Next(c, s, step);
    if n.ipIndex == s.ipIndex {
      if s.ipIndex > c.count {
        forall t | t in StaleTasks(c, n) ensures t in StaleTasks(c, s) {
          StaleBefore(c, s, step, t);
        }
        Fewer(StaleTasks(c, n), StaleTasks(c, s));
      }
    } else {
      Advancing(c, s, step);
      AdvanceUsesUp(c, s, step.task);
      Fewer(StaleTasks(c, s), s.tasks.Keys);
    }
  }

  lemma AdvanceUsesUp(c: Pool, s: State, t: Task)
    requires t in s.tasks && s.tasks[t].phase == Selecting(s.ipIndex)
    ensures var n := s.(tasks := s.tasks[t := s.tasks[t].(phase := Claimed(s.ipIndex + 1))], ipIndex := s.ipIndex + 1);
      s.ipIndex + 1 > c.count ==> |StaleTasks(c, n)| == |StaleTasks(c, s)| - 1
  {
    var n := s.(tasks := s.tasks[t := s.tasks[t].(phase := Claimed(s.ipIndex + 1))], ipIndex := s.ipIndex + 1);
    if s.ipIndex + 1 > c.count {
      assert t in StaleTasks(c, s);
      assert StaleTasks(c, n) == StaleTasks(c, s) - {t};
    }
  }

  /** With at most m requests at once the counter never passes count + m, so at most m + 1 indexes
      outside the pool are ever handed out. */
  lemma {:induction false} CounterBound(c: Pool, steps: seq<Step>, m: nat)
    requires AtMost(c, steps, m)
    ensures Limited(c, Run(c, steps), m) && Run(c, steps).ipIndex <= c.count + m
    ensures forall i :: 0 <= i < |Run(c, steps).rows| ==> 0 <= Run(c, steps).rows[i].idx <= c.count + m
  {
    hide Next, Enabled, StaleTasks;
    RunIsDistinct(c, steps);
    if steps != [] {
      var (before, step) := (Run(c, steps[..|steps| - 1]), steps[|steps| - 1]);
      CounterBound(c, steps[..|steps| - 1], m);
      if Enabled(before, step) {
        StepKeepsLimit(c, before, step, m);
      }
    }
  }

  // ----- indexes and VIPs -----

  lemma ContainsByValue(c: D.Cidr, ip: string)
    requires D.Valid(c) && IsIp(ip)
    ensures D.Contains(c, ip) <==> D.Base(c) <= Ip2Long(ip) < D.Base(c) + D.CalcCount(c.maskBits)
  {
    hide Ip2Long, IsIp, D.Base, D.CalcCount, D.Valid;
  }

  lemma Wraps(base: int, i: int, j: int)
    requires 0 <= base < ADDRESS_COUNT && 0 <= i < ADDRESS_COUNT && 0 <= j < ADDRESS_COUNT
    ensures (base + i) % ADDRESS_COUNT == if base + i < ADDRESS_COUNT then base + i else base + i - ADDRESS_COUNT
    ensures (base + j) % ADDRESS_COUNT == if base + j < ADDRESS_COUNT then base + j else base + j - ADDRESS_COUNT
  {
  }

  /** Indexes below 2^32 name different VIPs, and the VIP is in the block exactly below count. */
  lemma IndexNamesVip(c: D.Cidr, i: int, j: int)
    requires D.Valid(c)
    requires 0 <= i < ADDRESS_COUNT && 0 <= j < ADDRESS_COUNT
    ensures D.GenIpByIdx(c, i) == D.GenIpByIdx(c, j) ==> i == j
    ensures IsIp(D.GenIpByIdx(c, i)) && (D.Contains(c, D.GenIpByIdx(c, i)) <==> i < c.count)
  {
    hide *;
    CountOf(c);
    D.BaseBounds(c);
    ValueByIdx(c, i);
    ValueByIdx(c, j);
    ContainsByValue(c, D.GenIpByIdx(c, i));
    Wraps(D.Base(c), i, j);
  }

  lemma CountOf(c: D.Cidr)
    requires D.Valid(c)
    ensures c.count == D.CalcCount(c.maskBits)
  {
  }

  lemma ValueByIdx(c: D.Cidr, i: int)
    requires D.Valid(c)
    ensures IsIp(D.GenIpByIdx(c, i)) && Ip2Long(D.GenIpByIdx(c, i)) == (D.Base(c) + i) % ADDRESS_COUNT
  {
    hide Int2Ip, Ip2Long, IsIp, IsCanonicalIp, D.Base, D.Valid;
    LongRoundTrip(D.Base(c) + i);
    IsIpOf(D.Base(c) + i);
  }

  /** Inside the block the allocator accepts an index exactly when its address is in the list of available
      addresses the local configuration starts from. */
  lemma PoolMatchesList(c: D.Cidr, i: int)
    requires D.Valid(c) && 0 <= i < c.count
    ensures Available(PoolOf(c), i)
       <==> D.GenIpByIdx(c, i) in D.Filter(D.AllIps(c), ip => D.IsAvailableIp(c, ip))
  {
    hide Int2Ip, Ip2Long, IsIp, D.Valid, D.IsAvailableIp, D.IpRange, D.Filter, D.CalcCount, PoolOf, Available;
    var (p, ip) := (PoolOf(c), D.GenIpByIdx(c, i));
    assert D.AllIps(c)[i] == ip;
    D.FilterKeeps(D.AllIps(c), ip => D.IsAvailableIp(c, ip), ip);
  }

  lemma IsIpOf(n: int)
    ensures IsIp(Int2Ip(n))
  {
    hide Int2Ip, Ip2Long;
    LongRoundTrip(n);
  }

  // ----- one request undisturbed -----

  /** The index a request gets that last saw the counter at `seen` while it stands at `stored`. */
  function Fresh(c: Pool, seen: int, stored: int): Option<int>
    requires seen <= stored
    decreases if seen > c.count then 0 else c.count + 1 - seen
  {
    if seen > c.count then None
    else if Available(c, stored + 1) then Some(stored + 1)
    else Fresh(c, stored + 1, stored + 1)
  }

  /** Where the counter stands afterwards. */
  function FreshCounter(c: Pool, seen: int, stored: int): int
    requires seen <= stored
    decreases if seen > c.count then 0 else c.count + 1 - seen
  {
    if seen > c.count then stored
    else if Available(c, stored + 1) then stored + 1
    else FreshCounter(c, stored + 1, stored + 1)
  }

  ghost predicate SomeAvailable(c: Pool, from: int, to: int) {
    exists i :: from < i < to && Available(c, i)
  }

  /** Undisturbed, a request fails exactly when no index above the counter up to count + 1 is usable,
      and its VIP lies in the pool exactly when a usable index of the pool was left. */
  lemma {:induction false} FreshIsFirst(c: Pool, k: int)
    ensures Fresh(c, k, k) == None <==> !SomeAvailable(c, k, c.count + 2)
    ensures var f := Fresh(c, k, k);
      f.Some? ==> k < f.value <= c.count + 1 && Available(c, f.value) && !SomeAvailable(c, k, f.value)
    ensures var f := Fresh(c, k, k); f.Some? && f.value < c.count <==> SomeAvailable(c, k, c.count)
    ensures var f := Fresh(c, k, k);
      FreshCounter(c, k, k) == if f.Some? then f.value else if k > c.count then k else c.count + 1
    decreases if k > c.count then 0 else c.count + 1 - k
  {
    hide Available;
    if k <= c.count && !Available(c, k + 1) {
      FreshIsFirst(c, k + 1);
      SkipUnavailable(c, k, c.count + 2);
      SkipUnavailable(c, k, c.count);
      if Fresh(c, k + 1, k + 1).Some? {
        SkipUnavailable(c, k, Fresh(c, k + 1, k + 1).value);
      }
    }
  }

  lemma SkipUnavailable(c: Pool, k: int, to: int)
    requires !Available(c, k + 1)
    ensures SomeAvailable(c, k, to) <==> SomeAvailable(c, k + 1, to)
  {
    hide Available;
  }

  /** With the guard on the index about to be taken. */
  function GuardedFresh(c: Pool, k: int): Option<int>
    decreases if k + 1 >= c.count then 0 else c.count - k
  {
    if k + 1 >= c.count then None
    else if Available(c, k + 1) then Some(k + 1)
    else GuardedFresh(c, k + 1)
  }

  /** That guard gives up exactly the indexes outside the pool. */
  lemma {:induction false} GuardedFreshIsExact(c: Pool, k: int)
    ensures var f := Fresh(c, k, k);
      GuardedFresh(c, k) == if f.Some? && f.value < c.count then f else None
    decreases if k > c.count then 0 else c.count + 1 - k
  {
    hide Available;
    if k <= c.count && !Available(c, k + 1) {
      GuardedFreshIsExact(c, k + 1);
    } else if k <= c.count {
      assert GuardedFresh(c, k) == if k + 1 >= c.count then None else Some(k + 1);
    }
    if k + 1 >= c.count && k <= c.count {
      FreshIsFirst(c, k);
    }
  }

  /** A pool of at least four addresses that is used up hands out two addresses beyond its block. */
  lemma TwoBeyondThePool(c: D.Cidr)
    requires D.Valid(c) && c.count >= 4 && c.count + 1 < ADDRESS_COUNT
    requires c.maskAddress != D.GenIpByIdx(c, c.count) && c.maskAddress != D.GenIpByIdx(c, c.count + 1)
    ensures Fresh(PoolOf(c), c.count - 1, c.count - 1) == Some(c.count)
    ensures Fresh(PoolOf(c), c.count, c.count) == Some(c.count + 1)
    ensures Fresh(PoolOf(c), c.count + 1, c.count + 1) == None
    ensures IsIp(D.GenIpByIdx(c, c.count)) && !D.Contains(c, D.GenIpByIdx(c, c.count))
    ensures IsIp(D.GenIpByIdx(c, c.count + 1)) && !D.Contains(c, D.GenIpByIdx(c, c.count + 1))
  {
    hide D.Contains, Int2Ip, IsIp, Ip2Long, PoolOf, Available;
    ReservedIndexes(c);
    forall i | i == c.count || i == c.count + 1
      ensures Available(PoolOf(c), i) && IsIp(D.GenIpByIdx(c, i)) && !D.Contains(c, D.GenIpByIdx(c, i))
    {
      IndexNamesVip(c, i, 0);
      IndexNamesVip(c, i, 1);
      IndexNamesVip(c, i, c.count - 1);
    }
    hide D.Valid, D.GenIpByIdx;
  }

  lemma ReservedIndexes(c: D.Cidr)
    requires D.Valid(c)
    ensures c.networkIdentifier == D.GenIpByIdx(c, 0) && c.gatewayAddress == D.GenIpByIdx(c, 1)
    ensures c.broadcastAddress == D.GenIpByIdx(c, c.count - 1)
  {
    hide Int2Ip, Ip2Long, IsIp, D.IdentifierAddress;
  }

  // ----- the service -----

  ghost predicate Reachable(c: Pool, s: State) {
    exists steps :: Serialized(c, steps) && s == Run(c, steps)
  }

  lemma Extend(c: Pool, s: State, step: Step)
    requires Reachable(c, s) && Enabled(s, step) && Alone(s, step)
    ensures Reachable(c, Next(c, s, step))
  {
    hide Next, Enabled, Alone;
    var steps :| Serialized(c, steps) && s == Run(c, steps);
    assert (steps + [step])[..|steps + [step]| - 1] == steps;
    assert Serialized(c, steps + [step]);
    assert Next(c, s, step) == Run(c, steps + [step]);
  }

  lemma ReachableInvariant(c: Pool, s: State)
    requires Reachable(c, s)
    ensures Distinct(s) && Settled(s) && Exact(s)
  {
    hide Distinct, Settled, Exact, Run;
    var steps :| Serialized(c, steps) && s == Run(c, steps);
    RunIsDistinct(c, steps);
    RunIsExact(c, steps);
  }

  lemma ReachableSane(c: Pool, s: State, t: Task)
    requires Reachable(c, s)
    ensures Sane(s, t)
  {
    hide Reachable, Settled, Exact, Sane;
    ReachableInvariant(c, s);
  }

  lemma GuardReaches(c: Pool, s: State, t: Task)
    requires Reachable(c, s) && t in s.tasks && s.tasks[t].phase.Guarding?
    ensures Reachable(c, GuardCount(c, s, t))
  {
    hide Reachable, GuardCount;
    Extend(c, s, Guard(t));
  }

  lemma InsertReaches(c: Pool, s: State, t: Task)
    requires Reachable(c, s) && t in s.tasks && s.tasks[t].phase.Claimed?
    ensures Reachable(c, InsertRow(c, s, t))
  {
    hide Reachable, InsertRow;
    Extend(c, s, Insert(t));
  }

  predicate AllUsed(rows: seq<Row>) {
    forall i :: 0 <= i < |rows| ==> rows[i].used
  }

  /** One unused row with this VIP is now used. */
  ghost predicate Reused(before: seq<Row>, after: seq<Row>, vip: int) {
    exists r :: 0 <= r < |before| && before[r] == Row(vip, false) && after == before[r := Row(vip, true)]
  }

  lemma ReusedWasUnused(before: seq<Row>, after: seq<Row>, vip: int)
    requires Reused(before, after, vip)
    ensures !AllUsed(before)
  {
  }

  predicate HasVip(nodes: map<Node, Option<int>>, n: Node) {
    n in nodes && nodes[n].Some?
  }

  /** Each method executes its request's statements with nothing in between; the requests under way
      elsewhere (`tasks`) may be anywhere in theirs. */
  class NodeServiceImpl {
    const pool: Pool
    var rows: seq<Row>
    var ipIndex: int
    var nodes: map<Node, Option<int>>
    ghost var tasks: map<Task, Request>

    constructor (pool: Pool)
      ensures this.pool == pool && St() == INITIAL && Valid()
    {
      this.pool := pool;
      rows, ipIndex, nodes, tasks := [], -1, map[], map[];
      new;
      assert Serialized(pool, []) && Run(pool, []) == INITIAL;
    }

    ghost function St(): State
      reads this
    {
      State(rows, ipIndex, nodes, tasks)
    }

    ghost predicate Valid()
      reads this
    {
      Reachable(pool, St())
    }

    /** Some unused row; which one the database returns is not specified, here the first. */
    method QueryUnused() returns (r: Option<int>)
      ensures r.Some? ==> 0 <= r.value < |rows| && !rows[r.value].used
      ensures r.None? ==> AllUsed(rows)
    {
      for i := 0 to |rows|
        invariant forall j :: 0 <= j < i ==> rows[j].used
      {
        if !rows[i].used {
          return Some(i);
        }
      }
      r := None;
    }

    method ReuseIp(ghost t: Task) returns (vip: Option<int>)
      requires Valid() && t in tasks && tasks[t].phase.Reusing?
      modifies this`rows, this`tasks
      ensures Valid()
      ensures vip.None? ==> AllUsed(old(rows)) && rows == old(rows)
      ensures vip.Some? ==> Reused(old(rows), rows, vip.value)
      ensures tasks == old(tasks)[t := old(tasks)[t].(phase :=
                         if vip.None? then Guarding(old(tasks)[t].phase.seen) else Holding(vip.value))]
    {
      hide Reachable;
      var update := false;
      vip := None;
      while !update
        invariant !update ==> Valid() && rows == old(rows) && tasks == old(tasks)
        invariant update ==> Valid() && vip.Some? && Reused(old(rows), rows, vip.value)
                             && tasks == old(tasks)[t := old(tasks)[t].(phase := Holding(vip.value))]
        decreases !update
      {
        var poolPO := QueryUnused();
        if poolPO.None? {
          Extend(pool, St(), NothingToReuse(t));
          tasks := tasks[t := tasks[t].(phase := Guarding(tasks[t].phase.seen))];
          return None;
        }
        var id := poolPO.value;
        Extend(pool, St(), Peek(t, id));
        tasks := tasks[t := tasks[t].(phase := Peeked(tasks[t].phase.seen, id))];
        Extend(pool, St(), Reuse(t));
        vip, update := Some(rows[id].idx), !rows[id].used;
        tasks := tasks[t := tasks[t].(phase := Holding(rows[id].idx))];
        rows := rows[id := Row(rows[id].idx, true)];
        assert tasks == old(tasks)[t := old(tasks)[t].(phase := Holding(vip.value))];
        assert old(rows)[id] == Row(vip.value, false);
      }
    }

    /** Each round either claims the next index or learns a higher one, so the rounds end. */
    method SelectIdx(ghost t: Task, idx: int) returns (next: int)
      requires Valid() && t in tasks && tasks[t].phase == Selecting(idx)
      modifies this`ipIndex, this`tasks
      ensures Valid() && next == old(ipIndex) + 1 && ipIndex == next
      ensures tasks == old(tasks)[t := old(tasks)[t].(phase := Claimed(next))]
    {
      hide Reachable;
      var local, updated := idx, false;
      ReachableSane(pool, St(), t);
      next := idx;
      while !updated
        invariant Valid() && t in tasks
        invariant updated ==>
            next == old(ipIndex) + 1 == ipIndex && tasks == old(tasks)[t := old(tasks)[t].(phase := Claimed(next))]
        invariant !updated ==>
            local <= ipIndex == old(ipIndex) && tasks == old(tasks)[t := old(tasks)[t].(phase := Selecting(local))]
        decreases !updated, ipIndex - local
      {
        next := local + 1;
        Extend(pool, St(), Select(t));
        if ipIndex == local {
          ipIndex, updated := next, true;
          tasks := tasks[t := tasks[t].(phase := Claimed(next))];
        } else {
          tasks := tasks[t := tasks[t].(phase := Selecting(next))];
        }
        local := next;
      }
    }

    /** None stands for NotEnough. A row is reused while there is one; otherwise the counter decides,
        and the guard only knows where the counter stood when the request began. */
    method AssignIp(ghost t: Task, seen: int) returns (vip: Option<int>)
      requires Valid() && t in tasks && tasks[t].phase == Reusing(seen)
      modifies this`rows, this`ipIndex, this`tasks
      ensures Valid() && seen <= old(ipIndex)
      ensures if AllUsed(old(rows)) then
          && vip == Fresh(pool, seen, old(ipIndex)) && ipIndex == FreshCounter(pool, seen, old(ipIndex))
          && rows == old(rows) + (if vip.Some? then [Row(vip.value, true)] else [])
        else vip.Some? && Reused(old(rows), rows, vip.value) && ipIndex == old(ipIndex)
      ensures tasks == if vip.Some? then old(tasks)[t := old(tasks)[t].(phase := Holding(vip.value))]
          else old(tasks) - {t}
    {
      hide Reachable, Fresh, FreshCounter, Reused;
      ReachableSane(pool, St(), t);
      vip := ReuseIp(t);
      if vip.Some? {
        ReusedWasUnused(old(rows), rows, vip.value);
      } else {
        vip := FreshIp(t, seen);
      }
    }

    /** The loop over the counter. */
    method FreshIp(ghost t: Task, seen: int) returns (vip: Option<int>)
      requires Valid() && t in tasks && tasks[t].phase == Guarding(seen)
      modifies this`rows, this`ipIndex, this`tasks
      ensures Valid() && seen <= old(ipIndex)
      ensures vip == Fresh(pool, seen, old(ipIndex)) && ipIndex == FreshCounter(pool, seen, old(ipIndex))
      ensures rows == old(rows) + if vip.Some? then [Row(vip.value, true)] else []
      ensures tasks == if vip.Some? then old(tasks)[t := old(tasks)[t].(phase := Holding(vip.value))]
          else old(tasks) - {t}
    {
      hide Reachable, Available, Enabled, Next;
      ReachableSane(pool, St(), t);
      ghost var request := tasks[t];
      var idx, available := seen, false;
      while !available
        invariant Valid() && rows == old(rows) && t in tasks && idx <= ipIndex
        invariant Fresh(pool, seen, old(ipIndex)) == if available then Some(idx) else Fresh(pool, idx, ipIndex)
        invariant FreshCounter(pool, seen, old(ipIndex)) == if available
            then ipIndex else FreshCounter(pool, idx, ipIndex)
        invariant available ==> Available(pool, idx)
        invariant tasks == old(tasks)[t := request.(phase := if available then Claimed(idx) else Guarding(idx))]
        decreases !available, pool.count + 1 - idx
      {
        GuardReaches(pool, St(), t);
        if idx > pool.count {
          tasks := tasks - {t};
          return None;
        }
        tasks := tasks[t := tasks[t].(phase := Selecting(idx))];
        idx := SelectIdx(t, idx);
        available := Available(pool, idx);
        if !available {
          InsertReaches(pool, St(), t);
          tasks := tasks[t := tasks[t].(phase := Guarding(idx))];
        }
      }
      InsertReaches(pool, St(), t);
      rows := rows + [Row(idx, true)];
      tasks := tasks[t := tasks[t].(phase := Holding(idx))];
      vip := Some(idx);
    }

    /** The VIP part of a registration: a node keeps its VIP, a new or VIP-less one is assigned one. */
    method AssignNodeInfo(ghost t: Task, n: Node) returns (vip: Option<int>)
      requires Valid() && t !in tasks && forall u :: u in tasks ==> tasks[u].node != n
      modifies this`rows, this`ipIndex, this`nodes, this`tasks
      ensures Valid() && tasks == old(tasks)
      ensures n in nodes && nodes == old(nodes)[n := vip]
      ensures HasVip(old(nodes), n) ==> vip == old(nodes)[n] && rows == old(rows) && ipIndex == old(ipIndex)
      ensures !HasVip(old(nodes), n) ==>
        (vip.None? <==> AllUsed(old(rows)) && !SomeAvailable(pool, old(ipIndex), pool.count + 2))
      ensures !HasVip(old(nodes), n) && vip.None? ==> rows == old(rows)
      ensures !HasVip(old(nodes), n) && vip.Some? ==>
        if AllUsed(old(rows)) then
          && rows == old(rows) + [Row(vip.value, true)] && ipIndex == vip.value > old(ipIndex)
          && Available(pool, vip.value) && !SomeAvailable(pool, old(ipIndex), vip.value)
        else Reused(old(rows), rows, vip.value) && ipIndex == old(ipIndex)
      ensures vip.Some? && !HasVip(old(nodes), n) ==>
        forall m :: m in nodes && m != n && nodes[m] == vip ==> Released(St(), m)
    {
      hide SomeAvailable, Available, Reachable, Fresh, FreshCounter, Released, Exact, Settled, Distinct,
           ReuseRow, ReleaseRow, DeleteNode, SelectNext, InsertRow, GuardCount, Reused, AllUsed;
      if n in nodes && nodes[n].Some? {
        return nodes[n];
      }
      var seen := ipIndex;
      FreshIsFirst(pool, seen);
      Extend(pool, St(), Start(t, n, false));
      if n !in nodes {
        nodes := nodes[n := None];
      }
      tasks := tasks[t := Request(n, false, Reusing(seen))];
      vip := AssignIp(t, seen);
      if vip.None? {
        assert tasks == old(tasks);
        return;
      }
      Extend(pool, St(), Store(t));
      nodes := nodes[n := vip];
      tasks := tasks - {t};
      assert tasks == old(tasks);
      NobodyElse(pool, St(), n);
    }

    /** The record is read, its VIP's row freed, the record deleted. */
    method Del(ghost t: Task, n: Node)
      requires Valid() && n in nodes && t !in tasks && forall u :: u in tasks ==> tasks[u].node != n
      modifies this`rows, this`nodes, this`tasks
      ensures Valid() && tasks == old(tasks) && nodes == old(nodes) - {n}
      ensures rows == if old(nodes)[n].Some? then Freed(old(rows), old(nodes)[n].value) else old(rows)
    {
      hide Reachable, ReuseRow, StoreVip, InsertRow, GuardCount, SelectNext, Begin;
      var vip := nodes[n];
      Extend(pool, St(), StartDelete(t, n));
      tasks := tasks[t := Request(n, false, Deleting(vip))];
      Extend(pool, St(), Release(t));
      if vip.Some? {
        rows := Freed(rows, vip.value);
      }
      tasks := tasks[t := Request(n, false, Deleted)];
      Extend(pool, St(), Delete(t));
      nodes := nodes - {n};
      tasks := tasks - {t};
      assert tasks == old(tasks);
    }
  }

  /** No other node has n's VIP, unless it is a node whose record is about to go. */
  lemma NobodyElse(c: Pool, s: State, n: Node)
    requires Reachable(c, s) && n in s.nodes && s.nodes[n].Some? && forall u :: u in s.tasks ==> s.tasks[u].node != n
    ensures forall m :: m in s.nodes && m != n && s.nodes[m] == s.nodes[n] ==> Released(s, m)
  {
    assert !Released(s, n);
    hide Reachable, Released, Settled, Distinct, UsedRow;
    ReachableInvariant(c, s);
    assert Owns(s, ByNode(n)) == s.nodes[n];
    SoleOwner(s, ByNode(n));
    forall m | m in s.nodes && m != n && s.nodes[m] == s.nodes[n] ensures Released(s, m) {
      assert Owns(s, ByNode(m)) != Owns(s, ByNode(n));
    }
  }
}
