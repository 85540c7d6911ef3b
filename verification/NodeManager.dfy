/**
 A client's replica of the registry and the link to it. A push can overtake an entry of a node list: at the
 controller before the list is sent, and at the client before the start-up thread has put the entry.
 */
module NodeManager {
  import opened Names
  import opened Wrappers

  /** A node's transport address URIs. */
  datatype Addrs = Addrs(uris: seq<string>)

  type Nodes = map<Vip, Addrs>

  datatype Code = NotEnough | VipBound | SysError

  /** `passed` records the listed VIPs about which something else was pushed before the answer was sent. */
  datatype Message =
    | Snapshot(listed: Nodes, passed: set<Vip>)
    | Online(vip: Vip, addrs: Addrs)
    | Offline(vip: Vip)
    | Refused(code: Code)

  predicate IsPush(m: Message) {
    m.Online? || m.Offline?
  }

  /** `held` are the entries of arrived snapshots not put yet. `inOrder` is what the map would be if every
      entry had been put when it was read, and `overtaken` records the VIPs about which a push was applied,
      or will have been, between the reading and the putting of a different entry, and none since. */
  datatype Client = Client(nodes: Nodes, held: Nodes, inOrder: Nodes, overtaken: set<Vip>)

  /** `told` is what the controller has told so far, a snapshot counting when it is read; `listed` is the
      snapshot read but not sent; `queue` is on its way and arrives in order. */
  datatype Link = Link(told: Nodes, listed: Nodes, passed: set<Vip>, queue: seq<Message>, client: Client)

  const SILENT := Link(map[], map[], {}, [], Client(map[], map[], map[], {}))

  /** A push about a VIP with a different entry waiting marks it; any other push about it clears the mark. */
  function Mark(marks: set<Vip>, waiting: Nodes, m: Message): set<Vip>
    requires IsPush(m)
  {
    if m.vip in waiting && m != Online(m.vip, waiting[m.vip]) then marks + {m.vip} else marks - {m.vip}
  }

  /** NodeManager.addNode or deleteNode. */
  function Applied(nodes: Nodes, m: Message): Nodes
    requires IsPush(m)
  {
    match m
    case Online(vip, addrs) => nodes[vip := addrs]
    case Offline(vip) => nodes - {vip}
  }

  // ----- the controller's end -----

  function Push(l: Link, m: Message): Link
    requires IsPush(m)
  {
    l.(told := Applied(l.told, m), passed := Mark(l.passed, l.listed, m), queue := l.queue + [m])
  }

  function Read(l: Link, nodes: Nodes): Link {
    l.(told := l.told + nodes, listed := l.listed + nodes, passed := l.passed - nodes.Keys)
  }

  function Answer(l: Link): Link {
    l.(listed := map[], passed := {}, queue := l.queue + [Snapshot(l.listed, l.passed)])
  }

  function Refuse(l: Link, code: Code): Link {
    l.(queue := l.queue + [Refused(code)])
  }

  // ----- the client's end -----

  /** A push is applied at once; the entries of a snapshot are held. */
  function Receive(n: Client, m: Message): Client {
    match m
    case Snapshot(listed, passed) =>
      Client(n.nodes, n.held + listed, n.inOrder + (listed - passed), n.overtaken - listed.Keys + listed.Keys * passed)
    case Refused(_) => n
    case _ => Client(Applied(n.nodes, m), n.held, Applied(n.inOrder, m), Mark(n.overtaken, n.held, m))
  }

  function Arrive(l: Link): Link
    requires l.queue != []
  {
    l.(queue := l.queue[1..], client := Receive(l.client, l.queue[0]))
  }

  /** The start-up thread puts one entry. */
  function PutEntry(l: Link, vip: Vip): Link
    requires vip in l.client.held
  {
    var n := l.client;
    l.(client := n.(nodes := n.nodes[vip := n.held[vip]], held := n.held - {vip}))
  }

  /** Putting one entry does not change what putting all of them leads to. */
  lemma OneEntry(nodes: Nodes, held: Nodes, vip: Vip)
    requires vip in held
    ensures nodes[vip := held[vip]] + (held - {vip}) == nodes + held
    ensures |(held - {vip}).Keys| < |held.Keys|
  {
    assert (held - {vip}).Keys == held.Keys - {vip};
  }

  // ----- one VIP on a link -----

  function Lookup(nodes: Nodes, vip: Vip): Option<Addrs> {
    if vip in nodes then Some(nodes[vip]) else None
  }

  /** How a message changes what is known about a VIP, a snapshot counting where it was not passed. */
  function After(x: Option<Addrs>, m: Message, vip: Vip): Option<Addrs> {
    match m
    case Snapshot(listed, passed) => if vip in listed && vip !in passed then Some(listed[vip]) else x
    case Online(v, addrs) => if v == vip then Some(addrs) else x
    case Offline(v) => if v == vip then None else x
    case Refused(_) => x
  }

  function AfterAll(x: Option<Addrs>, q: seq<Message>, vip: Vip): Option<Addrs> {
    if q == [] then x else After(AfterAll(x, q[..|q| - 1], vip), q[|q| - 1], vip)
  }

  /** A passed entry is not what is known about its VIP at that place in the queue. */
  predicate Fits(x: Option<Addrs>, m: Message, vip: Vip) {
    m.Snapshot? && vip in m.listed && vip in m.passed ==> x != Some(m.listed[vip])
  }

  predicate AllFit(x: Option<Addrs>, q: seq<Message>, vip: Vip) {
    q == [] || (AllFit(x, q[..|q| - 1], vip) && Fits(AfterAll(x, q[..|q| - 1], vip), q[|q| - 1], vip))
  }

  /** What the client will know in the order of reading, about one VIP: everything on its way applied. */
  function Outcome(l: Link, vip: Vip): Option<Addrs> {
    After(AfterAll(Lookup(l.client.inOrder, vip), l.queue, vip), Snapshot(l.listed, l.passed), vip)
  }

  predicate Overtaken(n: Client, vip: Vip) {
    Lookup(n.nodes + n.held, vip) != Lookup(n.inOrder, vip)
  }

  predicate Consistent(l: Link, vip: Vip) {
    var x := Lookup(l.client.inOrder, vip);
    && Lookup(l.told, vip) == Outcome(l, vip)
    && AllFit(x, l.queue, vip) && Fits(AfterAll(x, l.queue, vip), Snapshot(l.listed, l.passed), vip)
    && (vip in l.client.overtaken <==> Overtaken(l.client, vip))
  }

  lemma Appended(x: Option<Addrs>, q: seq<Message>, m: Message, vip: Vip)
    ensures AfterAll(x, q + [m], vip) == After(AfterAll(x, q, vip), m, vip)
    ensures AllFit(x, q + [m], vip) <==> AllFit(x, q, vip) && Fits(AfterAll(x, q, vip), m, vip)
  {
    hide After, Fits;
    assert (q + [m])[..|q + [m]| - 1] == q;
  }

  /** Taking messages from the front leads to the same outcome as the whole backlog. */
  lemma {:induction false} FrontFirst(x: Option<Addrs>, q: seq<Message>, vip: Vip)
    requires q != []
    ensures AfterAll(After(x, q[0], vip), q[1..], vip) == AfterAll(x, q, vip)
    ensures AllFit(x, q, vip) <==> Fits(x, q[0], vip) && AllFit(After(x, q[0], vip), q[1..], vip)
  {
    hide After, Fits;
    var n := |q| - 1;
    if n > 0 {
      FrontFirst(x, q[..n], vip);
      assert q[1..][..n - 1] == q[..n][1..] && q[1..][n - 1] == q[n];
    } else {
      assert q[1..] == [];
      assert AfterAll(x, q[..0], vip) == x && AllFit(x, q[..0], vip);
    }
  }

  lemma PushKeeps(l: Link, m: Message, vip: Vip)
    requires IsPush(m) && Consistent(l, vip)
    ensures Consistent(Push(l, m), vip)
  {
    hide AfterAll, AllFit, Overtaken;
    Appended(Lookup(l.client.inOrder, vip), l.queue, m, vip);
  }

  lemma ReadKeeps(l: Link, nodes: Nodes, vip: Vip)
    requires Consistent(l, vip)
    ensures Consistent(Read(l, nodes), vip)
  {
    hide AfterAll, AllFit, Overtaken;
  }

  lemma AnswerKeeps(l: Link, vip: Vip)
    requires Consistent(l, vip)
    ensures Consistent(Answer(l), vip)
  {
    hide AfterAll, AllFit, Overtaken;
    Appended(Lookup(l.client.inOrder, vip), l.queue, Snapshot(l.listed, l.passed), vip);
  }

  lemma RefuseKeeps(l: Link, code: Code, vip: Vip)
    requires Consistent(l, vip)
    ensures Consistent(Refuse(l, code), vip)
  {
    hide AfterAll, AllFit, Overtaken;
    Appended(Lookup(l.client.inOrder, vip), l.queue, Refused(code), vip);
  }

  lemma ReceiveInOrder(n: Client, m: Message, vip: Vip)
    requires Fits(Lookup(n.inOrder, vip), m, vip) && (vip in n.overtaken <==> Overtaken(n, vip))
    ensures Lookup(Receive(n, m).inOrder, vip) == After(Lookup(n.inOrder, vip), m, vip)
    ensures vip in Receive(n, m).overtaken <==> Overtaken(Receive(n, m), vip)
  {
  }

  lemma ArriveKeeps(l: Link, vip: Vip)
    requires l.queue != [] && Consistent(l, vip)
    ensures Consistent(Arrive(l), vip)
  {
    hide AfterAll, AllFit, Overtaken, Fits, After, Receive;
    FrontFirst(Lookup(l.client.inOrder, vip), l.queue, vip);
    ReceiveInOrder(l.client, l.queue[0], vip);
  }

  lemma PutKeeps(l: Link, put: Vip, vip: Vip)
    requires put in l.client.held && Consistent(l, vip)
    ensures Consistent(PutEntry(l, put), vip)
  {
    hide AfterAll, AllFit, After, Fits;
    var n := l.client;
    OneEntry(n.nodes, n.held, put);
  }

  /** Nothing is on its way: nothing read but not sent, nothing sent but not arrived, nothing held. */
  predicate Settled(l: Link) {
    l.listed == map[] && l.queue == [] && l.client.held == map[]
  }

  /** A client at rest knows what the controller told it, if and only if no push overtook an entry. */
  lemma ExactUnlessOvertaken(l: Link)
    requires Settled(l) && forall vip :: Consistent(l, vip)
    ensures l.client.nodes == l.told <==> l.client.overtaken == {}
  {
    hide Consistent;
    var n := l.client;
    forall vip ensures vip in n.overtaken <==> Lookup(n.nodes, vip) != Lookup(l.told, vip) {
      assert Consistent(l, vip);
      AtRest(l, vip);
    }
    if n.overtaken == {} {
      forall vip ensures Lookup(n.nodes, vip) == Lookup(l.told, vip) {
        assert vip !in n.overtaken;
      }
      SameLookups(n.nodes, l.told);
    } else {
      var vip :| vip in n.overtaken;
      assert Lookup(n.nodes, vip) != Lookup(l.told, vip);
    }
  }

  lemma AtRest(l: Link, vip: Vip)
    requires Settled(l) && Consistent(l, vip)
    ensures vip in l.client.overtaken <==> Lookup(l.client.nodes, vip) != Lookup(l.told, vip)
  {
    assert l.client.nodes + l.client.held == l.client.nodes;
  }

  lemma SameLookups(a: Nodes, b: Nodes)
    requires forall vip :: Lookup(a, vip) == Lookup(b, vip)
    ensures a == b
  {
    assert forall vip :: vip in a <==> Lookup(a, vip).Some?;
    assert forall vip :: vip in b <==> Lookup(b, vip).Some?;
    assert forall vip :: vip in a ==> a[vip] == Lookup(a, vip).value;
    assert forall vip :: vip in b ==> b[vip] == Lookup(b, vip).value;
  }

  /** The client's node table. */
  class NodeManager {
    var nodeInfoMap: Nodes

    constructor ()
      ensures nodeInfoMap == map[]
    {
      nodeInfoMap := map[];
    }

    method AddNode(vip: Vip, node: Addrs)
      modifies this
      ensures nodeInfoMap == Applied(old(nodeInfoMap), Online(vip, node))
    {
      nodeInfoMap := nodeInfoMap[vip := node];
    }

    method DeleteNode(vip: Vip)
      modifies this
      ensures nodeInfoMap == Applied(old(nodeInfoMap), Offline(vip))
    {
      nodeInfoMap := nodeInfoMap - {vip};
    }

    /** The loop of the start-up thread over a registration answer, undisturbed by pushes. */
    method AddAll(listed: Nodes)
      modifies this
      ensures nodeInfoMap == old(nodeInfoMap) + listed
    {
      var todo := listed;
      while todo != map[]
        invariant nodeInfoMap + todo == old(nodeInfoMap) + listed
        decreases |todo.Keys|
      {
        var vip :| vip in todo;
        OneEntry(nodeInfoMap, todo, vip);
        AddNode(vip, todo[vip]);
        todo := todo - {vip};
      }
    }
  }
}
