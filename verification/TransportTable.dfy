/**
 One node's transports and the pending futures of AsyncTask. A computeIfAbsent with its callback is one step,
 as is settling a future; due timeouts fire before the clock moves on. Ids are never generated twice.
 */
module TransportTable {
  import opened Names
  import opened Wrappers

  datatype Addr = Addr(uri: string)

  /** An entry is the empty reference of an election, with the time and offer that made it, or a transport. */
  datatype Entry = Empty(since: int, offer: Id) | Ready(addr: Addr)

  datatype Purpose = Offer(vip: Vip) | Heart(checked: Vip, pinged: Addr)

  datatype Future = Future(purpose: Purpose, deadline: int)

  datatype Timeouts = Timeouts(election: nat, check: nat)

  datatype State = State(
    transportMap: map<Vip, Entry>,
    heartMap: map<Addr, Id>,
    futureMap: map<Id, Future>,
    settled: set<Id>,
    clock: int)

  function Initial(start: int): State {
    State(map[], map[], map[], {}, start)
  }

  datatype Step =
    | Send(vip: Vip, id: Id)
    | Elected(id: Id, addr: Addr)
    | Failed(id: Id)
    | Answered(vip: Vip, addr: Addr)
    | Offline(vip: Vip)
    | Beat(vip: Vip, id: Id)
    | Pong(id: Id)
    | Timeout(id: Id)
    | Tick(millis: nat)

  predicate New(s: State, id: Id) {
    id !in s.futureMap && id !in s.settled
  }

  predicate Pending(s: State, id: Id, offer: bool) {
    id in s.futureMap && s.futureMap[id].purpose.Offer? == offer
  }

  predicate Enabled(t: Timeouts, s: State, step: Step) {
    match step
    case Send(_, id) => New(s, id)
    case Elected(id, _) => Pending(s, id, true)
    case Failed(id) => Pending(s, id, true)
    case Answered(_, _) => true
    case Offline(_) => true
    case Beat(vip, id) => New(s, id) && vip in s.transportMap && s.transportMap[vip].Ready?
    case Pong(id) => Pending(s, id, false)
    case Timeout(id) => Pending(s, id, false) && s.futureMap[id].deadline <= s.clock
    case Tick(millis) => forall id :: id in s.futureMap ==> s.clock + millis <= s.futureMap[id].deadline
  }

  /** waitTask. */
  function Wait(s: State, id: Id, purpose: Purpose, timeout: nat): State {
    s.(futureMap := s.futureMap[id := Future(purpose, s.clock + timeout)])
  }

  /** Removing the future from futureMap is what lets only one of answer and timeout settle it. */
  function Settle(s: State, id: Id): State {
    s.(futureMap := s.futureMap - {id}, settled := s.settled + {id})
  }

  /** getOrCreate: only a missing entry starts an election. */
  function SendNode(t: Timeouts, s: State, vip: Vip, id: Id): State {
    if vip in s.transportMap then s
    else Wait(s, id, Offer(vip), 3 * t.election).(transportMap := s.transportMap[vip := Empty(s.clock, id)])
  }

  /** One entry of the heartbeat: a pending ping of the address is not doubled. */
  function Heartbeat(t: Timeouts, s: State, vip: Vip, id: Id): State
    requires vip in s.transportMap && s.transportMap[vip].Ready?
  {
    var addr := s.transportMap[vip].addr;
    if addr in s.heartMap then s
    else Wait(s, id, Heart(vip, addr), t.check).(heartMap := s.heartMap[addr := id])
  }

  /** Whatever entry the VIP has by now is removed. */
  function Drop(s: State, vip: Vip): State {
    s.(transportMap := s.transportMap - {vip})
  }

  function Next(t: Timeouts, s: State, step: Step): State
    requires Enabled(t, s, step)
  {
    match step
    case Send(vip, id) => SendNode(t, s, vip, id)
    case Elected(id, addr) => Settle(s, id).(transportMap := s.transportMap[s.futureMap[id].purpose.vip := Ready(addr)])
    case Failed(id) => Drop(Settle(s, id), s.futureMap[id].purpose.vip)
    case Answered(vip, addr) => s.(transportMap := s.transportMap[vip := Ready(addr)])
    case Offline(vip) => Drop(s, vip)
    case Beat(vip, id) => Heartbeat(t, s, vip, id)
    case Pong(id) => Settle(s, id).(heartMap := s.heartMap - {s.futureMap[id].purpose.pinged})
    case Timeout(id) =>
      Drop(Settle(s, id), s.futureMap[id].purpose.checked).(heartMap := s.heartMap - {s.futureMap[id].purpose.pinged})
    case Tick(millis) => s.(clock := s.clock + millis)
  }

  function Run(t: Timeouts, start: int, steps: seq<Step>): State {
    if steps == [] then Initial(start)
    else
      var (before, step) := (Run(t, start, steps[..|steps| - 1]), steps[|steps| - 1]);
      if Enabled(t, before, step) then Next(t, before, step) else before
  }

  // ----- no election is stuck -----

  /** The offer that made an empty reference is pending, with the deadline it was given. */
  ghost predicate Electing(t: Timeouts, s: State, vip: Vip) {
    vip in s.transportMap && s.transportMap[vip].Empty? ==>
      var e := s.transportMap[vip];
      e.offer in s.futureMap && s.futureMap[e.offer] == Future(Offer(vip), e.since + 3 * t.election)
  }

  /** A remembered ping is pending and belongs to that address. */
  ghost predicate Beating(s: State, addr: Addr) {
    addr in s.heartMap ==>
      var id := s.heartMap[addr];
      id in s.futureMap && s.futureMap[id].purpose.Heart? && s.futureMap[id].purpose.pinged == addr
  }

  /** A pending future is not settled, not overdue, and if it is a ping it is the one remembered. */
  ghost predicate Sound(s: State, id: Id) {
    id in s.futureMap ==>
      && id !in s.settled && s.clock <= s.futureMap[id].deadline
      && (s.futureMap[id].purpose.Heart? ==>
            var addr := s.futureMap[id].purpose.pinged; addr in s.heartMap && s.heartMap[addr] == id)
  }

  ghost predicate Invariant(t: Timeouts, s: State) {
    && (forall vip :: Electing(t, s, vip))
    && (forall addr :: Beating(s, addr))
    && (forall id :: Sound(s, id))
  }

  lemma StepKeepsElecting(t: Timeouts, s: State, step: Step, vip: Vip)
    requires Enabled(t, s, step) && Electing(t, s, vip)
    ensures Electing(t, Next(t, s, step), vip)
  {
  }

  lemma StepKeepsBeating(t: Timeouts, s: State, step: Step, addr: Addr)
    requires Enabled(t, s, step) && Beating(s, addr)
    requires step.Pong? || step.Timeout? ==> Sound(s, step.id)
    ensures Beating(Next(t, s, step), addr)
  {
  }

  lemma StepKeepsSound(t: Timeouts, s: State, step: Step, id: Id)
    requires Enabled(t, s, step) && Sound(s, id)
    requires step.Pong? || step.Timeout? ==> Sound(s, step.id)
    ensures Sound(Next(t, s, step), id)
  {
  }

  lemma StepKeepsInvariant(t: Timeouts, s: State, step: Step)
    requires Enabled(t, s, step) && Invariant(t, s)
    ensures Invariant(t, Next(t, s, step))
  {
    hide Enabled, Next, Electing, Beating, Sound;
    forall vip ensures Electing(t, Next(t, s, step), vip) {
      assert Electing(t, s, vip);
      StepKeepsElecting(t, s, step, vip);
    }
    assert step.Pong? || step.Timeout? ==> Sound(s, step.id);
    forall addr ensures Beating(Next(t, s, step), addr) {
      assert Beating(s, addr);
      StepKeepsBeating(t, s, step, addr);
    }
    forall id ensures Sound(Next(t, s, step), id) {
      assert Sound(s, id);
      StepKeepsSound(t, s, step, id);
    }
  }

  lemma {:induction false} RunInvariant(t: Timeouts, start: int, steps: seq<Step>)
    ensures Invariant(t, Run(t, start, steps))
  {
    if steps != [] {
      hide Enabled, Next, Invariant;
      var (before, step) := (Run(t, start, steps[..|steps| - 1]), steps[|steps| - 1]);
      RunInvariant(t, start, steps[..|steps| - 1]);
      if Enabled(t, before, step) {
        StepKeepsInvariant(t, before, step);
      }
    }
  }

  /** In every reachable state an empty reference has its offer pending and is at most three election
      timeouts old. */
  lemma NoStuckElection(t: Timeouts, start: int, steps: seq<Step>, vip: Vip)
    ensures var s := Run(t, start, steps);
      vip in s.transportMap && s.transportMap[vip].Empty? ==>
        && s.transportMap[vip].offer in s.futureMap && s.futureMap[s.transportMap[vip].offer].purpose == Offer(vip)
        && s.clock - s.transportMap[vip].since <= 3 * t.election
  {
    hide Run;
    RunInvariant(t, start, steps);
    var s := Run(t, start, steps);
    assert Electing(t, s, vip);
    if vip in s.transportMap && s.transportMap[vip].Empty? {
      assert Sound(s, s.transportMap[vip].offer);
    }
  }

  /** A future is pending or settled, never both, and a settled one stays so: each settles at most once. */
  lemma {:induction false} SettlesOnce(t: Timeouts, start: int, steps: seq<Step>, k: nat, id: Id)
    requires k <= |steps| && id in Run(t, start, steps[..k]).settled
    ensures id in Run(t, start, steps).settled && id !in Run(t, start, steps).futureMap
    decreases |steps|
  {
    RunInvariant(t, start, steps);
    assert Sound(Run(t, start, steps), id);
    if k == |steps| {
      assert steps[..k] == steps;
      hide Run;
    } else {
      var n := |steps| - 1;
      assert steps[..n][..k] == steps[..k];
      SettlesOnce(t, start, steps[..n], k, id);
      hide Invariant;
    }
  }

  /** Progress: as soon as an offer settles, its VIP has no empty reference of that offer. */
  lemma SettledOfferLeavesNoReference(t: Timeouts, start: int, steps: seq<Step>, vip: Vip, id: Id)
    requires id in Run(t, start, steps).settled
    ensures var s := Run(t, start, steps);
      vip in s.transportMap && s.transportMap[vip].Empty? ==> s.transportMap[vip].offer != id
  {
    hide Run;
    RunInvariant(t, start, steps);
    assert Electing(t, Run(t, start, steps), vip) && Sound(Run(t, start, steps), id);
  }

  // ----- the manager -----

  ghost predicate Reachable(t: Timeouts, s: State) {
    exists start, steps :: s == Run(t, start, steps)
  }

  lemma Extend(t: Timeouts, s: State, step: Step)
    requires Reachable(t, s) && Enabled(t, s, step)
    ensures Reachable(t, Next(t, s, step))
  {
    hide Next, Enabled;
    var start, steps :| s == Run(t, start, steps);
    assert (steps + [step])[..|steps + [step]| - 1] == steps;
    assert Next(t, s, step) == Run(t, start, steps + [step]);
  }

  lemma ReachableInvariant(t: Timeouts, s: State)
    requires Reachable(t, s)
    ensures Invariant(t, s)
  {
    hide Run, Invariant;
    var start, steps :| s == Run(t, start, steps);
    RunInvariant(t, start, steps);
  }

  lemma RememberedIsPending(t: Timeouts, s: State, addr: Addr)
    requires Reachable(t, s) && addr in s.heartMap
    ensures Pending(s, s.heartMap[addr], false)
  {
    ReachableInvariant(t, s);
    assert Beating(s, addr);
    hide Reachable;
  }

  // ----- heartbeats that come late -----

  /** The transport a ping was sent on is still the VIP's. */
  predicate Current(s: State, id: Id)
    requires Pending(s, id, false)
  {
    var p := s.futureMap[id].purpose;
    p.checked in s.transportMap && s.transportMap[p.checked] == Ready(p.pinged)
  }

  /** What a ping's timeout removes is the entry its VIP has by then, and no other; so a transport other
      than the pinged one goes, if and only if it has replaced it. */
  lemma TimeoutDropsOtherIff(t: Timeouts, s: State, id: Id, vip: Vip, addr: Addr)
    requires Enabled(t, s, Timeout(id)) && vip in s.transportMap && s.transportMap[vip] == Ready(addr)
    ensures var (p, after) := (s.futureMap[id].purpose, Next(t, s, Timeout(id)).transportMap);
      && (vip !in after <==> vip == p.checked)
      && (vip in after ==> after[vip] == Ready(addr))
      && (vip !in after && addr != p.pinged <==> vip == p.checked && !Current(s, id))
  {
  }

  /** A pending ping's transport stays the VIP's through every step that neither elects, answers, fails nor
      drops for that VIP. */
  lemma StaysCurrent(t: Timeouts, s: State, step: Step, id: Id)
    requires Enabled(t, s, step) && Pending(s, id, false) && Current(s, id)
    requires Pending(Next(t, s, step), id, false)
    ensures var vip := s.futureMap[id].purpose.checked;
      Current(Next(t, s, step), id) || Replaces(s, step, vip)
  {
  }

  /** The steps that may give a VIP another entry or none. */
  predicate Replaces(s: State, step: Step, vip: Vip) {
    match step
    case Elected(id, _) => Pending(s, id, true) && s.futureMap[id].purpose.vip == vip
    case Failed(id) => Pending(s, id, true) && s.futureMap[id].purpose.vip == vip
    case Answered(v, _) => v == vip
    case Offline(v) => v == vip
    case Timeout(id) => Pending(s, id, false) && s.futureMap[id].purpose.checked == vip
    case _ => false
  }

  /** The i-th step gave the VIP this transport, by its own offer's answer or by answering the peer's, and no
      step since has replaced it. */
  ghost predicate SetBy(t: Timeouts, start: int, steps: seq<Step>, i: int, vip: Vip, addr: Addr) {
    && 0 <= i < |steps| && Sets(t, Run(t, start, steps[..i]), steps[i], vip, addr)
    && forall j :: i < j < |steps| ==> !Replacing(t, Run(t, start, steps[..j]), steps[j], vip)
  }

  predicate Sets(t: Timeouts, s: State, step: Step, vip: Vip, addr: Addr) {
    && Enabled(t, s, step)
    && (step == Answered(vip, addr) ||
        (step.Elected? && step.addr == addr && s.futureMap[step.id].purpose == Offer(vip)))
  }

  predicate Replacing(t: Timeouts, s: State, step: Step, vip: Vip) {
    Enabled(t, s, step) && Replaces(s, step, vip)
  }

  predicate Leads(s: State, vip: Vip, addr: Addr) {
    vip in s.transportMap && s.transportMap[vip] == Ready(addr)
  }

  lemma LeadsNext(t: Timeouts, s: State, step: Step, vip: Vip, addr: Addr)
    requires Enabled(t, s, step)
    ensures Leads(Next(t, s, step), vip, addr) <==>
      Sets(t, s, step, vip, addr) || (Leads(s, vip, addr) && !Replaces(s, step, vip))
    ensures Sets(t, s, step, vip, addr) ==> Replaces(s, step, vip)
  {
  }

  /** A node has a transport to a VIP exactly if the last step of the run that replaced the VIP's entry was an
      election or an answer leading to that address. */
  lemma {:induction false} LeadsIff(t: Timeouts, start: int, steps: seq<Step>, vip: Vip, addr: Addr)
    ensures Leads(Run(t, start, steps), vip, addr) <==> exists i :: SetBy(t, start, steps, i, vip, addr)
  {
    hide Next, Enabled, Sets, Replaces, Leads;
    if steps == [] {
      assert !Leads(Initial(start), vip, addr) by { NothingLeads(start, vip, addr); }
    } else {
      var n := |steps| - 1;
      var (before, step) := (Run(t, start, steps[..n]), steps[n]);
      LeadsIff(t, start, steps[..n], vip, addr);
      assert forall j :: 0 <= j <= n ==> steps[..n][..j] == steps[..j];
      if Enabled(t, before, step) {
        LeadsNext(t, before, step, vip, addr);
      } else {
        NotEnabled(t, before, step, vip, addr);
      }
      SetByLast(t, start, steps, vip, addr);
    }
  }

  lemma NothingLeads(start: int, vip: Vip, addr: Addr)
    ensures !Leads(Initial(start), vip, addr)
  {
  }

  lemma NotEnabled(t: Timeouts, s: State, step: Step, vip: Vip, addr: Addr)
    requires !Enabled(t, s, step)
    ensures !Sets(t, s, step, vip, addr)
  {
  }

  /** Whether the last step counts, or one before it does. */
  lemma SetByLast(t: Timeouts, start: int, steps: seq<Step>, vip: Vip, addr: Addr)
    requires steps != []
    ensures var (n, before) := (|steps| - 1, Run(t, start, steps[..|steps| - 1]));
      (exists i :: SetBy(t, start, steps, i, vip, addr)) <==>
        || Sets(t, before, steps[n], vip, addr)
        || (!Replacing(t, before, steps[n], vip) && exists i :: SetBy(t, start, steps[..n], i, vip, addr))
  {
    hide Run, Sets, Replacing;
    var (n, before) := (|steps| - 1, Run(t, start, steps[..|steps| - 1]));
    assert forall j :: 0 <= j <= n ==> steps[..n][..j] == steps[..j];
    forall i | SetBy(t, start, steps[..n], i, vip, addr) && !Replacing(t, before, steps[n], vip)
      ensures SetBy(t, start, steps, i, vip, addr)
    {
    }
    forall i | SetBy(t, start, steps, i, vip, addr) && i < n
      ensures SetBy(t, start, steps[..n], i, vip, addr) && !Replacing(t, before, steps[n], vip)
    {
    }
    assert Sets(t, before, steps[n], vip, addr) ==> SetBy(t, start, steps, n, vip, addr);
  }

  /** A future known once is pending for the same purpose or settled ever after. */
  lemma {:induction false} StaysKnown(t: Timeouts, start: int, steps: seq<Step>, i: nat, id: Id)
    requires i <= |steps| && id in Run(t, start, steps[..i]).futureMap
    ensures var s := Run(t, start, steps);
      if id in s.futureMap then s.futureMap[id] == Run(t, start, steps[..i]).futureMap[id] else id in s.settled
    decreases |steps|
  {
    if i == |steps| {
      assert steps[..i] == steps;
      hide Run;
    } else {
      var n := |steps| - 1;
      assert steps[..n][..i] == steps[..i];
      StaysKnown(t, start, steps[..n], i, id);
      var (before, step) := (Run(t, start, steps[..n]), steps[n]);
      if Enabled(t, before, step) {
        KnownNext(t, before, step, id);
      }
      hide Next, Enabled;
    }
  }

  lemma KnownNext(t: Timeouts, s: State, step: Step, id: Id)
    requires Enabled(t, s, step) && !New(s, id)
    ensures var n := Next(t, s, step);
      && (id in n.futureMap ==> id in s.futureMap && n.futureMap[id] == s.futureMap[id])
      && (id !in n.futureMap ==> id in n.settled)
      && (id in s.settled && id !in s.futureMap ==> id in n.settled && id !in n.futureMap)
  {
  }

  /** If the transport a ping was sent on is the VIP's after i steps and, the ping still pending, no longer at
      the end of a run, one of the steps in between has replaced or dropped it. */
  lemma {:induction false} ReplacedSince(t: Timeouts, start: int, steps: seq<Step>, i: nat, id: Id) returns (j: nat)
    requires i <= |steps| && Pending(Run(t, start, steps[..i]), id, false) && Current(Run(t, start, steps[..i]), id)
    requires Pending(Run(t, start, steps), id, false) && !Current(Run(t, start, steps), id)
    ensures i <= j < |steps|
    ensures var s := Run(t, start, steps[..j]);
      Enabled(t, s, steps[j]) && Replaces(s, steps[j], Run(t, start, steps).futureMap[id].purpose.checked)
    decreases |steps|
  {
    hide Next, Enabled, Replaces;
    TakeAll(steps);
    var n := |steps| - 1;
    var (before, step) := (Run(t, start, steps[..n]), steps[n]);
    assert steps[..n][..i] == steps[..i];
    StaysKnown(t, start, steps[..n], i, id);
    StaysKnown(t, start, steps, i, id);
    if Enabled(t, before, step) {
      KnownNext(t, before, step, id);
    }
    if Current(before, id) {
      j := n;
      StaysCurrent(t, before, step, id);
    } else {
      j := ReplacedSince(t, start, steps[..n], i, id);
      assert steps[..n][..j] == steps[..j];
    }
  }

  /** It happens: a peer answers, is pinged, and answers again from another address before the ping times
      out; the timeout removes the new transport. */
  lemma LateHeartbeatDropsNewTransport(t: Timeouts, start: int, vip: Vip, id: Id, addr: Addr, other: Addr)
      returns (s: State)
    requires addr != other
    ensures Reachable(t, s) && Enabled(t, s, Timeout(id)) && s.futureMap[id].purpose == Heart(vip, addr)
    ensures s.transportMap == map[vip := Ready(other)] && Next(t, s, Timeout(id)).transportMap == map[]
  {
    hide Reachable;
    s := Initial(start);
    InitialIsReachable(t, start);
    Extend(t, s, Answered(vip, addr));
    s := Next(t, s, Answered(vip, addr));
    Extend(t, s, Beat(vip, id));
    s := Next(t, s, Beat(vip, id));
    Extend(t, s, Answered(vip, other));
    s := Next(t, s, Answered(vip, other));
    Extend(t, s, Tick(t.check));
    s := Next(t, s, Tick(t.check));
  }

  lemma InitialIsReachable(t: Timeouts, start: int)
    ensures Reachable(t, Initial(start))
  {
    assert Run(t, start, []) == Initial(start);
  }

  class P2pTransportManager {
    const timeouts: Timeouts
    var transportMap: map<Vip, Entry>
    var heartMap: map<Addr, Id>
    var futureMap: map<Id, Future>
    ghost var settled: set<Id>
    var clock: int

    ghost function St(): State
      reads this
    {
      State(transportMap, heartMap, futureMap, settled, clock)
    }

    ghost predicate Valid()
      reads this
    {
      Reachable(timeouts, St())
    }

    constructor (timeouts: Timeouts, start: int)
      ensures this.timeouts == timeouts && St() == Initial(start) && Valid()
    {
      this.timeouts := timeouts;
      transportMap, heartMap, futureMap, settled, clock := map[], map[], map[], {}, start;
      new;
      assert Run(timeouts, start, []) == Initial(start);
    }

    /** Over which transport the packet goes; without one an election is running, if need be a new one. */
    method SendNode(vip: Vip, id: Id) returns (transport: Option<Addr>)
      requires Valid() && New(St(), id)
      modifies this
      ensures Valid() && St() == Next(timeouts, old(St()), Send(vip, id))
      ensures vip in old(transportMap) ==> St() == old(St())
      ensures vip !in old(transportMap) ==>
        && transportMap == old(transportMap)[vip := Empty(clock, id)] && heartMap == old(heartMap)
        && futureMap == old(futureMap)[id := Future(Offer(vip), clock + 3 * timeouts.election)]
        && clock == old(clock)
      ensures transport == if vip in old(transportMap) && old(transportMap)[vip].Ready?
          then Some(old(transportMap)[vip].addr) else None
      ensures transport.None? ==>
          vip in transportMap && transportMap[vip].Empty? && Pending(St(), transportMap[vip].offer, true)
    {
      hide Reachable;
      Extend(timeouts, St(), Send(vip, id));
      if vip !in transportMap {
        futureMap := futureMap[id := Future(Offer(vip), clock + 3 * timeouts.election)];
        transportMap := transportMap[vip := Empty(clock, id)];
      }
      ReachableInvariant(timeouts, St());
      assert Electing(timeouts, St(), vip);
      transport := if transportMap[vip].Ready? then Some(transportMap[vip].addr) else None;
    }

    /** processAnswer, once the pinged transport has answered. */
    method AddTransport(vip: Vip, addr: Addr)
      requires Valid()
      modifies this`transportMap
      ensures Valid() && transportMap == old(transportMap)[vip := Ready(addr)]
    {
      hide Reachable;
      Extend(timeouts, St(), Answered(vip, addr));
      transportMap := transportMap[vip := Ready(addr)];
    }

    method DeleteTransport(vip: Vip)
      requires Valid()
      modifies this`transportMap
      ensures Valid() && transportMap == old(transportMap) - {vip}
    {
      hide Reachable;
      Extend(timeouts, St(), Offline(vip));
      transportMap := transportMap - {vip};
    }

    /** completeTask with an answer: `elected` is the transport the pings have found, if any. */
    method CompleteTask(id: Id, elected: Option<Addr>)
      requires Valid()
      modifies this
      ensures Valid() && id !in futureMap && clock == old(clock)
      ensures id !in old(futureMap) ==> St() == old(St())
      ensures id in old(futureMap) ==> id in settled && St() == Next(timeouts, old(St()),
        if old(futureMap)[id].purpose.Heart? then Pong(id) else if elected.Some?
            then Elected(id, elected.value) else Failed(id))
      ensures futureMap == old(futureMap) - {id}
      ensures id in old(futureMap) ==>
        match old(futureMap)[id].purpose
        case Offer(vip) =>
          && heartMap == old(heartMap)
          && transportMap ==
            if elected.Some? then old(transportMap)[vip := Ready(elected.value)] else old(transportMap) - {vip}
        case Heart(_, pinged) => transportMap == old(transportMap) && heartMap == old(heartMap) - {pinged}
    {
      hide Reachable;
      if id !in futureMap {
        return;
      }
      var purpose := futureMap[id].purpose;
      Extend(timeouts, St(), if purpose.Heart? then Pong(id) else if elected.Some?
          then Elected(id, elected.value) else Failed(id));
      futureMap, settled := futureMap - {id}, settled + {id};
      match purpose
      case Offer(vip) =>
        transportMap := if elected.Some? then transportMap[vip := Ready(elected.value)] else transportMap - {vip};
      case Heart(_, addr) => heartMap := heartMap - {addr};
    }

    /** completeExceptionallyTask: the timer of the future. */
    method CompleteExceptionallyTask(id: Id)
      requires Valid() && (id in futureMap ==> futureMap[id].deadline <= clock)
      modifies this
      ensures Valid() && id !in futureMap && clock == old(clock)
      ensures id !in old(futureMap) ==> St() == old(St())
      ensures id in old(futureMap) ==> id in settled && St() == Next(timeouts, old(St()),
        if old(futureMap)[id].purpose.Heart? then Timeout(id) else Failed(id))
      ensures futureMap == old(futureMap) - {id}
      ensures id in old(futureMap) ==>
        match old(futureMap)[id].purpose
        case Offer(vip) => transportMap == old(transportMap) - {vip} && heartMap == old(heartMap)
        case Heart(checked, pinged) =>
          transportMap == old(transportMap) - {checked} && heartMap == old(heartMap) - {pinged}
    {
      hide Reachable;
      if id !in futureMap {
        return;
      }
      var purpose := futureMap[id].purpose;
      Extend(timeouts, St(), if purpose.Heart? then Timeout(id) else Failed(id));
      futureMap, settled := futureMap - {id}, settled + {id};
      match purpose
      case Offer(vip) => transportMap := transportMap - {vip};
      case Heart(vip, addr) =>
        transportMap := transportMap - {vip};
        heartMap := heartMap - {addr};
    }

    /** One transport of the heartbeat. */
    method Beat(vip: Vip, id: Id)
      requires Valid() && New(St(), id) && vip in transportMap && transportMap[vip].Ready?
      modifies this`heartMap, this`futureMap
      ensures Valid() && St() == Next(timeouts, old(St()), Step.Beat(vip, id))
      ensures var addr := transportMap[vip].addr;
        if addr in old(heartMap) then heartMap == old(heartMap) && futureMap == old(futureMap)
        else
          && heartMap == old(heartMap)[addr := id]
          && futureMap == old(futureMap)[id := Future(Heart(vip, addr), clock + timeouts.check)]
    {
      hide Reachable;
      var addr := transportMap[vip].addr;
      Extend(timeouts, St(), Step.Beat(vip, id));
      if addr !in heartMap {
        futureMap := futureMap[id := Future(Heart(vip, addr), clock + timeouts.check)];
        heartMap := heartMap[addr := id];
      }
    }

    /** The heartbeat: afterwards every transport's address has a ping pending, those pending before are
        kept, and no other future is added or touched. */
    method RunHeartbeat(ids: map<Vip, Id>) returns (pinged: map<Vip, Id>)
      requires Valid() && transportMap.Keys <= ids.Keys
      requires forall vip :: vip in ids ==> New(St(), ids[vip])
      requires forall v, w :: v in ids && w in ids && v != w ==> ids[v] != ids[w]
      modifies this`heartMap, this`futureMap
      ensures Valid() && Added(old(St()), St())
      ensures forall vip :: vip in transportMap && transportMap[vip].Ready? ==>
        var addr := transportMap[vip].addr;
        addr in heartMap && vip in pinged && pinged[vip] == heartMap[addr] && Pending(St(), pinged[vip], false)
    {
      hide Reachable, Pending, Next, New, Added;
      var todo := transportMap.Keys;
      pinged := map[];
      NothingAdded(St());
      while todo != {}
        invariant Valid() && todo <= transportMap.Keys && Added(old(St()), St())
        invariant forall vip :: vip in todo ==> New(St(), ids[vip])
        invariant forall vip :: vip in transportMap && transportMap[vip].Ready? && vip !in todo ==>
          transportMap[vip].addr in heartMap && vip in pinged && pinged[vip] == heartMap[transportMap[vip].addr]
        decreases todo
      {
        var vip :| vip in todo;
        todo := todo - {vip};
        if transportMap[vip].Empty? {
          continue;
        }
        BeatAdds(timeouts, old(St()), St(), vip, ids[vip]);
        Beat(vip, ids[vip]);
        pinged := pinged[vip := heartMap[transportMap[vip].addr]];
      }
      forall vip | vip in transportMap && transportMap[vip].Ready? ensures Pending(St(), pinged[vip], false) {
        RememberedIsPending(timeouts, St(), transportMap[vip].addr);
      }
    }
  }

  /** Only pings of transports' addresses are new. */
  ghost predicate Added(s: State, n: State) {
    && n.transportMap == s.transportMap && n.clock == s.clock && n.settled == s.settled
    && (forall addr :: addr in s.heartMap ==> addr in n.heartMap && n.heartMap[addr] == s.heartMap[addr])
    && (forall id :: id in s.futureMap ==> id in n.futureMap && n.futureMap[id] == s.futureMap[id])
    && (forall id :: id in n.futureMap && id !in s.futureMap ==>
          var p := n.futureMap[id].purpose;
          p.Heart? && p.checked in s.transportMap && s.transportMap[p.checked] == Ready(p.pinged))
  }

  lemma NothingAdded(s: State)
    ensures Added(s, s)
  {
  }

  lemma BeatAdds(t: Timeouts, s: State, n: State, vip: Vip, id: Id)
    requires Added(s, n) && Enabled(t, n, Beat(vip, id))
    ensures var m := Next(t, n, Beat(vip, id));
      && Added(s, m) && n.transportMap[vip].addr in m.heartMap
      && (forall addr :: addr in n.heartMap ==> addr in m.heartMap && m.heartMap[addr] == n.heartMap[addr])
      && (forall other :: New(n, other) && other != id ==> New(m, other))
  {
  }
}
