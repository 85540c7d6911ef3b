/**
 The controller's registry for one tenant with VIPs from the local configuration, as interleaved steps: one
 access to shared state each. A channel's messages and close listeners do not overlap with each other.
 */
module ControllerProtocol {
  import opened Names
  import opened Wrappers
  import opened NodeManager

  type Chan = nat

  datatype Mac = Mac(text: string)

  /** VIPs of the pool in the iteration order of bindIPMap, and the VIPs fixed for a MAC address. */
  datatype Config = Config(pool: seq<Vip>, fixedVips: map<Mac, Vip>)

  /** A loop over the registered channels: the ones registered at its start and the ones visited. */
  datatype Loop = Loop(due: set<Chan>, done: set<Chan>)

  /** How far a channel's current message or its close has come; a close has `left` offline listeners to run. */
  datatype Phase =
    | Idle
    | Assigning(mac: Mac, wanted: Addrs, next: nat)
    | Won(vip: Vip, wanted: Addrs)
    | Entered(vip: Vip, wanted: Addrs)
    | Assigned(wanted: Addrs)
    | Listing(loop: Loop)
    | Announcing(loop: Loop, registers: bool)
    | Unregistered(vip: Vip)
    | Released(vip: Vip)
    | Leaving(vip: Vip, left: nat, loop: Loop)
    | Closed

  datatype Session = Session(phase: Phase, addrs: Addrs, offlineListeners: nat, link: Link)

  const FRESH := Session(Idle, Addrs([]), 0, SILENT)

  /** `behind` records, for a registration trying the pool, the VIPs released behind its loop and not
      bound since. */
  datatype State = State(
    registered: map<Chan, Vip>,
    space: map<Vip, Chan>,
    bound: map<Vip, Chan>,
    behind: set<(Chan, Vip)>,
    sessions: map<Chan, Session>)

  const INITIAL := State(map[], map[], map[], {}, map[])

  function Of(sessions: map<Chan, Session>, c: Chan): Session {
    if c in sessions then sessions[c] else FRESH
  }

  function At(s: State, c: Chan): Session {
    Of(s.sessions, c)
  }

  function Put(s: State, c: Chan, n: Session): State {
    s.(sessions := s.sessions[c := n])
  }

  function Move(s: State, c: Chan, phase: Phase): State {
    Put(s, c, At(s, c).(phase := phase))
  }

  function Start(s: State): Loop {
    Loop(s.registered.Keys, {})
  }

  predicate Looping(p: Phase) {
    p.Listing? || p.Announcing? || p.Leaving?
  }

  function Visited(p: Phase, d: Chan): (r: Phase)
    requires Looping(p)
  {
    var loop := p.loop.(done := p.loop.done + {d});
    match p
    case Listing(_) => Listing(loop)
    case Announcing(_, registers) => Announcing(loop, registers)
    case Leaving(vip, left, _) => Leaving(vip, left, loop)
  }

  // ----- assigning a VIP -----

  datatype Attempt = Win(vip: Vip) | Lose(code: Code) | Advance

  /** One compare-and-set of assignVip. A fixed VIP outside the pool has no reference to set. */
  function AttemptOf(cfg: Config, bound: map<Vip, Chan>, mac: Mac, next: nat): (r: Attempt)
    ensures r.Win? ==> r.vip in cfg.pool && r.vip !in bound
  {
    if mac in cfg.fixedVips then
      var vip := cfg.fixedVips[mac];
      if vip !in cfg.pool then Lose(SysError) else if vip in bound then Lose(VipBound) else Win(vip)
    else if next >= |cfg.pool| then Lose(NotEnough)
    else if cfg.pool[next] in bound then Advance
    else Win(cfg.pool[next])
  }

  function AttemptAt(cfg: Config, s: State, c: Chan): Attempt
    requires At(s, c).phase.Assigning?
  {
    AttemptOf(cfg, s.bound, At(s, c).phase.mac, At(s, c).phase.next)
  }

  /** A registration message; a channel registered already keeps its VIP. */
  function BeginRegist(s: State, c: Chan, mac: Mac, addrs: Addrs): State {
    if c in s.registered then Move(s, c, Assigned(addrs))
    else Move(s, c, Assigning(mac, addrs, 0)).(behind := set x | x in s.behind && x.0 != c)
  }

  function TryBind(cfg: Config, s: State, c: Chan): State
    requires At(s, c).phase.Assigning?
  {
    var p := At(s, c).phase;
    match AttemptAt(cfg, s, c)
    case Win(vip) => Bind(s, c, vip, p.wanted)
    case Lose(code) => Fail(s, c, code)
    case Advance => Move(s, c, p.(next := p.next + 1))
  }

  function Bind(s: State, c: Chan, vip: Vip, wanted: Addrs): State {
    Move(s, c, Won(vip, wanted)).(bound := s.bound[vip := c], behind := set x | x in s.behind && x.1 != vip)
  }

  function Fail(s: State, c: Chan, code: Code): State {
    Put(s, c, At(s, c).(phase := Idle, link := Refuse(At(s, c).link, code)))
  }

  /** ChannelSpace.addChannel. */
  function EnterSpace(s: State, c: Chan): State
    requires At(s, c).phase.Won?
  {
    var p := At(s, c).phase;
    Move(s, c, Entered(p.vip, p.wanted)).(space := s.space[p.vip := c])
  }

  /** computeIfAbsent stores its value. */
  function Commit(s: State, c: Chan): State
    requires At(s, c).phase.Entered?
  {
    var p := At(s, c).phase;
    Move(s, c, Assigned(p.wanted)).(registered := s.registered[c := p.vip])
  }

  // ----- answering and announcing -----

  /** The addresses are stored, and the loop for the node list begins. */
  function StoreAddresses(s: State, c: Chan): State
    requires At(s, c).phase.Assigned?
  {
    Put(s, c, At(s, c).(addrs := At(s, c).phase.wanted, phase := Listing(Start(s))))
  }

  /** One entry of the node list. */
  function ReadEntry(s: State, c: Chan, d: Chan): State
    requires At(s, c).phase.Listing? && d in s.registered
  {
    var (n, p) := (At(s, c), At(s, c).phase);
    Put(s, c, n.(phase := Visited(p, d), link := Read(n.link, map[s.registered[d] := At(s, d).addrs])))
  }

  /** The answer is sent, and the loop of updateNodeInfoToAllChannel begins. */
  function SendAnswer(s: State, c: Chan): State {
    var n := At(s, c);
    Put(s, c, n.(phase := Announcing(Start(s), true), link := Answer(n.link)))
  }

  /** processUpdateNodeInfo stores the addresses; without a VIP the push then fails. */
  function StoreUpdate(s: State, c: Chan, addrs: Addrs): State {
    var n := At(s, c).(addrs := addrs);
    Put(s, c, if c in s.registered then n.(phase := Announcing(Start(s), false))
              else n.(link := Refuse(n.link, SysError)))
  }

  /** What c's current loop pushes. */
  function Pushed(s: State, c: Chan): (m: Message)
    requires Pushing(s, c)
    ensures IsPush(m)
  {
    match At(s, c).phase
    case Announcing(_, _) => Online(s.registered[c], At(s, c).addrs)
    case Leaving(vip, _, _) => Offline(vip)
  }

  predicate Pushing(s: State, c: Chan) {
    (At(s, c).phase.Announcing? && c in s.registered) || At(s, c).phase.Leaving?
  }

  function Receives(s: State, d: Chan, m: Message): State
    requires IsPush(m)
  {
    Put(s, d, At(s, d).(link := Push(At(s, d).link, m)))
  }

  function PushTo(s: State, c: Chan, d: Chan): State
    requires Pushing(s, c)
  {
    var (t, p) := (Receives(s, d, Pushed(s, c)), At(s, c).phase);
    Move(t, c, Visited(p, d))
  }

  /** After a registration one more offline listener is added; a close goes on to its next one. */
  function EndLoop(s: State, c: Chan): State
    requires Pushing(s, c)
  {
    var n := At(s, c);
    match n.phase
    case Announcing(_, registers) =>
      Put(s, c, n.(phase := Idle, offlineListeners := n.offlineListeners + if registers then 1 else 0))
    case Leaving(vip, left, _) =>
      Move(s, c, if left > 1 then Leaving(vip, left - 1, Start(s)) else Closed)
  }

  // ----- closing -----

  /** The registry listener. */
  function Unregister(s: State, c: Chan): State {
    if c in s.registered
    then Move(s, c, Unregistered(s.registered[c])).(registered := s.registered - {c})
    else Move(s, c, Closed)
  }

  function Seen(cfg: Config, next: nat): seq<Vip> {
    if next <= |cfg.pool| then cfg.pool[..next] else cfg.pool
  }

  /** A registration has tried the VIP already. */
  predicate Passed(cfg: Config, s: State, c: Chan, vip: Vip) {
    At(s, c).phase.Assigning? && vip in Seen(cfg, At(s, c).phase.next)
  }

  /** The listener of the VIP's reference. */
  function Release(cfg: Config, s: State, c: Chan): State
    requires At(s, c).phase.Unregistered?
  {
    var vip := At(s, c).phase.vip;
    var missed := set d | d in s.sessions.Keys && Passed(cfg, s, d, vip) :: (d, vip);
    Move(s, c, Released(vip)).(bound := s.bound - {vip}, behind := s.behind + missed)
  }

  /** The listener of the channel space removes whatever the VIP's entry is by now. */
  function ClearSpace(s: State, c: Chan): State
    requires At(s, c).phase.Released?
  {
    var (vip, left) := (At(s, c).phase.vip, At(s, c).offlineListeners);
    Move(s, c, if left > 0 then Leaving(vip, left, Start(s)) else Closed).(space := s.space - {vip})
  }

  // ----- links -----

  function Deliver(s: State, c: Chan): State
    requires At(s, c).link.queue != []
  {
    Put(s, c, At(s, c).(link := Arrive(At(s, c).link)))
  }

  function Apply(s: State, c: Chan, vip: Vip): State
    requires vip in At(s, c).link.client.held
  {
    Put(s, c, At(s, c).(link := PutEntry(At(s, c).link, vip)))
  }

  // ----- runs -----

  datatype Step =
    | Begin(chan: Chan, mac: Mac, addrs: Addrs)
    | Try(chan: Chan)
    | Enter(chan: Chan)
    | Commits(chan: Chan)
    | SetAddresses(chan: Chan)
    | Reads(chan: Chan, other: Chan)
    | Answers(chan: Chan)
    | Pushes(chan: Chan, other: Chan)
    | Ends(chan: Chan)
    | Update(chan: Chan, addrs: Addrs)
    | Close(chan: Chan)
    | Releases(chan: Chan)
    | Clears(chan: Chan)
    | Delivers(chan: Chan)
    | Applies(chan: Chan, vip: Vip)

  /** No channel registered since the loop began, and still registered, is left. */
  predicate Through(s: State, p: Phase)
    requires Looping(p)
  {
    p.loop.due * s.registered.Keys <= p.loop.done
  }

  predicate Enabled(s: State, step: Step) {
    var c := step.chan;
    var n := At(s, c);
    match step
    case Begin(_, _, _) => n.phase == Idle
    case Try(_) => n.phase.Assigning?
    case Enter(_) => n.phase.Won?
    case Commits(_) => n.phase.Entered?
    case SetAddresses(_) => n.phase.Assigned?
    case Reads(_, d) => n.phase.Listing? && d in s.registered && d !in n.phase.loop.done
    case Answers(_) => n.phase.Listing? && Through(s, n.phase)
    case Pushes(_, d) => Pushing(s, c) && d in s.registered && d !in n.phase.loop.done
    case Ends(_) => Pushing(s, c) && Through(s, n.phase)
    case Update(_, _) => n.phase == Idle
    case Close(_) => n.phase == Idle
    case Releases(_) => n.phase.Unregistered?
    case Clears(_) => n.phase.Released?
    case Delivers(_) => n.link.queue != []
    case Applies(_, vip) => vip in n.link.client.held
  }

  function Next(cfg: Config, s: State, step: Step): State
    requires Enabled(s, step)
  {
    match step
    case Begin(c, mac, addrs) => BeginRegist(s, c, mac, addrs)
    case Try(c) => TryBind(cfg, s, c)
    case Enter(c) => EnterSpace(s, c)
    case Commits(c) => Commit(s, c)
    case SetAddresses(c) => StoreAddresses(s, c)
    case Reads(c, d) => ReadEntry(s, c, d)
    case Answers(c) => SendAnswer(s, c)
    case Pushes(c, d) => PushTo(s, c, d)
    case Ends(c) => EndLoop(s, c)
    case Update(c, addrs) => StoreUpdate(s, c, addrs)
    case Close(c) => Unregister(s, c)
    case Releases(c) => Release(cfg, s, c)
    case Clears(c) => ClearSpace(s, c)
    case Delivers(c) => Deliver(s, c)
    case Applies(c, vip) => Apply(s, c, vip)
  }

  /** The state after a run; a step that is not enabled does nothing. */
  function Run(cfg: Config, steps: seq<Step>): State {
    if steps == [] then INITIAL
    else
      var (before, step) := (Run(cfg, steps[..|steps| - 1]), steps[|steps| - 1]);
      if Enabled(before, step) then Next(cfg, before, step) else before
  }

  // ----- what a step leaves alone -----

  predicate InMessage(step: Step) {
    step.Begin? || step.Enter? || step.Commits? || step.SetAddresses? || step.Update?
  }

  predicate InLoop(step: Step) {
    step.Reads? || step.Answers? || step.Ends? || step.Delivers? || step.Applies?
  }

  predicate InClose(step: Step) {
    step.Close? || step.Releases? || step.Clears?
  }

  /** Everything about d except what it is sent. */
  predicate SameFor(s: State, t: State, d: Chan) {
    && At(t, d) == At(s, d)
    && (d in t.registered <==> d in s.registered)
    && (d in s.registered ==> t.registered[d] == s.registered[d])
  }

  lemma MessageLeaves(cfg: Config, s: State, step: Step, d: Chan)
    requires Enabled(s, step) && d != step.chan
    requires InMessage(step)
    ensures SameFor(s, Next(cfg, s, step), d)
  {
    hide Refuse, Pushing, TryBind;
  }

  lemma TryLeaves(cfg: Config, s: State, c: Chan, d: Chan)
    requires At(s, c).phase.Assigning? && d != c
    ensures SameFor(s, TryBind(cfg, s, c), d)
  {
    hide Refuse, AttemptOf;
  }

  lemma LoopLeaves(cfg: Config, s: State, step: Step, d: Chan)
    requires Enabled(s, step) && d != step.chan
    requires InLoop(step)
    ensures SameFor(s, Next(cfg, s, step), d)
  {
    hide Read, Answer, Arrive, PutEntry, Through, Visited;
  }

  lemma CloseLeaves(cfg: Config, s: State, step: Step, d: Chan)
    requires Enabled(s, step) && d != step.chan
    requires InClose(step)
    ensures SameFor(s, Next(cfg, s, step), d)
  {
    hide Seen;
  }

  lemma PushLeaves(s: State, c: Chan, d: Chan, e: Chan)
    requires Pushing(s, c) && e != c
    ensures SameFor(if e == d then Receives(s, d, Pushed(s, c)) else s, PushTo(s, c, d), e)
  {
    hide Push, Pushed, Visited;
  }

  /** Another channel's step sends it something at most. */
  lemma OthersUntouched(cfg: Config, s: State, step: Step, d: Chan)
    requires Enabled(s, step) && d != step.chan
    ensures SameFor(if step == Pushes(step.chan, d) then Receives(s, d, Pushed(s, step.chan)) else s,
                    Next(cfg, s, step), d)
  {
    hide SameFor, Pushed, Receives, PushTo, Pushing;
    if InClose(step) {
      hide Next, Enabled;
      CloseLeaves(cfg, s, step, d);
    } else if InLoop(step) {
      hide Next, Enabled;
      LoopLeaves(cfg, s, step, d);
    } else if step.Pushes? {
      PushLeaves(s, step.chan, step.other, d);
    } else if step.Try? {
      hide TryBind;
      TryLeaves(cfg, s, step.chan, d);
    } else {
      hide Next, Enabled;
      MessageLeaves(cfg, s, step, d);
    }
  }

  lemma ReceivesAt(s: State, d: Chan, m: Message)
    requires IsPush(m)
    ensures At(Receives(s, d, m), d) == At(s, d).(link := Push(At(s, d).link, m))
  {
  }

  /** Phase, addresses and listeners are the same. */
  predicate SameButLink(n: Session, m: Session) {
    m == n.(link := m.link)
  }

  lemma OthersSameButLink(cfg: Config, s: State, step: Step, d: Chan)
    requires Enabled(s, step) && d != step.chan
    ensures SameButLink(At(s, d), At(Next(cfg, s, step), d))
  {
    hide Next, At, Push;
    OthersUntouched(cfg, s, step, d);
    if step == Pushes(step.chan, d) {
      ReceivesAt(s, d, Pushed(s, step.chan));
    }
  }

  // ----- phases -----

  predicate Open(p: Phase) {
    p.Assigning? || p.Won? || p.Entered?
  }

  predicate Serving(p: Phase) {
    p.Assigned? || p.Listing? || p.Announcing?
  }

  /** What a channel's phase says about it. */
  predicate Phased(s: State, c: Chan) {
    var n := At(s, c);
    && (c in s.registered ==> n.phase == Idle || Serving(n.phase))
    && (Serving(n.phase) ==> c in s.registered)
    && (c in s.registered && (n.phase == Idle || (n.phase.Announcing? && !n.phase.registers)) ==>
          n.offlineListeners > 0)
    && (n.phase.Unregistered? || n.phase.Released? ==> n.offlineListeners > 0)
    && (Open(n.phase) || (n.phase == Idle && c !in s.registered) ==> n.offlineListeners == 0 && n.link.told == map[])
    && (!n.phase.Listing? ==> n.link.listed == map[])
  }

  lemma MessagePhase(cfg: Config, s: State, step: Step)
    requires Enabled(s, step) && Phased(s, step.chan)
    requires InMessage(step)
    ensures Phased(Next(cfg, s, step), step.chan)
  {
    hide Pushing, TryBind;
  }

  lemma TryPhase(cfg: Config, s: State, c: Chan)
    requires At(s, c).phase.Assigning? && Phased(s, c)
    ensures Phased(TryBind(cfg, s, c), c)
  {
    hide AttemptOf;
  }

  lemma LoopPhase(cfg: Config, s: State, step: Step)
    requires Enabled(s, step) && Phased(s, step.chan)
    requires InLoop(step)
    ensures Phased(Next(cfg, s, step), step.chan)
  {
    hide Receive, Through;
  }

  lemma ClosePhase(cfg: Config, s: State, step: Step)
    requires Enabled(s, step) && Phased(s, step.chan)
    requires InClose(step)
    ensures Phased(Next(cfg, s, step), step.chan)
  {
    hide Seen;
  }

  lemma PushPhase(s: State, c: Chan, d: Chan)
    requires Pushing(s, c) && d in s.registered && Phased(s, c)
    ensures Phased(PushTo(s, c, d), c)
  {
    hide Mark, Applied, Pushed;
  }

  lemma OwnPhase(cfg: Config, s: State, step: Step)
    requires Enabled(s, step) && Phased(s, step.chan)
    ensures Phased(Next(cfg, s, step), step.chan)
  {
    hide Phased, PushTo;
    if InClose(step) {
      hide Next, Enabled;
      ClosePhase(cfg, s, step);
    } else if InLoop(step) {
      hide Next, Enabled;
      LoopPhase(cfg, s, step);
    } else if step.Pushes? {
      PushPhase(s, step.chan, step.other);
    } else if step.Try? {
      hide TryBind;
      TryPhase(cfg, s, step.chan);
    } else {
      hide Next, Enabled;
      MessagePhase(cfg, s, step);
    }
  }

  ghost predicate AllPhased(s: State) {
    forall c :: Phased(s, c)
  }

  lemma StepKeepsPhased(cfg: Config, s: State, step: Step, c: Chan)
    requires Enabled(s, step) && Phased(s, step.chan) && Phased(s, c)
    ensures Phased(Next(cfg, s, step), c)
  {
    if c == step.chan {
      hide *;
      OwnPhase(cfg, s, step);
    } else {
      OthersUntouched(cfg, s, step, c);
      if step == Pushes(step.chan, c) {
        ReceivesAt(s, c, Pushed(s, step.chan));
      }
      hide Next, At, Mark;
    }
  }

  // ----- one VIP, one channel -----

  /** The VIP whose reference a channel has set. */
  function Held(s: State, c: Chan): Option<Vip> {
    match At(s, c).phase
    case Won(vip, _) => Some(vip)
    case Entered(vip, _) => Some(vip)
    case Unregistered(vip) => Some(vip)
    case _ => if c in s.registered then Some(s.registered[c]) else None
  }

  predicate HeldIsBound(s: State, c: Chan) {
    Held(s, c).Some? ==> Held(s, c).value in s.bound && s.bound[Held(s, c).value] == c
  }

  predicate BoundIsHeld(cfg: Config, s: State, vip: Vip) {
    vip in s.bound ==> vip in cfg.pool && Held(s, s.bound[vip]) == Some(vip)
  }

  /** Channels holding a VIP and VIPs bound are one bijection. */
  ghost predicate Exclusive(cfg: Config, s: State) {
    && (forall c :: HeldIsBound(s, c))
    && (forall vip :: BoundIsHeld(cfg, s, vip))
  }

  /** The compare-and-set of a step, if it succeeds. */
  function WonBy(cfg: Config, s: State, step: Step): Option<Vip>
    requires Enabled(s, step)
  {
    if step.Try? && AttemptAt(cfg, s, step.chan).Win? then Some(AttemptAt(cfg, s, step.chan).vip) else None
  }

  /** Only a winning compare-and-set binds, and only a release sets free. */
  function BoundAfter(cfg: Config, s: State, step: Step): map<Vip, Chan>
    requires Enabled(s, step)
  {
    if WonBy(cfg, s, step).Some? then s.bound[WonBy(cfg, s, step).value := step.chan]
    else if step.Releases? then s.bound - {At(s, step.chan).phase.vip}
    else s.bound
  }

  function SpaceAfter(s: State, step: Step): map<Vip, Chan>
    requires Enabled(s, step)
  {
    if step.Enter? then s.space[At(s, step.chan).phase.vip := step.chan]
    else if step.Clears? then s.space - {At(s, step.chan).phase.vip}
    else s.space
  }

  lemma TryMaps(cfg: Config, s: State, c: Chan)
    requires At(s, c).phase.Assigning?
    ensures TryBind(cfg, s, c).bound == BoundAfter(cfg, s, Try(c)) && TryBind(cfg, s, c).space == s.space
    ensures TryBind(cfg, s, c).registered == s.registered
  {
    hide AttemptOf, At, Refuse;
  }

  lemma StepMaps(cfg: Config, s: State, step: Step)
    requires Enabled(s, step)
    ensures Next(cfg, s, step).bound == BoundAfter(cfg, s, step)
    ensures Next(cfg, s, step).space == SpaceAfter(s, step)
  {
    hide At, AttemptAt, TryBind, Push, Refuse, Pushed, Visited, Through, Passed, Pushing;
    if step.Try? {
      TryMaps(cfg, s, step.chan);
    }
  }

  function HeldAfter(cfg: Config, s: State, step: Step): Option<Vip>
    requires Enabled(s, step)
  {
    if WonBy(cfg, s, step).Some? then WonBy(cfg, s, step)
    else if step.Releases? then None
    else Held(s, step.chan)
  }

  lemma TryHeld(cfg: Config, s: State, c: Chan)
    requires At(s, c).phase.Assigning? && Phased(s, c)
    ensures Held(TryBind(cfg, s, c), c) == HeldAfter(cfg, s, Try(c))
  {
    hide AttemptOf, Refuse;
  }

  lemma OwnHeld(cfg: Config, s: State, step: Step)
    requires Enabled(s, step) && Phased(s, step.chan)
    ensures Held(Next(cfg, s, step), step.chan) == HeldAfter(cfg, s, step)
  {
    hide AttemptAt, TryBind, Push, Refuse, Pushed, Through, Passed, Receive;
    if step.Try? {
      TryHeld(cfg, s, step.chan);
    }
  }

  lemma OthersHeld(cfg: Config, s: State, step: Step, d: Chan)
    requires Enabled(s, step) && d != step.chan
    ensures Held(Next(cfg, s, step), d) == Held(s, d)
  {
    hide Next, Pushed, Push, At;
    OthersUntouched(cfg, s, step, d);
    if step == Pushes(step.chan, d) {
      ReceivesAt(s, d, Pushed(s, step.chan));
    }
  }

  lemma StepKeepsHeldIsBound(cfg: Config, s: State, step: Step, c: Chan)
    requires Enabled(s, step) && Exclusive(cfg, s) && Phased(s, step.chan)
    ensures HeldIsBound(Next(cfg, s, step), c)
  {
    hide Next, Enabled, Held, Phased, AttemptOf, At;
    StepMaps(cfg, s, step);
    assert HeldIsBound(s, c) && HeldIsBound(s, step.chan);
    Releasing(s, step);
    if c == step.chan {
      OwnHeld(cfg, s, step);
    } else {
      OthersHeld(cfg, s, step, c);
    }
  }

  /** A release is of the VIP the channel holds, and only a channel holding none tries. */
  lemma Releasing(s: State, step: Step)
    requires Enabled(s, step) && Phased(s, step.chan)
    ensures step.Releases? ==> Held(s, step.chan) == Some(At(s, step.chan).phase.vip)
    ensures step.Try? ==> Held(s, step.chan) == None
    ensures step.Enter? ==> Held(s, step.chan) == Some(At(s, step.chan).phase.vip)
  {
  }

  lemma StepKeepsBoundIsHeld(cfg: Config, s: State, step: Step, vip: Vip)
    requires Enabled(s, step) && Exclusive(cfg, s) && Phased(s, step.chan)
    ensures BoundIsHeld(cfg, Next(cfg, s, step), vip)
  {
    hide Next, Enabled, Held, Phased, AttemptOf, At;
    StepMaps(cfg, s, step);
    Releasing(s, step);
    assert BoundIsHeld(cfg, s, vip) && HeldIsBound(s, step.chan);
    OwnHeld(cfg, s, step);
    var t := Next(cfg, s, step);
    if vip in t.bound && t.bound[vip] != step.chan {
      OthersHeld(cfg, s, step, t.bound[vip]);
    }
  }

  // ----- the channel space -----

  /** The VIP under which messages should reach a channel. */
  function Occupied(s: State, c: Chan): Option<Vip> {
    if At(s, c).phase.Entered? then Some(At(s, c).phase.vip)
    else if c in s.registered then Some(s.registered[c])
    else None
  }

  predicate Reached(s: State, c: Chan) {
    Occupied(s, c).Some? ==> Occupied(s, c).value in s.space && s.space[Occupied(s, c).value] == c
  }

  /** Messages for the VIP of a registered channel reach that channel. */
  ghost predicate Agree(s: State) {
    forall c :: Reached(s, c)
  }

  /** What the space knows belongs to the VIP's holder, or to a channel about to clear it. */
  predicate Sound(s: State, vip: Vip) {
    vip in s.space ==>
      var c := s.space[vip];
      (Held(s, c) == Some(vip) && !At(s, c).phase.Won?) || At(s, c).phase == Released(vip)
  }

  /** A channel clears an entry of the space only while no other channel is using its VIP. */
  ghost predicate SafeClear(s: State, step: Step) {
    step.Clears? && At(s, step.chan).phase.Released? ==>
      forall c :: Occupied(s, c) != Some(At(s, step.chan).phase.vip)
  }

  lemma OwnOccupied(cfg: Config, s: State, step: Step)
    requires Enabled(s, step) && Phased(s, step.chan)
    ensures Occupied(Next(cfg, s, step), step.chan) ==
      if step.Enter? then Some(At(s, step.chan).phase.vip)
      else if step.Close? then None
      else Occupied(s, step.chan)
  {
    hide AttemptAt, TryBind, Push, Refuse, Pushed, Through, Passed, Receive;
    if step.Try? {
      TryOccupied(cfg, s, step.chan);
    }
  }

  lemma TryOccupied(cfg: Config, s: State, c: Chan)
    requires At(s, c).phase.Assigning? && Phased(s, c)
    ensures Occupied(TryBind(cfg, s, c), c) == None
  {
    hide AttemptOf, Refuse;
  }

  lemma OthersOccupied(cfg: Config, s: State, step: Step, d: Chan)
    requires Enabled(s, step) && d != step.chan
    ensures Occupied(Next(cfg, s, step), d) == Occupied(s, d)
  {
    hide Next, Pushed, Push, At;
    OthersUntouched(cfg, s, step, d);
    if step == Pushes(step.chan, d) {
      ReceivesAt(s, d, Pushed(s, step.chan));
    }
  }

  lemma OccupiedIsHeld(s: State, c: Chan)
    requires Phased(s, c)
    ensures Occupied(s, c).Some? ==> Held(s, c) == Occupied(s, c)
  {
  }

  lemma SafeStepKeepsReached(cfg: Config, s: State, step: Step, c: Chan)
    requires Enabled(s, step) && Exclusive(cfg, s) && Phased(s, step.chan) && Phased(s, c)
    requires Reached(s, c) && SafeClear(s, step)
    ensures Reached(Next(cfg, s, step), c)
  {
    hide Next, Enabled, Phased, Occupied, Held, At;
    StepMaps(cfg, s, step);
    OccupiedIsHeld(s, c);
    Releasing(s, step);
    Clearing(s, step);
    assert HeldIsBound(s, c) && HeldIsBound(s, step.chan);
    if c == step.chan {
      OwnOccupied(cfg, s, step);
    } else {
      OthersOccupied(cfg, s, step, c);
    }
  }

  lemma Clearing(s: State, step: Step)
    requires Enabled(s, step) && Phased(s, step.chan)
    ensures step.Clears? ==> At(s, step.chan).phase.Released? && Occupied(s, step.chan) == None
  {
  }

  /** Registry and space go on agreeing through a step, if and only if the step is no clearing of an entry
      that another channel is using by now. */
  lemma AgreeIff(cfg: Config, s: State, step: Step)
    requires Enabled(s, step) && Exclusive(cfg, s) && AllPhased(s) && Agree(s)
    ensures Agree(Next(cfg, s, step)) <==> SafeClear(s, step)
  {
    hide Next, Enabled, Phased, Occupied, Exclusive, At;
    assert Phased(s, step.chan);
    if SafeClear(s, step) {
      hide SafeClear, Reached;
      forall c ensures Reached(Next(cfg, s, step), c) {
        assert Phased(s, c) && Reached(s, c);
        SafeStepKeepsReached(cfg, s, step, c);
      }
    } else {
      var c :| Occupied(s, c) == Some(At(s, step.chan).phase.vip);
      Clearing(s, step);
      StepMaps(cfg, s, step);
      OthersOccupied(cfg, s, step, c);
      assert !Reached(Next(cfg, s, step), c);
    }
  }

  lemma StepKeepsSound(cfg: Config, s: State, step: Step, vip: Vip)
    requires Enabled(s, step) && Phased(s, step.chan) && Sound(s, vip)
    ensures Sound(Next(cfg, s, step), vip)
  {
    hide Next, Enabled, Phased, Held, At;
    StepMaps(cfg, s, step);
    Releasing(s, step);
    var t := Next(cfg, s, step);
    if vip in t.space {
      var c := t.space[vip];
      if c == step.chan {
        OwnSound(cfg, s, step, vip);
      } else {
        OthersHeld(cfg, s, step, c);
        OthersSameButLink(cfg, s, step, c);
      }
    }
  }

  lemma OwnSound(cfg: Config, s: State, step: Step, vip: Vip)
    requires Enabled(s, step) && Phased(s, step.chan) && Sound(s, vip)
    requires var t := Next(cfg, s, step); vip in t.space && t.space[vip] == step.chan
    ensures Sound(Next(cfg, s, step), vip)
  {
    hide Held, AttemptOf, Push, Refuse, Pushed, Through, Seen, Receive;
    StepMaps(cfg, s, step);
    OwnHeld(cfg, s, step);
    Releasing(s, step);
  }

  // ----- running out of VIPs -----

  /** A registration under way has found every VIP it passed taken, except the ones released behind it. */
  ghost predicate Tried(cfg: Config, s: State, c: Chan) {
    var p := At(s, c).phase;
    p.Assigning? ==>
      && p.next <= |cfg.pool|
      && (forall vip :: (c, vip) in s.behind ==> vip in Seen(cfg, p.next))
      && (forall vip :: vip in Seen(cfg, p.next) ==> (vip in s.bound <==> (c, vip) !in s.behind))
  }

  function BehindAfter(cfg: Config, s: State, step: Step): set<(Chan, Vip)>
    requires Enabled(s, step)
  {
    if WonBy(cfg, s, step).Some? then set x | x in s.behind && x.1 != WonBy(cfg, s, step).value
    else if step.Begin? && step.chan !in s.registered then set x | x in s.behind && x.0 != step.chan
    else if step.Releases? then
      var vip := At(s, step.chan).phase.vip;
      s.behind + set d | d in s.sessions.Keys && Passed(cfg, s, d, vip) :: (d, vip)
    else s.behind
  }

  lemma TryBehind(cfg: Config, s: State, c: Chan)
    requires At(s, c).phase.Assigning?
    ensures TryBind(cfg, s, c).behind == BehindAfter(cfg, s, Try(c))
  {
    hide AttemptOf, At, Refuse;
  }

  lemma StepBehind(cfg: Config, s: State, step: Step)
    requires Enabled(s, step)
    ensures Next(cfg, s, step).behind == BehindAfter(cfg, s, step)
  {
    hide At, AttemptAt, TryBind, Push, Refuse, Pushed, Visited, Through, Passed, Pushing;
    if step.Try? {
      TryBehind(cfg, s, step.chan);
    }
  }

  /** Only a registration's own beginning and attempts move its loop. */
  lemma OwnLoop(cfg: Config, s: State, step: Step)
    requires Enabled(s, step)
    ensures var p := At(Next(cfg, s, step), step.chan).phase;
      p.Assigning? ==>
        || (step.Begin? && step.chan !in s.registered && p.next == 0)
        || (step.Try? && AttemptAt(cfg, s, step.chan) == Advance && p.next == At(s, step.chan).phase.next + 1)
        || (!step.Begin? && !step.Try? && !InClose(step) && p == At(s, step.chan).phase)
  {
    hide AttemptOf, Push, Refuse, Pushed, Through, Seen, Receive;
  }

  lemma SeenGrows(cfg: Config, p: Phase)
    ensures Seen(cfg, 0) == []
    ensures p.Assigning? && p.next < |cfg.pool| ==> forall vip :: vip in Seen(cfg, p.next + 1) <==>
      vip in Seen(cfg, p.next) || vip == cfg.pool[p.next]
  {
    if p.Assigning? && p.next < |cfg.pool| {
      assert cfg.pool[..p.next + 1] == cfg.pool[..p.next] + [cfg.pool[p.next]];
    }
  }

  lemma OwnTried(cfg: Config, s: State, step: Step)
    requires Enabled(s, step) && Tried(cfg, s, step.chan)
    ensures Tried(cfg, Next(cfg, s, step), step.chan)
  {
    hide Next, Seen, At, Pushing, Through;
    OwnLoop(cfg, s, step);
    StepMaps(cfg, s, step);
    StepBehind(cfg, s, step);
    SeenGrows(cfg, At(s, step.chan).phase);
  }

  lemma OthersTried(cfg: Config, s: State, step: Step, c: Chan)
    requires Enabled(s, step) && Tried(cfg, s, c) && c != step.chan
    ensures Tried(cfg, Next(cfg, s, step), c)
  {
    hide Next, Enabled, Seen, AttemptAt;
    OthersSameButLink(cfg, s, step, c);
    StepMaps(cfg, s, step);
    StepBehind(cfg, s, step);
  }

  // ----- what the clients are told -----

  function Told(s: State, c: Chan): Nodes {
    At(s, c).link.told
  }

  /** The VIP's holder is registered. */
  predicate Live(s: State, vip: Vip) {
    vip in s.bound && s.bound[vip] in s.registered && s.registered[s.bound[vip]] == vip
  }

  predicate Pending(loop: Loop, c: Chan) {
    c in loop.due && c !in loop.done
  }

  /** A closing channel will still push to c that its VIP is offline. */
  predicate Owes(s: State, a: Chan, c: Chan, vip: Vip) {
    match At(s, a).phase
    case Unregistered(v) => v == vip
    case Released(v) => v == vip
    case Leaving(v, _, loop) => v == vip && Pending(loop, c)
    case _ => false
  }

  ghost predicate Owed(s: State, c: Chan, vip: Vip) {
    exists a :: Owes(s, a, c, vip)
  }

  /** A registered client has been told of no VIP that is not registered, but for closes not through yet. */
  ghost predicate NoStale(s: State, c: Chan) {
    c in s.registered ==> forall vip :: vip in Told(s, c) ==> Live(s, vip) || Owed(s, c, vip)
  }

  /** d has nothing left to announce to c. */
  predicate Announced(s: State, d: Chan, c: Chan) {
    var p := At(s, d).phase;
    d in s.registered && (p == Idle || (p.Announcing? && !Pending(p.loop, c)))
  }

  /** c has had a node list, or one is being read for it in which d comes no more. */
  predicate Informed(s: State, c: Chan, d: Chan) {
    var n := At(s, c);
    n.offlineListeners > 0 || n.phase.Announcing? || (n.phase.Listing? && !Pending(n.phase.loop, d))
  }

  predicate Expects(s: State, c: Chan, d: Chan) {
    c in s.registered && Informed(s, c, d) && Announced(s, d, c)
  }

  /** Then c has been told d's VIP with its current addresses. */
  predicate Knows(s: State, c: Chan, d: Chan) {
    Expects(s, c, d) ==>
      s.registered[d] in Told(s, c) && Told(s, c)[s.registered[d]] == At(s, d).addrs
  }

  ghost predicate Replicated(s: State) {
    && (forall c :: NoStale(s, c))
    && (forall c, d :: Knows(s, c, d))
  }

  /** A close pushes offline to no client that has been told of the VIP's next holder already. */
  ghost predicate SafePush(s: State, step: Step) {
    step.Pushes? && At(s, step.chan).phase.Leaving? ==>
      forall d :: Expects(s, step.other, d) ==> s.registered[d] != At(s, step.chan).phase.vip
  }

  function ToldAfter(s: State, step: Step, c: Chan): Nodes
    requires Enabled(s, step)
  {
    if step == Pushes(step.chan, c) then Applied(Told(s, c), Pushed(s, step.chan))
    else if step.Reads? && step.chan == c then Told(s, c)[s.registered[step.other] := At(s, step.other).addrs]
    else Told(s, c)
  }

  lemma OwnTold(cfg: Config, s: State, step: Step)
    requires Enabled(s, step)
    ensures Told(Next(cfg, s, step), step.chan) == ToldAfter(s, step, step.chan)
  {
    hide TryBind, Pushed, PushTo, ReadEntry, Told, At;
    if step.Try? {
      TryTold(cfg, s, step.chan);
    } else if step.Pushes? {
      PushTold(s, step.chan, step.other);
    } else if step.Reads? {
      ReadTold(s, step.chan, step.other);
    } else if InMessage(step) {
      hide Next, Enabled;
      MessageTold(cfg, s, step);
    } else {
      hide Next, Enabled;
      LoopTold(cfg, s, step);
    }
  }

  lemma MessageTold(cfg: Config, s: State, step: Step)
    requires Enabled(s, step) && InMessage(step)
    ensures Told(Next(cfg, s, step), step.chan) == Told(s, step.chan)
  {
    hide Pushing, TryBind;
  }

  lemma LoopTold(cfg: Config, s: State, step: Step)
    requires Enabled(s, step) && (InClose(step) || InLoop(step)) && !step.Reads?
    ensures Told(Next(cfg, s, step), step.chan) == Told(s, step.chan)
  {
    hide Passed, Receive, Through, ReadEntry;
  }

  lemma PushTold(s: State, c: Chan, d: Chan)
    requires Pushing(s, c)
    ensures Told(PushTo(s, c, d), c) == if d == c then Applied(Told(s, c), Pushed(s, c)) else Told(s, c)
  {
    hide Pushed, Applied, Mark, Visited;
  }

  lemma ReadTold(s: State, c: Chan, d: Chan)
    requires At(s, c).phase.Listing? && d in s.registered
    ensures Told(ReadEntry(s, c, d), c) == Told(s, c)[s.registered[d] := At(s, d).addrs]
  {
    hide Visited;
  }

  lemma TryTold(cfg: Config, s: State, c: Chan)
    requires At(s, c).phase.Assigning?
    ensures Told(TryBind(cfg, s, c), c) == Told(s, c)
  {
    hide AttemptOf;
  }

  lemma StepTold(cfg: Config, s: State, step: Step, c: Chan)
    requires Enabled(s, step)
    ensures Told(Next(cfg, s, step), c) == ToldAfter(s, step, c)
  {
    if c == step.chan {
      hide *;
      OwnTold(cfg, s, step);
    } else {
      hide Next, Pushed, At, Applied;
      OthersUntouched(cfg, s, step, c);
      if step == Pushes(step.chan, c) {
        ReceivesAt(s, c, Pushed(s, step.chan));
      }
    }
  }

  /** Channels enter the registry by committing and leave it by closing. */
  lemma StepRegistered(cfg: Config, s: State, step: Step, c: Chan)
    requires Enabled(s, step)
    ensures var t := Next(cfg, s, step);
      && (c in t.registered <==> (c in s.registered || step == Commits(c)) && step != Close(c))
      && (c in s.registered && c in t.registered && step != Commits(c) ==> t.registered[c] == s.registered[c])
  {
    if c != step.chan {
      hide *;
      OthersRegistered(cfg, s, step, c);
    } else {
      hide At, AttemptAt, TryBind, Push, Refuse, Pushed, Visited, Through, Passed, Pushing;
      if step.Try? {
        TryMaps(cfg, s, step.chan);
      }
    }
  }

  lemma OthersRegistered(cfg: Config, s: State, step: Step, d: Chan)
    requires Enabled(s, step) && d != step.chan
    ensures var t := Next(cfg, s, step);
      && (d in t.registered <==> (d in s.registered || step == Commits(d)) && step != Close(d))
      && (d in s.registered ==> d in t.registered && t.registered[d] == s.registered[d])
  {
    hide Next, Enabled, At, Pushed, Push;
    OthersUntouched(cfg, s, step, d);
  }

  /** Who is registered stays bound, and only its own close makes a VIP's holder leave the registry. */
  lemma StepLive(cfg: Config, s: State, step: Step, vip: Vip)
    requires Enabled(s, step) && Exclusive(cfg, s) && Phased(s, step.chan) && Live(s, vip)
    ensures Live(Next(cfg, s, step), vip) || (step == Close(s.bound[vip]) && Held(s, step.chan) == Some(vip))
  {
    hide Next, Phased, At, AttemptOf, Held, Pushing, Through;
    StepMaps(cfg, s, step);
    Releasing(s, step);
    assert HeldIsBound(s, step.chan) && BoundIsHeld(cfg, s, vip);
    StepRegistered(cfg, s, step, s.bound[vip]);
    ReleasedIsNotRegistered(s, step);
  }

  lemma ReleasedIsNotRegistered(s: State, step: Step)
    requires Enabled(s, step) && Phased(s, step.chan)
    ensures step.Releases? || step.Commits? ==> step.chan !in s.registered
  {
  }

  /** A debt is paid by the push, and by nothing else. */
  lemma StepOwes(cfg: Config, s: State, step: Step, a: Chan, c: Chan, vip: Vip)
    requires Enabled(s, step) && Phased(s, step.chan) && Owes(s, a, c, vip)
    requires c in s.registered && c in Next(cfg, s, step).registered
    ensures Owes(Next(cfg, s, step), a, c, vip) || (step == Pushes(a, c) && Pushed(s, a) == Offline(vip))
  {
    if a != step.chan {
      hide Next, Enabled, At;
      OthersSameButLink(cfg, s, step, a);
    } else {
      hide AttemptOf, Push, Refuse, Seen, Receive, BeginRegist, TryBind, Commit, StoreAddresses, ReadEntry, SendAnswer;
    }
  }

  /** A close starts with a debt to every client. */
  lemma CloseOwes(s: State, a: Chan, c: Chan)
    requires a in s.registered
    ensures Owes(Unregister(s, a), a, c, s.registered[a])
  {
  }

  lemma StepKeepsNoStale(cfg: Config, s: State, step: Step, c: Chan)
    requires Enabled(s, step) && Exclusive(cfg, s) && AllPhased(s) && NoStale(s, c)
    ensures NoStale(Next(cfg, s, step), c)
  {
    hide Next, Told, Live, Owed, Enabled, At, Exclusive, Phased, ToldAfter;
    var t := Next(cfg, s, step);
    if c in t.registered {
      StepTold(cfg, s, step, c);
      forall vip | vip in Told(t, c) ensures Live(t, vip) || Owed(t, c, vip) {
        StaysFresh(cfg, s, step, c, vip);
      }
    }
  }

  lemma StaysFresh(cfg: Config, s: State, step: Step, c: Chan, vip: Vip)
    requires Enabled(s, step) && Exclusive(cfg, s) && AllPhased(s) && NoStale(s, c)
    requires c in Next(cfg, s, step).registered && vip in ToldAfter(s, step, c)
    ensures Live(Next(cfg, s, step), vip) || Owed(Next(cfg, s, step), c, vip)
  {
    hide Next, Live, Owed, At, Exclusive, Phased, Owes, Told;
    assert Phased(s, step.chan);
    StepRegistered(cfg, s, step, c);
    NewcomersKnowNothing(s, step);
    if vip in Told(s, c) && Live(s, vip) {
      StaysLive(cfg, s, step, c, vip);
    } else if vip in Told(s, c) {
      StaysOwed(cfg, s, step, c, vip);
    } else {
      var d := if step.Reads? then step.other else step.chan;
      assert Phased(s, d);
      RegisteredIsLive(cfg, s, d);
      StaysLive(cfg, s, step, c, s.registered[d]);
    }
  }

  lemma NewcomersKnowNothing(s: State, step: Step)
    requires Enabled(s, step) && Phased(s, step.chan)
    ensures step.Commits? ==> Told(s, step.chan) == map[] && step.chan !in s.registered
  {
  }

  lemma RegisteredIsLive(cfg: Config, s: State, d: Chan)
    requires Exclusive(cfg, s) && Phased(s, d) && d in s.registered
    ensures Live(s, s.registered[d])
  {
    assert HeldIsBound(s, d);
  }

  lemma StaysLive(cfg: Config, s: State, step: Step, c: Chan, vip: Vip)
    requires Enabled(s, step) && Exclusive(cfg, s) && Phased(s, step.chan) && Live(s, vip)
    ensures Live(Next(cfg, s, step), vip) || Owed(Next(cfg, s, step), c, vip)
  {
    hide Next, Live, At, Exclusive, Phased, Owes, Unregister;
    LiveHolder(s, vip);
    StepLive(cfg, s, step, vip);
    if !Live(Next(cfg, s, step), vip) {
      var a := s.bound[vip];
      CloseOwes(s, a, c);
      CloseIs(cfg, s, a);
      assert Owes(Next(cfg, s, step), a, c, vip);
    }
  }

  lemma LiveHolder(s: State, vip: Vip)
    requires Live(s, vip)
    ensures vip in s.bound && s.bound[vip] in s.registered && s.registered[s.bound[vip]] == vip
  {
  }

  lemma CloseIs(cfg: Config, s: State, a: Chan)
    ensures Enabled(s, Close(a)) ==> Next(cfg, s, Close(a)) == Unregister(s, a)
  {
  }

  lemma StaysOwed(cfg: Config, s: State, step: Step, c: Chan, vip: Vip)
    requires Enabled(s, step) && Phased(s, step.chan) && Owed(s, c, vip)
    requires c in s.registered && c in Next(cfg, s, step).registered && vip in ToldAfter(s, step, c)
    ensures Owed(Next(cfg, s, step), c, vip)
  {
    hide Next, At, Phased, Owes, Told, Enabled, Pushed;
    var a :| Owes(s, a, c, vip);
    StepOwes(cfg, s, step, a, c, vip);
  }

  /** A channel gets through with its announcements to c by its push to c, and by nothing else. */
  lemma AnnouncedBefore(cfg: Config, s: State, step: Step, d: Chan, c: Chan)
    requires Enabled(s, step) && Phased(s, step.chan)
    requires c in Next(cfg, s, step).registered && Announced(Next(cfg, s, step), d, c)
    ensures var t := Next(cfg, s, step);
      && d in s.registered && t.registered[d] == s.registered[d] && At(t, d).addrs == At(s, d).addrs
      && (Announced(s, d, c) || step == Pushes(d, c))
  {
    StepRegistered(cfg, s, step, c);
    StepRegistered(cfg, s, step, d);
    if d != step.chan {
      hide Next, Enabled, At;
      OthersSameButLink(cfg, s, step, d);
    } else {
      hide *;
      OwnAnnounced(cfg, s, step, c);
    }
  }

  lemma OwnAnnounced(cfg: Config, s: State, step: Step, c: Chan)
    requires Enabled(s, step) && Phased(s, step.chan)
    requires c in Next(cfg, s, step).registered && Announced(Next(cfg, s, step), step.chan, c)
    ensures var t := Next(cfg, s, step);
      && step.chan in s.registered && At(t, step.chan).addrs == At(s, step.chan).addrs
      && (Announced(s, step.chan, c) || step == Pushes(step.chan, c))
  {
    hide AttemptOf, Push, Refuse, Seen, Receive, Pushed;
  }

  /** A client comes to expect a channel by reading its entry, and by nothing else it does itself. */
  lemma InformedBefore(cfg: Config, s: State, step: Step, c: Chan, d: Chan)
    requires Enabled(s, step) && AllPhased(s)
    requires c in Next(cfg, s, step).registered && d in s.registered && Informed(Next(cfg, s, step), c, d)
    ensures c in s.registered && (Informed(s, c, d) || step == Reads(c, d))
  {
    assert Phased(s, c);
    StepRegistered(cfg, s, step, c);
    if c != step.chan {
      hide Next, Enabled, At, Phased;
      OthersSameButLink(cfg, s, step, c);
    } else {
      hide *;
      OwnInformed(cfg, s, step, d);
    }
  }

  lemma OwnInformed(cfg: Config, s: State, step: Step, d: Chan)
    requires Enabled(s, step) && Phased(s, step.chan)
    requires step.chan in Next(cfg, s, step).registered && d in s.registered
    requires Informed(Next(cfg, s, step), step.chan, d)
    ensures step.chan in s.registered && (Informed(s, step.chan, d) || step == Reads(step.chan, d))
  {
    hide AttemptOf, Push, Refuse, Seen, Receive, Pushed, Answer;
  }

  lemma SafeStepKeepsKnows(cfg: Config, s: State, step: Step, c: Chan, d: Chan)
    requires Enabled(s, step) && Exclusive(cfg, s) && AllPhased(s) && Knows(s, c, d) && SafePush(s, step)
    ensures Knows(Next(cfg, s, step), c, d)
  {
    hide Next, Told, At, Exclusive, Phased, Informed, Announced, Enabled, Applied, Pushed, ToldAfter;
    var t := Next(cfg, s, step);
    assert Phased(s, step.chan);
    if Expects(t, c, d) {
      AnnouncedBefore(cfg, s, step, d, c);
      InformedBefore(cfg, s, step, c, d);
      StepTold(cfg, s, step, c);
      if step == Reads(c, d) || step == Pushes(d, c) {
        DirectlyTold(s, step, c, d);
      } else {
        StillTold(cfg, s, step, c, d);
      }
    }
  }

  lemma DirectlyTold(s: State, step: Step, c: Chan, d: Chan)
    requires Enabled(s, step) && (step == Reads(c, d) || step == Pushes(d, c)) && d in s.registered && Phased(s, d)
    ensures s.registered[d] in ToldAfter(s, step, c) && ToldAfter(s, step, c)[s.registered[d]] == At(s, d).addrs
  {
    hide At, Told;
  }

  lemma StillTold(cfg: Config, s: State, step: Step, c: Chan, d: Chan)
    requires Enabled(s, step) && Exclusive(cfg, s) && Phased(s, step.chan) && AllPhased(s) && SafePush(s, step)
    requires Expects(s, c, d) && Knows(s, c, d) && step != Reads(c, d) && step != Pushes(d, c)
    ensures s.registered[d] in ToldAfter(s, step, c) && ToldAfter(s, step, c)[s.registered[d]] == At(s, d).addrs
  {
    hide At, Told, Informed, Exclusive;
    var e := if step.Reads? then step.other else step.chan;
    if e in s.registered && e != d {
      DistinctVips(cfg, s, d, e);
    }
  }

  lemma DistinctVips(cfg: Config, s: State, c: Chan, d: Chan)
    requires Exclusive(cfg, s) && AllPhased(s) && c in s.registered && d in s.registered && c != d
    ensures s.registered[c] != s.registered[d]
  {
    hide At;
    assert Phased(s, c) && Phased(s, d);
    assert HeldIsBound(s, c) && HeldIsBound(s, d);
  }

  lemma SafeStepKeepsReplicated(cfg: Config, s: State, step: Step)
    requires Enabled(s, step) && Exclusive(cfg, s) && AllPhased(s) && Replicated(s) && SafePush(s, step)
    ensures Replicated(Next(cfg, s, step))
  {
    hide Next, AllPhased, Enabled, NoStale, Knows, Exclusive, SafePush;
    forall c ensures NoStale(Next(cfg, s, step), c) {
      assert NoStale(s, c);
      StepKeepsNoStale(cfg, s, step, c);
    }
    forall c, d ensures Knows(Next(cfg, s, step), c, d) {
      assert Knows(s, c, d);
      SafeStepKeepsKnows(cfg, s, step, c, d);
    }
  }

  /** A push to a client that has been told of the VIP's next holder leaves it without that entry. */
  lemma UnsafePushForgets(cfg: Config, s: State, step: Step, d: Chan)
    requires Enabled(s, step) && AllPhased(s) && step.Pushes? && At(s, step.chan).phase.Leaving?
    requires Expects(s, step.other, d) && s.registered[d] == At(s, step.chan).phase.vip
    ensures !Knows(Next(cfg, s, step), step.other, d)
  {
    var c := step.other;
    assert Phased(s, step.chan);
    assert c != step.chan && d != step.chan;
    StepTold(cfg, s, step, c);
    StepRegistered(cfg, s, step, c);
    StepRegistered(cfg, s, step, d);
    OthersSameButLink(cfg, s, step, c);
    OthersSameButLink(cfg, s, step, d);
    hide Next, At, AllPhased;
  }

  /** What the clients have been told goes on matching the registry through a step, if and only if the step
      is no offline push, to a client that has been told of the VIP's next holder already. */
  lemma ReplicatedIff(cfg: Config, s: State, step: Step)
    requires Enabled(s, step) && Exclusive(cfg, s) && AllPhased(s) && Replicated(s)
    ensures Replicated(Next(cfg, s, step)) <==> SafePush(s, step)
  {
    hide Next, AllPhased, Enabled, NoStale, Knows, Exclusive;
    if SafePush(s, step) {
      SafeStepKeepsReplicated(cfg, s, step);
    } else {
      var d :| Expects(s, step.other, d) && s.registered[d] == At(s, step.chan).phase.vip;
      UnsafePushForgets(cfg, s, step, d);
    }
  }

  // ----- links -----

  lemma StepKeepsConsistent(cfg: Config, s: State, step: Step, c: Chan, vip: Vip)
    requires Enabled(s, step) && Consistent(At(s, c).link, vip)
    ensures Consistent(At(Next(cfg, s, step), c).link, vip)
  {
    hide Consistent;
    if c != step.chan {
      hide Next, At, Push;
      OthersUntouched(cfg, s, step, c);
      if step == Pushes(step.chan, c) {
        ReceivesAt(s, c, Pushed(s, step.chan));
        PushKeeps(At(s, c).link, Pushed(s, step.chan), vip);
      }
    } else {
      hide *;
      OwnConsistent(cfg, s, step, vip);
    }
  }

  lemma OwnConsistent(cfg: Config, s: State, step: Step, vip: Vip)
    requires Enabled(s, step) && Consistent(At(s, step.chan).link, vip)
    ensures Consistent(At(Next(cfg, s, step), step.chan).link, vip)
  {
    hide Consistent, Push, Read, Answer, Arrive, PutEntry, Refuse, TryBind, Pushed, Through, Passed;
    var l := At(s, step.chan).link;
    match step
    case Try(c) => TryConsistent(cfg, s, c, vip);
    case Reads(c, d) => ReadKeeps(l, map[s.registered[d] := At(s, d).addrs], vip);
    case Answers(c) => AnswerKeeps(l, vip);
    case Pushes(c, d) => PushKeeps(l, Pushed(s, c), vip);
    case Update(c, addrs) => RefuseKeeps(l, SysError, vip);
    case Delivers(c) => ArriveKeeps(l, vip);
    case Applies(c, v) => PutKeeps(l, v, vip);
    case _ =>
  }

  lemma TryConsistent(cfg: Config, s: State, c: Chan, vip: Vip)
    requires At(s, c).phase.Assigning? && Consistent(At(s, c).link, vip)
    ensures Consistent(At(TryBind(cfg, s, c), c).link, vip)
  {
    hide Consistent, Refuse, AttemptOf;
    var a := AttemptAt(cfg, s, c);
    if a.Lose? {
      RefuseKeeps(At(s, c).link, a.code, vip);
    }
  }

  // ----- every run -----

  ghost predicate Invariant(cfg: Config, s: State) {
    && Exclusive(cfg, s)
    && AllPhased(s)
    && (forall vip :: Sound(s, vip))
    && (forall c :: Tried(cfg, s, c))
    && (forall c, vip :: Consistent(At(s, c).link, vip))
  }

  lemma StepKeepsInvariant(cfg: Config, s: State, step: Step)
    requires Enabled(s, step) && Invariant(cfg, s)
    ensures Invariant(cfg, Next(cfg, s, step))
  {
    hide Next, Enabled, Sound, Tried, Consistent, HeldIsBound, BoundIsHeld, Phased;
    var t := Next(cfg, s, step);
    assert Phased(s, step.chan);
    forall c ensures HeldIsBound(t, c) && Phased(t, c) && Tried(cfg, t, c) {
      StepKeepsHeldIsBound(cfg, s, step, c);
      assert Phased(s, c) && Tried(cfg, s, c);
      StepKeepsPhased(cfg, s, step, c);
      if c == step.chan {
        OwnTried(cfg, s, step);
      } else {
        OthersTried(cfg, s, step, c);
      }
    }
    forall vip ensures BoundIsHeld(cfg, t, vip) && Sound(t, vip) {
      StepKeepsBoundIsHeld(cfg, s, step, vip);
      assert Sound(s, vip);
      StepKeepsSound(cfg, s, step, vip);
    }
    forall c, vip ensures Consistent(At(t, c).link, vip) {
      StepKeepsConsistent(cfg, s, step, c, vip);
    }
  }

  lemma InitialInvariant(cfg: Config)
    ensures Invariant(cfg, INITIAL) && Agree(INITIAL) && Replicated(INITIAL)
  {
  }

  lemma {:induction false} RunInvariant(cfg: Config, steps: seq<Step>)
    ensures Invariant(cfg, Run(cfg, steps))
  {
    hide Next, Enabled, Invariant;
    InitialInvariant(cfg);
    if steps != [] {
      var (before, step) := (Run(cfg, steps[..|steps| - 1]), steps[|steps| - 1]);
      RunInvariant(cfg, steps[..|steps| - 1]);
      if Enabled(before, step) {
        StepKeepsInvariant(cfg, before, step);
      }
    }
  }

  /** In every state of a run messages for a registered channel's VIP reach it. */
  ghost predicate AlwaysAgree(cfg: Config, steps: seq<Step>) {
    Agree(Run(cfg, steps)) && (steps == [] || AlwaysAgree(cfg, steps[..|steps| - 1]))
  }

  ghost predicate ClearsAreSafe(cfg: Config, steps: seq<Step>) {
    steps == [] ||
    var (before, step) := (Run(cfg, steps[..|steps| - 1]), steps[|steps| - 1]);
    ClearsAreSafe(cfg, steps[..|steps| - 1]) && (Enabled(before, step) ==> SafeClear(before, step))
  }

  /** Registry and channel space agree throughout a run, if and only if no close in it clears an entry that
      another channel is using by then. */
  lemma {:induction false} RunAgreesIff(cfg: Config, steps: seq<Step>)
    ensures AlwaysAgree(cfg, steps) <==> ClearsAreSafe(cfg, steps)
  {
    hide Next, Enabled, Invariant, Agree, SafeClear;
    InitialInvariant(cfg);
    if steps != [] {
      var (before, step) := (Run(cfg, steps[..|steps| - 1]), steps[|steps| - 1]);
      RunAgreesIff(cfg, steps[..|steps| - 1]);
      RunInvariant(cfg, steps[..|steps| - 1]);
      if Enabled(before, step) && AlwaysAgree(cfg, steps[..|steps| - 1]) {
        assert Agree(before);
        ThenAgree(cfg, before, step);
      }
    }
  }

  lemma ThenAgree(cfg: Config, s: State, step: Step)
    requires Enabled(s, step) && Invariant(cfg, s) && Agree(s)
    ensures Agree(Next(cfg, s, step)) <==> SafeClear(s, step)
  {
    hide Next, Enabled, Agree, SafeClear, Exclusive, AllPhased;
    AgreeIff(cfg, s, step);
  }

  ghost predicate AlwaysReplicated(cfg: Config, steps: seq<Step>) {
    Replicated(Run(cfg, steps)) && (steps == [] || AlwaysReplicated(cfg, steps[..|steps| - 1]))
  }

  ghost predicate PushesAreSafe(cfg: Config, steps: seq<Step>) {
    steps == [] ||
    var (before, step) := (Run(cfg, steps[..|steps| - 1]), steps[|steps| - 1]);
    PushesAreSafe(cfg, steps[..|steps| - 1]) && (Enabled(before, step) ==> SafePush(before, step))
  }

  /** What the clients have been told matches the registry throughout a run, if and only if no close in it
      pushes offline to a client that has been told of the VIP's next holder already. */
  lemma {:induction false} RunReplicatesIff(cfg: Config, steps: seq<Step>)
    ensures AlwaysReplicated(cfg, steps) <==> PushesAreSafe(cfg, steps)
  {
    hide Next, Enabled, Invariant, Replicated, SafePush;
    InitialInvariant(cfg);
    if steps != [] {
      var (before, step) := (Run(cfg, steps[..|steps| - 1]), steps[|steps| - 1]);
      RunReplicatesIff(cfg, steps[..|steps| - 1]);
      RunInvariant(cfg, steps[..|steps| - 1]);
      if Enabled(before, step) && AlwaysReplicated(cfg, steps[..|steps| - 1]) {
        assert Replicated(before);
        ThenReplicated(cfg, before, step);
      }
    }
  }

  lemma ThenReplicated(cfg: Config, s: State, step: Step)
    requires Enabled(s, step) && Invariant(cfg, s) && Replicated(s)
    ensures Replicated(Next(cfg, s, step)) <==> SafePush(s, step)
  {
    hide Next, Enabled, Replicated, SafePush, Exclusive, AllPhased;
    ReplicatedIff(cfg, s, step);
  }

  /** Both kinds of unsafe step need a registration that won the VIP since its release: right after the
      release it is not bound, and only a winning compare-and-set binds it. */
  lemma UnsafeNeedsRebinding(cfg: Config, s: State, step: Step)
    requires Enabled(s, step) && Invariant(cfg, s) && !(SafeClear(s, step) && SafePush(s, step))
    ensures At(s, step.chan).phase.Released? || At(s, step.chan).phase.Leaving?
    ensures At(s, step.chan).phase.vip in s.bound && s.bound[At(s, step.chan).phase.vip] != step.chan
  {
    hide At, Phased;
    var c := if !SafeClear(s, step) then
      var c :| Occupied(s, c) == Some(At(s, step.chan).phase.vip); c
      else
      var c :| Expects(s, step.other, c) && s.registered[c] == At(s, step.chan).phase.vip; c;
    assert Phased(s, c) && Phased(s, step.chan) && HeldIsBound(s, c);
    ClosingHoldsNothing(s, step.chan);
    OccupiedIsHeld(s, c);
    RegisteredIsOccupied(s, c);
    hide Occupied, Held, Informed;
  }

  lemma ClosingHoldsNothing(s: State, c: Chan)
    requires Phased(s, c) && (At(s, c).phase.Released? || At(s, c).phase.Leaving?)
    ensures Held(s, c) == None
  {
  }

  lemma RegisteredIsOccupied(s: State, c: Chan)
    requires Phased(s, c)
    ensures c in s.registered ==> Occupied(s, c) == Some(s.registered[c])
  {
  }

  lemma ReleasedUntilWon(cfg: Config, s: State, step: Step, vip: Vip)
    requires Enabled(s, step)
    ensures step.Releases? && At(s, step.chan).phase.vip == vip ==> vip !in Next(cfg, s, step).bound
    ensures vip !in s.bound && vip in Next(cfg, s, step).bound ==> WonBy(cfg, s, step) == Some(vip)
  {
    hide Next, At, AttemptAt;
    StepMaps(cfg, s, step);
  }

  /** If a VIP is bound at the end of a run and was not bound after its first i steps, a registration won it
      in between. */
  lemma {:induction false} WonSince(cfg: Config, steps: seq<Step>, i: nat, vip: Vip) returns (j: nat)
    requires i <= |steps| && vip !in Run(cfg, steps[..i]).bound && vip in Run(cfg, steps).bound
    ensures i <= j < |steps|
    ensures var s := Run(cfg, steps[..j]); Enabled(s, steps[j]) && WonBy(cfg, s, steps[j]) == Some(vip)
  {
    hide Next, Enabled, WonBy;
    TakeAll(steps);
    var n := |steps| - 1;
    var (before, step) := (Run(cfg, steps[..n]), steps[n]);
    if vip in before.bound {
      assert steps[..n][..i] == steps[..i];
      j := WonSince(cfg, steps[..n], i, vip);
      assert steps[..n][..j] == steps[..j];
    } else {
      j := n;
      ReleasedUntilWon(cfg, before, step, vip);
    }
  }

  /** In every reachable state the channels holding a VIP and the bound VIPs, all from the pool, are one
      bijection, and a message for a VIP goes to its holder or to a channel about to clear the entry. As
      long as no close clears an entry another channel is using, it reaches the registered channel. */
  lemma ForwardingReachesHolder(cfg: Config, steps: seq<Step>, c: Chan, vip: Vip)
    ensures var s := Run(cfg, steps);
      && (vip in s.bound && s.bound[vip] == c <==> Held(s, c) == Some(vip))
      && (vip in s.bound ==> vip in cfg.pool)
      && (c in s.registered && s.registered[c] == vip ==> Held(s, c) == Some(vip))
      && (vip in s.space && s.space[vip] == c ==> Held(s, c) == Some(vip) || At(s, c).phase == Released(vip))
      && (ClearsAreSafe(cfg, steps) && c in s.registered && s.registered[c] == vip ==>
            vip in s.space && s.space[vip] == c)
  {
    hide Run, ClearsAreSafe, Held;
    RunInvariant(cfg, steps);
    RunAgreesIff(cfg, steps);
    var s := Run(cfg, steps);
    assert HeldIsBound(s, c) && BoundIsHeld(cfg, s, vip) && Sound(s, vip) && Phased(s, c);
    OccupiedIsHeld(s, c);
    RegisteredIsOccupied(s, c);
    if ClearsAreSafe(cfg, steps) {
      assert Reached(s, c);
    }
  }

  /** When a registration fails with NotEnough, the pool VIPs not bound are exactly those released behind
      its loop; so the refusal is justified if and only if there are none. */
  lemma RefusalsAreJustified(cfg: Config, steps: seq<Step>, c: Chan)
    requires Enabled(Run(cfg, steps), Try(c))
    ensures var s := Run(cfg, steps);
      var (mac, a) := (At(s, c).phase.mac, AttemptAt(cfg, s, c));
      && (a == Lose(NotEnough) ==> forall vip :: vip in cfg.pool && vip !in s.bound <==> (c, vip) in s.behind)
      && (a == Lose(VipBound) <==>
            mac in cfg.fixedVips && cfg.fixedVips[mac] in cfg.pool && cfg.fixedVips[mac] in s.bound)
      && (a == Lose(SysError) <==> mac in cfg.fixedVips && cfg.fixedVips[mac] !in cfg.pool)
  {
    hide Run, At;
    RunInvariant(cfg, steps);
    var s := Run(cfg, steps);
    assert Tried(cfg, s, c);
  }

  /** No channel has a message or a close under way. */
  ghost predicate Quiet(s: State) {
    forall c :: At(s, c).phase in {Idle, Closed}
  }

  /** The registered VIPs with their channels' addresses. */
  ghost predicate IsRegistry(s: State, nodes: Nodes) {
    && (forall d :: d in s.registered ==> s.registered[d] in nodes && nodes[s.registered[d]] == At(s, d).addrs)
    && (forall vip :: vip in nodes ==> exists d :: d in s.registered && s.registered[d] == vip)
  }

  lemma OneRegistry(s: State, a: Nodes, b: Nodes)
    requires IsRegistry(s, a) && IsRegistry(s, b)
    ensures a == b
  {
    hide At;
  }

  lemma ToldIsRegistry(cfg: Config, s: State, c: Chan)
    requires Invariant(cfg, s) && Replicated(s) && Quiet(s) && c in s.registered
    ensures IsRegistry(s, Told(s, c))
  {
    hide Told, Sound, Tried, Exclusive, Consistent;
    assert Phased(s, c) && NoStale(s, c);
    forall d | d in s.registered
      ensures s.registered[d] in Told(s, c) && Told(s, c)[s.registered[d]] == At(s, d).addrs
    {
      assert Phased(s, d) && Knows(s, c, d);
    }
    forall vip | vip in Told(s, c) ensures exists d :: d in s.registered && s.registered[d] == vip {
      assert !Owed(s, c, vip);
    }
  }

  // ----- whose addresses they are -----

  /** The addresses in d's last registration message that was taken up. */
  function Wanted(cfg: Config, steps: seq<Step>, d: Chan): Addrs {
    if steps == [] then Addrs([])
    else
      var (before, step) := (steps[..|steps| - 1], steps[|steps| - 1]);
      if step.Begin? && step.chan == d && Enabled(Run(cfg, before), step) then step.addrs else Wanted(cfg, before, d)
  }

  /** The addresses d claimed last: by an update, or by a registration that has come to storing them. */
  function Claimed(cfg: Config, steps: seq<Step>, d: Chan): Addrs {
    if steps == [] then Addrs([])
    else
      var (before, step) := (steps[..|steps| - 1], steps[|steps| - 1]);
      if step.chan != d || !Enabled(Run(cfg, before), step) then Claimed(cfg, before, d)
      else if step.Update? then step.addrs
      else if step.SetAddresses? then Wanted(cfg, before, d)
      else Claimed(cfg, before, d)
  }

  predicate Carries(p: Phase, wanted: Addrs) {
    Open(p) || p.Assigned? ==> p.wanted == wanted
  }

  /** What a step means for the addresses of a channel that is to store the wanted ones. */
  ghost predicate Stores(cfg: Config, s: State, step: Step, d: Chan, wanted: Addrs)
    requires Enabled(s, step)
  {
    var t := Next(cfg, s, step);
    && Carries(At(t, d).phase, if step.Begin? && step.chan == d then step.addrs else wanted)
    && At(t, d).addrs ==
      if step.Update? && step.chan == d then step.addrs
      else if step.SetAddresses? && step.chan == d then wanted
      else At(s, d).addrs
  }

  lemma MessageStores(cfg: Config, s: State, step: Step, wanted: Addrs)
    requires Enabled(s, step) && InMessage(step) && Carries(At(s, step.chan).phase, wanted)
    ensures Stores(cfg, s, step, step.chan, wanted)
  {
    hide Refuse, Pushing, TryBind;
  }

  lemma OwnStores(cfg: Config, s: State, step: Step, wanted: Addrs)
    requires Enabled(s, step) && !InMessage(step) && Carries(At(s, step.chan).phase, wanted)
    ensures Stores(cfg, s, step, step.chan, wanted)
  {
    hide AttemptOf, Push, Refuse, Seen, Receive, Pushed, Through, Read, Answer;
  }

  lemma StepStores(cfg: Config, s: State, step: Step, d: Chan, wanted: Addrs)
    requires Enabled(s, step) && Carries(At(s, d).phase, wanted)
    ensures Stores(cfg, s, step, d, wanted)
  {
    if d != step.chan {
      hide Next, Enabled, At;
      OthersSameButLink(cfg, s, step, d);
    } else {
      hide *;
      if InMessage(step) {
        MessageStores(cfg, s, step, wanted);
      } else {
        OwnStores(cfg, s, step, wanted);
      }
    }
  }

  lemma {:induction false} RunStores(cfg: Config, steps: seq<Step>, d: Chan)
    ensures Carries(At(Run(cfg, steps), d).phase, Wanted(cfg, steps, d))
    ensures At(Run(cfg, steps), d).addrs == Claimed(cfg, steps, d)
  {
    hide Next, Enabled, At, Carries;
    if steps == [] {
      assert At(INITIAL, d) == FRESH by { StartsFresh(d); }
      assert Carries(Idle, Addrs([])) by { StartsFresh(d); }
    } else {
      var (before, step) := (Run(cfg, steps[..|steps| - 1]), steps[|steps| - 1]);
      RunStores(cfg, steps[..|steps| - 1], d);
      if Enabled(before, step) {
        StepStores(cfg, before, step, d, Wanted(cfg, steps[..|steps| - 1], d));
      }
    }
  }

  lemma StartsFresh(d: Chan)
    ensures At(INITIAL, d) == FRESH && Carries(Idle, Addrs([]))
  {
  }

  /** The registered VIPs, each with the addresses its channel claimed last. */
  ghost predicate IsClaimedRegistry(cfg: Config, steps: seq<Step>, nodes: Nodes) {
    var registered := Run(cfg, steps).registered;
    && (forall d :: d in registered ==> registered[d] in nodes && nodes[registered[d]] == Claimed(cfg, steps, d))
    && (forall vip :: vip in nodes ==> exists d :: d in registered && registered[d] == vip)
  }

  lemma RegistryIsClaimed(cfg: Config, steps: seq<Step>, nodes: Nodes)
    ensures IsRegistry(Run(cfg, steps), nodes) <==> IsClaimedRegistry(cfg, steps, nodes)
  {
    hide Run, At, Claimed;
    forall d ensures At(Run(cfg, steps), d).addrs == Claimed(cfg, steps, d) {
      RunStores(cfg, steps, d);
    }
  }

  /** Convergence: after any run without such offline pushes that has come to rest, every registered client
      has been told exactly the registered VIPs with the addresses their channels claimed last; and once
      everything has arrived and been put, the client knows just that if and only if no push overtook an
      entry of a node list on its way into the node table. */
  lemma ReplicasConverge(cfg: Config, steps: seq<Step>, c: Chan)
    requires PushesAreSafe(cfg, steps)
    requires var s := Run(cfg, steps); Quiet(s) && c in s.registered
    ensures var l := At(Run(cfg, steps), c).link;
      && IsClaimedRegistry(cfg, steps, l.told)
      && (l.queue == [] && l.client.held == map[] ==>
            (IsClaimedRegistry(cfg, steps, l.client.nodes) <==> l.client.overtaken == {}))
  {
    hide Run, PushesAreSafe, IsRegistry, Consistent, IsClaimedRegistry;
    RunInvariant(cfg, steps);
    RunReplicatesIff(cfg, steps);
    var s := Run(cfg, steps);
    var l := At(s, c).link;
    assert Replicated(s) && Phased(s, c);
    hide Exclusive, Sound, Tried, Replicated, AllPhased;
    ToldIsRegistry(cfg, s, c);
    RegistryIsClaimed(cfg, steps, l.told);
    RegistryIsClaimed(cfg, steps, l.client.nodes);
    if l.queue == [] && l.client.held == map[] {
      ExactUnlessOvertaken(l);
      if IsRegistry(s, l.client.nodes) {
        OneRegistry(s, l.told, l.client.nodes);
      }
    }
  }
}
