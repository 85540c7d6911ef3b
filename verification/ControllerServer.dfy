/**
 The controller server handling its messages and closes one at a time: each is a run of the interleaved
 steps, so everything proved about runs holds between them. The runs that lose an entry are here too.
 */
module ControllerServer {
  import opened Names
  import opened Wrappers
  import opened NodeManager
  import opened ControllerProtocol

  /** A run leads to the state, if asked for one all of whose clearings and pushes are safe. */
  ghost predicate Reachable(cfg: Config, safe: bool, s: State) {
    exists steps :: s == Run(cfg, steps) && (safe ==> ClearsAreSafe(cfg, steps) && PushesAreSafe(cfg, steps))
  }

  lemma Extend(cfg: Config, safe: bool, s: State, step: Step)
    requires Reachable(cfg, safe, s) && Enabled(s, step) && (safe ==> SafeClear(s, step) && SafePush(s, step))
    ensures Reachable(cfg, safe, Next(cfg, s, step))
  {
    hide Next, Enabled, SafeClear, SafePush;
    var steps :| s == Run(cfg, steps) && (safe ==> ClearsAreSafe(cfg, steps) && PushesAreSafe(cfg, steps));
    assert (steps + [step])[..|steps + [step]| - 1] == steps;
    assert Next(cfg, s, step) == Run(cfg, steps + [step]);
  }

  lemma InitialIsReachable(cfg: Config, safe: bool)
    ensures Reachable(cfg, safe, INITIAL)
  {
    assert INITIAL == Run(cfg, []);
  }

  lemma ReachableInvariant(cfg: Config, safe: bool, s: State)
    requires Reachable(cfg, safe, s)
    ensures Invariant(cfg, s)
  {
    hide Run, Invariant, ClearsAreSafe, PushesAreSafe;
    var steps :| s == Run(cfg, steps);
    RunInvariant(cfg, steps);
  }

  /** No other channel holds the VIP a closing channel pushes offline. */
  predicate Harmless(s: State, c: Chan) {
    At(s, c).phase.Released? || At(s, c).phase.Leaving? ==> At(s, c).phase.vip !in s.bound
  }

  lemma HarmlessIsSafe(cfg: Config, s: State, step: Step)
    requires Invariant(cfg, s) && Enabled(s, step) && Harmless(s, step.chan)
    ensures SafeClear(s, step) && SafePush(s, step)
  {
    hide Invariant, SafeClear, SafePush;
    if !(SafeClear(s, step) && SafePush(s, step)) {
      UnsafeNeedsRebinding(cfg, s, step);
      assert false;
    }
  }

  /** After such a run registry, channel space and clients agree. */
  lemma SafelyReachable(cfg: Config, s: State)
    requires Reachable(cfg, true, s)
    ensures Invariant(cfg, s) && Agree(s) && Replicated(s)
  {
    hide Run, Invariant, Agree, Replicated, ClearsAreSafe, PushesAreSafe;
    var steps :| s == Run(cfg, steps) && ClearsAreSafe(cfg, steps) && PushesAreSafe(cfg, steps);
    RunInvariant(cfg, steps);
    RunAgreesIff(cfg, steps);
    RunReplicatesIff(cfg, steps);
  }

  // ----- whole loops -----

  function Sent(n: Session, m: Message): Session
    requires IsPush(m)
  {
    n.(link := Push(n.link, m))
  }

  /** Every one of the channels is sent the message. */
  function SendAll(sessions: map<Chan, Session>, chans: set<Chan>, m: Message): map<Chan, Session>
    requires IsPush(m)
  {
    map c | c in sessions.Keys + chans :: if c in chans then Sent(Of(sessions, c), m) else Of(sessions, c)
  }

  function VisitedSet(p: Phase, chans: set<Chan>): (r: Phase)
    requires Looping(p)
  {
    var loop := p.loop.(done := p.loop.done + chans);
    match p
    case Listing(_) => Listing(loop)
    case Announcing(_, registers) => Announcing(loop, registers)
    case Leaving(vip, left, _) => Leaving(vip, left, loop)
  }

  /** c's loop has pushed to the given channels. */
  function Visiting(s: State, c: Chan, chans: set<Chan>): State
    requires Pushing(s, c)
  {
    var sessions := SendAll(s.sessions, chans, Pushed(s, c));
    s.(sessions := sessions[c := Of(sessions, c).(phase := VisitedSet(At(s, c).phase, chans))])
  }

  lemma SendOneMore(sessions: map<Chan, Session>, done: set<Chan>, c: Chan, m: Message)
    requires c !in done && IsPush(m)
    ensures var sent := SendAll(sessions, done, m);
      sent[c := Sent(Of(sent, c), m)] == SendAll(sessions, done + {c}, m)
  {
    hide Sent;
  }

  lemma SendNone(sessions: map<Chan, Session>, m: Message)
    requires IsPush(m)
    ensures SendAll(sessions, {}, m) == sessions
  {
  }

  lemma SentAt(sessions: map<Chan, Session>, chans: set<Chan>, m: Message, c: Chan)
    requires IsPush(m)
    ensures Of(SendAll(sessions, chans, m), c) == if c in chans then Sent(Of(sessions, c), m) else Of(sessions, c)
  {
  }

  lemma VisitingAt(s: State, c: Chan, chans: set<Chan>, d: Chan)
    requires Pushing(s, c)
    ensures var n := if d in chans then Sent(At(s, d), Pushed(s, c)) else At(s, d);
      At(Visiting(s, c, chans), d) == if d == c then n.(phase := VisitedSet(At(s, c).phase, chans)) else n
    ensures Pushing(Visiting(s, c, chans), c) && Pushed(Visiting(s, c, chans), c) == Pushed(s, c)
  {
    hide SendAll, Push;
    SentAt(s.sessions, chans, Pushed(s, c), d);
    SentAt(s.sessions, chans, Pushed(s, c), c);
  }

  lemma VisitingMore(s: State, c: Chan, chans: set<Chan>, d: Chan)
    requires Pushing(s, c) && d !in chans
    ensures Pushing(Visiting(s, c, chans), c)
    ensures PushTo(Visiting(s, c, chans), c, d) == Visiting(s, c, chans + {d})
  {
    hide SendAll, Push, Pushed;
    var m := Pushed(s, c);
    VisitingAt(s, c, chans, c);
    VisitingAt(s, c, chans, d);
    SendOneMore(s.sessions, chans, d, m);
    SentAt(s.sessions, chans, m, c);
    SentAt(s.sessions, chans, m, d);
    assert At(s, c).phase.loop.done + chans + {d} == At(s, c).phase.loop.done + (chans + {d});
  }

  lemma VisitingNone(s: State, c: Chan)
    requires Pushing(s, c) && c in s.sessions
    ensures Visiting(s, c, {}) == s
  {
    SendNone(s.sessions, Pushed(s, c));
    hide SendAll, Pushed;
    assert At(s, c).phase.loop.done + {} == At(s, c).phase.loop.done;
  }

  /** Pushing to the channels in any order is a run. */
  lemma {:induction false} VisitingIsReachable(cfg: Config, safe: bool, s: State, c: Chan, chans: set<Chan>)
    requires Reachable(cfg, safe, s) && Pushing(s, c) && (safe ==> Harmless(s, c))
    requires chans <= s.registered.Keys && chans !! At(s, c).phase.loop.done
    ensures Reachable(cfg, safe, Visiting(s, c, chans))
    decreases chans
  {
    hide Reachable, Visiting, PushTo, Pushed;
    if chans == {} {
      assert c in s.sessions;
      VisitingNone(s, c);
    } else {
      var d :| d in chans;
      var rest := chans - {d};
      VisitingIsReachable(cfg, safe, s, c, rest);
      VisitingMore(s, c, rest, d);
      VisitingAt(s, c, rest, c);
      assert rest + {d} == chans;
      VisitingKeeps(s, c, rest);
      ReachableInvariant(cfg, safe, Visiting(s, c, rest));
      if safe {
        HarmlessIsSafe(cfg, Visiting(s, c, rest), Pushes(c, d));
      }
      Extend(cfg, safe, Visiting(s, c, rest), Pushes(c, d));
    }
  }

  lemma VisitingKeeps(s: State, c: Chan, chans: set<Chan>)
    requires Pushing(s, c)
    ensures var t := Visiting(s, c, chans);
      t.registered == s.registered && t.space == s.space && t.bound == s.bound && t.behind == s.behind
  {
  }

  /** A whole push loop, from its start to its end. */
  function PushLoop(s: State, c: Chan): State
    requires Pushing(s, c)
  {
    VisitingAt(s, c, s.registered.Keys, c);
    EndLoop(Visiting(s, c, s.registered.Keys), c)
  }

  lemma PushLoopIsReachable(cfg: Config, safe: bool, s: State, c: Chan)
    requires Reachable(cfg, safe, s) && Pushing(s, c) && At(s, c).phase.loop.done == {} && (safe ==> Harmless(s, c))
    ensures Reachable(cfg, safe, PushLoop(s, c))
  {
    hide Reachable, Visiting, EndLoop;
    VisitingIsReachable(cfg, safe, s, c, s.registered.Keys);
    VisitingAt(s, c, s.registered.Keys, c);
    VisitingKeeps(s, c, s.registered.Keys);
    Extend(cfg, safe, Visiting(s, c, s.registered.Keys), Ends(c));
  }

  /** The node list: entries of the given channels. */
  function Entries(s: State, chans: set<Chan>): Nodes {
    map vip | vip in s.bound && s.bound[vip] in chans && Live(s, vip) :: At(s, s.bound[vip]).addrs
  }

  /** c's loop has read the entries of the given channels. */
  function Reading(s: State, c: Chan, chans: set<Chan>): State
    requires At(s, c).phase.Listing?
  {
    var n := At(s, c);
    Put(s, c, n.(phase := VisitedSet(n.phase, chans), link := Read(n.link, Entries(s, chans))))
  }

  lemma EntriesMore(cfg: Config, s: State, chans: set<Chan>, d: Chan)
    requires Invariant(cfg, s) && d in s.registered && d !in chans
    ensures Entries(s, chans + {d}) == Entries(s, chans) + map[s.registered[d] := At(s, d).addrs]
  {
    hide At, Sound, Tried, Consistent;
    assert Phased(s, d);
    assert HeldIsBound(s, d);
    RegisteredIsLive(cfg, s, d);
  }

  lemma ReadTwice(l: Link, a: Nodes, b: Nodes)
    ensures Read(Read(l, a), b) == Read(l, a + b)
    ensures Read(l, map[]) == l
  {
    assert l.told + a + b == l.told + (a + b) && l.listed + a + b == l.listed + (a + b);
    assert l.passed - a.Keys - b.Keys == l.passed - (a + b).Keys;
    var none: Nodes := map[];
    assert l.told + none == l.told && l.listed + none == l.listed && l.passed - none.Keys == l.passed;
  }

  lemma ReadingMore(cfg: Config, s: State, c: Chan, chans: set<Chan>, d: Chan)
    requires Invariant(cfg, s) && At(s, c).phase.Listing? && d in s.registered && d !in chans
    ensures At(Reading(s, c, chans), c).phase == VisitedSet(At(s, c).phase, chans)
    ensures ReadEntry(Reading(s, c, chans), c, d) == Reading(s, c, chans + {d})
  {
    hide Invariant, Entries, Read;
    var n := At(s, c);
    EntriesMore(cfg, s, chans, d);
    ReadTwice(n.link, Entries(s, chans), map[s.registered[d] := At(s, d).addrs]);
    assert n.phase.loop.done + chans + {d} == n.phase.loop.done + (chans + {d});
  }

  lemma ReadingNone(s: State, c: Chan)
    requires At(s, c).phase.Listing?
    ensures Reading(s, c, {}) == s
  {
    assert Entries(s, {}) == map[];
    ReadTwice(At(s, c).link, map[], map[]);
    hide Entries, Read;
    assert At(s, c).phase.loop.done + {} == At(s, c).phase.loop.done;
  }

  /** Reading the channels' entries in any order is a run. */
  lemma {:induction false} ReadingIsReachable(cfg: Config, safe: bool, s: State, c: Chan, chans: set<Chan>)
    requires Reachable(cfg, safe, s) && At(s, c).phase.Listing?
    requires chans <= s.registered.Keys && chans !! At(s, c).phase.loop.done
    ensures Reachable(cfg, safe, Reading(s, c, chans))
    decreases chans
  {
    hide Reachable, Reading, ReadEntry, Invariant;
    if chans == {} {
      ReadingNone(s, c);
    } else {
      var d :| d in chans;
      var rest := chans - {d};
      ReadingIsReachable(cfg, safe, s, c, rest);
      ReachableInvariant(cfg, safe, s);
      ReadingMore(cfg, s, c, rest, d);
      assert rest + {d} == chans;
      assert Reading(s, c, rest).registered == s.registered by { ReadingKeeps(s, c, rest); }
      Extend(cfg, safe, Reading(s, c, rest), Reads(c, d));
    }
  }

  lemma ReadingKeeps(s: State, c: Chan, chans: set<Chan>)
    requires At(s, c).phase.Listing?
    ensures var t := Reading(s, c, chans);
      t.registered == s.registered && t.space == s.space && t.bound == s.bound && t.behind == s.behind
  {
  }

  // ----- whole messages -----

  /** The loop of assignVip run to its end. */
  function Settle(cfg: Config, s: State, c: Chan): State
    decreases if At(s, c).phase.Assigning? then |cfg.pool| + 1 - At(s, c).phase.next else -1
  {
    if At(s, c).phase.Assigning? && At(s, c).phase.next <= |cfg.pool| then Settle(cfg, TryBind(cfg, s, c), c) else s
  }

  /** The winner enters the channel space and the registry. */
  function Admit(s: State, c: Chan): State
    requires At(s, c).phase.Won?
  {
    Commit(EnterSpace(s, c), c)
  }

  /** Addresses, node list, answer and the push to all. */
  function Finish(s: State, c: Chan): State
    requires At(s, c).phase.Assigned? && c in s.registered
  {
    var stored := StoreAddresses(s, c);
    PushLoop(SendAnswer(Reading(stored, c, stored.registered.Keys), c), c)
  }

  /** The channel's VIP, new or kept, or a refusal. */
  function Assignment(cfg: Config, s: State, c: Chan, mac: Mac, addrs: Addrs): State {
    var t := Settle(cfg, BeginRegist(s, c, mac, addrs), c);
    if At(t, c).phase.Won? then Admit(t, c) else t
  }

  function Registration(cfg: Config, s: State, c: Chan, mac: Mac, addrs: Addrs): State {
    var t := Assignment(cfg, s, c, mac, addrs);
    if At(t, c).phase.Assigned? && c in t.registered then Finish(t, c) else t
  }

  function NodeUpdate(s: State, c: Chan, addrs: Addrs): State {
    var t := StoreUpdate(s, c, addrs);
    if c in s.registered then PushLoop(t, c) else t
  }

  /** The offline listeners that are left. */
  function Leave(s: State, c: Chan): State
    decreases if At(s, c).phase.Leaving? then At(s, c).phase.left else 0
  {
    if At(s, c).phase.Leaving? && At(s, c).phase.left > 1 then
      LeaveLoop(s, c);
      Leave(PushLoop(s, c), c)
    else if At(s, c).phase.Leaving? then PushLoop(s, c)
    else s
  }

  lemma LeaveLoop(s: State, c: Chan)
    requires At(s, c).phase.Leaving?
    ensures var (p, q) := (At(s, c).phase, At(PushLoop(s, c), c).phase);
      q == if p.left > 1 then Leaving(p.vip, p.left - 1, Start(s)) else Closed
  {
    hide Visiting;
    VisitingAt(s, c, s.registered.Keys, c);
    VisitingKeeps(s, c, s.registered.Keys);
  }

  /** All close listeners of a channel. */
  function CloseChannel(cfg: Config, s: State, c: Chan): State {
    var gone := Unregister(s, c);
    if At(gone, c).phase.Unregistered? then Leave(ClearSpace(Release(cfg, gone, c), c), c) else gone
  }

  predicate SameRegistry(s: State, t: State) {
    t.registered == s.registered && t.space == s.space && t.bound == s.bound
  }

  lemma PushLoopAt(s: State, c: Chan, d: Chan)
    requires Pushing(s, c)
    ensures SameRegistry(s, PushLoop(s, c))
    ensures d != c ==>
      At(PushLoop(s, c), d) == if d in s.registered then Sent(At(s, d), Pushed(s, c)) else At(s, d)
  {
    hide Visiting, Sent, Pushed;
    VisitingAt(s, c, s.registered.Keys, c);
    VisitingAt(s, c, s.registered.Keys, d);
    VisitingKeeps(s, c, s.registered.Keys);
  }

  // ----- whole messages are runs -----

  lemma TryProgress(cfg: Config, s: State, c: Chan)
    requires At(s, c).phase.Assigning?
    ensures var p := At(TryBind(cfg, s, c), c).phase; p.Assigning? ==> p.next == At(s, c).phase.next + 1
  {
    hide AttemptOf, Refuse;
  }

  lemma {:induction false} SettleIsReachable(cfg: Config, safe: bool, s: State, c: Chan)
    requires Reachable(cfg, safe, s)
    ensures Reachable(cfg, safe, Settle(cfg, s, c))
    decreases if At(s, c).phase.Assigning? then |cfg.pool| + 1 - At(s, c).phase.next else -1
  {
    hide Reachable, TryBind;
    if At(s, c).phase.Assigning? && At(s, c).phase.next <= |cfg.pool| {
      Extend(cfg, safe, s, Try(c));
      TryProgress(cfg, s, c);
      SettleIsReachable(cfg, safe, TryBind(cfg, s, c), c);
    }
  }

  lemma AdmitIsReachable(cfg: Config, safe: bool, s: State, c: Chan)
    requires Reachable(cfg, safe, s) && At(s, c).phase.Won?
    ensures Reachable(cfg, safe, Admit(s, c)) && At(Admit(s, c), c).phase.Assigned? && c in Admit(s, c).registered
  {
    hide Reachable;
    Extend(cfg, safe, s, Enter(c));
    Extend(cfg, safe, EnterSpace(s, c), Commits(c));
  }

  lemma FinishIsReachable(cfg: Config, safe: bool, s: State, c: Chan)
    requires Reachable(cfg, safe, s) && At(s, c).phase.Assigned? && c in s.registered
    ensures Reachable(cfg, safe, Finish(s, c))
  {
    hide Reachable, PushLoop, Entries, Read, Answer;
    Extend(cfg, safe, s, SetAddresses(c));
    var stored := StoreAddresses(s, c);
    ReadingIsReachable(cfg, safe, stored, c, stored.registered.Keys);
    var read := Reading(stored, c, stored.registered.Keys);
    Extend(cfg, safe, read, Answers(c));
    PushLoopIsReachable(cfg, safe, SendAnswer(read, c), c);
  }

  /** A registration handled without interruption is a run of the steps. */
  lemma RegistrationIsReachable(cfg: Config, safe: bool, s: State, c: Chan, mac: Mac, addrs: Addrs)
    requires Reachable(cfg, safe, s) && At(s, c).phase == Idle
    ensures Reachable(cfg, safe, Registration(cfg, s, c, mac, addrs))
  {
    hide Settle, Finish, Reachable, Admit;
    Extend(cfg, safe, s, Begin(c, mac, addrs));
    SettleIsReachable(cfg, safe, BeginRegist(s, c, mac, addrs), c);
    var t := Settle(cfg, BeginRegist(s, c, mac, addrs), c);
    if At(t, c).phase.Won? {
      AdmitIsReachable(cfg, safe, t, c);
    }
    var u := Assignment(cfg, s, c, mac, addrs);
    if At(u, c).phase.Assigned? && c in u.registered {
      FinishIsReachable(cfg, safe, u, c);
    }
  }

  /** So is an address update. */
  lemma NodeUpdateIsReachable(cfg: Config, safe: bool, s: State, c: Chan, addrs: Addrs)
    requires Reachable(cfg, safe, s) && At(s, c).phase == Idle
    ensures Reachable(cfg, safe, NodeUpdate(s, c, addrs))
  {
    hide PushLoop, Reachable, Refuse;
    Extend(cfg, safe, s, Update(c, addrs));
    if c in s.registered {
      PushLoopIsReachable(cfg, safe, StoreUpdate(s, c, addrs), c);
    }
  }

  lemma {:induction false} LeaveIsReachable(cfg: Config, safe: bool, s: State, c: Chan)
    requires Reachable(cfg, safe, s) && (At(s, c).phase.Leaving? ==> At(s, c).phase.loop.done == {})
    requires safe ==> Harmless(s, c)
    ensures Reachable(cfg, safe, Leave(s, c))
    decreases if At(s, c).phase.Leaving? then At(s, c).phase.left else 0
  {
    hide Reachable, PushLoop;
    if At(s, c).phase.Leaving? {
      PushLoopIsReachable(cfg, safe, s, c);
      if At(s, c).phase.left > 1 {
        LeaveLoop(s, c);
        PushLoopAt(s, c, c);
        LeaveIsReachable(cfg, safe, PushLoop(s, c), c);
      }
    }
  }

  /** And a close. */
  lemma CloseIsReachable(cfg: Config, safe: bool, s: State, c: Chan)
    requires Reachable(cfg, safe, s) && At(s, c).phase == Idle
    ensures Reachable(cfg, safe, CloseChannel(cfg, s, c))
  {
    hide Leave, Reachable, Passed, Invariant;
    Extend(cfg, safe, s, Close(c));
    var gone := Unregister(s, c);
    if At(gone, c).phase.Unregistered? {
      Extend(cfg, safe, gone, Releases(c));
      var freed := Release(cfg, gone, c);
      ReachableInvariant(cfg, safe, freed);
      HarmlessIsSafe(cfg, freed, Clears(c));
      Extend(cfg, safe, freed, Clears(c));
      LeaveIsReachable(cfg, safe, ClearSpace(freed, c), c);
    }
  }

  // ----- what whole messages do -----

  /** The loop wins the first free entry, or fails at the end of the pool. */
  lemma {:induction false} SettleLoop(cfg: Config, s: State, c: Chan, i: nat)
    requires At(s, c).phase.Assigning? && At(s, c).phase.mac !in cfg.fixedVips && At(s, c).phase.next <= i <= |cfg.pool|
    requires forall j :: At(s, c).phase.next <= j < i ==> cfg.pool[j] in s.bound
    requires i < |cfg.pool| ==> cfg.pool[i] !in s.bound
    ensures Settle(cfg, s, c) ==
      if i < |cfg.pool| then Bind(s, c, cfg.pool[i], At(s, c).phase.wanted) else Fail(s, c, NotEnough)
    decreases i - At(s, c).phase.next
  {
    hide Bind, Fail;
    var p := At(s, c).phase;
    var t := TryBind(cfg, s, c);
    if p.next < i {
      SettleLoop(cfg, t, c, i);
      OverMoved(s, c, p.(next := p.next + 1), if i < |cfg.pool| then cfg.pool[i] else Vip(""), p.wanted, NotEnough);
    } else {
      Ended(s, c, if i < |cfg.pool| then cfg.pool[i] else Vip(""), p.wanted, NotEnough);
    }
  }

  /** Binding and failing do not depend on the phase they leave. */
  lemma OverMoved(s: State, c: Chan, p: Phase, vip: Vip, wanted: Addrs, code: Code)
    ensures Bind(Move(s, c, p), c, vip, wanted) == Bind(s, c, vip, wanted)
    ensures Fail(Move(s, c, p), c, code) == Fail(s, c, code)
  {
    hide Refuse;
  }

  lemma Ended(s: State, c: Chan, vip: Vip, wanted: Addrs, code: Code)
    ensures At(Bind(s, c, vip, wanted), c).phase == Won(vip, wanted)
    ensures At(Fail(s, c, code), c).phase == Idle
  {
  }

  /** A fixed VIP is tried once. */
  lemma SettleFixed(cfg: Config, s: State, c: Chan)
    requires At(s, c).phase.Assigning? && At(s, c).phase.mac in cfg.fixedVips && At(s, c).phase.next <= |cfg.pool|
    ensures var (p, vip) := (At(s, c).phase, cfg.fixedVips[At(s, c).phase.mac]);
      Settle(cfg, s, c) ==
        if vip !in cfg.pool then Fail(s, c, SysError)
        else if vip in s.bound then Fail(s, c, VipBound)
        else Bind(s, c, vip, p.wanted)
  {
    hide Bind, Fail;
    var p := At(s, c).phase;
    Ended(s, c, cfg.fixedVips[p.mac], p.wanted, SysError);
    Ended(s, c, cfg.fixedVips[p.mac], p.wanted, VipBound);
  }

  lemma FinishAt(s: State, c: Chan, d: Chan)
    requires At(s, c).phase.Assigned? && c in s.registered
    ensures SameRegistry(s, Finish(s, c))
    ensures d != c ==> SameButLink(At(s, d), At(Finish(s, c), d))
    ensures d != c && d !in s.registered ==> At(Finish(s, c), d) == At(s, d)
    ensures At(Finish(s, c), c).phase == Idle && At(Finish(s, c), c).offlineListeners == At(s, c).offlineListeners + 1
  {
    hide PushLoop, Entries, Read, Answer, Push, Pushed;
    var stored := StoreAddresses(s, c);
    var sent := SendAnswer(Reading(stored, c, stored.registered.Keys), c);
    PushLoopAt(sent, c, d);
    AnnounceEnds(sent, c);
  }

  lemma AnnounceEnds(s: State, c: Chan)
    requires At(s, c).phase.Announcing? && c in s.registered
    ensures var n := At(PushLoop(s, c), c);
      && n.phase == Idle
      && n.offlineListeners == At(s, c).offlineListeners + if At(s, c).phase.registers then 1 else 0
  {
    hide Visiting, Push, Pushed;
    VisitingAt(s, c, s.registered.Keys, c);
  }

  /** The offline listeners of a close take its VIP from every registered client, and nothing else. */
  lemma {:induction false} LeaveAt(s: State, a: Chan, c: Chan, vip: Vip)
    requires At(s, a).phase.Leaving? && At(s, a).phase.left > 0 && a !in s.registered
    ensures SameRegistry(s, Leave(s, a)) && At(Leave(s, a), a).phase == Closed
    ensures c != a ==>
      SameButLink(At(s, c), At(Leave(s, a), c)) && At(Leave(s, a), c).link.client == At(s, c).link.client
    ensures c in s.registered ==>
      (vip in Told(Leave(s, a), c) <==> vip in Told(s, c) && vip != At(s, a).phase.vip)
    decreases At(s, a).phase.left
  {
    hide PushLoop, At, Mark;
    LeaveLoop(s, a);
    PushLoopAt(s, a, c);
    assert Pushed(s, a) == Offline(At(s, a).phase.vip);
    if At(s, a).phase.left > 1 {
      LeaveAt(PushLoop(s, a), a, c, vip);
    }
  }

  /** A registration whose first attempt wins. */
  lemma Registers(cfg: Config, safe: bool, s: State, c: Chan, mac: Mac, addrs: Addrs, vip: Vip, d: Chan)
    requires Reachable(cfg, safe, s) && At(s, c).phase == Idle && c !in s.registered
    requires AttemptOf(cfg, s.bound, mac, 0) == Win(vip)
    ensures var t := Registration(cfg, s, c, mac, addrs);
      && Reachable(cfg, safe, t)
      && t.registered == s.registered[c := vip] && t.space == s.space[vip := c] && t.bound == s.bound[vip := c]
      && At(t, c).phase == Idle && At(t, c).offlineListeners == At(s, c).offlineListeners + 1
      && (d != c ==> SameButLink(At(s, d), At(t, d)))
      && (d != c && d !in s.registered ==> At(t, d) == At(s, d))
  {
    hide Reachable, Finish, AttemptOf;
    RegistrationIsReachable(cfg, safe, s, c, mac, addrs);
    var begun := BeginRegist(s, c, mac, addrs);
    var won := TryBind(cfg, begun, c);
    assert won == Bind(begun, c, vip, addrs) && Settle(cfg, begun, c) == Settle(cfg, won, c) == won;
    FinishAt(Admit(won, c), c, d);
  }

  // ----- closes and the VIP's next holder -----

  lemma CloseAt(cfg: Config, s: State, a: Chan, c: Chan, vip: Vip)
    requires a in s.registered && At(s, a).offlineListeners > 0
    ensures var (t, gone) := (CloseChannel(cfg, s, a), s.registered[a]);
      && t.registered == s.registered - {a} && t.space == s.space - {gone} && t.bound == s.bound - {gone}
      && At(t, a).phase == Closed
      && (c != a ==> SameButLink(At(s, c), At(t, c)) && At(t, c).link.client == At(s, c).link.client)
      && (c != a && c in s.registered ==> (vip in Told(t, c) <==> vip in Told(s, c) && vip != gone))
  {
    hide Leave, Passed;
    LeaveAt(ClearSpace(Release(cfg, Unregister(s, a), a), a), a, c, vip);
  }

  /** Two channels may share a VIP where the data service hands a node its VIP again while its old channel is
      still registered. When one of them closes, the other one and the clients that know its VIP keep the
      entry if and only if the VIPs differ. */
  lemma CloseKeepsOthersIff(cfg: Config, s: State, a: Chan, b: Chan, c: Chan)
    requires a in s.registered && b in s.registered && a != b && At(s, a).offlineListeners > 0
    requires s.registered[b] in s.space && s.space[s.registered[b]] == b
    requires c in s.registered && c != a && s.registered[b] in Told(s, c)
    ensures var (t, vip) := (CloseChannel(cfg, s, a), s.registered[b]);
      && b in t.registered && t.registered[b] == vip
      && (vip in t.space && t.space[vip] == b <==> vip != s.registered[a])
      && (vip in Told(t, c) <==> vip != s.registered[a])
  {
    hide CloseChannel, At, Told;
    CloseAt(cfg, s, a, c, s.registered[b]);
  }

  /** From every reachable state: a node reconnects with the MAC address its VIP is fixed for, after its old
      channel's close has released the VIP and before it has cleared the space. It ends up registered, and
      neither reachable by its VIP nor known to any client. */
  lemma InterruptedCloseLosesSuccessor(cfg: Config, s: State, a: Chan, b: Chan, mac: Mac, addrs: Addrs)
      returns (t: State)
    requires Reachable(cfg, false, s) && a in s.registered && At(s, a).phase == Idle
    requires b !in s.registered && At(s, b).phase == Idle
    requires mac in cfg.fixedVips && cfg.fixedVips[mac] == s.registered[a]
    ensures var vip := s.registered[a];
      && Reachable(cfg, false, t)
      && b in t.registered && t.registered[b] == vip && At(t, b).phase == Idle && At(t, a).phase == Closed
      && vip !in t.space
      && forall c :: c in t.registered ==> vip !in Told(t, c)
  {
    hide Reachable, Registration, Leave, Passed, Invariant, At, Told;
    var vip := s.registered[a];
    HoldsAndListens(cfg, false, s, a);
    AfterUnregister(s, a, b);
    Extend(cfg, false, s, Close(a));
    var gone := Unregister(s, a);
    AfterRelease(cfg, gone, a, b);
    Extend(cfg, false, gone, Releases(a));
    var freed := Release(cfg, gone, a);
    Registers(cfg, false, freed, b, mac, addrs, vip, a);
    var full := Registration(cfg, freed, b, mac, addrs);
    Extend(cfg, false, full, Clears(a));
    AfterClear(full, a, b);
    var cleared := ClearSpace(full, a);
    LeaveIsReachable(cfg, false, cleared, a);
    t := Leave(cleared, a);
    LeaveAt(cleared, a, b, vip);
    forall c | c in t.registered ensures vip !in Told(t, c) {
      LeaveAt(cleared, a, c, vip);
    }
  }

  lemma HoldsAndListens(cfg: Config, safe: bool, s: State, a: Chan)
    requires Reachable(cfg, safe, s) && a in s.registered && At(s, a).phase == Idle
    ensures At(s, a).offlineListeners > 0
    ensures s.registered[a] in cfg.pool && s.registered[a] in s.bound && s.bound[s.registered[a]] == a
  {
    hide Reachable, Sound, Tried, Consistent;
    ReachableInvariant(cfg, safe, s);
    assert Phased(s, a) && HeldIsBound(s, a) && BoundIsHeld(cfg, s, s.registered[a]);
  }

  lemma AfterUnregister(s: State, a: Chan, b: Chan)
    requires a in s.registered && a != b
    ensures var t := Unregister(s, a);
      && At(t, a) == At(s, a).(phase := Unregistered(s.registered[a])) && At(t, b) == At(s, b)
      && t == s.(registered := s.registered - {a}, sessions := t.sessions)
  {
  }

  lemma AfterRelease(cfg: Config, s: State, a: Chan, b: Chan)
    requires At(s, a).phase.Unregistered? && a != b
    ensures var (t, vip) := (Release(cfg, s, a), At(s, a).phase.vip);
      && At(t, a) == At(s, a).(phase := Released(vip)) && At(t, b) == At(s, b)
      && t.registered == s.registered && t.space == s.space && t.bound == s.bound - {vip}
  {
    hide Passed;
  }

  lemma AfterClear(s: State, a: Chan, b: Chan)
    requires At(s, a).phase.Released? && At(s, a).offlineListeners > 0 && a != b
    ensures var (t, vip) := (ClearSpace(s, a), At(s, a).phase.vip);
      && At(t, a).phase == Leaving(vip, At(s, a).offlineListeners, Start(s)) && At(t, b) == At(s, b)
      && t.registered == s.registered && t.space == s.space - {vip} && t.bound == s.bound
  {
  }

  /** Such a state is reached from the start: the first connection of a node, its close, its second one. */
  lemma InterruptedCloseHappens(cfg: Config, a: Chan, b: Chan, mac: Mac, addrs: Addrs) returns (t: State)
    requires mac in cfg.fixedVips && cfg.fixedVips[mac] in cfg.pool && a != b
    ensures var vip := cfg.fixedVips[mac];
      && Reachable(cfg, false, t)
      && b in t.registered && t.registered[b] == vip && At(t, b).phase == Idle && At(t, a).phase == Closed
      && vip !in t.space
      && forall c :: c in t.registered ==> vip !in Told(t, c)
  {
    hide Registration;
    InitialIsReachable(cfg, false);
    Registers(cfg, false, INITIAL, a, mac, addrs, cfg.fixedVips[mac], b);
    hide Reachable, Told;
    t := InterruptedCloseLosesSuccessor(cfg, Registration(cfg, INITIAL, a, mac, addrs), a, b, mac, addrs);
  }

  // ----- running out of VIPs -----

  lemma PassesOne(cfg: Config, s: State, c: Chan, mac: Mac, addrs: Addrs, n: nat)
    requires mac !in cfg.fixedVips && n < |cfg.pool| && cfg.pool[n] in s.bound
    ensures At(Move(s, c, Assigning(mac, addrs, n)), c).phase == Assigning(mac, addrs, n)
    ensures TryBind(cfg, Move(s, c, Assigning(mac, addrs, n)), c) == Move(s, c, Assigning(mac, addrs, n + 1))
  {
    hide Bind, Fail;
    var before := Move(s, c, Assigning(mac, addrs, n));
    assert AttemptAt(cfg, before, c) == Advance;
  }

  lemma {:induction false} PassesFull(cfg: Config, safe: bool, s: State, c: Chan, mac: Mac, addrs: Addrs, n: nat)
    requires Reachable(cfg, safe, s) && At(s, c).phase == Assigning(mac, addrs, 0) && n <= |cfg.pool|
    requires mac !in cfg.fixedVips && forall vip :: vip in cfg.pool ==> vip in s.bound
    ensures Reachable(cfg, safe, Move(s, c, Assigning(mac, addrs, n)))
  {
    hide Reachable;
    if n == 0 {
      assert Move(s, c, Assigning(mac, addrs, 0)) == s;
    } else {
      PassesFull(cfg, safe, s, c, mac, addrs, n - 1);
      PassesOne(cfg, s, c, mac, addrs, n - 1);
      Extend(cfg, safe, Move(s, c, Assigning(mac, addrs, n - 1)), Try(c));
    }
  }

  /** From every reachable state with a full pool: a VIP released behind a registration's loop is not tried
      again, and the registration is about to fail with that VIP free. */
  lemma ReleasedBehindTheLoop(cfg: Config, s: State, a: Chan, b: Chan, mac: Mac, addrs: Addrs) returns (t: State)
    requires Reachable(cfg, true, s) && (forall vip :: vip in cfg.pool ==> vip in s.bound)
    requires a in s.registered && At(s, a).phase == Idle
    requires b !in s.registered && At(s, b).phase == Idle && mac !in cfg.fixedVips
    ensures Reachable(cfg, true, t) && Enabled(t, Try(b)) && AttemptAt(cfg, t, b) == Lose(NotEnough)
    ensures s.registered[a] in cfg.pool && s.registered[a] !in t.bound && (b, s.registered[a]) in t.behind
  {
    hide Reachable, Invariant, Passed;
    HoldsAndListens(cfg, true, s, a);
    Extend(cfg, true, s, Begin(b, mac, addrs));
    var begun := BeginRegist(s, b, mac, addrs);
    PassesFull(cfg, true, begun, b, mac, addrs, |cfg.pool|);
    var full := Move(begun, b, Assigning(mac, addrs, |cfg.pool|));
    AfterUnregister(full, a, b);
    Extend(cfg, true, full, Close(a));
    var gone := Unregister(full, a);
    AfterRelease(cfg, gone, a, b);
    Extend(cfg, true, gone, Releases(a));
    t := Release(cfg, gone, a);
    ReachableInvariant(cfg, true, t);
    MissedIsBehind(cfg, t, b, s.registered[a]);
    hide Release, Unregister, Move, BeginRegist;
  }

  lemma MissedIsBehind(cfg: Config, s: State, c: Chan, vip: Vip)
    requires Invariant(cfg, s) && At(s, c).phase.Assigning? && At(s, c).phase.next == |cfg.pool|
    requires vip in cfg.pool && vip !in s.bound
    ensures (c, vip) in s.behind
  {
    hide Exclusive, Sound, Consistent;
    assert Tried(cfg, s, c);
    assert cfg.pool[..|cfg.pool|] == cfg.pool;
  }

  /** With a pool of one VIP such a state is reached from the start. */
  lemma ReleasedBehindHappens(vip: Vip, a: Chan, b: Chan, mac: Mac, addrs: Addrs) returns (t: State)
    requires a != b
    ensures var cfg := Config([vip], map[]);
      && Reachable(cfg, true, t) && Enabled(t, Try(b)) && AttemptAt(cfg, t, b) == Lose(NotEnough)
      && vip !in t.bound && (b, vip) in t.behind
  {
    hide Registration;
    var cfg := Config([vip], map[]);
    InitialIsReachable(cfg, true);
    Registers(cfg, true, INITIAL, a, mac, addrs, vip, b);
    hide Reachable;
    t := ReleasedBehindTheLoop(cfg, Registration(cfg, INITIAL, a, mac, addrs), a, b, mac, addrs);
  }

  // ----- entries overtaken on their way into the node table -----

  /** Arrivals and puts at one client. */
  ghost predicate OnlyClient(s: State, t: State, b: Chan) {
    && t.registered == s.registered && t.space == s.space && t.bound == s.bound && Told(t, b) == Told(s, b)
    && forall c :: At(t, c) == if c == b then At(s, b).(link := At(t, b).link) else At(s, c)
  }

  lemma {:induction false} DeliversAll(cfg: Config, safe: bool, s: State, b: Chan) returns (t: State)
    requires Reachable(cfg, safe, s)
    ensures Reachable(cfg, safe, t) && OnlyClient(s, t, b) && At(t, b).link.queue == []
    ensures At(s, b).link.client.held.Keys <= At(t, b).link.client.held.Keys
    decreases |At(s, b).link.queue|
  {
    hide Reachable;
    t := s;
    if At(s, b).link.queue != [] {
      Extend(cfg, safe, s, Delivers(b));
      t := DeliversAll(cfg, safe, Deliver(s, b), b);
    }
  }

  lemma {:induction false} AppliesAll(cfg: Config, safe: bool, s: State, b: Chan) returns (t: State)
    requires Reachable(cfg, safe, s)
    ensures Reachable(cfg, safe, t) && OnlyClient(s, t, b) && At(t, b).link.client.held == map[]
    ensures At(t, b).link.queue == At(s, b).link.queue && At(t, b).link.listed == At(s, b).link.listed
    ensures At(t, b).link.client.nodes.Keys == At(s, b).link.client.nodes.Keys + At(s, b).link.client.held.Keys
    decreases |At(s, b).link.client.held.Keys|
  {
    hide Reachable, Apply, At, OnlyClient;
    if At(s, b).link.client.held == map[] {
      t := s;
      SameClient(s, b);
    } else {
      var vip :| vip in At(s, b).link.client.held;
      Extend(cfg, safe, s, Applies(b, vip));
      AppliesOne(s, b, vip);
      var u := Apply(s, b, vip);
      t := AppliesAll(cfg, safe, u, b);
      ThenClient(s, u, t, b);
    }
  }

  lemma SameClient(s: State, b: Chan)
    ensures OnlyClient(s, s, b)
  {
  }

  lemma ThenClient(s: State, t: State, u: State, b: Chan)
    requires OnlyClient(s, t, b) && OnlyClient(t, u, b)
    ensures OnlyClient(s, u, b)
  {
    hide At;
  }

  lemma AppliesOne(s: State, b: Chan, vip: Vip)
    requires vip in At(s, b).link.client.held
    ensures var (t, l) := (Apply(s, b, vip), At(s, b).link);
      var m := At(t, b).link;
      && OnlyClient(s, t, b) && m.queue == l.queue && m.listed == l.listed
      && m.client.nodes.Keys + m.client.held.Keys == l.client.nodes.Keys + l.client.held.Keys
      && |m.client.held.Keys| < |l.client.held.Keys|
  {
    OneEntry(At(s, b).link.client.nodes, At(s, b).link.client.held, vip);
  }

  /** From every reachable state in which a client holds an entry it has not put yet: if the entry's node
      goes offline first, the client ends with the entry in its node table, though everything has arrived
      and been put and the VIP has no channel. */
  lemma OvertakenEntryStays(cfg: Config, s: State, a: Chan, b: Chan) returns (t: State)
    requires Reachable(cfg, true, s) && a in s.registered && At(s, a).phase == Idle
    requires b in s.registered && At(s, b).phase == Idle && a != b
    requires s.registered[a] in At(s, b).link.client.held
    ensures Reachable(cfg, true, t) && t.registered == s.registered - {a}
    ensures var l := At(t, b).link;
      && Settled(l) && s.registered[a] in l.client.nodes && s.registered[a] !in t.registered.Values
      && s.registered[a] in l.client.overtaken
    ensures Quiet(s) ==> Quiet(t)
  {
    hide Reachable, CloseChannel, Invariant, Told, At, OnlyClient;
    var vip := s.registered[a];
    HoldsAndListens(cfg, true, s, a);
    CloseIsReachable(cfg, true, s, a);
    var closed := CloseChannel(cfg, s, a);
    CloseAt(cfg, s, a, b, vip);
    var arrived := DeliversAll(cfg, true, closed, b);
    ClientOnly(closed, arrived, b, b);
    t := AppliesAll(cfg, true, arrived, b);
    ClientOnly(arrived, t, b, b);
    NotRegistered(cfg, true, s, a);
    ReachableInvariant(cfg, true, t);
    EndsOvertaken(cfg, t, b, vip);
    if Quiet(s) {
      forall c ensures At(t, c).phase in {Idle, Closed} {
        assert At(s, c).phase in {Idle, Closed};
        CloseAt(cfg, s, a, c, vip);
        ClientOnly(closed, arrived, b, c);
        ClientOnly(arrived, t, b, c);
      }
    }
  }

  lemma ClientOnly(s: State, t: State, b: Chan, c: Chan)
    requires OnlyClient(s, t, b)
    ensures t.registered == s.registered && Told(t, b) == Told(s, b) && SameButLink(At(s, c), At(t, c))
  {
  }

  lemma NotRegistered(cfg: Config, safe: bool, s: State, a: Chan)
    requires Reachable(cfg, safe, s) && a in s.registered
    ensures s.registered[a] !in (s.registered - {a}).Values
  {
    hide Reachable, Sound, Tried, Consistent;
    ReachableInvariant(cfg, safe, s);
    if s.registered[a] in (s.registered - {a}).Values {
      var c :| c in s.registered - {a} && s.registered[c] == s.registered[a];
      hide AllPhased, Exclusive;
      DistinctVips(cfg, s, a, c);
    }
  }

  lemma EndsOvertaken(cfg: Config, s: State, b: Chan, vip: Vip)
    requires Invariant(cfg, s) && At(s, b).phase == Idle
    requires At(s, b).link.queue == [] && At(s, b).link.client.held == map[]
    requires vip in At(s, b).link.client.nodes && vip !in Told(s, b)
    ensures Settled(At(s, b).link) && vip in At(s, b).link.client.overtaken
  {
    hide Exclusive, Sound, Tried, Consistent;
    assert Phased(s, b) && Consistent(At(s, b).link, vip);
    AtRest(At(s, b).link, vip);
  }

  /** The answer lists every VIP whose holder is registered, and is the first thing a new client is sent. */
  lemma FinishSends(s: State, c: Chan, vip: Vip)
    requires At(s, c).phase.Assigned? && c in s.registered && At(s, c).link == SILENT && Live(s, vip)
    ensures var l := At(Finish(s, c), c).link;
      l.queue != [] && l.queue[0].Snapshot? && vip in l.queue[0].listed && l.client == SILENT.client
  {
    hide PushLoop, Push;
    var stored := StoreAddresses(s, c);
    assert Live(stored, vip) && vip in Entries(stored, stored.registered.Keys);
    var read := Reading(stored, c, stored.registered.Keys);
    var sent := SendAnswer(read, c);
    var q := At(sent, c).link.queue;
    assert |q| == 1 && q[0].Snapshot? && vip in q[0].listed;
    hide Entries, SendAnswer, Reading, StoreAddresses;
    LoopAppends(sent, c);
  }

  lemma LoopAppends(s: State, c: Chan)
    requires At(s, c).phase.Announcing? && c in s.registered
    ensures var (l, m) := (At(s, c).link, At(PushLoop(s, c), c).link);
      m.queue == l.queue + [Pushed(s, c)] && m.client == l.client
  {
    hide Visiting, Pushed, Mark, Applied;
    VisitingAt(s, c, s.registered.Keys, c);
  }

  lemma RegistersInto(cfg: Config, s: State, c: Chan, mac: Mac, addrs: Addrs, vip: Vip, other: Vip)
    requires c !in s.registered && At(s, c).link == SILENT && AttemptOf(cfg, s.bound, mac, 0) == Win(vip)
    requires Live(s, other)
    ensures var l := At(Registration(cfg, s, c, mac, addrs), c).link;
      l.queue != [] && l.queue[0].Snapshot? && other in l.queue[0].listed && l.client == SILENT.client
  {
    hide Finish, AttemptOf;
    var begun := BeginRegist(s, c, mac, addrs);
    var won := TryBind(cfg, begun, c);
    assert won == Bind(begun, c, vip, addrs) && Settle(cfg, begun, c) == Settle(cfg, won, c) == won;
    var admitted := Admit(won, c);
    assert Live(admitted, other) && At(admitted, c).link == SILENT;
    FinishSends(admitted, c, other);
  }

  /** Such a state is reached from the start: a node registers, a second one does and its answer arrives. */
  lemma OvertakenEntryHappens(cfg: Config, a: Chan, b: Chan, macs: (Mac, Mac), addrs: Addrs) returns (t: State)
    requires macs.0 in cfg.fixedVips && cfg.fixedVips[macs.0] in cfg.pool && a != b
    requires macs.1 in cfg.fixedVips && cfg.fixedVips[macs.1] in cfg.pool
    requires cfg.fixedVips[macs.0] != cfg.fixedVips[macs.1]
    ensures var (vip, l) := (cfg.fixedVips[macs.0], At(t, b).link);
      && Reachable(cfg, true, t) && b in t.registered
      && Settled(l) && vip in l.client.nodes && vip !in t.registered.Values && vip in l.client.overtaken
  {
    hide Registration, Reachable;
    var (vip, other) := (cfg.fixedVips[macs.0], cfg.fixedVips[macs.1]);
    InitialIsReachable(cfg, true);
    Registers(cfg, true, INITIAL, a, macs.0, addrs, vip, b);
    var one := Registration(cfg, INITIAL, a, macs.0, addrs);
    Registers(cfg, true, one, b, macs.1, addrs, other, a);
    RegistersInto(cfg, one, b, macs.1, addrs, other, vip);
    var two := Registration(cfg, one, b, macs.1, addrs);
    Extend(cfg, true, two, Delivers(b));
    var arrived := Deliver(two, b);
    assert vip in At(arrived, b).link.client.held && At(arrived, a).phase == At(two, a).phase;
    hide Deliver, Settled, At;
    t := OvertakenEntryStays(cfg, arrived, a, b);
  }

  // ----- the server -----

  /** What assignVip chooses: the VIP fixed for the MAC, or the first free one of the pool. */
  ghost predicate Chosen(cfg: Config, bound: map<Vip, Chan>, mac: Mac, r: Result<Vip, Code>) {
    if mac in cfg.fixedVips then
      var vip := cfg.fixedVips[mac];
      r == if vip !in cfg.pool then Err(SysError) else if vip in bound then Err(VipBound) else Ok(vip)
    else match r
      case Ok(vip) => vip !in bound && exists i :: 0 <= i < |cfg.pool| && cfg.pool[i] == vip && FullUpTo(cfg, bound, i)
      case Err(code) => code == NotEnough && FullUpTo(cfg, bound, |cfg.pool|)
  }

  ghost predicate FullUpTo(cfg: Config, bound: map<Vip, Chan>, n: nat) {
    n <= |cfg.pool| && forall j :: 0 <= j < n ==> cfg.pool[j] in bound
  }

  /** Every registered channel has been sent the message; otherwise no channel but c has changed. */
  ghost predicate ToldAll(before: map<Chan, Session>, after: map<Chan, Session>, registered: set<Chan>, c: Chan,
                          m: Message) {
    forall d :: d != c ==>
      var (n, k) := (Of(before, d), Of(after, d));
      && k.phase == n.phase && k.addrs == n.addrs && k.offlineListeners == n.offlineListeners
      && k.link.client == n.link.client && k.link.queue == n.link.queue + if d in registered then [m] else []
  }

  /** What was sent last are a list of the registry and then the message. */
  ghost predicate Answered(s: State, before: seq<Message>, after: seq<Message>, m: Message) {
    var n := |before|;
    && |after| == n + 2 && after[..n] == before
    && after[n].Snapshot? && IsRegistry(s, after[n].listed)
    && after[n + 1] == m
  }

  lemma SendAllTells(before: map<Chan, Session>, registered: set<Chan>, c: Chan, m: Message)
    requires IsPush(m)
    ensures ToldAll(before, SendAll(before, registered, m), registered, c, m)
    ensures c in registered ==> Of(SendAll(before, registered, m), c) == Sent(Of(before, c), m)
  {
    hide SendAll, Mark, Applied;
    forall d ensures Of(SendAll(before, registered, m), d) ==
                     if d in registered then Sent(Of(before, d), m) else Of(before, d) {
      SentAt(before, registered, m, d);
    }
  }

  /** Each method handles one message or one close without interruption. */
  class ControllerServer {
    const cfg: Config
    var registChannelMap: map<Chan, Vip>
    var channelSpace: map<Vip, Chan>
    var bindIPMap: map<Vip, Chan>
    var sessions: map<Chan, Session>
    ghost var behind: set<(Chan, Vip)>
    var channelMap: map<Chan, int>

    constructor (cfg: Config)
      ensures this.cfg == cfg && St() == INITIAL && channelMap == map[] && Valid()
    {
      this.cfg := cfg;
      registChannelMap, channelSpace, bindIPMap, sessions, channelMap := map[], map[], map[], map[], map[];
      behind := {};
      new;
      InitialIsReachable(cfg, true);
    }

    ghost function St(): State
      reads this
    {
      State(registChannelMap, channelSpace, bindIPMap, behind, sessions)
    }

    /** A safe run leads here, whatever other channels have under way. */
    ghost predicate Valid()
      reads this
    {
      Reachable(cfg, true, St())
    }

    method PushAll(msg: Message)
      requires IsPush(msg)
      modifies this`sessions
      ensures sessions == SendAll(old(sessions), registChannelMap.Keys, msg)
    {
      var todo := registChannelMap.Keys;
      ghost var done: set<Chan> := {};
      SendNone(sessions, msg);
      while todo != {}
        invariant done + todo == registChannelMap.Keys && done !! todo
        invariant sessions == SendAll(old(sessions), done, msg)
        decreases todo
      {
        var item :| item in todo;
        SendOneMore(old(sessions), done, item, msg);
        sessions := sessions[item := Sent(Of(sessions, item), msg)];
        todo, done := todo - {item}, done + {item};
      }
    }

    method NodeInfoList() returns (nodes: Nodes)
      requires Exclusive(cfg, St()) && AllPhased(St())
      ensures nodes == Entries(St(), registChannelMap.Keys) && IsRegistry(St(), nodes)
    {
      hide Of, Exclusive, AllPhased;
      nodes := map[];
      var todo := registChannelMap.Keys;
      while todo != {}
        invariant todo <= registChannelMap.Keys
        invariant nodes.Keys == set c | c in registChannelMap.Keys - todo :: registChannelMap[c]
        invariant forall c :: c in registChannelMap.Keys - todo ==> nodes[registChannelMap[c]] == Of(sessions, c).addrs
        decreases todo
      {
        var ch :| ch in todo;
        forall c | c in registChannelMap.Keys - todo ensures registChannelMap[c] != registChannelMap[ch] {
          DistinctVips(cfg, St(), c, ch);
        }
        nodes := nodes[registChannelMap[ch] := Of(sessions, ch).addrs];
        todo := todo - {ch};
      }
      RegistryIsEntries(cfg, St(), nodes);
    }

    method AssignVip(c: Chan, mac: Mac) returns (r: Result<Vip, Code>)
      modifies this`bindIPMap
      ensures Chosen(cfg, old(bindIPMap), mac, r)
      ensures bindIPMap == if r.Ok? then old(bindIPMap)[r.value := c] else old(bindIPMap)
    {
      if mac in cfg.fixedVips {
        var fixedIp := cfg.fixedVips[mac];
        if fixedIp !in cfg.pool {
          return Err(SysError);
        }
        if fixedIp in bindIPMap {
          return Err(VipBound);
        }
        bindIPMap := bindIPMap[fixedIp := c];
        return Ok(fixedIp);
      }
      var n := 0;
      while n < |cfg.pool|
        invariant 0 <= n <= |cfg.pool| && bindIPMap == old(bindIPMap)
        invariant FullUpTo(cfg, bindIPMap, n)
      {
        if cfg.pool[n] !in bindIPMap {
          bindIPMap := bindIPMap[cfg.pool[n] := c];
          return Ok(cfg.pool[n]);
        }
        n := n + 1;
      }
      r := Err(NotEnough);
    }

    method ProcessRegist(c: Chan, mac: Mac, addrs: Addrs) returns (r: Result<Vip, Code>)
      requires Valid() && Of(sessions, c).phase == Idle
      modifies this`registChannelMap, this`channelSpace, this`bindIPMap, this`sessions, this`behind
      ensures Valid() && St() == Registration(cfg, old(St()), c, mac, addrs)
      ensures Placed(c, mac, r, old(registChannelMap), old(channelSpace), old(bindIPMap))
      ensures r.Ok? ==>
        && Of(sessions, c).addrs == addrs
        && ToldAll(old(sessions), sessions, registChannelMap.Keys, c, Online(r.value, addrs))
        && Answered(St(), old(Of(sessions, c)).link.queue, Of(sessions, c).link.queue, Online(r.value, addrs))
      ensures r.Err? ==> RefusedOnly(old(sessions), c, r.error)
    {
      hide Reachable, Assignment, Finish, Invariant, Placed, ToldAll, Answered, RefusedOnly;
      RegistrationIsReachable(cfg, true, St(), c, mac, addrs);
      AssignmentInvariant(cfg, true, St(), c, mac, addrs);
      r := Assign(c, mac, addrs);
      if r.Ok? {
        ghost var placed := sessions;
        FinishSession(c, addrs);
        BesidesOwn(old(sessions), placed, sessions, sessions, registChannelMap.Keys, c, Online(r.value, addrs));
      }
    }

    /** A registered channel keeps its VIP; another one gets what assignVip chooses, bound to it, in the
        channel space and in the registry, or the three maps stay. */
    ghost predicate Placed(c: Chan, mac: Mac, r: Result<Vip, Code>, registered: map<Chan, Vip>,
                           space: map<Vip, Chan>, bound: map<Vip, Chan>)
      reads this`registChannelMap, this`channelSpace, this`bindIPMap
    {
      if c in registered then
        r == Ok(registered[c]) && registChannelMap == registered && channelSpace == space && bindIPMap == bound
      else
        && Chosen(cfg, bound, mac, r)
        && registChannelMap == (if r.Ok? then registered[c := r.value] else registered)
        && channelSpace == (if r.Ok? then space[r.value := c] else space)
        && bindIPMap == if r.Ok? then bound[r.value := c] else bound
    }

    /** Nothing has changed but that c has been sent the refusal. */
    ghost predicate RefusedOnly(before: map<Chan, Session>, c: Chan, code: Code)
      reads this`sessions
    {
      && (forall d :: d != c ==> Of(sessions, d) == Of(before, d))
      && var l := Of(before, c).link;
        Of(sessions, c) == Of(before, c).(link := l.(queue := l.queue + [Refused(code)]))
    }

    /** The channel's VIP, new or kept, and the registry entry; a refusal is answered at once. */
    method Assign(c: Chan, mac: Mac, addrs: Addrs) returns (r: Result<Vip, Code>)
      requires Of(sessions, c).phase == Idle
      modifies this`registChannelMap, this`channelSpace, this`bindIPMap, this`sessions, this`behind
      ensures St() == Assignment(cfg, old(St()), c, mac, addrs)
      ensures Placed(c, mac, r, old(registChannelMap), old(channelSpace), old(bindIPMap))
      ensures r.Ok? ==>
        && c in registChannelMap && registChannelMap[c] == r.value
        && sessions == old(sessions)[c := old(Of(sessions, c)).(phase := Assigned(addrs))]
      ensures r.Err? ==> c !in registChannelMap && RefusedOnly(old(sessions), c, r.error)
    {
      hide Assignment, Chosen, Granted, Declined, RefusedOnly;
      ghost var before := St();
      if c in registChannelMap {
        sessions := sessions[c := Of(sessions, c).(phase := Assigned(addrs))];
        Kept(cfg, before, c, mac, addrs);
        return Ok(registChannelMap[c]);
      }
      r := AssignVip(c, mac);
      AssignmentOutcome(cfg, before, c, mac, addrs, r);
      if r.Err? {
        Decline(c, r.error);
      } else {
        Grant(c, r.value, addrs, before);
      }
    }

    /** The refusal is answered. */
    method Decline(c: Chan, code: Code)
      requires Of(sessions, c).phase == Idle
      modifies this`sessions, this`behind
      ensures St() == Declined(old(St()), c, code)
      ensures RefusedOnly(old(sessions), c, code)
    {
      var n := Of(sessions, c);
      behind := set x | x in behind && x.0 != c;
      sessions := sessions[c := n.(phase := Idle, link := Refuse(n.link, code))];
    }

    /** The won VIP enters the channel space and the registry. */
    method Grant(c: Chan, vip: Vip, addrs: Addrs, ghost s: State)
      requires bindIPMap == s.bound[vip := c] && St() == s.(bound := bindIPMap)
      modifies this`registChannelMap, this`channelSpace, this`sessions, this`behind
      ensures St() == Granted(s, c, vip, addrs)
      ensures registChannelMap == s.registered[c := vip] && channelSpace == s.space[vip := c]
      ensures sessions == s.sessions[c := At(s, c).(phase := Assigned(addrs))]
    {
      behind := set x | x in behind && x.0 != c && x.1 != vip;
      channelSpace := channelSpace[vip := c];
      registChannelMap := registChannelMap[c := vip];
      sessions := sessions[c := Of(sessions, c).(phase := Assigned(addrs))];
    }

    /** The addresses, the node list, the answer, the online push and one more offline listener. */
    method FinishSession(c: Chan, addrs: Addrs)
      requires Invariant(cfg, St()) && c in registChannelMap && Of(sessions, c).phase == Assigned(addrs)
      modifies this`sessions
      ensures St() == Finish(old(St()), c)
      ensures Of(sessions, c).addrs == addrs
      ensures ToldAll(old(sessions), sessions, registChannelMap.Keys, c, Online(registChannelMap[c], addrs))
      ensures Answered(St(), old(Of(sessions, c)).link.queue, Of(sessions, c).link.queue,
                       Online(registChannelMap[c], addrs))
    {
      hide Entries, Push, Read, Answer, SendAll, Invariant, IsRegistry, ToldAll, Answered;
      ghost var before := St();
      StoringKeeps(cfg, before, c);
      sessions := sessions[c := Of(sessions, c).(addrs := addrs, phase := Listing(Loop(registChannelMap.Keys, {})))];
      var nodes := NodeInfoList();
      ghost var stored := St();
      ghost var sent := SendAnswer(Reading(St(), c, registChannelMap.Keys), c);
      var n, all := Of(sessions, c), Loop(registChannelMap.Keys, {});
      sessions := sessions[c := n.(phase := Announcing(all, true), link := Answer(Read(n.link, nodes)))];
      assert St() == sent;
      LoopIs(St(), c);
      var m := Online(registChannelMap[c], addrs);
      ghost var answered := sessions;
      PushAll(m);
      ghost var told := sessions;
      SendAllTells(answered, registChannelMap.Keys, c, m);
      n := Of(sessions, c);
      sessions := sessions[c := n.(phase := Idle, offlineListeners := n.offlineListeners + 1)];
      BesidesOwn(old(sessions), answered, told, sessions, registChannelMap.Keys, c, m);
      BesidesOwn(stored.sessions, answered, told, sessions, registChannelMap.Keys, c, m);
      AnsweredBy(cfg, before, stored, St(), c, nodes, m);
    }

    method ProcessUpdateNodeInfo(c: Chan, addrs: Addrs)
      requires Valid() && Of(sessions, c).phase == Idle
      modifies this`sessions
      ensures Valid() && St() == NodeUpdate(old(St()), c, addrs)
      ensures Of(sessions, c).addrs == addrs
      ensures c in registChannelMap ==>
        var m := Online(registChannelMap[c], addrs);
        && ToldAll(old(sessions), sessions, registChannelMap.Keys, c, m)
        && Of(sessions, c).link.queue == old(Of(sessions, c)).link.queue + [m]
      ensures c !in registChannelMap ==>
        && (forall d :: d != c ==> Of(sessions, d) == old(Of(sessions, d)))
        && Of(sessions, c).link.queue == old(Of(sessions, c)).link.queue + [Refused(SysError)]
    {
      hide SendAll, Mark, Applied, Reachable, ToldAll;
      NodeUpdateIsReachable(cfg, true, St(), c, addrs);
      ghost var before := St();
      var n := Of(sessions, c).(addrs := addrs);
      if c !in registChannelMap {
        sessions := sessions[c := n.(link := Refuse(n.link, SysError))];
        return;
      }
      sessions := sessions[c := n.(phase := Announcing(Loop(registChannelMap.Keys, {}), false))];
      LoopIs(St(), c);
      ghost var stored := sessions;
      var m := Online(registChannelMap[c], addrs);
      PushAll(m);
      ghost var told := sessions;
      SendAllTells(stored, registChannelMap.Keys, c, m);
      sessions := sessions[c := Of(sessions, c).(phase := Idle)];
      BesidesOwn(old(sessions), stored, told, sessions, registChannelMap.Keys, c, m);
    }

    /** The close listeners one after the other. */
    method Close(c: Chan)
      requires Valid() && Of(sessions, c).phase == Idle
      modifies this
      ensures Valid() && St() == CloseChannel(cfg, old(St()), c) && channelMap == old(channelMap) - {c}
      ensures registChannelMap == old(registChannelMap) - {c}
      ensures c !in old(registChannelMap) ==> channelSpace == old(channelSpace) && bindIPMap == old(bindIPMap)
      ensures c in old(registChannelMap) ==>
        var vip := old(registChannelMap[c]);
        && channelSpace == old(channelSpace) - {vip} && bindIPMap == old(bindIPMap) - {vip}
        && forall d, v :: d in registChannelMap ==>
             (v in Told(St(), d) <==> v in Told(old(St()), d) && v != vip)
    {
      hide SendAll, Push, Reachable, Leave, CloseChannel, Unregister, Release, ClearSpace, Told;
      ghost var before := St();
      CloseIsReachable(cfg, true, before, c);
      ClosesBy(cfg, before, c);
      channelMap := channelMap - {c};
      if c !in registChannelMap {
        sessions := sessions[c := Of(sessions, c).(phase := Phase.Closed)];
        return;
      }
      HoldsAndListens(cfg, true, before, c);
      var vip := registChannelMap[c];
      registChannelMap := registChannelMap - {c};
      bindIPMap := bindIPMap - {vip};
      behind := Cleared(cfg, before, c).behind;
      channelSpace := channelSpace - {vip};
      var left := Of(sessions, c).offlineListeners;
      sessions := sessions[c := Of(sessions, c).(phase := Leaving(vip, left, Loop(registChannelMap.Keys, {})))];
      ghost var cleared := Cleared(cfg, before, c);
      assert St() == cleared;
      while left > 0
        modifies this`sessions
        invariant Leave(St(), c) == Leave(cleared, c)
        invariant Of(sessions, c).phase ==
          if left > 0 then Leaving(vip, left, Loop(registChannelMap.Keys, {})) else Phase.Closed
      {
        ghost var s := St();
        LoopIs(s, c);
        LeaveOnce(s, c);
        PushAll(Offline(vip));
        left := left - 1;
        var p := if left > 0 then Leaving(vip, left, Loop(registChannelMap.Keys, {})) else Phase.Closed;
        sessions := sessions[c := Of(sessions, c).(phase := p)];
      }
      LeaveOnce(St(), c);
      forall d, v | d in registChannelMap
        ensures v in Told(St(), d) <==> v in Told(before, d) && v != vip
      {
        CloseAt(cfg, before, c, d, v);
      }
    }

    /** Where a message for a VIP goes. */
    method GetChannel(vip: Vip) returns (r: Option<Chan>)
      requires Valid()
      ensures r.Some? ==> Held(St(), r.value) == Some(vip) || At(St(), r.value).phase == Released(vip)
      ensures forall c :: c in registChannelMap && registChannelMap[c] == vip ==> r == Some(c)
      ensures Quiet(St()) ==> forall c :: r == Some(c) <==> c in registChannelMap && registChannelMap[c] == vip
    {
      hide Reachable, Invariant, Agree, Replicated;
      r := if vip in channelSpace then Some(channelSpace[vip]) else None;
      SafelyReachable(cfg, St());
      if r.Some? {
        FoundIsHolder(cfg, St(), vip);
      }
      forall c | c in registChannelMap && registChannelMap[c] == vip ensures r == Some(c) {
        HolderIsFound(cfg, St(), c);
      }
    }

    /** channelActive. */
    method Connect(c: Chan, now: int)
      modifies this`channelMap
      ensures channelMap == old(channelMap)[c := now]
    {
      channelMap := channelMap[c := now];
    }

    /** A heartbeat message of a connected channel. */
    method Heart(c: Chan, now: int)
      modifies this`channelMap
      ensures channelMap == if c in old(channelMap) then old(channelMap)[c := now] else old(channelMap)
    {
      if c in channelMap {
        channelMap := channelMap[c := now];
      }
    }

    /** The sweep calls close on exactly the channels silent for longer than the timeout, and forgets them;
        their close listeners run later, on their event loops. */
    method Sweep(now: int, heartTimeout: int) returns (closed: set<Chan>)
      modifies this`channelMap
      ensures closed == set c | c in old(channelMap) && now - old(channelMap)[c] > heartTimeout
      ensures channelMap == old(channelMap) - closed
    {
      var remaining := channelMap.Keys;
      closed := {};
      while remaining != {}
        invariant remaining <= channelMap.Keys
        invariant closed == set c | c in old(channelMap).Keys - remaining && now - old(channelMap)[c] > heartTimeout
        invariant channelMap == old(channelMap) - closed
        decreases remaining
      {
        var channel :| channel in remaining;
        remaining := remaining - {channel};
        if now - channelMap[channel] > heartTimeout {
          WithoutBoth(old(channelMap), closed, channel);
          channelMap := channelMap - {channel};
          closed := closed + {channel};
        }
      }
    }
  }

  lemma WithoutBoth<K, V>(m: map<K, V>, gone: set<K>, k: K)
    ensures m - gone - {k} == m - (gone + {k})
  {
  }

  /** Changes of c alone, before and after, make no difference to the others. */
  lemma BesidesOwn(s: map<Chan, Session>, t: map<Chan, Session>, u: map<Chan, Session>, v: map<Chan, Session>,
                   registered: set<Chan>, c: Chan, m: Message)
    requires forall d :: d != c ==> Of(t, d) == Of(s, d) && Of(v, d) == Of(u, d)
    requires ToldAll(t, u, registered, c, m)
    ensures ToldAll(s, v, registered, c, m)
  {
    hide Of;
  }

  /** The list read is what c has been sent, together with its push. */
  lemma AnsweredBy(cfg: Config, s: State, stored: State, t: State, c: Chan, nodes: Nodes, m: Message)
    requires Invariant(cfg, s) && !At(s, c).phase.Listing? && IsPush(m)
    requires At(stored, c).link == At(s, c).link && IsRegistry(stored, nodes)
    requires t.registered == stored.registered && At(t, c).addrs == At(stored, c).addrs
    requires ToldAll(stored.sessions, t.sessions, t.registered.Keys, c, m)
    requires At(t, c).link == Push(Answer(Read(At(s, c).link, nodes)), m)
    ensures Answered(t, At(s, c).link.queue, At(t, c).link.queue, m)
  {
    hide Mark, Applied, IsRegistry, ToldAll, At, Exclusive, Sound, Tried, Consistent;
    assert Phased(s, c);
    assert At(s, c).link.listed + nodes == nodes;
    StillRegistry(stored, t, c, nodes, m);
  }

  lemma StillRegistry(s: State, t: State, c: Chan, nodes: Nodes, m: Message)
    requires IsRegistry(s, nodes) && t.registered == s.registered && At(t, c).addrs == At(s, c).addrs
    requires ToldAll(s.sessions, t.sessions, t.registered.Keys, c, m)
    ensures IsRegistry(t, nodes)
  {
    assert forall d :: At(t, d).addrs == At(s, d).addrs;
    hide At;
  }

  /** A closing channel after its listeners for the registry, the VIP and the channel space. */
  function Cleared(cfg: Config, s: State, c: Chan): State
    requires c in s.registered
  {
    ClearSpace(Release(cfg, Unregister(s, c), c), c)
  }

  lemma ClosesBy(cfg: Config, s: State, c: Chan)
    ensures c !in s.registered ==>
      CloseChannel(cfg, s, c) == s.(sessions := s.sessions[c := At(s, c).(phase := Phase.Closed)])
    ensures c in s.registered && At(s, c).offlineListeners > 0 ==>
      var (t, n, vip) := (Cleared(cfg, s, c), At(s, c), s.registered[c]);
      && CloseChannel(cfg, s, c) == Leave(t, c)
      && t == State(s.registered - {c}, s.space - {vip}, s.bound - {vip}, t.behind, t.sessions)
      && t.sessions == s.sessions[c :=
        n.(phase := Leaving(vip, n.offlineListeners, Loop((s.registered - {c}).Keys, {})))]
  {
    hide Leave, Passed;
  }

  /** A push loop in one expression. */
  lemma LoopIs(s: State, c: Chan)
    requires Pushing(s, c)
    ensures var (p, sessions) := (At(s, c).phase, SendAll(s.sessions, s.registered.Keys, Pushed(s, c)));
      var n := Of(sessions, c);
      PushLoop(s, c) == s.(sessions := sessions[c :=
        if p.Announcing?
        then n.(phase := Idle, offlineListeners := n.offlineListeners + if p.registers then 1 else 0)
        else n.(phase := if p.left > 1 then Leaving(p.vip, p.left - 1, Start(s)) else Phase.Closed)])
  {
    hide SendAll, Push, Pushed;
    SentAt(s.sessions, s.registered.Keys, Pushed(s, c), c);
  }

  lemma LeaveOnce(s: State, c: Chan)
    ensures At(s, c).phase.Leaving? && At(s, c).phase.left > 0 ==> Leave(s, c) == Leave(PushLoop(s, c), c)
    ensures !At(s, c).phase.Leaving? ==> Leave(s, c) == s
  {
    if At(s, c).phase.Leaving? {
      LeaveLoop(s, c);
    }
    hide PushLoop;
  }

  lemma StoringKeeps(cfg: Config, s: State, c: Chan)
    requires Invariant(cfg, s) && At(s, c).phase.Assigned?
    ensures var t := StoreAddresses(s, c); Exclusive(cfg, t) && AllPhased(t)
  {
    StepKeepsInvariant(cfg, s, SetAddresses(c));
    hide Invariant, StoreAddresses;
    KeptParts(cfg, StoreAddresses(s, c));
  }

  lemma KeptParts(cfg: Config, s: State)
    requires Invariant(cfg, s)
    ensures Exclusive(cfg, s) && AllPhased(s)
  {
  }

  lemma FoundIsHolder(cfg: Config, s: State, vip: Vip)
    requires Invariant(cfg, s) && vip in s.space
    ensures var c := s.space[vip];
      && (Held(s, c) == Some(vip) || At(s, c).phase == Released(vip))
      && (Quiet(s) ==> c in s.registered && s.registered[c] == vip)
  {
    assert Sound(s, vip);
  }

  lemma HolderIsFound(cfg: Config, s: State, c: Chan)
    requires Invariant(cfg, s) && Agree(s) && c in s.registered
    ensures s.registered[c] in s.space && s.space[s.registered[c]] == c
  {
    assert Phased(s, c) && Reached(s, c);
  }

  lemma AssignmentInvariant(cfg: Config, safe: bool, s: State, c: Chan, mac: Mac, addrs: Addrs)
    requires Reachable(cfg, safe, s) && At(s, c).phase == Idle
    ensures Invariant(cfg, Assignment(cfg, s, c, mac, addrs))
  {
    hide Reachable, Settle, Admit, Invariant;
    Extend(cfg, safe, s, Begin(c, mac, addrs));
    SettleIsReachable(cfg, safe, BeginRegist(s, c, mac, addrs), c);
    var t := Settle(cfg, BeginRegist(s, c, mac, addrs), c);
    if At(t, c).phase.Won? {
      AdmitIsReachable(cfg, safe, t, c);
    }
    ReachableInvariant(cfg, safe, Assignment(cfg, s, c, mac, addrs));
  }

  lemma Kept(cfg: Config, s: State, c: Chan, mac: Mac, addrs: Addrs)
    requires c in s.registered
    ensures Assignment(cfg, s, c, mac, addrs) == s.(sessions := s.sessions[c := At(s, c).(phase := Assigned(addrs))])
  {
  }

  function Granted(s: State, c: Chan, vip: Vip, addrs: Addrs): State {
    State(s.registered[c := vip], s.space[vip := c], s.bound[vip := c],
          (set x | x in s.behind && x.0 != c && x.1 != vip), s.sessions[c := At(s, c).(phase := Assigned(addrs))])
  }

  function Declined(s: State, c: Chan, code: Code): State {
    var n := At(s, c);
    s.(behind := (set x | x in s.behind && x.0 != c),
       sessions := s.sessions[c := n.(phase := Idle, link := Refuse(n.link, code))])
  }

  lemma Admission(s: State, c: Chan, mac: Mac, addrs: Addrs, vip: Vip)
    requires c !in s.registered
    ensures Admit(Bind(BeginRegist(s, c, mac, addrs), c, vip, addrs), c) == Granted(s, c, vip, addrs)
  {
    var t := BeginRegist(s, c, mac, addrs);
    assert (set x | x in t.behind && x.1 != vip) == set x | x in s.behind && x.0 != c && x.1 != vip;
  }

  lemma Refusal(s: State, c: Chan, mac: Mac, addrs: Addrs, code: Code)
    requires c !in s.registered
    ensures Fail(BeginRegist(s, c, mac, addrs), c, code) == Declined(s, c, code)
  {
    hide Refuse;
  }

  /** The outcome of assignVip decides the assignment. */
  lemma AssignmentOutcome(cfg: Config, s: State, c: Chan, mac: Mac, addrs: Addrs, r: Result<Vip, Code>)
    requires c !in s.registered
    requires Chosen(cfg, s.bound, mac, r)
    ensures var t := Assignment(cfg, s, c, mac, addrs);
      if r.Ok? then t == Granted(s, c, r.value, addrs) else t == Declined(s, c, r.error)
  {
    if r.Ok? {
      Admission(s, c, mac, addrs, r.value);
    } else {
      Refusal(s, c, mac, addrs, r.error);
    }
    hide Settle, Bind, Fail, Admit;
    var t := BeginRegist(s, c, mac, addrs);
    assert t.bound == s.bound && At(t, c).phase == Assigning(mac, addrs, 0);
    Ended(t, c, if r.Ok? then r.value else Vip(""), addrs, if r.Err? then r.error else SysError);
    if mac in cfg.fixedVips {
      SettleFixed(cfg, t, c);
    } else if r.Ok? {
      var i :| 0 <= i < |cfg.pool| && cfg.pool[i] == r.value && FullUpTo(cfg, s.bound, i);
      SettleLoop(cfg, t, c, i);
    } else {
      SettleLoop(cfg, t, c, |cfg.pool|);
    }
  }

  /** The loop's map is the registry. */
  lemma RegistryIsEntries(cfg: Config, s: State, nodes: Nodes)
    requires Exclusive(cfg, s) && AllPhased(s)
    requires nodes.Keys == set c | c in s.registered.Keys :: s.registered[c]
    requires forall c :: c in s.registered ==> nodes[s.registered[c]] == At(s, c).addrs
    ensures nodes == Entries(s, s.registered.Keys) && IsRegistry(s, nodes)
  {
    hide At, Exclusive, AllPhased;
    forall c | c in s.registered ensures Live(s, s.registered[c]) && s.bound[s.registered[c]] == c {
      HolderIsBound(cfg, s, c);
    }
    assert forall vip :: vip in nodes <==> vip in Entries(s, s.registered.Keys);
  }

  lemma HolderIsBound(cfg: Config, s: State, c: Chan)
    requires Exclusive(cfg, s) && AllPhased(s) && c in s.registered
    ensures Live(s, s.registered[c]) && s.bound[s.registered[c]] == c
  {
    assert Phased(s, c) && HeldIsBound(s, c);
  }
}
