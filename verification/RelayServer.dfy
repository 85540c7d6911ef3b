/**
 The relay's two maps: token to client address, and client address to token and last heartbeat. The
 sweep runs on another thread than the requests, one map operation at a time; the clock stands still
 while it runs. Tokens are never generated twice.
 */
module RelayServer {
  import opened Wrappers

  datatype Addr = Addr(text: string)

  datatype Token = Token(text: string)

  datatype Heart = Heart(lastHeartTime: int, token: Token)

  /** The sweep: not running; visiting the entries it has not seen yet; or between its two removals. */
  datatype Sweep =
    | Resting
    | Visiting(todo: set<Addr>)
    | Expired(todo: set<Addr>, addr: Addr, heart: Heart)
    | ClientGone(todo: set<Addr>, addr: Addr, heart: Heart)

  datatype State = State(
    transferMap: map<Token, Addr>,
    clientTokenMap: map<Addr, Heart>,
    issued: map<Token, Addr>,
    clock: int,
    lastSweep: int,
    sweep: Sweep)

  datatype Step =
    | Bind(addr: Addr, generated: Token)
    | Tick(millis: nat)
    | StartSweep
    | Visit(addr: Addr)
    | RemoveClient
    | RemoveToken
    | EndSweep

  /** A server started at time `start`, whose first sweep runs at once. */
  function Initial(start: int): State {
    State(map[], map[], map[], start, start, Resting)
  }

  predicate Enabled(timeout: nat, s: State, step: Step) {
    match step
    case Bind(_, generated) => generated !in s.issued
    case Tick(millis) => s.sweep == Resting && s.clock + millis - s.lastSweep <= 2 * timeout
    case StartSweep => s.sweep == Resting
    case Visit(addr) => s.sweep.Visiting? && addr in s.sweep.todo
    case RemoveClient => s.sweep.Expired?
    case RemoveToken => s.sweep.ClientGone?
    case EndSweep => s.sweep.Visiting? && s.sweep.todo == {}
  }

  /** A known address keeps its token; a new one gets the generated token. */
  function BindClient(s: State, addr: Addr, generated: Token): State {
    if addr in s.clientTokenMap
    then s.(clientTokenMap := s.clientTokenMap[addr := s.clientTokenMap[addr].(lastHeartTime := s.clock)])
    else s.(clientTokenMap := s.clientTokenMap[addr := Heart(s.clock, generated)],
            transferMap := s.transferMap[generated := addr], issued := s.issued[generated := addr])
  }

  function VisitEntry(timeout: nat, s: State, addr: Addr): State
    requires s.sweep.Visiting?
  {
    var todo := s.sweep.todo - {addr};
    if addr in s.clientTokenMap && s.clock - s.clientTokenMap[addr].lastHeartTime > timeout
    then s.(sweep := Expired(todo, addr, s.clientTokenMap[addr]))
    else s.(sweep := Visiting(todo))
  }

  function Next(timeout: nat, s: State, step: Step): State
    requires Enabled(timeout, s, step)
  {
    match step
    case Bind(addr, generated) => BindClient(s, addr, generated)
    case Tick(millis) => s.(clock := s.clock + millis)
    case StartSweep => s.(sweep := Visiting(s.clientTokenMap.Keys))
    case Visit(addr) => VisitEntry(timeout, s, addr)
    case RemoveClient =>
      s.(clientTokenMap := s.clientTokenMap - {s.sweep.addr}, sweep := ClientGone(s.sweep.todo, s.sweep.addr,
          s.sweep.heart))
    case RemoveToken => s.(transferMap := s.transferMap - {s.sweep.heart.token}, sweep := Visiting(s.sweep.todo))
    case EndSweep => s.(sweep := Resting, lastSweep := s.clock)
  }

  function Run(timeout: nat, start: int, steps: seq<Step>): State {
    if steps == [] then Initial(start)
    else
      var (before, step) := (Run(timeout, start, steps[..|steps| - 1]), steps[|steps| - 1]);
      if Enabled(timeout, before, step) then Next(timeout, before, step) else before
  }

  // ----- the maps stay inverse -----

  /** The token whose client entry the sweep has removed already. */
  predicate Dangling(s: State, token: Token) {
    s.sweep.ClientGone? && s.sweep.heart.token == token
  }

  ghost predicate Inverse(s: State) {
    && (forall addr :: addr in s.clientTokenMap ==>
          var token := s.clientTokenMap[addr].token;
          token in s.transferMap && s.transferMap[token] == addr && !Dangling(s, token))
    && (forall token :: token in s.transferMap && !Dangling(s, token) ==>
          var addr := s.transferMap[token];
          addr in s.clientTokenMap && s.clientTokenMap[addr].token == token)
    && (forall token :: token in s.transferMap ==> token in s.issued && s.issued[token] == s.transferMap[token])
    && (s.sweep.Expired? ==>
        s.sweep.addr in s.clientTokenMap && s.clientTokenMap[s.sweep.addr].token == s.sweep.heart.token)
    && (s.sweep.ClientGone? ==>
        s.sweep.heart.token in s.transferMap && s.transferMap[s.sweep.heart.token] == s.sweep.addr)
  }

  lemma BindKeepsInverse(s: State, addr: Addr, generated: Token)
    requires generated !in s.issued && Inverse(s)
    ensures Inverse(BindClient(s, addr, generated))
  {
    if addr in s.clientTokenMap {
      assert BindClient(s, addr, generated).transferMap == s.transferMap;
    }
  }

  lemma VisitKeepsInverse(timeout: nat, s: State, addr: Addr)
    requires s.sweep.Visiting? && Inverse(s)
    ensures Inverse(VisitEntry(timeout, s, addr))
  {
  }

  lemma StepKeepsInverse(timeout: nat, s: State, step: Step)
    requires Enabled(timeout, s, step) && Inverse(s)
    ensures Inverse(Next(timeout, s, step))
  {
    match step
    case Bind(addr, generated) => hide BindClient, Inverse; BindKeepsInverse(s, addr, generated);
    case Visit(addr) => hide VisitEntry, Inverse; VisitKeepsInverse(timeout, s, addr);
    case RemoveClient => hide BindClient, VisitEntry;
    case RemoveToken => hide BindClient, VisitEntry;
    case _ => hide BindClient, VisitEntry;
  }

  // ----- entries expire -----

  /** The entries the running sweep has still to judge. */
  predicate Unjudged(s: State, addr: Addr) {
    match s.sweep
    case Resting => false
    case Visiting(todo) => addr in todo
    case Expired(todo, gone, _) => addr in todo || addr == gone
    case ClientGone(todo, _, _) => addr in todo
  }

  /** Entries were renewed within the timeout before the last sweep, and those already judged by a
      running sweep within the timeout before now. */
  ghost predicate Timely(timeout: nat, s: State) {
    && s.lastSweep <= s.clock <= s.lastSweep + 2 * timeout
    && (forall addr :: addr in s.clientTokenMap ==>
          && s.clientTokenMap[addr].lastHeartTime <= s.clock
          && s.lastSweep - s.clientTokenMap[addr].lastHeartTime <= timeout
          && (s.sweep != Resting && !Unjudged(s, addr) ==> s.clock - s.clientTokenMap[addr].lastHeartTime <= timeout))
  }

  lemma BindKeepsTimely(timeout: nat, s: State, addr: Addr, generated: Token)
    requires Timely(timeout, s)
    ensures Timely(timeout, BindClient(s, addr, generated))
  {
  }

  lemma VisitKeepsTimely(timeout: nat, s: State, addr: Addr)
    requires s.sweep.Visiting? && Timely(timeout, s)
    ensures Timely(timeout, VisitEntry(timeout, s, addr))
  {
  }

  lemma StepKeepsTimely(timeout: nat, s: State, step: Step)
    requires Enabled(timeout, s, step) && Timely(timeout, s)
    ensures Timely(timeout, Next(timeout, s, step))
  {
    match step
    case Bind(addr, generated) => hide BindClient, Timely; BindKeepsTimely(timeout, s, addr, generated);
    case Visit(addr) => hide VisitEntry, Timely; VisitKeepsTimely(timeout, s, addr);
    case _ => hide BindClient, VisitEntry;
  }

  lemma {:induction false} RunInvariant(timeout: nat, start: int, steps: seq<Step>)
    ensures Inverse(Run(timeout, start, steps)) && Timely(timeout, Run(timeout, start, steps))
  {
    if steps != [] {
      hide Next, Enabled, Inverse, Timely;
      var (before, step) := (Run(timeout, start, steps[..|steps| - 1]), steps[|steps| - 1]);
      RunInvariant(timeout, start, steps[..|steps| - 1]);
      if Enabled(timeout, before, step) {
        StepKeepsInverse(timeout, before, step);
        StepKeepsTimely(timeout, before, step);
      }
    }
  }

  /** Outside the sweep's two removals the maps are each other's inverse, and a token leads nowhere but
      to the address it was issued to. */
  lemma MapsAreInverse(timeout: nat, start: int, steps: seq<Step>, token: Token, addr: Addr)
    ensures var s := Run(timeout, start, steps);
      && (!s.sweep.ClientGone? ==>
            (token in s.transferMap && s.transferMap[token] == addr
             <==> addr in s.clientTokenMap && s.clientTokenMap[addr].token == token))
      && (token in s.transferMap ==> token in s.issued && s.transferMap[token] == s.issued[token])
  {
    hide Run;
    RunInvariant(timeout, start, steps);
  }

  /** No entry outlives its last heartbeat by more than three timeouts. */
  lemma ExpiresWithinThreeTimeouts(timeout: nat, start: int, steps: seq<Step>, addr: Addr)
    ensures var s := Run(timeout, start, steps);
      addr in s.clientTokenMap ==> s.clock - s.clientTokenMap[addr].lastHeartTime <= 3 * timeout
  {
    hide Run;
    RunInvariant(timeout, start, steps);
  }

  /** A token once issued keeps its address for good. */
  lemma {:induction false} IssuedForGood(timeout: nat, start: int, steps: seq<Step>, k: nat, token: Token)
    requires k <= |steps| && token in Run(timeout, start, steps[..k]).issued
    ensures token in Run(timeout, start, steps).issued
    ensures Run(timeout, start, steps).issued[token] == Run(timeout, start, steps[..k]).issued[token]
    decreases |steps|
  {
    if k == |steps| {
      assert steps[..k] == steps;
    } else {
      var n := |steps| - 1;
      assert steps[..n][..k] == steps[..k];
      IssuedForGood(timeout, start, steps[..n], k, token);
    }
  }

  // ----- a client that keeps binding keeps its token -----

  /** When the address bound last. */
  function LastBind(timeout: nat, start: int, steps: seq<Step>, addr: Addr): int {
    if steps == [] then start
    else
      var (n, step) := (|steps| - 1, steps[|steps| - 1]);
      if step.Bind? && step.addr == addr && Enabled(timeout, Run(timeout, start, steps[..n]), step)
      then Run(timeout, start, steps[..n]).clock
      else LastBind(timeout, start, steps[..n], addr)
  }

  /** From the k-th step on the address never goes longer than the timeout without binding. */
  ghost predicate KeepsBinding(timeout: nat, start: int, steps: seq<Step>, addr: Addr, k: nat) {
    forall j :: k <= j <= |steps| ==>
      Run(timeout, start, steps[..j]).clock - LastBind(timeout, start, steps[..j], addr) <= timeout
  }

  predicate Bound(s: State, addr: Addr, token: Token, last: int) {
    && addr in s.clientTokenMap && s.clientTokenMap[addr] == Heart(last, token)
    && !(s.sweep.Expired? && s.sweep.addr == addr)
  }

  lemma StepKeepsBound(timeout: nat, s: State, step: Step, addr: Addr, token: Token, last: int)
    requires Enabled(timeout, s, step) && Bound(s, addr, token, last) && s.clock - last <= timeout
    ensures Bound(Next(timeout, s, step), addr, token, if step.Bind? && step.addr == addr then s.clock else last)
  {
  }

  /** A client that binds first with step k and then at least once per timeout keeps its token. */
  lemma {:induction false} KeepsToken(timeout: nat, start: int, steps: seq<Step>, addr: Addr, k: nat)
    requires 0 < k <= |steps| && steps[k - 1].Bind? && steps[k - 1].addr == addr
    requires Enabled(timeout, Run(timeout, start, steps[..k - 1]), steps[k - 1])
    requires addr !in Run(timeout, start, steps[..k - 1]).clientTokenMap
    requires KeepsBinding(timeout, start, steps, addr, k)
    ensures Bound(Run(timeout, start, steps), addr, steps[k - 1].generated, LastBind(timeout, start, steps, addr))
    decreases |steps|
  {
    hide Next, Enabled, Bound;
    var (n, step) := (|steps| - 1, steps[|steps| - 1]);
    var before := Run(timeout, start, steps[..n]);
    if k == |steps| {
      FirstBind(timeout, before, addr, step.generated);
      RunInvariant(timeout, start, steps[..n]);
    } else {
      assert steps[..n][..k - 1] == steps[..k - 1];
      forall j | k <= j <= n
        ensures Run(timeout, start, steps[..n][..j]).clock - LastBind(timeout, start, steps[..n][..j], addr) <= timeout
      {
        assert steps[..n][..j] == steps[..j];
      }
      KeepsToken(timeout, start, steps[..n], addr, k);
      if Enabled(timeout, before, step) {
        StepKeepsBound(timeout, before, step, addr, steps[k - 1].generated, LastBind(timeout, start, steps[..n], addr));
      }
    }
  }

  lemma FirstBind(timeout: nat, s: State, addr: Addr, generated: Token)
    requires Enabled(timeout, s, Bind(addr, generated)) && addr !in s.clientTokenMap
    ensures Inverse(s) ==> Bound(Next(timeout, s, Bind(addr, generated)), addr, generated, s.clock)
  {
  }

  // ----- the server -----

  ghost predicate Reachable(timeout: nat, s: State) {
    exists start, steps :: s == Run(timeout, start, steps)
  }

  lemma Extend(timeout: nat, s: State, step: Step)
    requires Reachable(timeout, s) && Enabled(timeout, s, step)
    ensures Reachable(timeout, Next(timeout, s, step))
  {
    hide Next, Enabled;
    var start, steps :| s == Run(timeout, start, steps);
    assert (steps + [step])[..|steps + [step]| - 1] == steps;
    assert Next(timeout, s, step) == Run(timeout, start, steps + [step]);
  }

  lemma ReachableInvariant(timeout: nat, s: State)
    requires Reachable(timeout, s)
    ensures Inverse(s) && Timely(timeout, s)
  {
    hide Run, Inverse, Timely;
    var start, steps :| s == Run(timeout, start, steps);
    RunInvariant(timeout, start, steps);
  }

  // ----- renewing while a sweep runs -----

  /** What follows a state while the clock stands still. */
  function Onward(timeout: nat, s: State, steps: seq<Step>): State {
    if steps == [] then s
    else
      var (before, step) := (Onward(timeout, s, steps[..|steps| - 1]), steps[|steps| - 1]);
      if !step.Tick? && Enabled(timeout, before, step) then Next(timeout, before, step) else before
  }

  /** The sweep has judged the address expired and is about to remove it. */
  predicate Doomed(s: State, addr: Addr) {
    s.sweep.Expired? && s.sweep.addr == addr
  }

  lemma {:induction false} StaysBound(timeout: nat, s: State, steps: seq<Step>, addr: Addr, token: Token)
    requires Bound(s, addr, token, s.clock) && Inverse(s)
    ensures var t := Onward(timeout, s, steps);
      Bound(t, addr, token, s.clock) && Inverse(t) && t.clock == s.clock
  {
    if steps != [] {
      hide Bound, Inverse;
      var (before, step) := (Onward(timeout, s, steps[..|steps| - 1]), steps[|steps| - 1]);
      StaysBound(timeout, s, steps[..|steps| - 1], addr, token);
      if !step.Tick? && Enabled(timeout, before, step) {
        StepKeepsBound(timeout, before, step, addr, token, s.clock);
        StepKeepsInverse(timeout, before, step);
      }
    }
  }

  /** The token answered to a binding leads back to the client however requests and sweep go on at that
      time, if and only if the sweep has not judged the address expired already. */
  lemma RenewalHoldsIff(timeout: nat, s: State, addr: Addr, generated: Token)
    requires Inverse(s) && Enabled(timeout, s, Bind(addr, generated))
    ensures var t := BindClient(s, addr, generated);
      var token := t.clientTokenMap[addr].token;
      (forall steps :: Leads(Onward(timeout, t, steps), token, addr)) <==> !Doomed(s, addr)
  {
    var t := BindClient(s, addr, generated);
    var token := t.clientTokenMap[addr].token;
    BindKeepsInverse(s, addr, generated);
    if Doomed(s, addr) {
      Swept(timeout, t);
      assert !Leads(Onward(timeout, t, [RemoveClient, RemoveToken]), token, addr);
    } else {
      assert Bound(t, addr, token, t.clock);
      forall steps ensures Leads(Onward(timeout, t, steps), token, addr) {
        StaysBound(timeout, t, steps, addr, token);
        hide BindClient, Onward;
      }
    }
  }

  predicate Leads(s: State, token: Token, addr: Addr) {
    token in s.transferMap && s.transferMap[token] == addr
  }

  lemma Swept(timeout: nat, s: State)
    requires s.sweep.Expired?
    ensures var t := Onward(timeout, s, [RemoveClient, RemoveToken]);
      s.sweep.addr !in t.clientTokenMap && s.sweep.heart.token !in t.transferMap
  {
    assert [RemoveClient, RemoveToken][..1] == [RemoveClient];
    assert [RemoveClient][..0] == [];
    assert Onward(timeout, s, [RemoveClient]) == Next(timeout, s, RemoveClient);
  }

  /** It happens: a client silent for longer than the timeout is judged by the sweep, binds again, is answered
      its old token, and loses it to the same sweep. */
  lemma RenewedTooLate(timeout: nat, start: int, addr: Addr, token: Token, generated: Token)
      returns (s: State, t: State)
    requires timeout > 0 && token != generated
    ensures Reachable(timeout, s) && Doomed(s, addr) && Enabled(timeout, s, Bind(addr, generated))
    ensures Next(timeout, s, Bind(addr, generated)).clientTokenMap[addr] == Heart(s.clock, token)
    ensures t == Onward(timeout, Next(timeout, s, Bind(addr, generated)), [RemoveClient, RemoveToken])
    ensures Reachable(timeout, t) && t.clientTokenMap == map[] && t.transferMap == map[] && t.clock == s.clock
  {
    hide Reachable;
    s := Initial(start);
    InitialIsReachable(timeout, start);
    Extend(timeout, s, Bind(addr, token));
    s := Next(timeout, s, Bind(addr, token));
    Extend(timeout, s, Tick(timeout + 1));
    s := Next(timeout, s, Tick(timeout + 1));
    Extend(timeout, s, StartSweep);
    s := Next(timeout, s, StartSweep);
    Extend(timeout, s, Visit(addr));
    s := Next(timeout, s, Visit(addr));
    var renewed := Next(timeout, s, Bind(addr, generated));
    Extend(timeout, s, Bind(addr, generated));
    Extend(timeout, renewed, RemoveClient);
    Extend(timeout, Next(timeout, renewed, RemoveClient), RemoveToken);
    t := Next(timeout, Next(timeout, renewed, RemoveClient), RemoveToken);
    assert [RemoveClient, RemoveToken][..1] == [RemoveClient];
    assert [RemoveClient][..0] == [];
    assert Onward(timeout, renewed, [RemoveClient]) == Next(timeout, renewed, RemoveClient);
  }

  lemma InitialIsReachable(timeout: nat, start: int)
    ensures Reachable(timeout, Initial(start))
  {
    assert Run(timeout, start, []) == Initial(start);
  }

  /** The clock and the sweep's progress are history; requests and sweeps run uninterrupted here. */
  class RelayServer {
    const heartTimeout: nat
    var transferMap: map<Token, Addr>
    var clientTokenMap: map<Addr, Heart>
    ghost var issued: map<Token, Addr>
    ghost var clock: int
    ghost var lastSweep: int
    ghost var sweep: Sweep

    constructor (heartTimeout: nat, ghost start: int)
      ensures this.heartTimeout == heartTimeout && St() == Initial(start) && Valid()
    {
      this.heartTimeout := heartTimeout;
      transferMap, clientTokenMap := map[], map[];
      issued, clock, lastSweep, sweep := map[], start, start, Resting;
      new;
      assert Run(heartTimeout, start, []) == Initial(start);
    }

    ghost function St(): State
      reads this
    {
      State(transferMap, clientTokenMap, issued, clock, lastSweep, sweep)
    }

    ghost predicate Valid()
      reads this
    {
      Reachable(heartTimeout, St()) && sweep == Resting
    }

    /** The token answered is the client's own, and leads back to it. */
    method ProcessBindRelayRequest(addr: Addr, generated: Token, now: int) returns (token: Token)
      requires Valid() && generated !in issued && now == clock
      modifies this
      ensures Valid() && St() == BindClient(old(St()), addr, generated)
      ensures token in transferMap && transferMap[token] == addr
      ensures token == if addr in old(clientTokenMap) then old(clientTokenMap)[addr].token else generated
      ensures clientTokenMap == old(clientTokenMap)[addr := Heart(now, token)]
      ensures transferMap == old(transferMap)[token := addr] && clock == old(clock)
    {
      hide Reachable;
      ReachableInvariant(heartTimeout, St());
      Extend(heartTimeout, St(), Bind(addr, generated));
      if addr !in clientTokenMap {
        transferMap, issued := transferMap[generated := addr], issued[generated := addr];
        clientTokenMap := clientTokenMap[addr := Heart(now, generated)];
      } else {
        clientTokenMap := clientTokenMap[addr := clientTokenMap[addr].(lastHeartTime := now)];
      }
      token := clientTokenMap[addr].token;
    }

    /** processTransfer and processPingRequest: where a message with this token goes, if anywhere. */
    method Forward(token: Token) returns (address: Option<Addr>)
      requires Valid()
      ensures forall addr :: address == Some(addr) <==> addr in clientTokenMap && clientTokenMap[addr].token == token
      ensures address.Some? ==> token in issued && issued[token] == address.value
    {
      hide Reachable;
      ReachableInvariant(heartTimeout, St());
      address := if token in transferMap then Some(transferMap[token]) else None;
    }

    /** Exactly the clients silent for longer than the timeout go, with their tokens. */
    method RunSweep(now: int)
      requires Valid() && now == clock
      modifies this
      ensures Valid() && lastSweep == clock == old(clock) && issued == old(issued)
      ensures clientTokenMap == Kept(heartTimeout, old(clientTokenMap), {}, now)
      ensures transferMap == Leading(old(transferMap), clientTokenMap)
      ensures forall addr :: addr in clientTokenMap <==>
        addr in old(clientTokenMap) && now - old(clientTokenMap)[addr].lastHeartTime <= heartTimeout
      ensures forall addr :: addr in clientTokenMap ==> clientTokenMap[addr] == old(clientTokenMap)[addr]
      ensures forall token :: token in transferMap <==>
        token in old(transferMap) && old(transferMap)[token] in clientTokenMap
    {
      hide Reachable, Inverse, Timely, Kept, Leading, Enabled, Next;
      ReachableInvariant(heartTimeout, St());
      SweepBegins(heartTimeout, St(), now);
      var todo := clientTokenMap.Keys;
      sweep := Visiting(todo);
      while todo != {}
        invariant Reachable(heartTimeout, St()) && sweep == Visiting(todo) && clock == now && issued == old(issued)
        invariant todo <= old(clientTokenMap).Keys
        invariant clientTokenMap == Kept(heartTimeout, old(clientTokenMap), todo, now)
        invariant transferMap == Leading(old(transferMap), clientTokenMap)
        decreases todo
      {
        var addr :| addr in todo;
        KeptEntry(heartTimeout, old(clientTokenMap), todo, addr, now);
        var heart := clientTokenMap[addr];
        todo := todo - {addr};
        VisitReaches(heartTimeout, St(), addr);
        if now - heart.lastHeartTime > heartTimeout {
          LeadingLess(old(St()), clientTokenMap, addr);
          clientTokenMap := clientTokenMap - {addr};
          transferMap := transferMap - {heart.token};
        }
        sweep := Visiting(todo);
      }
      SweepLeaves(heartTimeout, old(clientTokenMap), now, old(transferMap), clientTokenMap);
      SweepEnds(heartTimeout, St());
      sweep, lastSweep := Resting, clock;
    }
  }

  /** The entries a sweep at time `now` leaves, when it has still to visit `todo`. */
  function Kept(timeout: nat, clients: map<Addr, Heart>, todo: set<Addr>, now: int): map<Addr, Heart> {
    map a | a in clients && (a in todo || now - clients[a].lastHeartTime <= timeout) :: clients[a]
  }

  /** The tokens that lead to a known client. */
  function Leading(tokens: map<Token, Addr>, clients: map<Addr, Heart>): map<Token, Addr> {
    map t | t in tokens && tokens[t] in clients :: tokens[t]
  }

  lemma SweepLeaves(timeout: nat, clients: map<Addr, Heart>, now: int, tokens: map<Token, Addr>,
                    left: map<Addr, Heart>)
    requires left == Kept(timeout, clients, {}, now)
    ensures forall a :: a in left <==> a in clients && now - clients[a].lastHeartTime <= timeout
    ensures forall a :: a in left ==> left[a] == clients[a]
    ensures forall t :: t in Leading(tokens, left) <==> t in tokens && tokens[t] in left
  {
  }

  lemma KeptEntry(timeout: nat, clients: map<Addr, Heart>, todo: set<Addr>, addr: Addr, now: int)
    requires addr in todo && todo <= clients.Keys
    ensures var kept := Kept(timeout, clients, todo, now);
      && addr in kept && kept[addr] == clients[addr]
      && Kept(timeout, clients, todo - {addr}, now)
         == if now - clients[addr].lastHeartTime > timeout then kept - {addr} else kept
  {
  }

  lemma LeadingLess(s: State, clients: map<Addr, Heart>, addr: Addr)
    requires Inverse(s) && s.sweep == Resting && addr in clients && addr in s.clientTokenMap &&
        clients[addr] == s.clientTokenMap[addr]
    ensures Leading(s.transferMap, clients - {addr}) == Leading(s.transferMap, clients) - {clients[addr].token}
  {
  }

  lemma SweepBegins(timeout: nat, s: State, now: int)
    requires Reachable(timeout, s) && s.sweep == Resting && Inverse(s)
    ensures Reachable(timeout, s.(sweep := Visiting(s.clientTokenMap.Keys)))
    ensures Kept(timeout, s.clientTokenMap, s.clientTokenMap.Keys, now) == s.clientTokenMap
    ensures Leading(s.transferMap, s.clientTokenMap) == s.transferMap
  {
    hide Reachable;
    Extend(timeout, s, StartSweep);
  }

  lemma SweepEnds(timeout: nat, s: State)
    requires Reachable(timeout, s) && s.sweep == Visiting({})
    ensures Reachable(timeout, s.(sweep := Resting, lastSweep := s.clock))
  {
    hide Reachable;
    Extend(timeout, s, EndSweep);
  }

  /** Visiting an entry, and removing it if it has expired, is a run of the machine. */
  lemma VisitReaches(timeout: nat, s: State, addr: Addr)
    requires Reachable(timeout, s) && s.sweep.Visiting? && addr in s.sweep.todo && addr in s.clientTokenMap
    ensures var (heart, rest) := (s.clientTokenMap[addr], Visiting(s.sweep.todo - {addr}));
      Reachable(timeout, if s.clock - heart.lastHeartTime > timeout
        then s.(clientTokenMap := s.clientTokenMap - {addr}, transferMap := s.transferMap - {heart.token},
            sweep := rest)
        else s.(sweep := rest))
  {
    hide Reachable;
    Extend(timeout, s, Visit(addr));
    var t := VisitEntry(timeout, s, addr);
    if t.sweep.Expired? {
      Extend(timeout, t, RemoveClient);
      Extend(timeout, Next(timeout, t, RemoveClient), RemoveToken);
    }
  }
}
