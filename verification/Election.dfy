/**
 Key agreement of the election: offers and answers between node sessions over a network that may lose, repeat
 and reorder them. Diffie-Hellman and the cipher are parameters with their laws. Offer ids are new.
 */
module Election {
  import opened Names
  import opened Wrappers
  import opened Bytes

  type Session = nat

  datatype PrivateKey = PrivateKey(n: int)

  datatype PublicKey = PublicKey(n: int)

  datatype SecretKey = SecretKey(n: int)

  datatype Crypto = Crypto(
    publicOf: PrivateKey -> PublicKey,
    generate: (PrivateKey, PublicKey) -> SecretKey,
    encrypt: (SecretKey, seq<byte>) -> seq<byte>,
    decrypt: (SecretKey, seq<byte>) -> seq<byte>)

  /** The two ends of an exchange derive one key, and deciphering undoes enciphering. */
  ghost predicate Lawful(c: Crypto) {
    && (forall a, b :: c.generate(a, c.publicOf(b)) == c.generate(b, c.publicOf(a)))
    && (forall k, x :: c.decrypt(k, c.encrypt(k, x)) == x)
  }

  /** A session is one start of a node: its VIP and the key pair generated at that start. */
  datatype Setup = Setup(crypto: Crypto, vipOf: Session -> Vip, keyOf: Session -> PrivateKey)

  datatype Message =
    | Offer(id: Id, srcVIP: Vip, dstVIP: Vip, publicKey: PublicKey)
    | Answer(id: Id, srcVIP: Vip, dstVIP: Vip, publicKey: PublicKey)

  /** Everything ever sent may still arrive, any number of times; `sentBy` remembers who sent it. `offered`
      remembers who made an offer to whom; an offer is pending until it is answered, fails or times out.
      `partners` remembers with whom the key of a transport was agreed. */
  datatype State = State(
    sentBy: map<Message, Session>,
    offered: map<Id, (Session, Vip)>,
    pending: set<Id>,
    keys: map<(Session, Vip), SecretKey>,
    partners: map<(Session, Vip), Session>)

  const INITIAL := State(map[], map[], {}, map[], map[])

  datatype Step =
    | CreateOffer(session: Session, dstVIP: Vip, id: Id)
    | CreateAnswer(session: Session, offer: Message)
    | AcceptAnswer(session: Session, answer: Message)
    | GiveUp(id: Id)
    | DeleteTransport(session: Session, vip: Vip)

  function PublicKeyOf(u: Setup, p: Session): PublicKey {
    u.crypto.publicOf(u.keyOf(p))
  }

  function KeyWith(u: Setup, p: Session, publicKey: PublicKey): SecretKey {
    u.crypto.generate(u.keyOf(p), publicKey)
  }

  function OfferOf(u: Setup, p: Session, dstVIP: Vip, id: Id): Message {
    Offer(id, u.vipOf(p), dstVIP, PublicKeyOf(u, p))
  }

  /** Source and destination change places. */
  function AnswerTo(u: Setup, q: Session, offer: Message): Message {
    Answer(offer.id, offer.dstVIP, offer.srcVIP, PublicKeyOf(u, q))
  }

  predicate Enabled(u: Setup, s: State, step: Step) {
    match step
    case CreateOffer(_, _, id) => id !in s.offered
    case CreateAnswer(q, m) => m in s.sentBy && m.Offer? && m.dstVIP == u.vipOf(q)
    case AcceptAnswer(p, m) =>
      && m in s.sentBy && m.Answer? && m.dstVIP == u.vipOf(p)
      && m.id in s.pending && m.id in s.offered && s.offered[m.id].0 == p
    case GiveUp(id) => id in s.pending
    case DeleteTransport(_, _) => true
  }

  /** p installs a transport to a VIP with the key from a message. */
  function Install(u: Setup, s: State, p: Session, vip: Vip, m: Message): State
    requires m in s.sentBy
  {
    s.(keys := s.keys[(p, vip) := KeyWith(u, p, m.publicKey)], partners := s.partners[(p, vip) := s.sentBy[m]])
  }

  function Next(u: Setup, s: State, step: Step): State
    requires Enabled(u, s, step)
  {
    match step
    case CreateOffer(p, dstVIP, id) =>
      s.(sentBy := s.sentBy[OfferOf(u, p, dstVIP, id) := p], offered := s.offered[id := (p, dstVIP)],
         pending := s.pending + {id})
    case CreateAnswer(q, m) =>
      var t := Install(u, s, q, m.srcVIP, m);
      t.(sentBy := s.sentBy[AnswerTo(u, q, m) := q])
    case AcceptAnswer(p, m) => Install(u, s, p, s.offered[m.id].1, m).(pending := s.pending - {m.id})
    case GiveUp(id) => s.(pending := s.pending - {id})
    case DeleteTransport(p, vip) => s.(keys := s.keys - {(p, vip)}, partners := s.partners - {(p, vip)})
  }

  function Run(u: Setup, steps: seq<Step>): State {
    if steps == [] then INITIAL
    else
      var (before, step) := (Run(u, steps[..|steps| - 1]), steps[|steps| - 1]);
      if Enabled(u, before, step) then Next(u, before, step) else before
  }

  // ----- who is behind a message and behind a key -----

  /** An offer is its sender's; an answer with id r was sent by a session with the VIP offer r was made to. */
  ghost predicate Genuine(u: Setup, s: State, m: Message) {
    m in s.sentBy ==>
      && m.id in s.offered
      && var (p, target) := s.offered[m.id];
      var sender := s.sentBy[m];
      match m
      case Offer(id, _, _, _) => sender == p && m == OfferOf(u, p, target, id)
      case Answer(_, src, dst, publicKey) =>
        src == target && dst == u.vipOf(p) && u.vipOf(sender) == target && publicKey == PublicKeyOf(u, sender)
  }

  /** The key of a transport was agreed with its partner, and the partner has the transport's VIP. */
  ghost predicate Agreed(u: Setup, s: State, p: Session, vip: Vip) {
    && ((p, vip) in s.keys <==> (p, vip) in s.partners)
    && ((p, vip) in s.keys ==>
          var q := s.partners[(p, vip)];
          u.vipOf(q) == vip && s.keys[(p, vip)] == KeyWith(u, p, PublicKeyOf(u, q)))
  }

  ghost predicate Invariant(u: Setup, s: State) {
    && (forall m :: Genuine(u, s, m))
    && (forall p, vip :: Agreed(u, s, p, vip))
  }

  lemma StepKeepsGenuine(u: Setup, s: State, step: Step, m: Message)
    requires Enabled(u, s, step) && Genuine(u, s, m)
    requires step.CreateAnswer? ==> Genuine(u, s, step.offer)
    ensures Genuine(u, Next(u, s, step), m)
  {
    hide PublicKeyOf, KeyWith;
  }

  lemma StepKeepsAgreed(u: Setup, s: State, step: Step, p: Session, vip: Vip)
    requires Enabled(u, s, step) && Agreed(u, s, p, vip)
    requires step.CreateAnswer? ==> Genuine(u, s, step.offer)
    requires step.AcceptAnswer? ==> Genuine(u, s, step.answer)
    ensures Agreed(u, Next(u, s, step), p, vip)
  {
    hide PublicKeyOf, KeyWith;
  }

  lemma StepKeepsInvariant(u: Setup, s: State, step: Step)
    requires Enabled(u, s, step) && Invariant(u, s)
    ensures Invariant(u, Next(u, s, step))
  {
    hide Enabled, Next, Genuine, Agreed;
    assert step.CreateAnswer? ==> Genuine(u, s, step.offer);
    assert step.AcceptAnswer? ==> Genuine(u, s, step.answer);
    forall m ensures Genuine(u, Next(u, s, step), m) {
      assert Genuine(u, s, m);
      StepKeepsGenuine(u, s, step, m);
    }
    forall p, vip ensures Agreed(u, Next(u, s, step), p, vip) {
      assert Agreed(u, s, p, vip);
      StepKeepsAgreed(u, s, step, p, vip);
    }
  }

  lemma {:induction false} RunInvariant(u: Setup, steps: seq<Step>)
    ensures Invariant(u, Run(u, steps))
  {
    if steps != [] {
      hide Enabled, Next, Invariant;
      var (before, step) := (Run(u, steps[..|steps| - 1]), steps[|steps| - 1]);
      RunInvariant(u, steps[..|steps| - 1]);
      if Enabled(u, before, step) {
        StepKeepsInvariant(u, before, step);
      }
    }
  }

  // ----- agreement -----

  /** DataTransport.transfer at p, for a packet to a VIP. */
  function Transfer(u: Setup, s: State, p: Session, to: Vip, data: seq<byte>): Option<seq<byte>> {
    if (p, to) in s.keys then Some(u.crypto.encrypt(s.keys[(p, to)], data)) else None
  }

  /** The Transfer branch at q, for octets whose source VIP attribute says `from`. */
  function Decode(u: Setup, s: State, q: Session, from: Vip, octets: seq<byte>): Option<seq<byte>> {
    if (q, from) in s.keys then Some(u.crypto.decrypt(s.keys[(q, from)], octets)) else None
  }

  /** Both have a transport to the other's VIP. */
  predicate Linked(u: Setup, s: State, p: Session, q: Session) {
    (p, u.vipOf(q)) in s.keys && (q, u.vipOf(p)) in s.keys
  }

  /** Each agreed its key with the other, and not with an earlier or later holder of the other's VIP. */
  predicate Partners(u: Setup, s: State, p: Session, q: Session) {
    && (p, u.vipOf(q)) in s.partners && s.partners[(p, u.vipOf(q))] == q
    && (q, u.vipOf(p)) in s.partners && s.partners[(q, u.vipOf(p))] == p
  }

  /** Different pairs of sessions derive different keys. */
  ghost predicate Separating(u: Setup) {
    forall p, q, r, t ::
      KeyWith(u, p, PublicKeyOf(u, q)) == KeyWith(u, r, PublicKeyOf(u, t)) ==> (p == r && q == t) || (p == t && q == r)
  }

  /** After any run, with nodes restarting and VIPs changing hands in any way: sessions that agreed their
      keys with each other carry one key, and what one sends the other reads. */
  lemma EndsAgree(u: Setup, steps: seq<Step>, p: Session, q: Session, data: seq<byte>)
    requires Lawful(u.crypto) && Partners(u, Run(u, steps), p, q)
    ensures var s := Run(u, steps);
      && Linked(u, s, p, q) && s.keys[(p, u.vipOf(q))] == s.keys[(q, u.vipOf(p))]
      && var key := u.crypto.generate(u.keyOf(p), u.crypto.publicOf(u.keyOf(q)));
      && Transfer(u, s, p, u.vipOf(q), data) == Some(u.crypto.encrypt(key, data))
      && Decode(u, s, q, u.vipOf(p), u.crypto.encrypt(key, data)) == Some(data)
  {
    hide Run;
    RunInvariant(u, steps);
    var s := Run(u, steps);
    assert Agreed(u, s, p, u.vipOf(q)) && Agreed(u, s, q, u.vipOf(p));
  }

  /** And only they do: under a key function that tells pairs of sessions apart, two sessions linked to
      each other's VIPs carry one key if and only if each agreed its key with the other. */
  lemma EndsAgreeIff(u: Setup, steps: seq<Step>, p: Session, q: Session)
    requires Lawful(u.crypto) && Separating(u) && p != q && Linked(u, Run(u, steps), p, q)
    ensures var s := Run(u, steps);
      s.keys[(p, u.vipOf(q))] == s.keys[(q, u.vipOf(p))] <==> Partners(u, s, p, q)
  {
    hide Run, KeyWith, PublicKeyOf;
    RunInvariant(u, steps);
    var s := Run(u, steps);
    assert Agreed(u, s, p, u.vipOf(q)) && Agreed(u, s, q, u.vipOf(p));
    if Partners(u, s, p, q) {
      EndsAgree(u, steps, p, q, []);
    }
  }

  function Pair(x: int, y: int): int {
    var (a, b) := if x <= y then (x, y) else (y, x);
    (a + b) * (a + b) + a
  }

  lemma PairIsUnordered(x: nat, y: nat, u: nat, v: nat)
    requires Pair(x, y) == Pair(u, v)
    ensures (x == u && y == v) || (x == v && y == u)
  {
    var (s, t) := (x + y, u + v);
    if s < t {
      Between(s, t);
      assert false;
    } else if t < s {
      Between(t, s);
      assert false;
    }
  }

  lemma {:induction false} Between(s: nat, t: nat)
    requires s < t
    ensures s * s + s < t * t
    decreases t
  {
    assert t * t == (t - 1) * (t - 1) + 2 * t - 1;
    if s < t - 1 {
      Between(s, t - 1);
    }
  }

  /** There are lawful key functions that tell pairs of sessions apart. */
  lemma SeparatingKeys(vipOf: Session -> Vip) returns (u: Setup)
    ensures Lawful(u.crypto) && Separating(u) && u.vipOf == vipOf
  {
    var crypto := Crypto((a: PrivateKey) => PublicKey(a.n),
                         (a: PrivateKey, b: PublicKey) => SecretKey(Pair(a.n, b.n)),
                         (k: SecretKey, x: seq<byte>) => x, (k: SecretKey, x: seq<byte>) => x);
    u := Setup(crypto, vipOf, (p: Session) => PrivateKey(p));
    forall p, q, r, t | KeyWith(u, p, PublicKeyOf(u, q)) == KeyWith(u, r, PublicKeyOf(u, t))
      ensures (p == r && q == t) || (p == t && q == r)
    {
      PairIsUnordered(p, q, r, t);
    }
  }

  /** No other session ever has p's VIP. */
  ghost predicate OnlySession(u: Setup, p: Session) {
    forall q :: u.vipOf(q) == u.vipOf(p) ==> q == p
  }

  /** Without restarts, sessions linked to each other's VIPs are always partners. */
  lemma LinkedArePartners(u: Setup, steps: seq<Step>, p: Session, q: Session)
    requires OnlySession(u, p) && OnlySession(u, q) && Linked(u, Run(u, steps), p, q)
    ensures Partners(u, Run(u, steps), p, q)
  {
    hide Run;
    RunInvariant(u, steps);
    var s := Run(u, steps);
    assert Agreed(u, s, p, u.vipOf(q)) && Agreed(u, s, q, u.vipOf(p));
  }

  lemma RunSnoc(u: Setup, steps: seq<Step>, step: Step)
    requires Enabled(u, Run(u, steps), step)
    ensures Run(u, steps + [step]) == Next(u, Run(u, steps), step)
  {
    hide Next, Enabled;
    assert (steps + [step])[..|steps + [step]| - 1] == steps;
  }

  /** A session offers, restarts under the same VIP, is elected anew, and only then its first offer arrives.
      The run ends with both linked, the restarted session partner of q, but q partner of the old one: their
      keys differ whenever the key function tells pairs of sessions apart. */
  lemma StaleOfferAfterRestart(u: Setup, first: Session, again: Session, q: Session) returns (steps: seq<Step>)
    requires u.vipOf(first) == u.vipOf(again) && first != again && q != first && q != again
    ensures var s := Run(u, steps);
      && Linked(u, s, again, q) && (again, u.vipOf(q)) in s.partners && (q, u.vipOf(again)) in s.partners
      && s.partners[(again, u.vipOf(q))] == q && s.partners[(q, u.vipOf(again))] == first
      && (Lawful(u.crypto) && Separating(u) ==> s.keys[(again, u.vipOf(q))] != s.keys[(q, u.vipOf(again))])
  {
    var (i, j) := (Id("1"), Id("2"));
    var (stale, renewed) := (OfferOf(u, first, u.vipOf(q), i), OfferOf(u, again, u.vipOf(q), j));
    var answer := AnswerTo(u, q, renewed);
    var s0 := [];
    RunSnoc(u, s0, CreateOffer(first, u.vipOf(q), i));
    var s1 := s0 + [CreateOffer(first, u.vipOf(q), i)];
    RunSnoc(u, s1, CreateOffer(again, u.vipOf(q), j));
    var s2 := s1 + [CreateOffer(again, u.vipOf(q), j)];
    RunSnoc(u, s2, CreateAnswer(q, renewed));
    var s3 := s2 + [CreateAnswer(q, renewed)];
    RunSnoc(u, s3, AcceptAnswer(again, answer));
    var s4 := s3 + [AcceptAnswer(again, answer)];
    RunSnoc(u, s4, CreateAnswer(q, stale));
    steps := s4 + [CreateAnswer(q, stale)];
    hide Run, KeyWith, PublicKeyOf, Separating, Lawful;
    if Lawful(u.crypto) && Separating(u) {
      EndsAgreeIff(u, steps, again, q);
    }
  }

  // ----- one node -----

  /** ICEElectionProtocol of one session, with the keys of its transports. */
  class ICEElectionProtocol {
    const setup: Setup
    const session: Session
    var pendingOffers: map<Id, Vip>
    var secretKeys: map<Vip, SecretKey>

    constructor (setup: Setup, session: Session)
      ensures this.setup == setup && this.session == session && pendingOffers == map[] && secretKeys == map[]
    {
      this.setup, this.session := setup, session;
      pendingOffers, secretKeys := map[], map[];
    }

    /** This session's share of a state of the whole system. */
    ghost predicate Mirrors(s: State)
      reads this
    {
      && (forall vip :: vip in secretKeys <==> (session, vip) in s.keys)
      && (forall vip :: vip in secretKeys ==> secretKeys[vip] == s.keys[(session, vip)])
      && (forall id :: id in pendingOffers <==> id in s.pending && id in s.offered && s.offered[id].0 == session)
      && (forall id :: id in pendingOffers ==> pendingOffers[id] == s.offered[id].1)
    }

    method CreateOffer(dstVIP: Vip, id: Id, ghost s: State) returns (offer: Message)
      requires Mirrors(s) && id !in s.offered
      modifies this`pendingOffers
      ensures Mirrors(Next(setup, s, Step.CreateOffer(session, dstVIP, id)))
      ensures offer == OfferOf(setup, session, dstVIP, id)
      ensures offer == Offer(id, setup.vipOf(session), dstVIP, setup.crypto.publicOf(setup.keyOf(session)))
      ensures pendingOffers == old(pendingOffers)[id := dstVIP]
    {
      offer := Offer(id, setup.vipOf(session), dstVIP, setup.crypto.publicOf(setup.keyOf(session)));
      pendingOffers := pendingOffers[id := dstVIP];
    }

    method CreateAnswer(offer: Message, ghost s: State) returns (answer: Message)
      requires Mirrors(s) && offer in s.sentBy && offer.Offer? && offer.dstVIP == setup.vipOf(session)
      modifies this`secretKeys
      ensures Mirrors(Next(setup, s, Step.CreateAnswer(session, offer)))
      ensures answer == AnswerTo(setup, session, offer)
      ensures answer ==
        Answer(offer.id, offer.dstVIP, offer.srcVIP, setup.crypto.publicOf(setup.keyOf(session)))
      ensures secretKeys ==
        old(secretKeys)[offer.srcVIP := setup.crypto.generate(setup.keyOf(session), offer.publicKey)]
    {
      var secretKey := setup.crypto.generate(setup.keyOf(session), offer.publicKey);
      answer := Answer(offer.id, offer.dstVIP, offer.srcVIP, setup.crypto.publicOf(setup.keyOf(session)));
      secretKeys := secretKeys[offer.srcVIP := secretKey];
    }

    /** The answer's callback; an answer to no pending offer is ignored. */
    method AcceptAnswer(answer: Message, ghost s: State)
      requires Mirrors(s) && answer in s.sentBy && answer.Answer? && answer.dstVIP == setup.vipOf(session)
      modifies this
      ensures var step := Step.AcceptAnswer(session, answer);
        Mirrors(if answer.id in old(pendingOffers) then Next(setup, s, step) else s)
      ensures pendingOffers == old(pendingOffers) - {answer.id}
      ensures secretKeys == if answer.id !in old(pendingOffers) then old(secretKeys) else
        old(secretKeys)[old(pendingOffers)[answer.id] :=
          setup.crypto.generate(setup.keyOf(session), answer.publicKey)]
    {
      if answer.id !in pendingOffers {
        return;
      }
      var vip := pendingOffers[answer.id];
      pendingOffers := pendingOffers - {answer.id};
      secretKeys := secretKeys[vip := setup.crypto.generate(setup.keyOf(session), answer.publicKey)];
    }
  }
}
