/**
 What the lockstep of two honest sessions promises over whole runs: delivery with the exact condition for it,
 conservation of keys, and recovery from the skip limit.
 */
module Delivery {
  import opened Wrappers
  import opened SymbolicCrypto
  import opened MessageHeader
  import opened SessionSpec
  import opened SkipLimits
  import opened SessionRuns
  import opened HostileNetwork
  import opened KeySchedule
  import opened Lockstep

  // ---------- Honest runs ----------

  /** The initiator owns the odd keys of the schedule and the responder the even ones; each is at its latest. */
  function EpochOf(sys: System, who: Party): int {
    if who == Alice then 2 * |sys.alice.own| - 1 else 2 * |sys.bob.own| - 2
  }

  ghost predicate InLockstep(secret: Bytes, sys: System) {
    && HasKeys(sys)
    && Linked(secret, sys.keys, EpochOf(sys, Alice), sys.alice, EpochOf(sys, Bob), sys.bob)
  }

  function Deliver(sys: System, who: Party, n: nat, drawn: Secret): Action
    requires n < |At(sys, Other(who)).sent|
  {
    var m := At(sys, Other(who)).sent[n];
    Action(who, Decrypt(m.header, m.encrypted, drawn))
  }

  predicate Undelivered(sys: System, who: Party, n: nat) {
    && n < |At(sys, Other(who)).sent|
    && Id(At(sys, Other(who)).sent[n].header) !in Delivered(At(sys, who).accepted)
  }

  /**
   An honest network delivers only what the peer sent, in any order and losing anything, and nothing that was already
   accepted; a message that met the skip limit may be offered again.
   */
  ghost predicate HonestMay(sys: System, a: Action) {
    a.call.Decrypt? ==>
      && a.call.drawn.public !in sys.keys
      && exists n: nat :: Undelivered(sys, a.who, n) && a == Deliver(sys, a.who, n, a.call.drawn)
  }

  ghost predicate HonestRun(sys: System, actions: seq<Action>)
    requires HasKeys(sys)
    decreases |actions|
  {
    actions == [] || (HonestRun(sys, actions[..|actions| - 1])
                      && HonestMay(Run(sys, actions[..|actions| - 1]), actions[|actions| - 1]))
  }

  /** Two sessions just set up, with a signed pre-key whose halves belong together, are in lockstep. */
  lemma StartInLockstep(secret: Bytes, spk: SignedPreKey, drawn: Secret)
    requires spk.secret.public == spk.public && drawn.public != spk.public
    ensures InLockstep(secret, Start(secret, spk, drawn))
  {
    var sys := Start(secret, spk, drawn);
    assert sys.keys == [spk.public, drawn.public];
    assert RootAt(secret, sys.keys, 0) == secret;
    DhAgrees(spk.public, drawn.public, drawn.public);
    assert spk.secret == Secret(spk.public) && drawn == Secret(drawn.public);
    assert ChainKeyAt(StartOf(secret, sys.keys, 1), 0) == StartOf(secret, sys.keys, 1);
  }

  lemma PartyLinked(secret: Bytes, sys: System, who: Party)
    requires InLockstep(secret, sys)
    ensures HasKeys(sys)
    ensures Linked(secret, sys.keys, EpochOf(sys, who), At(sys, who),
                   EpochOf(sys, Other(who)), At(sys, Other(who)))
  {
  }

  lemma LockstepBasics(secret: Bytes, sys: System, who: Party)
    requires InLockstep(secret, sys)
    ensures HasKeys(sys) && 0 <= EpochOf(sys, who) < |sys.keys| <= EpochOf(sys, who) + 2
  {
  }

  lemma LockstepHistory(secret: Bytes, sys: System, who: Party)
    requires InLockstep(secret, sys)
    ensures HasKeys(sys) && HistoryRight(At(sys, who))
  {
  }

  lemma EncryptStepKeys(sys: System, who: Party, text: Plaintext, nonce: nat)
    requires HasKeys(sys)
    ensures var sys' := Step(sys, Action(who, Encrypt(text, nonce)));
            && At(sys', who) == ActEncrypt(At(sys, who), text, nonce) && At(sys', Other(who)) == At(sys, Other(who))
            && At(sys', who).own == At(sys, who).own && sys'.keys == sys.keys
  {
  }

  lemma LinkedIsLockstep(secret: Bytes, sys: System, who: Party)
    requires HasKeys(sys)
    requires Linked(secret, sys.keys, EpochOf(sys, who), At(sys, who), EpochOf(sys, Other(who)), At(sys, Other(who)))
    ensures InLockstep(secret, sys)
  {
  }

  lemma SendKeepsLockstep(secret: Bytes, sys: System, who: Party, text: Plaintext, nonce: nat)
    requires InLockstep(secret, sys)
    ensures InLockstep(secret, Step(sys, Action(who, Encrypt(text, nonce))))
  {
    hide InLockstep, Linked, ActEncrypt;
    PartyLinked(secret, sys, who);
    EncryptStepKeys(sys, who, text, nonce);
    SendKeepsLink(secret, sys.keys, EpochOf(sys, who), At(sys, who),
                  EpochOf(sys, Other(who)), At(sys, Other(who)), text, nonce);
    LinkedIsLockstep(secret, Step(sys, Action(who, Encrypt(text, nonce))), who);
  }

  /** What a delivery does to the system: one party decrypts, and the schedule grows if it ratcheted. */
  lemma DeliverStep(sys: System, who: Party, n: nat, drawn: Secret)
    requires HasKeys(sys) && n < |At(sys, Other(who)).sent|
    ensures var m := At(sys, Other(who)).sent[n];
            var sys' := Step(sys, Deliver(sys, who, n, drawn));
            var p' := ActDecrypt(At(sys, who), m.header, m.encrypted, drawn);
            && At(sys', who) == p' && At(sys', Other(who)) == At(sys, Other(who))
            && sys'.keys == if p'.own == At(sys, who).own then sys.keys else sys.keys + [drawn.public]
  {
  }

  lemma DeliverKeepsLockstep(secret: Bytes, sys: System, who: Party, n: nat, drawn: Secret)
    requires InLockstep(secret, sys)
    requires Undelivered(sys, who, n) && drawn.public !in sys.keys
    ensures var sys' := Step(sys, Deliver(sys, who, n, drawn));
            InLockstep(secret, sys') && DeliveryOutcome(At(sys, who), At(sys', who), At(sys, Other(who)).sent[n])
  {
    hide Linked, InLockstep, DeliveryOutcome, Step, Act, ActDecrypt;
    PartyLinked(secret, sys, who);
    DeliveryKeepsLink(secret, sys.keys, EpochOf(sys, who), At(sys, who),
                      EpochOf(sys, Other(who)), At(sys, Other(who)), n, drawn);
    DeliverStep(sys, who, n, drawn);
    LinkedIsLockstep(secret, Step(sys, Deliver(sys, who, n, drawn)), who);
  }

  /**
   Lockstep, over every honest run: the epochs are one apart, both sessions hold exactly the schedule's keys for
   theirs, and on every incoming chain the derived numbers are the delivered and the stored ones, each once.
   */
  lemma {:induction false} RunsInLockstep(secret: Bytes, sys: System, actions: seq<Action>)
    requires InLockstep(secret, sys) && HonestRun(sys, actions)
    ensures InLockstep(secret, Run(sys, actions))
    decreases |actions|
  {
    if actions != [] {
      RunsInLockstep(secret, sys, actions[..|actions| - 1]);
      var mid, a := Run(sys, actions[..|actions| - 1]), actions[|actions| - 1];
      match a.call
      case Encrypt(text, nonce) => SendKeepsLockstep(secret, mid, a.who, text, nonce);
      case Decrypt(_, _, drawn) =>
        var n: nat :| Undelivered(mid, a.who, n) && a == Deliver(mid, a.who, n, drawn);
        DeliverKeepsLockstep(secret, mid, a.who, n, drawn);
    }
  }

  /** An honest run is a hostile one that does no harm, whatever the network knows, and draws fresh keys. */
  lemma {:induction false} HonestIsHostile(net: Knowledge, sys: System, actions: seq<Action>)
    requires HasKeys(sys) && HonestRun(sys, actions)
    ensures HostileRun(net, sys, actions) && FreshActions(sys, actions)
    decreases |actions|
  {
    if actions != [] {
      HonestIsHostile(net, sys, actions[..|actions| - 1]);
      var mid, a := Run(sys, actions[..|actions| - 1]), actions[|actions| - 1];
      if a.call.Decrypt? {
        CanPresent(net, mid, Other(a.who), Text(""), 0, [], "");
      }
    }
  }

  /** An honest network is a harmless one: nothing is accepted that the peer did not send, and no key is used twice. */
  lemma {:induction false} HonestRunsGuarded(secret: Bytes, sys: System, actions: seq<Action>)
    requires HasKeys(sys) && Guarded(secret, sys) && HonestRun(sys, actions)
    ensures Guarded(secret, Run(sys, actions))
    decreases |actions|
  {
    hide Guarded;
    if actions != [] {
      HonestRunsGuarded(secret, sys, actions[..|actions| - 1]);
      var mid, a := Run(sys, actions[..|actions| - 1]), actions[|actions| - 1];
      if a.call.Decrypt? {
        var n: nat :| Undelivered(mid, a.who, n) && a == Deliver(mid, a.who, n, a.call.drawn);
        assert WasSent(At(mid, Other(a.who)).sent, a.call.encrypted.ciphertext);
      }
      StepGuarded(secret, mid, a);
    }
  }

  // ---------- Delivery, exactly ----------

  lemma DeliveryExactlyNow(secret: Bytes, sys: System, who: Party, n: nat, drawn: Secret)
    requires InLockstep(secret, sys) && Undelivered(sys, who, n) && drawn.public !in sys.keys
    ensures var m := At(sys, Other(who)).sent[n];
            var s := At(sys, who).state;
            DecryptStep(s, m.header, m.encrypted, drawn).outcome
              == if Fits(s, m.header) then Ok(m.plaintext) else Err(SkipLimit)
  {
    hide InLockstep, Linked, DeliveredRight, DecryptStep;
    PartyLinked(secret, sys, who);
    DeliveryReceives(secret, sys.keys, EpochOf(sys, who), At(sys, who),
                     EpochOf(sys, Other(who)), At(sys, Other(who)), n, drawn);
  }

  /** A message offered now gives exactly its plaintext if the keys to store fit, and else the skip-limit error. */
  predicate OutcomeRight(sys: System, who: Party, n: nat, drawn: Secret)
    requires n < |At(sys, Other(who)).sent|
  {
    var m := At(sys, Other(who)).sent[n];
    var s := At(sys, who).state;
    DecryptStep(s, m.header, m.encrypted, drawn).outcome
      == if Fits(s, m.header) then Ok(m.plaintext) else Err(SkipLimit)
  }

  ghost predicate ReadsAll(sys: System) {
    forall who, n: nat, drawn: Secret :: Undelivered(sys, who, n) && drawn.public !in sys.keys ==>
      OutcomeRight(sys, who, n, drawn)
  }

  /** The delivery guarantee: now and after every honest run from here, in both directions, every message is read. */
  ghost predicate Delivers(sys: System)
    requires HasKeys(sys)
  {
    forall actions :: HonestRun(sys, actions) ==> ReadsAll(Run(sys, actions))
  }

  lemma LockstepDelivers(secret: Bytes, sys: System)
    requires InLockstep(secret, sys)
    ensures HasKeys(sys) && Delivers(sys)
  {
    hide InLockstep, DecryptStep;
    LockstepBasics(secret, sys, Alice);
    forall actions, who, n: nat, drawn: Secret |
      HonestRun(sys, actions) && Undelivered(Run(sys, actions), who, n) && drawn.public !in Run(sys, actions).keys
      ensures OutcomeRight(Run(sys, actions), who, n, drawn)
    {
      RunsInLockstep(secret, sys, actions);
      DeliveryExactlyNow(secret, Run(sys, actions), who, n, drawn);
    }
  }

  /**
   Delivery, over every honest run of two sessions just set up: offering a party any message it has not accepted
   yields exactly the plaintext sent if the keys to store fit, and the skip-limit error if they do not; never any
   other error.
   */
  lemma DeliveryExactly(
    secret: Bytes, spk: SignedPreKey, first: Secret, actions: seq<Action>, who: Party, n: nat, drawn: Secret)
    requires spk.secret.public == spk.public && first.public != spk.public
    requires HonestRun(Start(secret, spk, first), actions)
    requires var now := Run(Start(secret, spk, first), actions);
             Undelivered(now, who, n) && drawn.public !in now.keys
    ensures var now := Run(Start(secret, spk, first), actions);
            var m := At(now, Other(who)).sent[n];
            var s := At(now, who).state;
            DecryptStep(s, m.header, m.encrypted, drawn).outcome
              == if Fits(s, m.header) then Ok(m.plaintext) else Err(SkipLimit)
  {
    hide InLockstep, DecryptStep;
    StartInLockstep(secret, spk, first);
    RunsInLockstep(secret, Start(secret, spk, first), actions);
    DeliveryExactlyNow(secret, Run(Start(secret, spk, first), actions), who, n, drawn);
  }

  // ---------- The limit, in numbers ----------

  /** The initiator sends some messages, each a text and a nonce, and nothing else happens. */
  function Sends(texts: seq<(Plaintext, nat)>): (actions: seq<Action>)
    decreases |texts|
  {
    if texts == [] then []
    else
      var (text, nonce) := texts[|texts| - 1];
      Sends(texts[..|texts| - 1]) + [Action(Alice, Encrypt(text, nonce))]
  }

  /** What the initiator's first messages are, and that the responder is as he was. */
  ghost predicate HasSent(sys: System, now: System, texts: seq<(Plaintext, nat)>) {
    && now.bob == sys.bob && now.keys == sys.keys && now.alice.own == sys.alice.own
    && now.alice.state.dhPublic == sys.alice.state.dhPublic && now.alice.state.previousSendingChainLength == 0
    && now.alice.state.sendingChain.Some? && now.alice.state.sendingChain.value.index == |texts|
    && |now.alice.sent| == |texts|
    && forall i :: 0 <= i < |texts| ==>
         && now.alice.sent[i].header == Header(sys.alice.state.dhPublic, i, 0)
         && now.alice.sent[i].plaintext == texts[i].0
  }

  lemma {:induction false} SendsRun(secret: Bytes, spk: SignedPreKey, first: Secret, texts: seq<(Plaintext, nat)>)
    ensures var sys := Start(secret, spk, first);
            HonestRun(sys, Sends(texts)) && HasSent(sys, Run(sys, Sends(texts)), texts)
    decreases |texts|
  {
    var sys := Start(secret, spk, first);
    if texts != [] {
      var shorter := texts[..|texts| - 1];
      var (text, nonce) := texts[|texts| - 1];
      SendsRun(secret, spk, first, shorter);
      var before, a := Sends(shorter), Action(Alice, Encrypt(text, nonce));
      var actions := Sends(texts);
      assert actions[..|actions| - 1] == before && actions[|actions| - 1] == a;
      EncryptStepKeys(Run(sys, before), Alice, text, nonce);
    }
  }

  /**
   Between two sessions just set up, whichever of the initiator's messages arrives first is read if at most 100 come
   before it, and meets the limit if there are more.
   */
  lemma FirstArrival(
    secret: Bytes, spk: SignedPreKey, first: Secret, texts: seq<(Plaintext, nat)>, n: nat, drawn: Secret)
    requires spk.secret.public == spk.public && first.public != spk.public
    requires n < |texts| && drawn.public != spk.public && drawn.public != first.public
    ensures var now := Run(Start(secret, spk, first), Sends(texts));
            && |now.alice.sent| == |texts|
            && DecryptStep(now.bob.state, now.alice.sent[n].header, now.alice.sent[n].encrypted, drawn).outcome
                 == if n <= 100 then Ok(texts[n].0) else Err(SkipLimit)
  {
    hide DecryptStep;
    SendsRun(secret, spk, first, texts);
    var sys, now := Start(secret, spk, first), Run(Start(secret, spk, first), Sends(texts));
    assert Delivered(now.bob.accepted) == {};
    assert Undelivered(now, Bob, n) && drawn.public !in now.keys;
    DeliveryExactly(secret, spk, first, Sends(texts), Bob, n, drawn);
    assert Needed(now.bob.state, now.alice.sent[n].header) == n;
  }

  lemma LockstepReceives(secret: Bytes, sys: System, who: Party)
    requires InLockstep(secret, sys)
    ensures var k := EpochOf(sys, who);
            && 0 <= k < |sys.keys| <= k + 2
            && Receives(secret, sys.keys, k, At(sys, who).state, Delivered(At(sys, who).accepted),
                        At(sys, Other(who)).sent)
            && OnSchedule(secret, sys.keys, k, At(sys, who).state)
  {
  }

  // ---------- Conservation ----------

  /** Nothing is ahead of what the peer has sent: no key stored, and not the chain. */
  ghost predicate Timely(s: State, delivered: set<MessageId>, peerSent: seq<Sent>) {
    && (forall id: MessageId :: id in delivered || id in s.skippedKeys ==>
          id.number < CountOn(peerSent, id.dhPublicKey))
    && (s.receivingChain.Some? && s.remoteDhPublic.Some? ==>
          s.receivingChain.value.index <= CountOn(peerSent, s.remoteDhPublic.value))
  }

  lemma FinishReaches(s: State, h: Header, encrypted: Encrypted, ratcheted: bool, before: nat)
    requires IndexOf(s.receivingChain) <= h.messageNumber
    ensures var d := Finish(s, h, encrypted, ratcheted, before);
            && d.state.remoteDhPublic == s.remoteDhPublic
            && IndexOf(d.state.receivingChain) <= h.messageNumber + 1
            && forall id: MessageId :: id in d.state.skippedKeys ==>
                 id in s.skippedKeys || (id.dhPublicKey == h.dhPublicKey && id.number < h.messageNumber)
  {
    if s.receivingChain.Some? {
      SkipToStores(s.receivingChain.value, h.messageNumber, h.dhPublicKey, s.skippedKeys);
    }
  }

  /** How far a decryption can take the map and the chain, by the numbers in the header. */
  lemma DecryptReaches(s: State, h: Header, encrypted: Encrypted, drawn: Secret)
    requires Id(h) in s.skippedKeys || NeedsRatchet(s, h) || IndexOf(s.receivingChain) <= h.messageNumber
    ensures var d := DecryptStep(s, h, encrypted, drawn);
            && (forall id: MessageId :: id in d.state.skippedKeys ==>
                  || id in s.skippedKeys
                  || (id.dhPublicKey == h.dhPublicKey && id.number < h.messageNumber)
                  || (s.remoteDhPublic == Some(id.dhPublicKey) && NeedsRatchet(s, h)
                      && id.number < h.previousChainLength))
            && d.state.remoteDhPublic == (if d.ratcheted then Some(h.dhPublicKey) else s.remoteDhPublic)
            && IndexOf(d.state.receivingChain) <=
                 if d.ratcheted then h.messageNumber + 1
                 else if NeedsRatchet(s, h) then Max(IndexOf(s.receivingChain), h.previousChainLength)
                 else Max(IndexOf(s.receivingChain), h.messageNumber + 1)
  {
    if Id(h) !in s.skippedKeys {
      if NeedsRatchet(s, h) {
        var (s1, ok) := SkipCurrent(s, h.previousChainLength);
        SkipCurrentGrows(s, h.previousChainLength);
        if s.receivingChain.Some? && s.remoteDhPublic.Some? {
          SkipToStores(s.receivingChain.value, h.previousChainLength, s.remoteDhPublic.value, s.skippedKeys);
        }
        if ok {
          FinishReaches(Ratchet(s1, h.dhPublicKey, drawn), h, encrypted, true,
                        IndexOf(s1.receivingChain) - IndexOf(s.receivingChain));
        }
      } else {
        FinishReaches(s, h, encrypted, false, 0);
      }
    }
  }

  /** An undelivered message of the peer is stored, on a chain after the current one, or not behind the current one. */
  lemma HonestPlace(
    secret: Bytes, keys: seq<PublicKey>, k: nat, s: State, delivered: set<MessageId>, peerSent: seq<Sent>,
    j: nat, h: Header, encrypted: Encrypted, text: Plaintext)
    requires k < |keys| && Receives(secret, keys, k, s, delivered, peerSent)
    requires Incoming(k, j) || (j == k + 1 && |keys| == k + 2)
    requires Honest(secret, keys, j, peerSent, h, encrypted, text) && Id(h) !in delivered
    ensures || Id(h) in s.skippedKeys
            || (NeedsRatchet(s, h) && (s.remoteDhPublic.Some? ==>
                                         h.previousChainLength == CountOn(peerSent, s.remoteDhPublic.value)))
            || (!NeedsRatchet(s, h) && IndexOf(s.receivingChain) <= h.messageNumber)
  {
    if Incoming(k, j) {
      LateKeyStored(secret, keys, k, s, delivered, peerSent, j, Id(h));
    }
  }

  lemma KeepsTimely(
    s: State, delivered: set<MessageId>, peerSent: seq<Sent>, h: Header, encrypted: Encrypted, drawn: Secret)
    requires Timely(s, delivered, peerSent) && h.messageNumber < CountOn(peerSent, h.dhPublicKey)
    requires || Id(h) in s.skippedKeys
             || (NeedsRatchet(s, h) && (s.remoteDhPublic.Some? ==>
                                          h.previousChainLength == CountOn(peerSent, s.remoteDhPublic.value)))
             || (!NeedsRatchet(s, h) && IndexOf(s.receivingChain) <= h.messageNumber)
    ensures Timely(DecryptStep(s, h, encrypted, drawn).state, delivered + {Id(h)}, peerSent)
  {
    DecryptReaches(s, h, encrypted, drawn);
    hide DecryptStep;
  }

  lemma DeliveryKeepsTimely(
    secret: Bytes, keys: seq<PublicKey>, k: nat, p: Peer, m: nat, q: Peer, n: nat, drawn: Secret)
    requires Linked(secret, keys, k, p, m, q) && n < |q.sent|
    requires Timely(p.state, Delivered(p.accepted), q.sent) && Id(q.sent[n].header) !in Delivered(p.accepted)
    requires drawn.public !in keys
    ensures var p' := ActDecrypt(p, q.sent[n].header, q.sent[n].encrypted, drawn);
            Timely(p'.state, Delivered(p'.accepted), q.sent)
  {
    hide SendsRight, Receives, DecryptStep;
    var r := q.sent[n];
    SentIsHonest(secret, keys, m, q, n);
    IncomingOrNew(k, m, ChainOf(m, q, r.turn));
    HonestPlace(secret, keys, k, p.state, Delivered(p.accepted), q.sent, ChainOf(m, q, r.turn),
                r.header, r.encrypted, r.plaintext);
    KeepsTimely(p.state, Delivered(p.accepted), q.sent, r.header, r.encrypted, drawn);
    DeliveryReceives(secret, keys, k, p, m, q, n, drawn);
    DeliveryKeepsReceives(secret, keys, k, p, q, r, drawn, DecryptStep(p.state, r.header, r.encrypted, drawn));
    var p' := ActDecrypt(p, r.header, r.encrypted, drawn);
    if p'.accepted != p.accepted {
      DeliveredAppend(p.accepted, p'.accepted[|p.accepted|]);
    }
  }

  lemma SendKeepsTimely(s: State, delivered: set<MessageId>, sent: seq<Sent>, more: Sent)
    requires Timely(s, delivered, sent)
    ensures Timely(s, delivered, sent + [more])
  {
    forall dh {
      CountOnAppend(sent, more, dh);
    }
  }

  ghost predicate BothTimely(sys: System) {
    && Timely(sys.alice.state, Delivered(sys.alice.accepted), sys.bob.sent)
    && Timely(sys.bob.state, Delivered(sys.bob.accepted), sys.alice.sent)
  }

  lemma EncryptKeepsTimely(p: Peer, q: Peer, text: Plaintext, nonce: nat)
    requires |p.own| > 0
    requires Timely(p.state, Delivered(p.accepted), q.sent) && Timely(q.state, Delivered(q.accepted), p.sent)
    ensures var p' := ActEncrypt(p, text, nonce);
            Timely(p'.state, Delivered(p'.accepted), q.sent) && Timely(q.state, Delivered(q.accepted), p'.sent)
  {
    var p' := ActEncrypt(p, text, nonce);
    if p'.sent != p.sent {
      SendKeepsTimely(q.state, Delivered(q.accepted), p.sent, p'.sent[|p.sent|]);
    }
  }

  lemma StepKeepsTimely(secret: Bytes, sys: System, a: Action)
    requires InLockstep(secret, sys) && BothTimely(sys) && HonestMay(sys, a)
    ensures BothTimely(Step(sys, a))
  {
    hide InLockstep, Linked, Timely, ActEncrypt, ActDecrypt, Step;
    LockstepBasics(secret, sys, a.who);
    match a.call
    case Encrypt(text, nonce) =>
      EncryptStepKeys(sys, a.who, text, nonce);
      EncryptKeepsTimely(At(sys, a.who), At(sys, Other(a.who)), text, nonce);
    case Decrypt(_, _, drawn) =>
      var n: nat :| Undelivered(sys, a.who, n) && a == Deliver(sys, a.who, n, drawn);
      PartyLinked(secret, sys, a.who);
      DeliverStep(sys, a.who, n, drawn);
      DeliveryKeepsTimely(secret, sys.keys, EpochOf(sys, a.who), At(sys, a.who),
                          EpochOf(sys, Other(a.who)), At(sys, Other(a.who)), n, drawn);
      DecryptLedger(At(sys, a.who), a.call.header, a.call.encrypted, drawn);
  }

  /** Over every honest run nothing gets ahead of what was sent. */
  lemma {:induction false} RunsTimely(secret: Bytes, sys: System, actions: seq<Action>)
    requires InLockstep(secret, sys) && BothTimely(sys) && HonestRun(sys, actions)
    ensures BothTimely(Run(sys, actions))
    decreases |actions|
  {
    hide InLockstep, BothTimely, HonestMay, Step;
    LockstepBasics(secret, sys, Alice);
    if actions != [] {
      RunsTimely(secret, sys, actions[..|actions| - 1]);
      RunsInLockstep(secret, sys, actions[..|actions| - 1]);
      StepKeepsTimely(secret, Run(sys, actions[..|actions| - 1]), actions[|actions| - 1]);
    }
  }

  lemma ConservedAt(
    secret: Bytes, keys: seq<PublicKey>, k: nat, s: State, delivered: set<MessageId>, peerSent: seq<Sent>,
    j: nat, i: nat)
    requires k < |keys| && Receives(secret, keys, k, s, delivered, peerSent) && Incoming(k, j)
    requires Timely(s, delivered, peerSent)
    ensures var id := MessageId(keys[j], i);
            var derived := if j == k - 1 then IndexOf(s.receivingChain) else CountOn(peerSent, keys[j]);
            && derived <= CountOn(peerSent, keys[j])
            && (i < derived <==> id in delivered || id in s.skippedKeys)
            && !(id in delivered && id in s.skippedKeys)
            && (id in s.skippedKeys ==> s.skippedKeys[id] == MessageKeyAt(StartOf(secret, keys, j), i))
  {
    var id := MessageId(keys[j], i);
    assert Sendable(keys, k, peerSent, j, i) && IsPast(k, s, j, i) ==> Kept(s, delivered, keys[j], i);
    if id in s.skippedKeys {
      assert OnIncoming(keys, k, id, j);
      LateKeyStored(secret, keys, k, s, delivered, peerSent, j, id);
    }
  }

  lemma StartTimely(secret: Bytes, spk: SignedPreKey, drawn: Secret)
    ensures BothTimely(Start(secret, spk, drawn))
  {
  }

  lemma ConservationNow(secret: Bytes, now: System, who: Party, j: nat, i: nat)
    requires InLockstep(secret, now) && BothTimely(now)
    requires 1 <= j && j < EpochOf(now, who) && (EpochOf(now, who) - j) % 2 == 1
    ensures var (p, q, k) := (At(now, who), At(now, Other(who)), EpochOf(now, who));
            && k < |now.keys|
            && (var id := MessageId(now.keys[j], i);
                var derived := if j == k - 1 then IndexOf(p.state.receivingChain) else CountOn(q.sent, now.keys[j]);
                && derived <= CountOn(q.sent, now.keys[j])
                && (i < derived <==> id in Delivered(p.accepted) || id in p.state.skippedKeys)
                && !(id in Delivered(p.accepted) && id in p.state.skippedKeys)
                && (id in p.state.skippedKeys ==>
                      p.state.skippedKeys[id] == MessageKeyAt(StartOf(secret, now.keys, j), i)))
  {
    hide InLockstep, Receives, OnSchedule, Timely, CountOn, StartOf, MessageKeyAt;
    LockstepReceives(secret, now, who);
    ConservedAt(secret, now.keys, EpochOf(now, who), At(now, who).state, Delivered(At(now, who).accepted),
                At(now, Other(who)).sent, j, i);
  }

  /**
   Conservation, over every honest run of two sessions just set up: of each chain of the peer that a party has
   received on, a number is derived exactly if it was delivered or its key is stored, never both, and the stored key
   is the schedule's; all of an old chain is derived, and of the current one what its index says.
   */
  lemma Conservation(
    secret: Bytes, spk: SignedPreKey, first: Secret, actions: seq<Action>, who: Party, j: nat, i: nat)
    requires spk.secret.public == spk.public && first.public != spk.public
    requires HonestRun(Start(secret, spk, first), actions)
    requires 1 <= j && j < EpochOf(Run(Start(secret, spk, first), actions), who)
    requires (EpochOf(Run(Start(secret, spk, first), actions), who) - j) % 2 == 1
    ensures var now := Run(Start(secret, spk, first), actions);
            var (p, q, k) := (At(now, who), At(now, Other(who)), EpochOf(now, who));
            && k < |now.keys|
            && (var id := MessageId(now.keys[j], i);
                var derived := if j == k - 1 then IndexOf(p.state.receivingChain) else CountOn(q.sent, now.keys[j]);
                && derived <= CountOn(q.sent, now.keys[j])
                && (i < derived <==> id in Delivered(p.accepted) || id in p.state.skippedKeys)
                && !(id in Delivered(p.accepted) && id in p.state.skippedKeys)
                && (id in p.state.skippedKeys ==>
                      p.state.skippedKeys[id] == MessageKeyAt(StartOf(secret, now.keys, j), i)))
  {
    hide *;
    StartInLockstep(secret, spk, first);
    StartTimely(secret, spk, first);
    RunsTimely(secret, Start(secret, spk, first), actions);
    RunsInLockstep(secret, Start(secret, spk, first), actions);
    ConservationNow(secret, Run(Start(secret, spk, first), actions), who, j, i);
  }

  // ---------- Recovery from the skip limit ----------

  /** Offers one and the same message again and again, each time with a new key pair in case it ratchets. */
  function Attempts(sys: System, who: Party, n: nat, draws: seq<Secret>): (sys': System)
    requires HasKeys(sys) && n < |At(sys, Other(who)).sent|
    decreases |draws|
  {
    if draws == [] then sys
    else
      var next := Step(sys, Deliver(sys, who, n, draws[0]));
      assert At(next, Other(who)) == At(sys, Other(who));
      Attempts(next, who, n, draws[1..])
  }

  predicate FreshDraws(keys: seq<PublicKey>, draws: seq<Secret>) {
    && (forall i :: 0 <= i < |draws| ==> draws[i].public !in keys)
    && (forall i, j :: 0 <= i < j < |draws| ==> draws[i].public != draws[j].public)
  }

  function MayRatchet(s: State, h: Header): nat {
    if NeedsRatchet(s, h) then 1 else 0
  }

  lemma RemoteKept(s: State, h: Header, encrypted: Encrypted, drawn: Secret)
    ensures var d := DecryptStep(s, h, encrypted, drawn);
            d.state.remoteDhPublic == if d.ratcheted then Some(h.dhPublicKey) else s.remoteDhPublic
  {
    if Id(h) !in s.skippedKeys && NeedsRatchet(s, h) {
      SkipCurrentGrows(s, h.previousChainLength);
    }
  }

  lemma RatchetsOnce(secret: Bytes, sys: System, who: Party, n: nat, drawn: Secret)
    requires InLockstep(secret, sys)
    requires Undelivered(sys, who, n) && drawn.public !in sys.keys
    ensures var sys' := Step(sys, Deliver(sys, who, n, drawn));
            var h := At(sys, Other(who)).sent[n].header;
            && (sys'.keys == sys.keys || sys'.keys == sys.keys + [drawn.public])
            && |sys'.keys| + MayRatchet(At(sys', who).state, h) <= |sys.keys| + MayRatchet(At(sys, who).state, h)
  {
    PartyLinked(secret, sys, who);
    var p, q := At(sys, who), At(sys, Other(who));
    DeliveryReceives(secret, sys.keys, EpochOf(sys, who), p, EpochOf(sys, Other(who)), q, n, drawn);
    RemoteKept(p.state, q.sent[n].header, q.sent[n].encrypted, drawn);
    DeliverStep(sys, who, n, drawn);
  }

  /** The message has been accepted after some failed attempts, at most one of all attempts having ratcheted. */
  ghost predicate Recovered(secret: Bytes, sys: System, sys': System, who: Party, m: Sent, failures: nat) {
    && InLockstep(secret, sys')
    && At(sys', who).accepted
         == At(sys, who).accepted + [Accepted(m.header, m.encrypted, m.plaintext, m.encrypted.ciphertext.key)]
    && At(sys', who).limitErrors == At(sys, who).limitErrors + failures
    && |sys'.keys| <= |sys.keys| + MayRatchet(At(sys, who).state, m.header)
  }

  lemma FailedAttempt(secret: Bytes, sys: System, who: Party, n: nat, draws: seq<Secret>)
    requires InLockstep(secret, sys) && Undelivered(sys, who, n)
    requires |draws| > 0 && FreshDraws(sys.keys, draws)
    ensures var m := At(sys, Other(who)).sent[n];
            var next := Step(sys, Deliver(sys, who, n, draws[0]));
            && At(next, Other(who)) == At(sys, Other(who))
            && ((Recovered(secret, sys, next, who, m, 0) && Fits(At(sys, who).state, m.header))
                || (&& InLockstep(secret, next) && Undelivered(next, who, n) && FreshDraws(next.keys, draws[1..])
                    && !Fits(At(sys, who).state, m.header)
                    && StoppedShort(At(sys, who).state, At(next, who).state, m.header)
                    && At(next, who).accepted == At(sys, who).accepted
                    && At(next, who).limitErrors == At(sys, who).limitErrors + 1
                    && |next.keys| + MayRatchet(At(next, who).state, m.header)
                         <= |sys.keys| + MayRatchet(At(sys, who).state, m.header)))
  {
    hide InLockstep, Act, ActDecrypt, Step;
    LockstepBasics(secret, sys, who);
    DeliverStep(sys, who, n, draws[0]);
    DeliverKeepsLockstep(secret, sys, who, n, draws[0]);
    RatchetsOnce(secret, sys, who, n, draws[0]);
  }

  /** How often a message fails before it gets through: once to fill the map, then once for each key still needed. */
  function Retries(s: State, h: Header): nat {
    if Fits(s, h) then 0 else Needed(s, h) - Max(MAX_SKIP - |s.skippedKeys|, 0)
  }

  /**
   Recovery: a message that meets the skip limit gets through if it is offered again, after exactly `Retries` failures.
   Each stores keys and keeps the lockstep, and at most one of all attempts ratchets.
   */
  lemma {:induction false} Recovery(secret: Bytes, sys: System, who: Party, n: nat, draws: seq<Secret>)
    requires InLockstep(secret, sys) && Undelivered(sys, who, n)
    requires FreshDraws(sys.keys, draws)
    requires |draws| > Retries(At(sys, who).state, At(sys, Other(who)).sent[n].header)
    ensures var m := At(sys, Other(who)).sent[n];
            var failures := Retries(At(sys, who).state, m.header);
            Recovered(secret, sys, Attempts(sys, who, n, draws[..failures + 1]), who, m, failures)
    decreases Needed(At(sys, who).state, At(sys, Other(who)).sent[n].header)
  {
    hide InLockstep, Act, ActDecrypt, Step, Needed;
    LockstepBasics(secret, sys, who);
    var s, h := At(sys, who).state, At(sys, Other(who)).sent[n].header;
    var next := Step(sys, Deliver(sys, who, n, draws[0]));
    FailedAttempt(secret, sys, who, n, draws);
    if Fits(s, h) {
      assert draws[..1] == [draws[0]];
      assert draws[..1][1..] == [];
    } else {
      var more := Retries(At(next, who).state, h);
      assert more + 1 == Retries(s, h);
      Recovery(secret, next, who, n, draws[1..]);
      assert draws[..more + 2][1..] == draws[1..][..more + 1];
    }
  }
}
