/**
 Healing after a compromise, over runs. Someone learns all a session holds, and any Diffie-Hellman secrets besides. Once
 a ratchet happens whose two ends are both unknown to him, every key of a level reached by that ratchet or later stays
 hidden from him, in every run after it; among them the keys of all messages the session sends from then on. So nothing
 he makes is accepted under such a key: what is accepted there was sent by the other party.
 */
module Healing {
  import opened SymbolicCrypto
  import opened MessageHeader
  import opened SessionSpec
  import opened KeyDiscipline
  import opened SessionRuns
  import opened HostileNetwork

  /** A byte string of the level or above cannot be computed. */
  ghost predicate Hidden(known: set<Bytes>, secrets: set<Secret>, level: nat, b: Bytes) {
    Level(b) >= level ==> !Derivable(known, secrets, b)
  }

  ghost predicate Below(known: set<Bytes>, level: nat) {
    forall k :: k in known ==> Level(k) < level
  }

  /** The session has reached the level and is healed from there on. */
  ghost predicate Healed(known: set<Bytes>, secrets: set<Secret>, level: nat, s: State) {
    && Level(s.rootKey) >= level && !Derivable(known, secrets, s.rootKey)
    && (s.sendingChain.Some? ==>
          Level(s.sendingChain.value.key) >= level && !Derivable(known, secrets, s.sendingChain.value.key))
    && (s.receivingChain.Some? ==> Hidden(known, secrets, level, s.receivingChain.value.key))
    && forall id :: id in s.skippedKeys ==> Hidden(known, secrets, level, s.skippedKeys[id])
  }

  lemma {:induction false} SkipStaysHealed(
    known: set<Bytes>, secrets: set<Secret>, level: nat, chain: ChainState, until: nat, dh: PublicKey,
    skipped: SkippedKeys)
    requires Below(known, level) && Hidden(known, secrets, level, chain.key)
    requires forall id :: id in skipped ==> Hidden(known, secrets, level, skipped[id])
    ensures var r := SkipTo(chain, until, dh, skipped);
            && Hidden(known, secrets, level, r.chain.key)
            && forall id :: id in r.skipped ==> Hidden(known, secrets, level, r.skipped[id])
    decreases until - chain.index
  {
    if chain.index < until {
      var (next, messageKey) := Advance(chain);
      var skipped' := skipped[MessageId(dh, chain.index) := messageKey];
      if |skipped'| <= MAX_SKIP {
        SkipStaysHealed(known, secrets, level, next, until, dh, skipped');
      }
    }
  }

  lemma FinishStaysHealed(
    known: set<Bytes>, secrets: set<Secret>, level: nat, s: State,
    h: Header, encrypted: Encrypted, ratcheted: bool, before: nat)
    requires Below(known, level) && Healed(known, secrets, level, s)
    ensures var d := Finish(s, h, encrypted, ratcheted, before);
            && Healed(known, secrets, level, d.state)
            && (d.tried.Some? ==> Hidden(known, secrets, level, d.tried.value))
  {
    if s.receivingChain.Some? {
      SkipStaysHealed(known, secrets, level, s.receivingChain.value, h.messageNumber, h.dhPublicKey, s.skippedKeys);
    }
  }

  /** Later ratchets keep the session healed, whoever knows the keys drawn there. */
  lemma RatchetStaysHealed(
    known: set<Bytes>, secrets: set<Secret>, level: nat, s: State, remote: PublicKey, drawn: Secret)
    requires Below(known, level) && Healed(known, secrets, level, s)
    ensures Healed(known, secrets, level, Ratchet(s, remote, drawn))
  {
    var root := Root(s.rootKey, Dh(s.dhSecret, remote));
    assert Level(root) == Level(s.rootKey) + 1 && !Derivable(known, secrets, root);
  }

  lemma DecryptStaysHealed(
    known: set<Bytes>, secrets: set<Secret>, level: nat, s: State, h: Header, encrypted: Encrypted, drawn: Secret)
    requires Below(known, level) && Healed(known, secrets, level, s)
    ensures var d := DecryptStep(s, h, encrypted, drawn);
            && Healed(known, secrets, level, d.state)
            && (d.tried.Some? ==> Hidden(known, secrets, level, d.tried.value))
  {
    if Id(h) !in s.skippedKeys {
      if NeedsRatchet(s, h) {
        var (s1, ok) := SkipCurrent(s, h.previousChainLength);
        SkipCurrentGrows(s, h.previousChainLength);
        if s.receivingChain.Some? && s.remoteDhPublic.Some? {
          SkipStaysHealed(known, secrets, level, s.receivingChain.value, h.previousChainLength, s.remoteDhPublic.value,
                          s.skippedKeys);
        }
        if ok {
          RatchetStaysHealed(known, secrets, level, s1, h.dhPublicKey, drawn);
          FinishStaysHealed(known, secrets, level, Ratchet(s1, h.dhPublicKey, drawn), h, encrypted, true,
                            IndexOf(s1.receivingChain) - IndexOf(s.receivingChain));
        }
      } else {
        FinishStaysHealed(known, secrets, level, s, h, encrypted, false, 0);
      }
    }
  }

  /** What a healed session uses later, and above all what it sends, is hidden. */
  lemma {:induction false} HealingLasts(
    known: set<Bytes>, secrets: set<Secret>, level: nat, p: Peer, calls: seq<Call>)
    requires |p.own| > 0 && Below(known, level) && Healed(known, secrets, level, p.state)
    ensures var p' := Play(p, calls);
            && Healed(known, secrets, level, p'.state)
            && p.used <= p'.used && p.sent <= p'.sent
            && (forall i :: |p.used| <= i < |p'.used| ==> Hidden(known, secrets, level, p'.used[i]))
            && (forall i :: |p.sent| <= i < |p'.sent| ==> !Derivable(known, secrets, p'.sent[i].key))
    decreases |calls|
  {
    if calls != [] {
      HealingLasts(known, secrets, level, p, calls[..|calls| - 1]);
      var q, call := Play(p, calls[..|calls| - 1]), calls[|calls| - 1];
      if call.Decrypt? {
        DecryptStaysHealed(known, secrets, level, q.state, call.header, call.encrypted, call.drawn);
      }
    }
  }

  // ---------- From a compromise to the ratchet that heals ----------

  lemma {:induction false} RootsRise(p: Peer, calls: seq<Call>)
    requires |p.own| > 0
    ensures Level(p.state.rootKey) <= Level(Play(p, calls).state.rootKey)
    decreases |calls|
  {
    if calls != [] {
      RootsRise(p, calls[..|calls| - 1]);
      var q, call := Play(p, calls[..|calls| - 1]), calls[|calls| - 1];
      if call.Decrypt? {
        DecryptRootSide(q.state, call.header, call.encrypted, call.drawn);
      }
    }
  }

  lemma RatchetHealsAll(
    secret: Bytes, s: State, used: seq<Bytes>, known: set<Bytes>, secrets: set<Secret>,
    remote: PublicKey, drawn: Secret)
    requires Disciplined(secret, s, used) && forall k :: k in known ==> Level(k) <= Level(s.rootKey)
    requires drawn !in secrets && Secret(remote) !in secrets
    ensures Healed(known, secrets, Level(s.rootKey) + 2, Ratchet(s, remote, drawn))
  {
    RootStepHides(known, secrets, Root(s.rootKey, Dh(s.dhSecret, remote)), drawn, remote);
    forall id | id in s.skippedKeys
      ensures Level(s.skippedKeys[id]) <= Level(s.rootKey)
    {
      assert Accounted(secret, s, s.skippedKeys[id]);
    }
  }

  /** The ratchet whose two ends are unknown heals the session that takes it. */
  lemma DecryptHeals(
    secret: Bytes, s: State, used: seq<Bytes>, known: set<Bytes>, secrets: set<Secret>,
    h: Header, encrypted: Encrypted, drawn: Secret)
    requires Disciplined(secret, s, used) && forall k :: k in known ==> Level(k) <= Level(s.rootKey)
    requires DecryptStep(s, h, encrypted, drawn).ratcheted
    requires drawn !in secrets && Secret(h.dhPublicKey) !in secrets
    ensures var s' := DecryptStep(s, h, encrypted, drawn).state;
            var level := Level(s.rootKey) + 2;
            Level(s'.rootKey) == level && Below(known, level) && Healed(known, secrets, level, s')
  {
    hide SkipTo, Finish, Healed, Disciplined;
    var (s1, ok) := SkipCurrent(s, h.previousChainLength);
    SkipCurrentGrows(s, h.previousChainLength);
    DecryptRootSide(s, h, encrypted, drawn);
    if s.receivingChain.Some? && s.remoteDhPublic.Some? {
      SkipKeeps(secret, s, used, s.receivingChain.value, h.previousChainLength, s.remoteDhPublic.value);
    }
    RatchetHealsAll(secret, s1, used, known, secrets, h.dhPublicKey, drawn);
    FinishStaysHealed(known, secrets, Level(s.rootKey) + 2, Ratchet(s1, h.dhPublicKey, drawn), h, encrypted, true,
                      IndexOf(s1.receivingChain) - IndexOf(s.receivingChain));
  }

  /** From what a session held at some point to the ratchet that heals it. */
  lemma PeerHeals(
    secret: Bytes, before: Peer, p: Peer, secrets: set<Secret>, h: Header, encrypted: Encrypted, drawn: Secret)
    requires Sound(secret, before) && Sound(secret, p)
    requires Level(before.state.rootKey) <= Level(p.state.rootKey)
    requires drawn !in secrets && Secret(h.dhPublicKey) !in secrets
    requires DecryptStep(p.state, h, encrypted, drawn).ratcheted
    ensures var (known, level) := (Holdings(before.state), Level(p.state.rootKey) + 2);
            var p' := ActDecrypt(p, h, encrypted, drawn);
            && Below(known, level) && Healed(known, secrets, level, p'.state) && Level(p'.state.rootKey) == level
  {
    hide Healed, Below, DecryptStep, LedgerSound, Holdings;
    HoldingsLieBelow(secret, before.state, before.used);
    DecryptHeals(secret, p.state, p.used, Holdings(before.state), secrets, h, encrypted, drawn);
    DecryptLedger(p, h, encrypted, drawn);
  }

  lemma HealedRoot(known: set<Bytes>, secrets: set<Secret>, level: nat, s: State)
    requires Healed(known, secrets, level, s)
    ensures !Derivable(known, secrets, s.rootKey)
  {
  }

  /**
   Healing: a session is compromised at some point; it runs on; then it ratchets with a new key of its own and a key of
   the other party that are both unknown; and it runs on, anyhow. Every key it uses after that of a level the ratchet
   reached or later, every key it sends under, and its root are hidden for good.
   */
  lemma CompromiseHeals(
    secret: Bytes, p: Peer, secrets: set<Secret>, calls: seq<Call>,
    h: Header, encrypted: Encrypted, drawn: Secret, later: seq<Call>)
    requires |p.own| > 0 && Sound(secret, p)
    requires drawn !in secrets && Secret(h.dhPublicKey) !in secrets
    requires DecryptStep(Play(p, calls).state, h, encrypted, drawn).ratcheted
    ensures var known := Holdings(p.state);
            var healed := ActDecrypt(Play(p, calls), h, encrypted, drawn);
            && |healed.own| > 0
            && (var end := Play(healed, later);
                && !Derivable(known, secrets, end.state.rootKey)
                && healed.used <= end.used && healed.sent <= end.sent
                && (forall i :: |healed.used| <= i < |end.used| && Level(end.used[i]) >= Level(healed.state.rootKey) ==>
                      !Derivable(known, secrets, end.used[i]))
                && (forall i :: |healed.sent| <= i < |end.sent| ==> !Derivable(known, secrets, end.sent[i].key)))
  {
    hide Healed, DecryptStep, ActDecrypt, Sound, Holdings, Play;
    var mid := Play(p, calls);
    RootsRise(p, calls);
    RunsSound(secret, p, calls);
    PeerHeals(secret, p, mid, secrets, h, encrypted, drawn);
    DecryptLedger(mid, h, encrypted, drawn);
    HealingLasts(Holdings(p.state), secrets, Level(mid.state.rootKey) + 2, ActDecrypt(mid, h, encrypted, drawn), later);
    HealedRoot(Holdings(p.state), secrets, Level(mid.state.rootKey) + 2,
               Play(ActDecrypt(mid, h, encrypted, drawn), later).state);
  }

  // ---------- Authenticity after healing ----------

  /** Of what a party has accepted from some point on, what took a key of the level or above was sent by the other. */
  ghost predicate FromPeerSince(p: Peer, q: Peer, since: nat, level: nat) {
    forall i :: since <= i < |p.accepted| && Level(p.accepted[i].key) >= level ==>
      WasSent(q.sent, p.accepted[i].encrypted.ciphertext)
  }

  ghost predicate BothSound(secret: Bytes, sys: System) {
    Sound(secret, sys.alice) && Sound(secret, sys.bob)
  }

  lemma StepSound(secret: Bytes, sys: System, a: Action)
    requires HasKeys(sys) && BothSound(secret, sys)
    ensures BothSound(secret, Step(sys, a))
  {
    ActKeepsSound(secret, At(sys, a.who), a.call);
  }

  /** In any run at all the key discipline holds at both parties. */
  lemma {:induction false} AnyRunSound(secret: Bytes, sys: System, actions: seq<Action>)
    requires HasKeys(sys) && BothSound(secret, sys)
    ensures BothSound(secret, Run(sys, actions))
    decreases |actions|
  {
    if actions != [] {
      AnyRunSound(secret, sys, actions[..|actions| - 1]);
      StepSound(secret, Run(sys, actions[..|actions| - 1]), actions[|actions| - 1]);
    }
  }

  lemma {:induction false} RunRootsRise(sys: System, who: Party, actions: seq<Action>)
    requires HasKeys(sys)
    ensures Level(At(sys, who).state.rootKey) <= Level(At(Run(sys, actions), who).state.rootKey)
    decreases |actions|
  {
    if actions != [] {
      RunRootsRise(sys, who, actions[..|actions| - 1]);
      var mid, a := Run(sys, actions[..|actions| - 1]), actions[|actions| - 1];
      if a.call.Decrypt? {
        DecryptRootSide(At(mid, a.who).state, a.call.header, a.call.encrypted, a.call.drawn);
      }
    }
  }

  /** One decryption of a healed session: if it accepts something under a healed key, the other party sent it. */
  lemma HealedDecryptFromPeer(
    secret: Bytes, net: Knowledge, level: nat, sys: System, who: Party, since: nat, call: Call)
    requires HasKeys(sys) && BothSound(secret, sys) && Below(net.bytes, level) && call.Decrypt?
    requires Healed(net.bytes, net.secrets, level, At(sys, who).state)
    requires Presentable(net, sys, call.encrypted.ciphertext)
    requires FromPeerSince(At(sys, who), At(sys, Other(who)), since, level)
    ensures FromPeerSince(Act(At(sys, who), call), At(sys, Other(who)), since, level)
  {
    var p, q := At(sys, who), At(sys, Other(who));
    var p' := Act(p, call);
    DecryptStaysHealed(net.bytes, net.secrets, level, p.state, call.header, call.encrypted, call.drawn);
    DecryptTries(p.state, call.header, call.encrypted, call.drawn);
    DecryptLedger(p, call.header, call.encrypted, call.drawn);
    ActKeepsSound(secret, p, call);
    if |p'.accepted| > |p.accepted| {
      assert p'.accepted[|p.accepted|].key == call.encrypted.ciphertext.key;
      assert !WasSent(p.sent, call.encrypted.ciphertext);
    }
  }

  lemma SinceGrows(p: Peer, q: Peer, q': Peer, since: nat, level: nat)
    requires FromPeerSince(p, q, since, level) && q.sent <= q'.sent
    ensures FromPeerSince(p, q', since, level)
  {
    forall i | since <= i < |p.accepted| && Level(p.accepted[i].key) >= level
      ensures WasSent(q'.sent, p.accepted[i].encrypted.ciphertext)
    {
      var n :| 0 <= n < |q.sent| && q.sent[n].encrypted.ciphertext == p.accepted[i].encrypted.ciphertext;
      assert q'.sent[n] == q.sent[n];
    }
  }

  lemma EncryptStaysHealed(
    known: set<Bytes>, secrets: set<Secret>, level: nat, p: Peer, text: Plaintext, nonce: nat)
    requires |p.own| > 0 && Below(known, level) && Healed(known, secrets, level, p.state)
    ensures Healed(known, secrets, level, ActEncrypt(p, text, nonce).state)
    ensures ActEncrypt(p, text, nonce).accepted == p.accepted
  {
  }

  lemma SameAccepted(p: Peer, p': Peer, q: Peer, since: nat, level: nat)
    requires FromPeerSince(p, q, since, level) && p'.accepted == p.accepted
    ensures FromPeerSince(p', q, since, level)
  {
  }

  lemma HealedStep(
    secret: Bytes, net: Knowledge, level: nat, sys: System, who: Party, since: nat, a: Action)
    requires HasKeys(sys) && BothSound(secret, sys) && Below(net.bytes, level) && HostileMay(net, sys, a)
    requires Healed(net.bytes, net.secrets, level, At(sys, who).state)
    requires FromPeerSince(At(sys, who), At(sys, Other(who)), since, level)
    ensures var sys' := Step(sys, a);
            && BothSound(secret, sys') && Healed(net.bytes, net.secrets, level, At(sys', who).state)
            && FromPeerSince(At(sys', who), At(sys', Other(who)), since, level)
  {
    hide Sound, Healed, Presentable, ActEncrypt, ActDecrypt, FromPeerSince;
    StepSound(secret, sys, a);
    var p, q := At(sys, who), At(sys, Other(who));
    SentGrows(At(sys, a.who), a.call);
    if a.who != who {
      SinceGrows(p, q, Act(q, a.call), since, level);
    } else {
      match a.call
      case Encrypt(text, nonce) =>
        EncryptStaysHealed(net.bytes, net.secrets, level, p, text, nonce);
        SameAccepted(p, ActEncrypt(p, text, nonce), q, since, level);
      case Decrypt(h, encrypted, drawn) =>
        HealedDecryptFromPeer(secret, net, level, sys, who, since, a.call);
        DecryptStaysHealed(net.bytes, net.secrets, level, p.state, h, encrypted, drawn);
        DecryptLedger(p, h, encrypted, drawn);
    }
  }

  lemma {:induction false} HealedRuns(
    secret: Bytes, net: Knowledge, level: nat, sys: System, who: Party, actions: seq<Action>)
    requires HasKeys(sys) && BothSound(secret, sys) && Below(net.bytes, level)
    requires Healed(net.bytes, net.secrets, level, At(sys, who).state) && HostileRun(net, sys, actions)
    ensures var end := Run(sys, actions);
            && BothSound(secret, end) && Healed(net.bytes, net.secrets, level, At(end, who).state)
            && FromPeerSince(At(end, who), At(end, Other(who)), |At(sys, who).accepted|, level)
    decreases |actions|
  {
    hide BothSound, Healed, Below, HostileMay, Step;
    if actions != [] {
      HealedRuns(secret, net, level, sys, who, actions[..|actions| - 1]);
      HealedStep(secret, net, level, Run(sys, actions[..|actions| - 1]), who, |At(sys, who).accepted|,
                 actions[|actions| - 1]);
    }
  }

  /** The message is one the other party sent: header, ciphertext and plaintext. */
  ghost predicate IsSent(sent: seq<Sent>, m: Accepted) {
    exists n :: 0 <= n < |sent|
      && sent[n].header == m.header && sent[n].encrypted == m.encrypted && sent[n].plaintext == m.plaintext
  }

  /** Of what a party has accepted from some point on, what took a key of the level or above was sent, and once each. */
  ghost predicate AuthenticSince(p: Peer, q: Peer, since: nat, level: nat) {
    && (forall i :: since <= i < |p.accepted| && Level(p.accepted[i].key) >= level ==> IsSent(q.sent, p.accepted[i]))
    && (forall i, j :: 0 <= i < j < |p.accepted| ==> p.accepted[i].key != p.accepted[j].key)
  }

  lemma SealedOnce(p: Peer, q: Peer, i: nat)
    requires LedgerSound(p) && LedgerSound(q) && i < |p.accepted|
    requires WasSent(q.sent, p.accepted[i].encrypted.ciphertext)
    ensures IsSent(q.sent, p.accepted[i])
  {
    var n :| 0 <= n < |q.sent| && q.sent[n].encrypted.ciphertext == p.accepted[i].encrypted.ciphertext;
    ToBytesInjective(q.sent[n].header, p.accepted[i].header);
  }

  lemma StartSound(secret: Bytes, spk: SignedPreKey, first: Secret)
    ensures HasKeys(Start(secret, spk, first)) && BothSound(secret, Start(secret, spk, first))
  {
    StartGuarded(secret, spk, first);
  }

  lemma SoundLedgers(secret: Bytes, sys: System, who: Party)
    requires BothSound(secret, sys)
    ensures Sound(secret, At(sys, who)) && LedgerSound(At(sys, who)) && LedgerSound(At(sys, Other(who)))
    ensures var p := At(sys, who);
            forall i, j :: 0 <= i < j < |p.accepted| ==> p.accepted[i].key != p.accepted[j].key
  {
  }

  lemma DecryptOf(sys: System, who: Party, h: Header, encrypted: Encrypted, drawn: Secret)
    requires HasKeys(sys)
    ensures At(Step(sys, Action(who, Decrypt(h, encrypted, drawn))), who)
         == ActDecrypt(At(sys, who), h, encrypted, drawn)
  {
  }

  /** From a healed state on, what is accepted under healed keys is what the other party sent, each message once. */
  lemma HealedFrom(
    secret: Bytes, net: Knowledge, level: nat, sys: System, who: Party, actions: seq<Action>)
    requires HasKeys(sys) && BothSound(secret, sys) && Below(net.bytes, level)
    requires Healed(net.bytes, net.secrets, level, At(sys, who).state) && HostileRun(net, sys, actions)
    ensures var end := Run(sys, actions);
            AuthenticSince(At(end, who), At(end, Other(who)), |At(sys, who).accepted|, level)
  {
    hide BothSound, Healed, Below, HostileRun, Run, LedgerSound, Sound, IsSent;
    HealedRuns(secret, net, level, sys, who, actions);
    var end := Run(sys, actions);
    SoundLedgers(secret, end, who);
    var p, q := At(end, who), At(end, Other(who));
    forall i | |At(sys, who).accepted| <= i < |p.accepted| && Level(p.accepted[i].key) >= level
      ensures IsSent(q.sent, p.accepted[i])
    {
      SealedOnce(p, q, i);
    }
  }

  /**
   Healing brings authenticity back: after any run of two sessions just set up, a network learns all that one of them
   holds, with any secrets besides. The sessions run on, anyhow; then that session ratchets with a key of its own and
   one of the other party that are both unknown. From then on, whatever the network makes of what it has learned, all
   the session accepts under a key of that level or later was sent by the other party, each message once.
   */
  lemma HealedAgreement(
    secret: Bytes, spk: SignedPreKey, first: Secret, history: seq<Action>, who: Party, secrets: set<Secret>,
    meanwhile: seq<Action>, h: Header, encrypted: Encrypted, drawn: Secret, later: seq<Action>)
    requires drawn !in secrets && Secret(h.dhPublicKey) !in secrets
    requires var mid := Run(Run(Start(secret, spk, first), history), meanwhile);
             DecryptStep(At(mid, who).state, h, encrypted, drawn).ratcheted
    requires var sys := Run(Start(secret, spk, first), history);
             var healed := Step(Run(sys, meanwhile), Action(who, Decrypt(h, encrypted, drawn)));
             HostileRun(Knowledge(Holdings(At(sys, who).state), secrets), healed, later)
    ensures var sys := Run(Start(secret, spk, first), history);
            var healed := Step(Run(sys, meanwhile), Action(who, Decrypt(h, encrypted, drawn)));
            var end := Run(healed, later);
            AuthenticSince(At(end, who), At(end, Other(who)), |At(healed, who).accepted|,
                           Level(At(healed, who).state.rootKey))
  {
    hide BothSound, Healed, Below, Start, DecryptStep, Sound, Act, ActDecrypt, Holdings, HostileRun, AuthenticSince;
    var start := Start(secret, spk, first);
    StartSound(secret, spk, first);
    AnyRunSound(secret, start, history);
    var sys := Run(start, history);
    AnyRunSound(secret, sys, meanwhile);
    var mid, a := Run(sys, meanwhile), Action(who, Decrypt(h, encrypted, drawn));
    RunRootsRise(sys, who, meanwhile);
    SoundLedgers(secret, sys, who);
    SoundLedgers(secret, mid, who);
    PeerHeals(secret, At(sys, who), At(mid, who), secrets, h, encrypted, drawn);
    StepSound(secret, mid, a);
    DecryptOf(mid, who, h, encrypted, drawn);
    var net, level := Knowledge(Holdings(At(sys, who).state), secrets), Level(At(mid, who).state.rootKey) + 2;
    HealedFrom(secret, net, level, Step(mid, a), who, later);
  }
}
