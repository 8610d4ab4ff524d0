/** From key agreement to delivery: what the lockstep of two sessions needs is what X3DH sets up. */
module EndToEnd {
  import opened Wrappers
  import opened SymbolicCrypto
  import opened SessionSpec
  import opened SkipLimits
  import opened SessionRuns
  import opened HostileNetwork
  import opened KeySchedule
  import opened Delivery
  import opened X3dh
  import Session

  /** The bundle is the responder's: his identity key, and a signed pre-key whose two halves belong together. */
  predicate Matches(bundle: PreKeyBundle, bob: IdentityKeyPair, spk: SignedPreKey) {
    bundle.identityKey == bob.secret.public && bundle.signedPreKey == spk.public == spk.secret.public
  }

  /** The bundle he publishes for his own keys does, exactly if they belong together. */
  lemma PublishedMatches(bob: IdentityKeyPair, spk: SignedPreKey, opk: Option<OneTimePreKey>)
    ensures var bundle := PreKeyBundle(bob.secret.public, bob.verifyingKey, spk.public,
                                       Signed(bob.verifyingKey, spk.public), PublicOf(opk));
            Matches(bundle, bob, spk) <==> spk.secret.public == spk.public
  {
  }

  /** The two sessions after the agreement, each built from the secret its own side derived. */
  function Agreed(
    alice: IdentityKeyPair, bundle: PreKeyBundle, ephemeral: Secret, drawn: Secret,
    bob: IdentityKeyPair, spk: SignedPreKey, opk: Option<OneTimePreKey>): System
  {
    System(
      NewAlice(SharedSecret(InitiatorDhs(alice, bundle, ephemeral)), bundle.signedPreKey, drawn),
      NewBob(SharedSecret(ResponderDhs(bob, spk, opk, alice.secret.public, ephemeral.public)), spk),
      [bundle.signedPreKey, drawn.public])
  }

  /** With the same choice of one-time pre-key, with one or without, the sessions start in lockstep. */
  lemma AgreedInLockstep(
    alice: IdentityKeyPair, bundle: PreKeyBundle, ephemeral: Secret, drawn: Secret,
    bob: IdentityKeyPair, spk: SignedPreKey, opk: Option<OneTimePreKey>)
    requires Matches(bundle, bob, spk) && bundle.oneTimePreKey == PublicOf(opk)
    requires drawn.public != spk.public
    ensures var secret := SharedSecret(InitiatorDhs(alice, bundle, ephemeral));
            var sys := Agreed(alice, bundle, ephemeral, drawn, bob, spk, opk);
            sys == Start(secret, spk, drawn) && InLockstep(secret, sys)
  {
    AgreeIff(alice, bundle, ephemeral, bob, spk, opk);
    StartInLockstep(SharedSecret(InitiatorDhs(alice, bundle, ephemeral)), spk, drawn);
  }

  /**
   End to end: after an agreement and any honest run, a message offered to the other side for the first time yields
   exactly its plaintext, or the skip-limit error if the keys it skips do not fit.
   */
  lemma AgreedThenDelivered(
    alice: IdentityKeyPair, bundle: PreKeyBundle, ephemeral: Secret, drawn: Secret,
    bob: IdentityKeyPair, spk: SignedPreKey, opk: Option<OneTimePreKey>,
    actions: seq<Action>, who: Party, n: nat, next: Secret)
    requires Matches(bundle, bob, spk) && bundle.oneTimePreKey == PublicOf(opk)
    requires drawn.public != spk.public
    requires HonestRun(Agreed(alice, bundle, ephemeral, drawn, bob, spk, opk), actions)
    requires var now := Run(Agreed(alice, bundle, ephemeral, drawn, bob, spk, opk), actions);
             Undelivered(now, who, n) && next.public !in now.keys
    ensures var now := Run(Agreed(alice, bundle, ephemeral, drawn, bob, spk, opk), actions);
            var m := At(now, Other(who)).sent[n];
            var s := At(now, who).state;
            DecryptStep(s, m.header, m.encrypted, next).outcome
              == if Fits(s, m.header) then Ok(m.plaintext) else Err(SkipLimit)
  {
    AgreedInLockstep(alice, bundle, ephemeral, drawn, bob, spk, opk);
    DeliveryExactly(SharedSecret(InitiatorDhs(alice, bundle, ephemeral)), spk, drawn, actions, who, n, next);
  }

  /**
   Isolation from key agreement onward: sessions built on two different agreements never accept each other's messages,
   in any two runs and whichever side of its agreement each session is.
   */
  lemma AgreementsIsolated(
    dhs1: seq<DhOutput>, p1: Peer, calls1: seq<Call>, dhs2: seq<DhOutput>, p2: Peer, calls2: seq<Call>)
    requires dhs1 != dhs2
    requires IsNew(SharedSecret(dhs1), p1) && IsNew(SharedSecret(dhs2), p2)
    ensures |p1.own| > 0 && |p2.own| > 0
    ensures var (q1, q2) := (Play(p1, calls1), Play(p2, calls2));
            forall i, j :: 0 <= i < |q1.sent| && 0 <= j < |q2.accepted| ==>
              q1.sent[i].encrypted.ciphertext != q2.accepted[j].encrypted.ciphertext
  {
    AgreementsUnrelated(dhs1, dhs2);
    Isolation(SharedSecret(dhs1), p1, calls1, SharedSecret(dhs2), p2, calls2);
  }

  /** Those who are outside an agreement are exactly those who do not know enough of the secrets that went into it. */
  lemma OutsideIff(
    alice: IdentityKeyPair, bundle: PreKeyBundle, ephemeral: Secret,
    bob: IdentityKeyPair, spk: SignedPreKey, opk: Option<OneTimePreKey>, secrets: set<Secret>)
    requires Matches(bundle, bob, spk) && bundle.oneTimePreKey == PublicOf(opk)
    ensures Outside(Knowledge({}, secrets), SharedSecret(InitiatorDhs(alice, bundle, ephemeral)))
       <==> !KnowsEnough(secrets, alice, ephemeral, bob, spk, opk)
  {
    AgreementSecretIff(alice, bundle, ephemeral, bob, spk, opk, secrets);
  }

  /**
   Authenticity from key agreement onward: against a network that knows any secrets but not enough to compute the
   agreement's, all that a party accepts in any run maps one to one into what the other encrypted.
   */
  lemma AgreedThenAuthentic(
    alice: IdentityKeyPair, bundle: PreKeyBundle, ephemeral: Secret, drawn: Secret,
    bob: IdentityKeyPair, spk: SignedPreKey, opk: Option<OneTimePreKey>,
    secrets: set<Secret>, actions: seq<Action>, who: Party) returns (origin: seq<nat>)
    requires Matches(bundle, bob, spk) && bundle.oneTimePreKey == PublicOf(opk)
    requires drawn.public != spk.public
    requires !KnowsEnough(secrets, alice, ephemeral, bob, spk, opk)
    requires HostileRun(Knowledge({}, secrets), Agreed(alice, bundle, ephemeral, drawn, bob, spk, opk), actions)
    ensures var sys := Run(Agreed(alice, bundle, ephemeral, drawn, bob, spk, opk), actions);
            var (p, q) := (At(sys, who), At(sys, Other(who)));
            Injects(origin, p.accepted, q.sent)
  {
    AgreedInLockstep(alice, bundle, ephemeral, drawn, bob, spk, opk);
    OutsideIff(alice, bundle, ephemeral, bob, spk, opk, secrets);
    origin := Agreement(SharedSecret(InitiatorDhs(alice, bundle, ephemeral)), spk, drawn,
                        Knowledge({}, secrets), actions, who);
  }

  lemma FirstMessageArrives(
    secret: Bytes, spk: SignedPreKey, drawn: Secret, text: Plaintext, nonce: nat, next: Secret)
    requires spk.secret.public == spk.public && drawn.public != spk.public
    requires next.public != spk.public && next.public != drawn.public
    ensures var sys := Start(secret, spk, drawn);
            var e := EncryptStep(sys.alice.state, text, nonce);
            && e.outcome.Ok?
            && DecryptStep(sys.bob.state, e.outcome.value.0, e.outcome.value.1, next).outcome == Ok(text)
  {
    var sys := Start(secret, spk, drawn);
    StartInLockstep(secret, spk, drawn);
    SendKeepsLockstep(secret, sys, Alice, text, nonce);
    var sys' := Step(sys, Action(Alice, Encrypt(text, nonce)));
    assert Delivered(sys'.bob.accepted) == {};
    assert sys'.keys == sys.keys;
    DeliveryExactlyNow(secret, sys', Bob, 0, next);
  }

  /** The same on objects: agreement, two sessions, and a first message that arrives as it was sent. */
  method FirstMessage(
    alice: IdentityKeyPair, bundle: PreKeyBundle, ephemeral: Secret, drawn: Secret,
    bob: IdentityKeyPair, spk: SignedPreKey, opk: Option<OneTimePreKey>,
    text: Plaintext, nonce: nat, next: Secret) returns (received: Result<Plaintext>)
    requires Matches(bundle, bob, spk) && bundle.oneTimePreKey == PublicOf(opk)
    requires drawn.public != spk.public && next.public != spk.public && next.public != drawn.public
    ensures received == if bundle.signature == Signed(bundle.identityVerifyingKey, bundle.signedPreKey)
                        then Ok(text) else Err(InvalidSignature)
  {
    var initiated := Initiate(alice, bundle, ephemeral);
    if initiated.Err? {
      return Err(initiated.error);
    }
    var responded := Respond(bob, spk, opk, alice.secret.public, initiated.value.ephemeralKey);
    var aliceSession := new Session.Session.InitAlice(initiated.value.sharedSecret, bundle.signedPreKey, drawn);
    var bobSession := new Session.Session.InitBob(responded.value.sharedSecret, spk);
    ghost var sys := Agreed(alice, bundle, ephemeral, drawn, bob, spk, opk);
    AgreedInLockstep(alice, bundle, ephemeral, drawn, bob, spk, opk);
    assert aliceSession.View() == sys.alice.state && bobSession.View() == sys.bob.state;
    var sent := aliceSession.Encrypt(text, nonce);
    FirstMessageArrives(SharedSecret(InitiatorDhs(alice, bundle, ephemeral)), spk, drawn, text, nonce, next);
    ghost var advances;
    received, advances := bobSession.Decrypt(sent.value.0, sent.value.1, next);
  }
}
