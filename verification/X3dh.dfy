/**
 X3DH key agreement ("The X3DH Key Agreement Protocol", sections 3.3 and 3.4): both sides concatenate three or four
 Diffie-Hellman outputs and derive one shared secret from them.
 */
module X3dh {
  import opened Wrappers
  import opened SymbolicCrypto
  import opened SessionSpec
  import opened KeyDiscipline

  const X3DH_SALT := "GhostCrypt_X3DH"
  const X3DH_INFO := "X3DH_shared_secret"
  const SHARED_SECRET_LEN: nat := 32

  datatype VerifyingKey = VerifyingKey(id: nat)

  /** A signature is known by who made it and over what; any other byte string verifies under no key. */
  datatype Signature = Signed(signer: VerifyingKey, message: PublicKey) | Unverifiable(id: nat)

  datatype IdentityKeyPair = IdentityKeyPair(secret: Secret, verifyingKey: VerifyingKey)

  datatype OneTimePreKey = OneTimePreKey(id: nat, secret: Secret)

  datatype PreKeyBundle = PreKeyBundle(
    identityKey: PublicKey,
    identityVerifyingKey: VerifyingKey,
    signedPreKey: PublicKey,
    signature: Signature,
    oneTimePreKey: Option<PublicKey>)

  datatype X3dhResult = X3dhResult(sharedSecret: Bytes, ephemeralKey: PublicKey)

  predicate Verify(key: VerifyingKey, message: PublicKey, signature: Signature) {
    signature == Signed(key, message)
  }

  function SharedSecret(dhs: seq<DhOutput>): Bytes {
    Derive(dhs, Text(X3DH_SALT), X3DH_INFO, SHARED_SECRET_LEN)[0]
  }

  function PublicOf(opk: Option<OneTimePreKey>): Option<PublicKey> {
    if opk.Some? then Some(opk.value.secret.public) else None
  }

  function InitiatorDhs(alice: IdentityKeyPair, bundle: PreKeyBundle, ephemeral: Secret): seq<DhOutput> {
    [Dh(alice.secret, bundle.signedPreKey), Dh(ephemeral, bundle.identityKey), Dh(ephemeral, bundle.signedPreKey)]
    + (if bundle.oneTimePreKey.Some? then [Dh(ephemeral, bundle.oneTimePreKey.value)] else [])
  }

  function ResponderDhs(
    bob: IdentityKeyPair, spk: SignedPreKey, opk: Option<OneTimePreKey>,
    aliceIdentity: PublicKey, aliceEphemeral: PublicKey): seq<DhOutput>
  {
    [Dh(spk.secret, aliceIdentity), Dh(bob.secret, aliceEphemeral), Dh(spk.secret, aliceEphemeral)]
    + (if opk.Some? then [Dh(opk.value.secret, aliceEphemeral)] else [])
  }

  /**
   The secret of an agreement in full: 32 bytes, derived from the exchanges of the initiator's identity with the signed
   pre-key, of the ephemeral key with the responder's identity, of the ephemeral key with the signed pre-key and, if
   there is one, of the ephemeral key with the one-time pre-key, in this order.
   */
  ghost predicate IsSecretOf(
    secret: Bytes, initiator: PublicKey, ephemeral: PublicKey,
    responder: PublicKey, signedPreKey: PublicKey, oneTimePreKey: Option<PublicKey>)
  {
    && secret.Okm? && secret.block == 0
    && secret.salt == Text("GhostCrypt_X3DH") && secret.info == "X3DH_shared_secret"
    && SHARED_SECRET_LEN == 32 && [secret] == Derive(secret.ikm, secret.salt, secret.info, 32)
    && |secret.ikm| == (if oneTimePreKey.Some? then 4 else 3)
    && secret.ikm[0].ends == {initiator, signedPreKey}
    && secret.ikm[1].ends == {ephemeral, responder}
    && secret.ikm[2].ends == {ephemeral, signedPreKey}
    && (oneTimePreKey.Some? ==> secret.ikm[3].ends == {ephemeral, oneTimePreKey.value})
  }

  /** The initiator's side; `ephemeral` is the key pair drawn for this agreement. */
  method Initiate(alice: IdentityKeyPair, bundle: PreKeyBundle, ephemeral: Secret) returns (r: Result<X3dhResult>)
    ensures r.Ok? <==> bundle.signature == Signed(bundle.identityVerifyingKey, bundle.signedPreKey)
    ensures r.Ok? ==> IsSecretOf(r.value.sharedSecret, alice.secret.public, ephemeral.public,
                                 bundle.identityKey, bundle.signedPreKey, bundle.oneTimePreKey)
    ensures r.Ok? ==> r.value == X3dhResult(SharedSecret(InitiatorDhs(alice, bundle, ephemeral)), ephemeral.public)
    ensures r.Err? ==> r.error == InvalidSignature
  {
    if !Verify(bundle.identityVerifyingKey, bundle.signedPreKey, bundle.signature) {
      return Err(InvalidSignature);
    }
    var dh1 := Dh(alice.secret, bundle.signedPreKey);
    var dh2 := Dh(ephemeral, bundle.identityKey);
    var dh3 := Dh(ephemeral, bundle.signedPreKey);
    var dhConcat := [];
    dhConcat := dhConcat + [dh1];
    dhConcat := dhConcat + [dh2];
    dhConcat := dhConcat + [dh3];
    if bundle.oneTimePreKey.Some? {
      var dh4 := Dh(ephemeral, bundle.oneTimePreKey.value);
      dhConcat := dhConcat + [dh4];
    }
    assert dhConcat == InitiatorDhs(alice, bundle, ephemeral);
    var derived := Derive(dhConcat, Text(X3DH_SALT), X3DH_INFO, SHARED_SECRET_LEN);
    return Ok(X3dhResult(derived[0], ephemeral.public));
  }

  /** The responder's side, from his private keys and the initiator's public ones. */
  method Respond(
    bob: IdentityKeyPair, spk: SignedPreKey, opk: Option<OneTimePreKey>,
    aliceIdentity: PublicKey, aliceEphemeral: PublicKey) returns (r: Result<X3dhResult>)
    ensures r.Ok? && IsSecretOf(r.value.sharedSecret, aliceIdentity, aliceEphemeral,
                                bob.secret.public, spk.secret.public, PublicOf(opk))
    ensures r == Ok(X3dhResult(
                      SharedSecret(ResponderDhs(bob, spk, opk, aliceIdentity, aliceEphemeral)), aliceEphemeral))
  {
    var dh1 := Dh(spk.secret, aliceIdentity);
    var dh2 := Dh(bob.secret, aliceEphemeral);
    var dh3 := Dh(spk.secret, aliceEphemeral);
    var dhConcat := [];
    dhConcat := dhConcat + [dh1];
    dhConcat := dhConcat + [dh2];
    dhConcat := dhConcat + [dh3];
    if opk.Some? {
      var dh4 := Dh(opk.value.secret, aliceEphemeral);
      dhConcat := dhConcat + [dh4];
    }
    assert dhConcat == ResponderDhs(bob, spk, opk, aliceIdentity, aliceEphemeral);
    var derived := Derive(dhConcat, Text(X3DH_SALT), X3DH_INFO, SHARED_SECRET_LEN);
    return Ok(X3dhResult(derived[0], aliceEphemeral));
  }

  /** No root step of a session, from any root key and with any exchange, gives the secret of an agreement. */
  lemma RootStepsAreNoAgreements(rootKey: Bytes, dhOutput: DhOutput, dhs: seq<DhOutput>)
    ensures DhRatchetStep(rootKey, dhOutput).0 != SharedSecret(dhs)
    ensures DhRatchetStep(rootKey, dhOutput).1 != SharedSecret(dhs)
  {
    RootStepInFull(rootKey, dhOutput);
    assert SharedSecret(dhs) == Okm(dhs, Text("GhostCrypt_X3DH"), "X3DH_shared_secret", 0);
    assert |"GhostCrypt_Ratchet"| == |"X3DH_shared_secret"| && "GhostCrypt_Ratchet"[0] != "X3DH_shared_secret"[0];
  }

  lemma SharedSecretInjective(dhs1: seq<DhOutput>, dhs2: seq<DhOutput>)
    ensures SharedSecret(dhs1) == SharedSecret(dhs2) <==> dhs1 == dhs2
  {
    assert SharedSecret(dhs1) == Okm(dhs1, Text(X3DH_SALT), X3DH_INFO, 0);
    assert SharedSecret(dhs2) == Okm(dhs2, Text(X3DH_SALT), X3DH_INFO, 0);
  }

  lemma DhSwap(a: Secret, b: Secret)
    ensures Dh(a, b.public) == Dh(b, a.public)
  {
    DhAgrees(a.public, b.public, b.public);
    assert a == Secret(a.public) && b == Secret(b.public);
  }

  /**
   Agreement: for a bundle with the responder's identity and signed pre-key, the two sides derive the same secret
   exactly when they make the same choice of one-time pre-key, both with the same one or both without.
   */
  lemma AgreeIff(
    alice: IdentityKeyPair, bundle: PreKeyBundle, ephemeral: Secret,
    bob: IdentityKeyPair, spk: SignedPreKey, opk: Option<OneTimePreKey>)
    requires bundle.identityKey == bob.secret.public && bundle.signedPreKey == spk.secret.public
    ensures SharedSecret(InitiatorDhs(alice, bundle, ephemeral))
              == SharedSecret(ResponderDhs(bob, spk, opk, alice.secret.public, ephemeral.public))
       <==> bundle.oneTimePreKey == PublicOf(opk)
  {
    var initiator := InitiatorDhs(alice, bundle, ephemeral);
    var responder := ResponderDhs(bob, spk, opk, alice.secret.public, ephemeral.public);
    SharedSecretInjective(initiator, responder);
    DhSwap(alice.secret, spk.secret);
    DhSwap(ephemeral, bob.secret);
    DhSwap(ephemeral, spk.secret);
    assert initiator[..3] == responder[..3];
    if bundle.oneTimePreKey.Some? && opk.Some? {
      DhSwap(ephemeral, opk.value.secret);
      DhAgrees(ephemeral.public, bundle.oneTimePreKey.value, opk.value.secret.public);
      assert ephemeral == Secret(ephemeral.public);
      assert initiator == initiator[..3] + [initiator[3]] && responder == responder[..3] + [responder[3]];
    } else if bundle.oneTimePreKey.None? && opk.None? {
      assert initiator == initiator[..3] && responder == responder[..3];
    } else {
      assert |initiator| != |responder|;
    }
  }

  /** Different agreements give unrelated secrets, so the sessions built on them are isolated from each other. */
  lemma AgreementsUnrelated(dhs1: seq<DhOutput>, dhs2: seq<DhOutput>)
    requires dhs1 != dhs2
    ensures Unrelated(SharedSecret(dhs1), SharedSecret(dhs2))
  {
    SharedSecretInjective(dhs1, dhs2);
    assert SharedSecret(dhs1).salt == Text(X3DH_SALT) && SharedSecret(dhs2).salt == Text(X3DH_SALT);
  }

  /** A shared secret can be computed exactly by those who know one secret of each exchange in it. */
  lemma SharedSecretDerivableIff(dhs: seq<DhOutput>, secrets: set<Secret>)
    ensures Derivable({}, secrets, SharedSecret(dhs)) <==> forall i :: 0 <= i < |dhs| ==> OneEndKnown(secrets, dhs[i])
  {
    assert SharedSecret(dhs) == Okm(dhs, Text(X3DH_SALT), X3DH_INFO, 0);
    assert Derivable({}, secrets, Text(X3DH_SALT));
  }

  lemma EitherEnd(secrets: set<Secret>, a: Secret, b: Secret)
    ensures OneEndKnown(secrets, Dh(a, b.public)) <==> a in secrets || b in secrets
  {
    assert a == Secret(a.public) && b == Secret(b.public);
    if a in secrets {
      assert a.public in Dh(a, b.public).ends && Secret(a.public) in secrets;
    }
    if b in secrets {
      assert b.public in Dh(a, b.public).ends && Secret(b.public) in secrets;
    }
  }

  /** Someone knows an end of every exchange of an agreement. */
  predicate KnowsEnough(
    secrets: set<Secret>, alice: IdentityKeyPair, ephemeral: Secret,
    bob: IdentityKeyPair, spk: SignedPreKey, opk: Option<OneTimePreKey>)
  {
    if ephemeral in secrets then alice.secret in secrets || spk.secret in secrets
    else spk.secret in secrets && bob.secret in secrets && (opk.Some? ==> opk.value.secret in secrets)
  }

  /**
   Who can compute the secret of an agreement: with the ephemeral secret, whoever also has the initiator's identity or
   the signed pre-key; without it, only who has all of the responder's secrets that went in. In particular neither
   party's identity secret is enough, nor are both.
   */
  lemma AgreementSecretIff(
    alice: IdentityKeyPair, bundle: PreKeyBundle, ephemeral: Secret,
    bob: IdentityKeyPair, spk: SignedPreKey, opk: Option<OneTimePreKey>, secrets: set<Secret>)
    requires bundle.identityKey == bob.secret.public && bundle.signedPreKey == spk.secret.public
    requires bundle.oneTimePreKey == PublicOf(opk)
    ensures Derivable({}, secrets, SharedSecret(InitiatorDhs(alice, bundle, ephemeral)))
       <==> KnowsEnough(secrets, alice, ephemeral, bob, spk, opk)
  {
    hide Derivable, OneEndKnown, Dh, SharedSecret;
    var dhs := InitiatorDhs(alice, bundle, ephemeral);
    SharedSecretDerivableIff(dhs, secrets);
    EitherEnd(secrets, alice.secret, spk.secret);
    EitherEnd(secrets, ephemeral, bob.secret);
    EitherEnd(secrets, ephemeral, spk.secret);
    assert dhs[0] == Dh(alice.secret, spk.secret.public) && dhs[1] == Dh(ephemeral, bob.secret.public);
    assert dhs[2] == Dh(ephemeral, spk.secret.public);
    if opk.Some? {
      EitherEnd(secrets, ephemeral, opk.value.secret);
      assert |dhs| == 4 && dhs[3] == Dh(ephemeral, opk.value.secret.public);
    } else {
      assert |dhs| == 3;
    }
  }
}
