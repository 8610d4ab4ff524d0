/**
 The discipline one session keeps on its message keys, whatever headers and ciphertexts it is given. Each key has a
 coordinate: how many root steps lie below it (its level) and how far along its chain it was taken (its steps). Root
 steps only ever raise the level and chains only move forward, so no coordinate is met twice.
 */
module KeyDiscipline {
  import opened Wrappers
  import opened SymbolicCrypto
  import opened MessageHeader
  import opened SessionSpec

  function Level(b: Bytes): nat {
    match b
    case Okm(_, salt, _, _) => 1 + Level(salt)
    case Mac(key, _) => Level(key)
    case _ => 0
  }

  function Steps(b: Bytes): nat {
    match b
    case Mac(key, _) => 1 + Steps(key)
    case _ => 0
  }

  // ---------- The keys that grow from a shared secret ----------

  predicate IsRoot(secret: Bytes, b: Bytes) {
    b == secret || (b.Okm? && b.info == RATCHET_INFO && b.block == 0 && IsRoot(secret, b.salt))
  }

  predicate IsChain(secret: Bytes, b: Bytes) {
    match b
    case Okm(_, salt, info, block) => info == RATCHET_INFO && block == 1 && IsRoot(secret, salt)
    case Mac(key, tag) => tag == 1 && IsChain(secret, key)
    case _ => false
  }

  predicate IsMessageKey(secret: Bytes, b: Bytes) {
    b.Mac? && b.tag == 2 && IsChain(secret, b.key)
  }

  // ---------- The invariant ----------

  predicate InPlace(secret: Bytes, s: State, c: Option<ChainState>) {
    c.Some? ==> IsChain(secret, c.value.key) && Steps(c.value.key) == c.value.index
                && Level(c.value.key) <= Level(s.rootKey)
  }

  /** A chain has already moved past a key of its own. */
  predicate Behind(key: Bytes, c: Option<ChainState>) {
    c.Some? && Level(key) == Level(c.value.key) ==> Steps(key) <= c.value.index
  }

  predicate Accounted(secret: Bytes, s: State, key: Bytes) {
    IsMessageKey(secret, key) && Level(key) <= Level(s.rootKey)
    && Behind(key, s.sendingChain) && Behind(key, s.receivingChain)
  }

  predicate NoRepeats<T(==)>(q: seq<T>) {
    forall i, j :: 0 <= i < j < |q| ==> q[i] != q[j]
  }

  /** `used` lists the message keys the session has encrypted with or tried in a decryption, in order. */
  ghost predicate Disciplined(secret: Bytes, s: State, used: seq<Bytes>) {
    && IsRoot(secret, s.rootKey)
    && InPlace(secret, s, s.sendingChain) && InPlace(secret, s, s.receivingChain)
    && (s.sendingChain.Some? && s.receivingChain.Some? ==>
          Level(s.sendingChain.value.key) != Level(s.receivingChain.value.key))
    && (forall key :: key in used ==> Accounted(secret, s, key))
    && (forall id :: id in s.skippedKeys ==> Accounted(secret, s, s.skippedKeys[id]) && s.skippedKeys[id] !in used)
    && (forall id1, id2 :: id1 in s.skippedKeys && id2 in s.skippedKeys && id1 != id2 ==>
          s.skippedKeys[id1] != s.skippedKeys[id2])
    && NoRepeats(used)
  }

  function WithTried(used: seq<Bytes>, tried: Option<Bytes>): seq<Bytes> {
    if tried.Some? then used + [tried.value] else used
  }

  lemma NewSessionsDisciplined(secret: Bytes, bobSpk: PublicKey, spk: SignedPreKey, drawn: Secret)
    ensures Disciplined(secret, InitAlice(secret, bobSpk, drawn), [])
    ensures Disciplined(secret, InitBob(secret, spk), [])
  {
  }

  // ---------- What each piece of a call keeps ----------

  /** The next key of either chain is new. */
  lemma NextKeyIsNew(secret: Bytes, s: State, used: seq<Bytes>, c: ChainState)
    requires Disciplined(secret, s, used)
    requires s.sendingChain == Some(c) || s.receivingChain == Some(c)
    ensures var key := Advance(c).1;
            && IsMessageKey(secret, key) && Level(key) == Level(c.key) && Steps(key) == c.index + 1
            && key !in used
            && (forall id :: id in s.skippedKeys ==> s.skippedKeys[id] != key)
  {
  }

  lemma SendKeeps(secret: Bytes, s: State, used: seq<Bytes>)
    requires Disciplined(secret, s, used) && s.sendingChain.Some?
    ensures var (next, key) := Advance(s.sendingChain.value);
            Disciplined(secret, s.(sendingChain := Some(next)), used + [key])
  {
    NextKeyIsNew(secret, s, used, s.sendingChain.value);
  }

  lemma StoreKeeps(secret: Bytes, s: State, used: seq<Bytes>, id: MessageId)
    requires Disciplined(secret, s, used) && s.receivingChain.Some?
    ensures var (next, key) := Advance(s.receivingChain.value);
            Disciplined(secret, s.(receivingChain := Some(next), skippedKeys := s.skippedKeys[id := key]), used)
  {
    NextKeyIsNew(secret, s, used, s.receivingChain.value);
  }

  lemma UseNextKeeps(secret: Bytes, s: State, used: seq<Bytes>)
    requires Disciplined(secret, s, used) && s.receivingChain.Some?
    ensures var (next, key) := Advance(s.receivingChain.value);
            Disciplined(secret, s.(receivingChain := Some(next)), used + [key])
  {
    NextKeyIsNew(secret, s, used, s.receivingChain.value);
  }

  lemma UseStoredKeeps(secret: Bytes, s: State, used: seq<Bytes>, id: MessageId)
    requires Disciplined(secret, s, used) && id in s.skippedKeys
    ensures Disciplined(secret, s.(skippedKeys := s.skippedKeys - {id}), used + [s.skippedKeys[id]])
  {
  }

  lemma RatchetKeeps(secret: Bytes, s: State, used: seq<Bytes>, remote: PublicKey, drawn: Secret)
    requires Disciplined(secret, s, used)
    ensures Disciplined(secret, Ratchet(s, remote, drawn), used)
  {
    var s' := Ratchet(s, remote, drawn);
    assert Level(s'.receivingChain.value.key) == Level(s.rootKey) + 1;
    assert Level(s'.sendingChain.value.key) == Level(s.rootKey) + 2 == Level(s'.rootKey);
  }

  lemma {:induction false} SkipKeeps(
    secret: Bytes, s: State, used: seq<Bytes>, chain: ChainState, until: nat, dh: PublicKey)
    requires Disciplined(secret, s, used) && s.receivingChain == Some(chain)
    ensures var r := SkipTo(chain, until, dh, s.skippedKeys);
            Disciplined(secret, s.(receivingChain := Some(r.chain), skippedKeys := r.skipped), used)
    decreases until - chain.index
  {
    if chain.index < until {
      var (next, key) := Advance(chain);
      var id := MessageId(dh, chain.index);
      StoreKeeps(secret, s, used, id);
      if |s.skippedKeys[id := key]| <= MAX_SKIP {
        SkipKeeps(
          secret, s.(receivingChain := Some(next), skippedKeys := s.skippedKeys[id := key]), used, next, until, dh);
      }
    }
  }

  lemma FinishKeeps(
    secret: Bytes, s: State, used: seq<Bytes>, h: Header, encrypted: Encrypted, ratcheted: bool, before: nat)
    requires Disciplined(secret, s, used)
    ensures var d := Finish(s, h, encrypted, ratcheted, before);
            Disciplined(secret, d.state, WithTried(used, d.tried))
  {
    if s.receivingChain.Some? {
      var r := SkipTo(s.receivingChain.value, h.messageNumber, h.dhPublicKey, s.skippedKeys);
      SkipKeeps(secret, s, used, s.receivingChain.value, h.messageNumber, h.dhPublicKey);
      if r.ok {
        UseNextKeeps(secret, s.(receivingChain := Some(r.chain), skippedKeys := r.skipped), used);
      }
    }
  }

  /** A decryption, of anything, keeps the discipline: the key it tries was never used before. */
  lemma DecryptKeeps(secret: Bytes, s: State, used: seq<Bytes>, h: Header, encrypted: Encrypted, drawn: Secret)
    requires Disciplined(secret, s, used)
    ensures var d := DecryptStep(s, h, encrypted, drawn);
            Disciplined(secret, d.state, WithTried(used, d.tried))
  {
    if Id(h) in s.skippedKeys {
      UseStoredKeeps(secret, s, used, Id(h));
    } else if NeedsRatchet(s, h) {
      var (s1, ok) := SkipCurrent(s, h.previousChainLength);
      SkipCurrentGrows(s, h.previousChainLength);
      if s.receivingChain.Some? && s.remoteDhPublic.Some? {
        SkipKeeps(secret, s, used, s.receivingChain.value, h.previousChainLength, s.remoteDhPublic.value);
      }
      if ok {
        RatchetKeeps(secret, s1, used, h.dhPublicKey, drawn);
        FinishKeeps(secret, Ratchet(s1, h.dhPublicKey, drawn), used, h, encrypted, true,
                    IndexOf(s1.receivingChain) - IndexOf(s.receivingChain));
      }
    } else {
      FinishKeeps(secret, s, used, h, encrypted, false, 0);
    }
  }

  // ---------- Forward secrecy ----------

  ghost predicate OneEndKnown(secrets: set<Secret>, dh: DhOutput) {
    exists end :: end in dh.ends && Secret(end) in secrets
  }

  /**
   What can be computed from some known byte strings and known secrets: literals, MACs and HKDF outputs of what is
   already known, where a Diffie-Hellman output is known to whoever knows a secret of one of its two ends. A term
   that is not given must be built with its outermost operation, so the closure is a recursion over the term.
   */
  ghost predicate Derivable(known: set<Bytes>, secrets: set<Secret>, b: Bytes) {
    || b in known
    || match b
       case Raw(_) => false
       case Text(_) => true
       case Mac(key, _) => Derivable(known, secrets, key)
       case Okm(ikm, salt, _, _) =>
         Derivable(known, secrets, salt) && forall i :: 0 <= i < |ikm| ==> OneEndKnown(secrets, ikm[i])
  }

  /** The recursion is the least such closure: every property that survives the operations holds of all it contains. */
  lemma {:induction false} DerivableIsLeast(known: set<Bytes>, secrets: set<Secret>, closed: Bytes -> bool, b: Bytes)
    requires forall k :: k in known ==> closed(k)
    requires forall text :: closed(Text(text))
    requires forall k, tag :: closed(k) ==> closed(Mac(k, tag))
    requires forall ikm: seq<DhOutput>, salt, info, block ::
               closed(salt) && (forall i :: 0 <= i < |ikm| ==> OneEndKnown(secrets, ikm[i])) ==>
               closed(Okm(ikm, salt, info, block))
    requires Derivable(known, secrets, b)
    ensures closed(b)
  {
    if b !in known {
      match b
      case Text(_) =>
      case Mac(key, _) => DerivableIsLeast(known, secrets, closed, key);
      case Okm(_, salt, _, _) => DerivableIsLeast(known, secrets, closed, salt);
    }
  }

  /** It is such a closure: everything known is in it, and what the operations make of what is in it. */
  lemma DerivableIsClosed(
    known: set<Bytes>, secrets: set<Secret>, b: Bytes, tag: nat, ikm: seq<DhOutput>, info: string, block: nat)
    ensures b in known ==> Derivable(known, secrets, b)
    ensures b.Text? ==> Derivable(known, secrets, b)
    ensures Derivable(known, secrets, b) ==> Derivable(known, secrets, Mac(b, tag))
    ensures Derivable(known, secrets, b) && (forall i :: 0 <= i < |ikm| ==> OneEndKnown(secrets, ikm[i])) ==>
              Derivable(known, secrets, Okm(ikm, b, info, block))
  {
  }

  /** Every byte string a session holds, besides its ratchet secret. */
  function Holdings(s: State): set<Bytes> {
    {s.rootKey}
    + (if s.sendingChain.Some? then {s.sendingChain.value.key} else {})
    + (if s.receivingChain.Some? then {s.receivingChain.value.key} else {})
    + s.skippedKeys.Values
  }

  /** Both ends of an exchange can compute it from their secret, and what they derive with it from what they have. */
  lemma RootStepDerivable(known: set<Bytes>, secrets: set<Secret>, rootKey: Bytes, ours: Secret, remote: PublicKey)
    requires Derivable(known, secrets, rootKey) && ours in secrets
    ensures Derivable(known, secrets, Root(rootKey, Dh(ours, remote)))
    ensures Derivable(known, secrets, Chain(rootKey, Dh(ours, remote)))
  {
    var dh := Dh(ours, remote);
    assert ours.public in dh.ends && ours == Secret(ours.public);
    assert OneEndKnown(secrets, dh);
  }

  lemma {:induction false} ChainDerivable(
    known: set<Bytes>, secrets: set<Secret>, chain: ChainState, until: nat, dh: PublicKey, skipped: SkippedKeys)
    requires Derivable(known, secrets, chain.key)
    ensures Derivable(known, secrets, SkipTo(chain, until, dh, skipped).chain.key)
    decreases until - chain.index
  {
    if chain.index < until {
      var (next, messageKey) := Advance(chain);
      var skipped' := skipped[MessageId(dh, chain.index) := messageKey];
      if |skipped'| <= MAX_SKIP {
        ChainDerivable(known, secrets, next, until, dh, skipped');
      }
    }
  }

  lemma FinishDerivable(
    known: set<Bytes>, secrets: set<Secret>, s: State, h: Header, encrypted: Encrypted, ratcheted: bool, before: nat)
    requires s.receivingChain.Some? ==> Derivable(known, secrets, s.receivingChain.value.key)
    ensures var d := Finish(s, h, encrypted, ratcheted, before);
            d.tried.Some? ==> Derivable(known, secrets, d.tried.value)
  {
    if s.receivingChain.Some? {
      ChainDerivable(known, secrets, s.receivingChain.value, h.messageNumber, h.dhPublicKey, s.skippedKeys);
    }
  }

  /**
   The holdings are all there is: every key a session encrypts with or tries next can be computed from them and its
   ratchet secret. So to know them is to be able to do what the session does.
   */
  lemma HoldingsSuffice(s: State, h: Header, encrypted: Encrypted, drawn: Secret)
    ensures s.sendingChain.Some? ==> Derivable(Holdings(s), {s.dhSecret}, Advance(s.sendingChain.value).1)
    ensures var d := DecryptStep(s, h, encrypted, drawn);
            d.tried.Some? ==> Derivable(Holdings(s), {s.dhSecret}, d.tried.value)
  {
    hide SkipTo, Finish;
    var known, secrets := Holdings(s), {s.dhSecret};
    if Id(h) in s.skippedKeys {
      assert s.skippedKeys[Id(h)] in known;
    } else if NeedsRatchet(s, h) {
      var (s1, ok) := SkipCurrent(s, h.previousChainLength);
      SkipCurrentGrows(s, h.previousChainLength);
      if ok {
        RootStepDerivable(known, secrets, s.rootKey, s.dhSecret, h.dhPublicKey);
        FinishDerivable(known, secrets, Ratchet(s1, h.dhPublicKey, drawn), h, encrypted, true,
                        IndexOf(s1.receivingChain) - IndexOf(s.receivingChain));
      }
    } else {
      FinishDerivable(known, secrets, s, h, encrypted, false, 0);
    }
  }

  lemma {:induction false} BelowEverythingKnown(known: set<Bytes>, secrets: set<Secret>, b: Bytes)
    requires forall k :: k in known ==> Level(b) < Level(k)
    requires !Derivable({}, secrets, b)
    ensures !Derivable(known, secrets, b)
  {
    match b
    case Raw(_) =>
    case Text(_) =>
    case Mac(key, _) => BelowEverythingKnown(known, secrets, key);
    case Okm(_, salt, _, _) =>
      assert b !in known;
      if !Derivable({}, secrets, salt) {
        BelowEverythingKnown(known, secrets, salt);
      }
  }

  lemma {:induction false} RootsLieAbove(secret: Bytes, b: Bytes)
    requires IsRoot(secret, b) || IsChain(secret, b)
    ensures Level(secret) <= Level(b)
    ensures IsChain(secret, b) ==> Level(secret) < Level(b)
    ensures IsRoot(secret, b) && Level(b) == Level(secret) ==> b == secret
  {
    if b.Okm? && (IsRoot(secret, b.salt) || IsChain(secret, b.salt)) {
      RootsLieAbove(secret, b.salt);
    }
    if IsChain(secret, b) && b.Mac? {
      RootsLieAbove(secret, b.key);
    }
  }

  /** Once a key has been used, the session has left the shared secret's level. */
  lemma HoldingsLieAbove(secret: Bytes, s: State, used: seq<Bytes>)
    requires Disciplined(secret, s, used) && |used| > 0
    ensures forall k :: k in Holdings(s) ==> Level(secret) < Level(k)
  {
    assert Accounted(secret, s, used[0]);
    RootsLieAbove(secret, used[0].key);
    forall k | k in Holdings(s)
      ensures Level(secret) < Level(k)
    {
      if s.sendingChain.Some? && k == s.sendingChain.value.key {
        RootsLieAbove(secret, k);
      } else if s.receivingChain.Some? && k == s.receivingChain.value.key {
        RootsLieAbove(secret, k);
      } else if k in s.skippedKeys.Values {
        var id :| id in s.skippedKeys && s.skippedKeys[id] == k;
        assert Accounted(secret, s, k);
        RootsLieAbove(secret, k.key);
      }
    }
  }

  lemma {:induction false} OldRootHidden(secret: Bytes, s: State, used: seq<Bytes>, secrets: set<Secret>, b: Bytes)
    requires Disciplined(secret, s, used) && |used| > 0
    requires !Derivable({}, secrets, secret)
    requires IsRoot(secret, b) && Level(b) < Level(s.rootKey)
    ensures !Derivable(Holdings(s), secrets, b)
  {
    HoldingsLieAbove(secret, s, used);
    if b == secret {
      BelowEverythingKnown(Holdings(s), secrets, b);
    } else {
      OldRootHidden(secret, s, used, secrets, b.salt);
      assert b !in Holdings(s) by {
        forall id | id in s.skippedKeys
          ensures s.skippedKeys[id] != b
        {
          assert Accounted(secret, s, s.skippedKeys[id]);
        }
      }
    }
  }

  /** A chain key is behind a chain when that chain has moved past it. */
  predicate Passed(key: Bytes, c: Option<ChainState>) {
    c.Some? && Level(key) == Level(c.value.key) ==> Steps(key) < c.value.index
  }

  lemma {:induction false} OldChainHidden(secret: Bytes, s: State, used: seq<Bytes>, secrets: set<Secret>, b: Bytes)
    requires Disciplined(secret, s, used) && |used| > 0
    requires !Derivable({}, secrets, secret)
    requires IsChain(secret, b) && Level(b) <= Level(s.rootKey)
    requires Passed(b, s.sendingChain) && Passed(b, s.receivingChain)
    ensures !Derivable(Holdings(s), secrets, b)
  {
    HoldingsLieAbove(secret, s, used);
    if b.Mac? {
      OldChainHidden(secret, s, used, secrets, b.key);
    } else {
      OldRootHidden(secret, s, used, secrets, b.salt);
    }
    assert b !in Holdings(s) by {
      forall id | id in s.skippedKeys ensures s.skippedKeys[id] != b { assert Accounted(secret, s, s.skippedKeys[id]); }
    }
  }

  /**
   Forward secrecy: no key a session has used can be computed from everything it now holds, even together with any
   set of Diffie-Hellman secrets (its own included) that does not by itself give away the shared secret.
   */
  lemma UsedKeysHidden(secret: Bytes, s: State, used: seq<Bytes>, secrets: set<Secret>)
    requires Disciplined(secret, s, used)
    requires !Derivable({}, secrets, secret)
    ensures forall key :: key in used ==> !Derivable(Holdings(s), secrets, key)
  {
    forall key | key in used
      ensures !Derivable(Holdings(s), secrets, key)
    {
      assert Accounted(secret, s, key);
      OldChainHidden(secret, s, used, secrets, key.key);
      HoldingsLieAbove(secret, s, used);
    }
  }

  // ---------- Healing ----------

  lemma {:induction false} LaterKeysHidden(known: set<Bytes>, secrets: set<Secret>, start: Bytes, n: nat)
    requires forall k :: k in known ==> Level(k) < Level(start)
    requires !Derivable(known, secrets, start)
    ensures Level(ChainKeyAt(start, n)) == Level(start)
    ensures !Derivable(known, secrets, ChainKeyAt(start, n))
    ensures !Derivable(known, secrets, MessageKeyAt(start, n))
  {
    if n > 0 {
      LaterKeysHidden(known, secrets, start, n - 1);
    }
    assert Level(MessageKeyAt(start, n)) == Level(start);
  }

  lemma HoldingsLieBelow(secret: Bytes, s: State, used: seq<Bytes>)
    requires Disciplined(secret, s, used)
    ensures forall k :: k in Holdings(s) ==> Level(k) <= Level(s.rootKey)
  {
    forall k | k in Holdings(s)
      ensures Level(k) <= Level(s.rootKey)
    {
      if k in s.skippedKeys.Values {
        var id :| id in s.skippedKeys && s.skippedKeys[id] == k;
        assert Accounted(secret, s, k);
      }
    }
  }

  /** A root step with secrets unknown at both ends gives a root and a chain above all that is known, and hidden. */
  lemma RootStepHides(known: set<Bytes>, secrets: set<Secret>, root: Bytes, ours: Secret, remote: PublicKey)
    requires forall k :: k in known ==> Level(k) <= Level(root)
    requires ours !in secrets && Secret(remote) !in secrets
    ensures var dh := Dh(ours, remote);
            && Level(Root(root, dh)) == Level(Chain(root, dh)) == Level(root) + 1
            && !Derivable(known, secrets, Root(root, dh)) && !Derivable(known, secrets, Chain(root, dh))
  {
    var dh := Dh(ours, remote);
    assert !OneEndKnown(secrets, dh);
    assert Root(root, dh).ikm[0] == dh && Chain(root, dh).ikm[0] == dh;
  }

  /**
   Post-compromise security: whoever knows all a session holds, its ratchet secret included, loses track at the next
   ratchet, as long as neither the key pair drawn there nor the remote party's is known.
   */
  lemma RatchetHeals(
    secret: Bytes, s: State, used: seq<Bytes>, secrets: set<Secret>, remote: PublicKey, drawn: Secret, n: nat)
    requires Disciplined(secret, s, used)
    requires drawn !in secrets && Secret(remote) !in secrets
    ensures var s' := Ratchet(s, remote, drawn);
            && !Derivable(Holdings(s), secrets, s'.rootKey)
            && !Derivable(Holdings(s), secrets, MessageKeyAt(s'.sendingChain.value.key, n))
  {
    var s' := Ratchet(s, remote, drawn);
    HoldingsLieBelow(secret, s, used);
    RootStepHides(Holdings(s), secrets, Root(s.rootKey, Dh(s.dhSecret, remote)), drawn, remote);
    LaterKeysHidden(Holdings(s), secrets, s'.sendingChain.value.key, n);
  }

  // ---------- Keys of one chain ----------

  lemma {:induction false} ChainSteps(start: Bytes, n: nat)
    ensures Steps(ChainKeyAt(start, n)) == Steps(start) + n
  {
    if n > 0 {
      ChainSteps(start, n - 1);
    }
  }

  lemma MessageKeysDiffer(start: Bytes, a: nat, b: nat)
    requires a != b
    ensures MessageKeyAt(start, a) != MessageKeyAt(start, b)
  {
    ChainSteps(start, a);
    ChainSteps(start, b);
  }

  // ---------- Keys of different secrets ----------

  /** A byte string has another inside it, through MAC keys and HKDF salts. */
  predicate GrowsFrom(secret: Bytes, b: Bytes) {
    b == secret || match b
                   case Okm(_, salt, _, _) => GrowsFrom(secret, salt)
                   case Mac(key, _) => GrowsFrom(secret, key)
                   case _ => false
  }

  predicate Unrelated(a: Bytes, b: Bytes) {
    !GrowsFrom(a, b) && !GrowsFrom(b, a)
  }

  lemma {:induction false} KeysGrowFromSecret(secret: Bytes, b: Bytes)
    requires IsRoot(secret, b) || IsChain(secret, b) || IsMessageKey(secret, b)
    ensures GrowsFrom(secret, b)
  {
    if IsRoot(secret, b) {
      if b != secret { KeysGrowFromSecret(secret, b.salt); }
    } else if b.Okm? {
      KeysGrowFromSecret(secret, b.salt);
    } else {
      KeysGrowFromSecret(secret, b.key);
    }
  }

  lemma {:induction false} UnrelatedGrowApart(a: Bytes, b: Bytes, key: Bytes)
    requires Unrelated(a, b) && GrowsFrom(a, key)
    ensures !GrowsFrom(b, key)
  {
    if key != a {
      match key
      case Okm(_, salt, _, _) => UnrelatedGrowApart(a, b, salt);
      case Mac(k, _) => UnrelatedGrowApart(a, b, k);
    }
  }
}
