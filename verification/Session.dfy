/** The session and its chains as objects updated in place, proved against the functions of SessionSpec. */
module Session {
  import opened Wrappers
  import opened SymbolicCrypto
  import opened MessageHeader
  import Spec = SessionSpec

  /** A symmetric chain that derives message keys. */
  class ChainKey {
    var key: Bytes
    var index: nat

    function View(): Spec.ChainState
      reads this
    {
      Spec.ChainState(key, index)
    }

    constructor (key: Bytes, index: nat)
      ensures View() == Spec.ChainState(key, index)
    {
      this.key := key;
      this.index := index;
    }

    method Advance() returns (messageKey: Bytes)
      modifies this
      ensures (View(), messageKey) == Spec.Advance(old(View()))
    {
      var (newChainKey, mk) := DeriveChainAndMessageKey(key);
      key := newChainKey;
      index := index + 1;
      messageKey := mk;
    }
  }

  /** A Double Ratchet session. */
  class Session {
    var rootKey: Bytes
    var dhSecret: Secret
    var dhPublic: PublicKey
    var remoteDhPublic: Option<PublicKey>
    var sendingChain: ChainKey?
    var receivingChain: ChainKey?
    var previousSendingChainLength: nat
    var skippedKeys: Spec.SkippedKeys

    /** The chains are owned: the two are never the same object. */
    ghost predicate Valid()
      reads this
    {
      sendingChain == null || sendingChain != receivingChain
    }

    ghost function Repr(): set<object>
      reads this
    {
      {this} + (if sendingChain == null then {} else {sendingChain})
             + (if receivingChain == null then {} else {receivingChain})
    }

    ghost function View(): Spec.State
      reads this, sendingChain, receivingChain
    {
      Spec.State(
        rootKey, dhSecret, dhPublic, remoteDhPublic,
        if sendingChain == null then None else Some(sendingChain.View()),
        if receivingChain == null then None else Some(receivingChain.View()),
        previousSendingChainLength, skippedKeys)
    }

    /** Starts a session as the initiator; `drawn` is the key pair drawn for it. */
    constructor InitAlice(sharedSecret: Bytes, bobSpkPublic: PublicKey, drawn: Secret)
      ensures Valid() && fresh(Repr())
      ensures View() == Spec.InitAlice(sharedSecret, bobSpkPublic, drawn)
    {
      var dhOutput := Dh(drawn, bobSpkPublic);
      var (root, chainKey) := DhRatchetStep(sharedSecret, dhOutput);
      rootKey := root;
      dhSecret := drawn;
      dhPublic := drawn.public;
      remoteDhPublic := Some(bobSpkPublic);
      sendingChain := new ChainKey(chainKey, 0);
      receivingChain := null;
      previousSendingChainLength := 0;
      skippedKeys := map[];
    }

    /** Starts a session as the responder, on his signed pre-key. */
    constructor InitBob(sharedSecret: Bytes, ourSpk: Spec.SignedPreKey)
      ensures Valid() && fresh(Repr())
      ensures View() == Spec.InitBob(sharedSecret, ourSpk)
    {
      rootKey := sharedSecret;
      dhSecret := ourSpk.secret;
      dhPublic := ourSpk.public;
      remoteDhPublic := None;
      sendingChain := null;
      receivingChain := null;
      previousSendingChainLength := 0;
      skippedKeys := map[];
    }

    method Encrypt(plaintext: Plaintext, nonce: nat) returns (r: Result<(Header, Encrypted)>)
      requires Valid()
      modifies Repr()
      ensures Valid() && Repr() == old(Repr())
      ensures Spec.EncryptResult(View(), r) == Spec.EncryptStep(old(View()), plaintext, nonce)
      ensures r.Ok? ==> r.value.1.nonce == nonce && r.value.1.ciphertext.nonce == nonce
    {
      if sendingChain == null {
        return Err(NoSendingChain);
      }
      var messageKey := sendingChain.Advance();
      var number := sendingChain.index - 1;
      var header := Header(dhPublic, number, previousSendingChainLength);
      return Ok((header, Seal(messageKey, nonce, plaintext, ToBytes(header))));
    }

    /** The skip loop, which Decrypt runs on the old receiving chain and on the new one. */
    method SkipTo(until: nat, dh: PublicKey) returns (ok: bool, ghost advances: nat)
      requires Valid() && receivingChain != null
      modifies this`skippedKeys, receivingChain
      ensures Valid() && Repr() == old(Repr())
      ensures var r := Spec.SkipTo(old(receivingChain.View()), until, dh, old(skippedKeys));
              Spec.SkipResult(receivingChain.View(), skippedKeys, ok) == r
      ensures advances == receivingChain.index - old(receivingChain.index)
    {
      hide Spec.SkipTo, Spec.Advance;
      advances := 0;
      ghost var goal := Spec.SkipTo(receivingChain.View(), until, dh, skippedKeys);
      while receivingChain.index < until
        invariant receivingChain == old(receivingChain) && Valid()
        invariant advances == receivingChain.index - old(receivingChain.index)
        invariant Spec.SkipTo(receivingChain.View(), until, dh, skippedKeys) == goal
      {
        Spec.SkipToPass(receivingChain.View(), until, dh, skippedKeys);
        Spec.AdvanceCounts(receivingChain.View());
        var messageKey := receivingChain.Advance();
        advances := advances + 1;
        skippedKeys := skippedKeys[Spec.MessageId(dh, receivingChain.index - 1) := messageKey];
        if |skippedKeys| > Spec.MAX_SKIP {
          return false, advances;
        }
      }
      Spec.SkipToDone(receivingChain.View(), until, dh, skippedKeys);
      ok := true;
    }

    /** Stores what is left of the current receiving chain up to `until`; the flag says whether the limit held. */
    method SkipCurrentReceivingChain(until: nat) returns (ok: bool, ghost advances: nat)
      requires Valid()
      modifies this`skippedKeys, receivingChain
      ensures Valid() && Repr() == old(Repr())
      ensures (View(), ok) == Spec.SkipCurrent(old(View()), until)
      ensures advances == Spec.IndexOf(View().receivingChain) - Spec.IndexOf(old(View()).receivingChain)
    {
      ok, advances := true, 0;
      if receivingChain != null && remoteDhPublic.Some? {
        ok, advances := SkipTo(until, remoteDhPublic.value);
      }
    }

    /** The DH ratchet step of Decrypt. */
    method RatchetTo(remote: PublicKey, drawn: Secret)
      requires Valid()
      modifies this
      ensures Valid() && fresh(Repr() - {this})
      ensures View() == Spec.Ratchet(old(View()), remote, drawn)
    {
      // The new receiving chain, from the remote party's new key
      var dhOutput := Dh(dhSecret, remote);
      var (rootKey1, receivingKey) := DhRatchetStep(rootKey, dhOutput);
      rootKey := rootKey1;
      receivingChain := new ChainKey(receivingKey, 0);
      remoteDhPublic := Some(remote);
      previousSendingChainLength := if sendingChain == null then 0 else sendingChain.index;
      // The new sending chain, from a fresh key of ours
      dhOutput := Dh(drawn, remote);
      var (rootKey2, sendingKey) := DhRatchetStep(rootKey, dhOutput);
      rootKey := rootKey2;
      dhSecret := drawn;
      dhPublic := drawn.public;
      sendingChain := new ChainKey(sendingKey, 0);
    }

    /** The last two steps of Decrypt, on the receiving chain that is then current. */
    method ReceiveOnChain(header: Header, encrypted: Encrypted, ghost ratcheted: bool, ghost before: nat)
      returns (r: Result<Plaintext>, ghost advances: nat)
      requires Valid()
      modifies this`skippedKeys, receivingChain
      ensures Valid() && Repr() == old(Repr())
      ensures var d := Spec.Finish(old(View()), header, encrypted, ratcheted, before);
              View() == d.state && r == d.outcome && advances == d.advances
    {
      if receivingChain == null {
        return Err(NoReceivingChain), before;
      }
      var ok;
      ok, advances := SkipTo(header.messageNumber, header.dhPublicKey);
      advances := before + advances;
      if !ok {
        return Err(SkipLimit), advances;
      }
      var messageKey := receivingChain.Advance();
      return Open(messageKey, encrypted, ToBytes(header)), advances + 1;
    }

    /** Decrypts one message; `drawn` is the key pair drawn if this call ratchets. */
    method Decrypt(header: Header, encrypted: Encrypted, drawn: Secret)
      returns (r: Result<Plaintext>, ghost advances: nat)
      requires Valid()
      modifies Repr()
      ensures Valid() && fresh(Repr() - old(Repr()))
      ensures var d := Spec.DecryptStep(old(View()), header, encrypted, drawn);
              View() == d.state && r == d.outcome && advances == d.advances
    {
      // 1. A key stored for a late message
      var id := Spec.Id(header);
      if id in skippedKeys {
        var key := skippedKeys[id];
        skippedKeys := skippedKeys - {id};
        return Open(key, encrypted, ToBytes(header)), 0;
      }
      // 2. A new remote key means a DH ratchet step
      var needRatchet := remoteDhPublic != Some(header.dhPublicKey);
      ghost var before := 0;
      if needRatchet {
        var ok;
        ok, before := SkipCurrentReceivingChain(header.previousChainLength);
        if !ok {
          return Err(SkipLimit), before;
        }
        RatchetTo(header.dhPublicKey, drawn);
      }
      // 3. and 4. Skip ahead and try the key of this message
      r, advances := ReceiveOnChain(header, encrypted, needRatchet, before);
    }
  }
}
