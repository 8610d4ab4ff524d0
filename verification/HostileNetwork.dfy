/**
 Two sessions joined by a network that drops, reorders, replays and reflects messages, and mixes or invents headers.
 It can also seal whatever it likes under any key it can compute. All that is asked is that what it knows does not
 give away the two parties' shared secret.
 */
module HostileNetwork {
  import opened SymbolicCrypto
  import opened MessageHeader
  import opened SessionSpec
  import opened KeyDiscipline
  import opened SessionRuns

  datatype Party = Alice | Bob

  function Other(who: Party): Party {
    if who == Alice then Bob else Alice
  }

  /** `keys` lists every ratchet key either party has had, in the order they came up. */
  datatype System = System(alice: Peer, bob: Peer, keys: seq<PublicKey>)

  datatype Action = Action(who: Party, call: Call)

  function At(sys: System, who: Party): Peer {
    if who == Alice then sys.alice else sys.bob
  }

  predicate HasKeys(sys: System) {
    |sys.alice.own| > 0 && |sys.bob.own| > 0
  }

  function Step(sys: System, a: Action): (sys': System)
    requires HasKeys(sys)
    ensures HasKeys(sys')
  {
    var p := At(sys, a.who);
    var p' := Act(p, a.call);
    var keys' := sys.keys + p'.own[|p.own|..];
    if a.who == Alice then System(p', sys.bob, keys') else System(sys.alice, p', keys')
  }

  function Run(sys: System, actions: seq<Action>): (sys': System)
    requires HasKeys(sys)
    ensures HasKeys(sys')
    decreases |actions|
  {
    if actions == [] then sys else Step(Run(sys, actions[..|actions| - 1]), actions[|actions| - 1])
  }

  /** Two sessions just set up: the initiator knows the responder's signed pre-key, and both the shared secret. */
  function Start(secret: Bytes, spk: SignedPreKey, drawn: Secret): System {
    System(NewAlice(secret, spk.public, drawn), NewBob(secret, spk), [spk.public, drawn.public])
  }

  // ---------- What the network may do ----------

  ghost predicate WasSent(sent: seq<Sent>, c: Sealed) {
    exists n :: 0 <= n < |sent| && sent[n].encrypted.ciphertext == c
  }

  /** What the network knows besides what is sent: some byte strings, and some Diffie-Hellman secrets. */
  datatype Knowledge = Knowledge(bytes: set<Bytes>, secrets: set<Secret>)

  ghost predicate CanCompute(net: Knowledge, b: Bytes) {
    Derivable(net.bytes, net.secrets, b)
  }

  /** The network is no party to a shared secret: it cannot compute it, and was not handed anything made from it. */
  ghost predicate Outside(net: Knowledge, secret: Bytes) {
    !CanCompute(net, secret) && forall b :: b in net.bytes ==> !GrowsFrom(secret, b)
  }

  /** A ciphertext the network can present: one that was sent, by either party, or one under a key it can compute. */
  ghost predicate Presentable(net: Knowledge, sys: System, c: Sealed) {
    || WasSent(sys.alice.sent, c)
    || WasSent(sys.bob.sent, c)
    || CanCompute(net, c.key)
  }

  ghost predicate HostileMay(net: Knowledge, sys: System, a: Action) {
    a.call.Decrypt? ==> Presentable(net, sys, a.call.encrypted.ciphertext)
  }

  ghost predicate HostileRun(net: Knowledge, sys: System, actions: seq<Action>)
    requires HasKeys(sys)
    decreases |actions|
  {
    actions == [] || (HostileRun(net, sys, actions[..|actions| - 1])
                      && HostileMay(net, Run(sys, actions[..|actions| - 1]), actions[|actions| - 1]))
  }

  predicate DrawsNew(sys: System, a: Action) {
    a.call.Decrypt? ==> a.call.drawn.public !in sys.keys
  }

  /** The key pairs drawn in the run are new to both parties. */
  ghost predicate FreshActions(sys: System, actions: seq<Action>)
    requires HasKeys(sys)
    decreases |actions|
  {
    actions == [] || (FreshActions(sys, actions[..|actions| - 1])
                      && DrawsNew(Run(sys, actions[..|actions| - 1]), actions[|actions| - 1]))
  }

  /** Whoever can compute something that grows from the shared secret can compute the shared secret. */
  lemma {:induction false} OutsiderMakesNoKeys(net: Knowledge, secret: Bytes, b: Bytes)
    requires Outside(net, secret) && CanCompute(net, b)
    ensures !GrowsFrom(secret, b)
  {
    if b !in net.bytes {
      match b
      case Okm(_, salt, _, _) => OutsiderMakesNoKeys(net, secret, salt);
      case Mac(key, _) => OutsiderMakesNoKeys(net, secret, key);
      case _ =>
    }
  }

  /** It can present whatever was sent, and whatever it seals itself. */
  lemma CanPresent(net: Knowledge, sys: System, who: Party, key: Bytes, nonce: nat, text: Plaintext, data: string)
    ensures forall n :: 0 <= n < |At(sys, who).sent| ==>
              Presentable(net, sys, At(sys, who).sent[n].encrypted.ciphertext)
    ensures key in net.bytes ==> Presentable(net, sys, Seal(key, nonce, text, data).ciphertext)
    ensures CanCompute(net, key) ==> Presentable(net, sys, Seal(key, nonce, text, data).ciphertext)
  {
    forall n | 0 <= n < |At(sys, who).sent|
      ensures WasSent(At(sys, who).sent, At(sys, who).sent[n].encrypted.ciphertext)
    {
    }
  }

  // ---------- The invariant ----------

  ghost predicate FromPeer(accepted: seq<Accepted>, sent: seq<Sent>) {
    forall i :: 0 <= i < |accepted| ==> WasSent(sent, accepted[i].encrypted.ciphertext)
  }

  ghost predicate Guarded(secret: Bytes, sys: System) {
    && Sound(secret, sys.alice) && Sound(secret, sys.bob)
    && FromPeer(sys.alice.accepted, sys.bob.sent) && FromPeer(sys.bob.accepted, sys.alice.sent)
  }

  lemma StartGuarded(secret: Bytes, spk: SignedPreKey, drawn: Secret)
    ensures Guarded(secret, Start(secret, spk, drawn))
  {
    var sys := Start(secret, spk, drawn);
    assert IsNew(secret, sys.alice) && IsNew(secret, sys.bob);
    NewPeersSound(secret, sys.alice);
    NewPeersSound(secret, sys.bob);
  }

  /** A call never takes back what was sent, and a decryption sends nothing. */
  lemma SentGrows(p: Peer, call: Call)
    requires |p.own| > 0
    ensures p.sent <= Act(p, call).sent
    ensures call.Decrypt? ==> Act(p, call).sent == p.sent
    ensures call.Encrypt? ==> Act(p, call).accepted == p.accepted && Act(p, call).own == p.own
  {
  }

  lemma NewlyAccepted(p: Peer, call: Call)
    requires |p.own| > 0
    ensures var p' := Act(p, call);
            || p'.accepted == p.accepted
            || (call.Decrypt? && |p'.accepted| == |p.accepted| + 1 && p'.accepted[..|p.accepted|] == p.accepted
                && p'.accepted[|p.accepted|].encrypted == call.encrypted)
  {
  }

  /** An accepted ciphertext that the network could present can only be one the peer sent. */
  lemma PresentedByPeer(secret: Bytes, p: Peer, i: nat, q: Peer)
    requires Sound(secret, p) && i < |p.accepted|
    requires var c := p.accepted[i].encrypted.ciphertext;
             WasSent(p.sent, c) || WasSent(q.sent, c) || !GrowsFrom(secret, c.key)
    ensures WasSent(q.sent, p.accepted[i].encrypted.ciphertext)
  {
    OnlyOwnSecretOpens(secret, p, i);
  }

  lemma FromPeerGrows(accepted: seq<Accepted>, sent: seq<Sent>, sent': seq<Sent>)
    requires FromPeer(accepted, sent) && sent <= sent'
    ensures FromPeer(accepted, sent')
  {
    forall i | 0 <= i < |accepted|
      ensures WasSent(sent', accepted[i].encrypted.ciphertext)
    {
      assert WasSent(sent, accepted[i].encrypted.ciphertext);
      var n :| 0 <= n < |sent| && sent[n].encrypted.ciphertext == accepted[i].encrypted.ciphertext;
      assert sent'[n] == sent[n];
    }
  }

  /** The ciphertext was sent, by either party, or has nothing to do with the shared secret. */
  ghost predicate SentOrForeign(secret: Bytes, sys: System, c: Sealed) {
    WasSent(sys.alice.sent, c) || WasSent(sys.bob.sent, c) || !GrowsFrom(secret, c.key)
  }

  lemma PresentableIsSentOrForeign(secret: Bytes, net: Knowledge, sys: System, c: Sealed)
    requires Outside(net, secret) && Presentable(net, sys, c)
    ensures SentOrForeign(secret, sys, c)
  {
    if CanCompute(net, c.key) {
      OutsiderMakesNoKeys(net, secret, c.key);
    }
  }

  /** What a party accepts was sent by the other: its own keys and foreign keys never open anything for it. */
  lemma AcceptedComesFromPeer(secret: Bytes, sys: System, a: Action)
    requires HasKeys(sys) && Guarded(secret, sys)
    requires a.call.Decrypt? ==> SentOrForeign(secret, sys, a.call.encrypted.ciphertext)
    ensures FromPeer(Act(At(sys, a.who), a.call).accepted, At(sys, Other(a.who)).sent)
  {
    var p, q := At(sys, a.who), At(sys, Other(a.who));
    var p' := Act(p, a.call);
    SentGrows(p, a.call);
    ActKeepsSound(secret, p, a.call);
    NewlyAccepted(p, a.call);
    if |p'.accepted| > |p.accepted| {
      PresentedByPeer(secret, p', |p.accepted|, q);
    }
  }

  lemma StepGuarded(secret: Bytes, sys: System, a: Action)
    requires HasKeys(sys) && Guarded(secret, sys)
    requires a.call.Decrypt? ==> SentOrForeign(secret, sys, a.call.encrypted.ciphertext)
    ensures Guarded(secret, Step(sys, a))
  {
    var p, q := At(sys, a.who), At(sys, Other(a.who));
    ActKeepsSound(secret, p, a.call);
    AcceptedComesFromPeer(secret, sys, a);
    SentGrows(p, a.call);
    FromPeerGrows(q.accepted, p.sent, Act(p, a.call).sent);
  }

  lemma {:induction false} RunsGuarded(secret: Bytes, net: Knowledge, sys: System, actions: seq<Action>)
    requires HasKeys(sys) && Guarded(secret, sys)
    requires Outside(net, secret) && HostileRun(net, sys, actions)
    ensures Guarded(secret, Run(sys, actions))
    decreases |actions|
  {
    if actions != [] {
      RunsGuarded(secret, net, sys, actions[..|actions| - 1]);
      var mid, a := Run(sys, actions[..|actions| - 1]), actions[|actions| - 1];
      if a.call.Decrypt? {
        PresentableIsSentOrForeign(secret, net, mid, a.call.encrypted.ciphertext);
      }
      StepGuarded(secret, mid, a);
    }
  }

  // ---------- What a hostile network cannot achieve ----------

  ghost function OriginOf(p: Peer, q: Peer, i: nat): (n: nat)
    requires FromPeer(p.accepted, q.sent) && i < |p.accepted|
    ensures n < |q.sent| && q.sent[n].encrypted.ciphertext == p.accepted[i].encrypted.ciphertext
  {
    assert WasSent(q.sent, p.accepted[i].encrypted.ciphertext);
    var n :| 0 <= n < |q.sent| && q.sent[n].encrypted.ciphertext == p.accepted[i].encrypted.ciphertext;
    n
  }

  /** `origin` assigns to each accepted message its own sent message, the same in header, ciphertext and plaintext. */
  ghost predicate Injects(origin: seq<nat>, accepted: seq<Accepted>, sent: seq<Sent>) {
    && |origin| == |accepted| && NoRepeats(origin)
    && forall i :: 0 <= i < |origin| ==>
         && origin[i] < |sent|
         && sent[origin[i]].header == accepted[i].header
         && sent[origin[i]].encrypted == accepted[i].encrypted
         && sent[origin[i]].plaintext == accepted[i].plaintext
  }

  lemma AgreementNow(p: Peer, q: Peer) returns (origin: seq<nat>)
    requires LedgerSound(p) && LedgerSound(q) && FromPeer(p.accepted, q.sent)
    ensures Injects(origin, p.accepted, q.sent)
  {
    origin := seq(
      |p.accepted|,
      (i: nat) requires i < |p.accepted| && FromPeer(p.accepted, q.sent) => OriginOf(p, q, i));
    forall i | 0 <= i < |origin|
      ensures q.sent[origin[i]].header == p.accepted[i].header
      ensures q.sent[origin[i]].plaintext == p.accepted[i].plaintext
    {
      ToBytesInjective(q.sent[origin[i]].header, p.accepted[i].header);
    }
  }

  /**
   Injective agreement: in every hostile run, what a party has accepted maps one to one into what the other party
   encrypted, header and plaintext unchanged, and nothing it encrypted itself is among it. So nothing is forged,
   nothing is accepted twice, and nothing is reflected.
   */
  lemma Agreement(
    secret: Bytes, spk: SignedPreKey, drawn: Secret, net: Knowledge, actions: seq<Action>, who: Party)
    returns (origin: seq<nat>)
    requires Outside(net, secret)
    requires HostileRun(net, Start(secret, spk, drawn), actions)
    ensures var sys := Run(Start(secret, spk, drawn), actions);
            var (p, q) := (At(sys, who), At(sys, Other(who)));
            && Injects(origin, p.accepted, q.sent)
            && forall i, n :: 0 <= i < |p.accepted| && 0 <= n < |p.sent| ==>
                 p.sent[n].encrypted.ciphertext != p.accepted[i].encrypted.ciphertext
  {
    StartGuarded(secret, spk, drawn);
    RunsGuarded(secret, net, Start(secret, spk, drawn), actions);
    var sys := Run(Start(secret, spk, drawn), actions);
    origin := AgreementNow(At(sys, who), At(sys, Other(who)));
  }

  // ---------- Names of messages ----------

  /** Every ratchet key has one owner, and each party's headers are numbered as they should be. */
  ghost predicate Numbered(sys: System) {
    && HistoryRight(sys.alice) && HistoryRight(sys.bob)
    && NoRepeats(sys.keys)
    && (forall k :: k in sys.alice.own ==> k in sys.keys && k !in sys.bob.own)
    && (forall k :: k in sys.bob.own ==> k in sys.keys)
  }

  lemma ActOwnKeys(p: Peer, call: Call)
    requires |p.own| > 0
    ensures Act(p, call).own == p.own || (call.Decrypt? && Act(p, call).own == p.own + [call.drawn.public])
  {
  }

  lemma StepNumbered(sys: System, a: Action)
    requires HasKeys(sys) && Numbered(sys) && DrawsNew(sys, a)
    ensures Numbered(Step(sys, a))
  {
    var p := At(sys, a.who);
    assert DrawsFresh(p, a.call);
    ActKeepsHistory(p, a.call);
    ActOwnKeys(p, a.call);
  }

  lemma {:induction false} RunsNumbered(sys: System, actions: seq<Action>)
    requires HasKeys(sys) && Numbered(sys) && FreshActions(sys, actions)
    ensures Numbered(Run(sys, actions))
    decreases |actions|
  {
    if actions != [] {
      RunsNumbered(sys, actions[..|actions| - 1]);
      StepNumbered(Run(sys, actions[..|actions| - 1]), actions[|actions| - 1]);
    }
  }

  lemma HeadersUniqueNow(sys: System, i: nat, j: nat)
    requires Numbered(sys) && i < |sys.alice.sent| && j < |sys.bob.sent|
    ensures Id(sys.alice.sent[i].header) != Id(sys.bob.sent[j].header)
  {
    assert HeaderRight(sys.alice, i) && HeaderRight(sys.bob, j);
    assert sys.alice.sent[i].header.dhPublicKey in sys.alice.own && sys.bob.sent[j].header.dhPublicKey in sys.bob.own;
  }

  /** In every run with fresh ratchet keys, no two messages of the whole system share a ratchet key and a number. */
  lemma HeadersUnique(secret: Bytes, spk: SignedPreKey, drawn: Secret, actions: seq<Action>)
    requires drawn.public != spk.public
    requires FreshActions(Start(secret, spk, drawn), actions)
    ensures var sys := Run(Start(secret, spk, drawn), actions);
            && (forall who, i, j :: 0 <= i < j < |At(sys, who).sent| ==>
                  Id(At(sys, who).sent[i].header) != Id(At(sys, who).sent[j].header))
            && (forall i, j :: 0 <= i < |sys.alice.sent| && 0 <= j < |sys.bob.sent| ==>
                  Id(sys.alice.sent[i].header) != Id(sys.bob.sent[j].header))
  {
    RunsNumbered(Start(secret, spk, drawn), actions);
    var sys := Run(Start(secret, spk, drawn), actions);
    forall who, i, j | 0 <= i < j < |At(sys, who).sent|
      ensures Id(At(sys, who).sent[i].header) != Id(At(sys, who).sent[j].header)
    {
      HeadersDiffer(At(sys, who), i, j);
    }
    forall i, j | 0 <= i < |sys.alice.sent| && 0 <= j < |sys.bob.sent|
      ensures Id(sys.alice.sent[i].header) != Id(sys.bob.sent[j].header)
    {
      HeadersUniqueNow(sys, i, j);
    }
  }
}
