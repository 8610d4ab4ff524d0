# The Double Ratchet sessions of GhostCrypt, modelled and proved in Dafny

This project models the session state machine of `src/ratchet/` and the key agreement of `src/x3dh/mod.rs` that seeds
it, and proves what they guarantee: to one session in any run, to two sessions over a network that loses and reorders,
and to two sessions over a network that also replays, reflects and invents. The program follows "The Double Ratchet
Algorithm" (sections 2.6 and 3.3 to 3.5) and "The X3DH Key Agreement Protocol" (sections 3.3 and 3.4).

`dafny verify dfyconfig.toml` checks all of it.

## How it is laid out

| file | what it holds |
|---|---|
| `Wrappers.dfy` | `Option`, `Result` and the error kinds |
| `SymbolicCrypto.dfy` | keys, Diffie-Hellman outputs and ciphertexts as free terms |
| `MessageHeader.dfy` | the header, its printed JSON form and a parser that undoes it |
| `SessionSpec.dfy` | one call on a session, as functions on values |
| `Session.dfy` | `ChainKey` and `Session` as objects updated in place, proved against those functions |
| `SkipLimits.dfy` | when the skip limit is hit, and the bounds on storage and work |
| `KeyDiscipline.dfy` | the invariant on message keys; forward secrecy, and healing by one ratchet |
| `SessionRuns.dfy` | runs of one session with arbitrary headers and ciphertexts |
| `Healing.dfy` | healing after a compromise, over whole runs: secrecy, and authenticity with it |
| `HostileNetwork.dfy` | two sessions over a hostile network |
| `KeySchedule.dfy`, `Lockstep.dfy` | the schedule two honest parties share, and the invariant that ties both sessions to it |
| `Delivery.dfy` | exact delivery, conservation and recovery over honest runs |
| `Interference.dfy` | exactly which deliveries, of any header and ciphertext, the lockstep survives |
| `Guarantee.dfy` | the delivery guarantee over all later honest runs, and that it survives exactly the same deliveries |
| `Loss.dfy`, `Forgery.dfy` | what any header can cost for good |
| `Redelivery.dfy` | the same for a second delivery of an accepted message |
| `OrderIndependence.dfy` | waiting messages delivered in any order, across a ratchet too |
| `X3dh.dfy`, `EndToEnd.dfy` | key agreement, and delivery from key agreement onward |

## How it models the program

- **Objects.** `Session.Session` has the fields of the Rust struct and the same methods; each equals, on the object's
  `View()`, a step function of `SessionSpec`. The properties are proved about those functions, so they hold of the
  objects. A state change made before an error stays, as in the program: there is no rollback.
- **Cryptography.** A byte string is a term that says how it was computed (`Raw`, `Text`, `Okm`, `Mac`). A
  Diffie-Hellman output is the unordered pair of public keys. A ciphertext opens only under the key, nonce and
  associated data it was sealed with. No axioms are used.
- **Randomness.** Every drawn key pair and nonce is a parameter. Where a theorem needs fresh keys it says so.
- **Key schedule.** `keys` lists both parties' ratchet keys in the order drawn: the responder's signed pre-key, the
  initiator's first key, and so on in turns. A party at epoch k owns key k, has root k, sends on chain k and
  receives on chain k - 1. Lockstep means that the two epochs are one apart and both sessions hold exactly the
  schedule's keys for theirs.

## What the code does not do

Three things one might expect are false of the code. The exact condition is proved for each.

- **The map of stored keys can hold more than `MAX_SKIP` keys**, against the comment at `src/ratchet/state.rs:10`: the
  limit is tested after the insertion (`LimitExceededAtOnce`). A call ends within it exactly when the keys to store fit, or
  it uses up a stored key of at most one too many (`EndsWithinLimitIff`), and the excess over a whole run is at most the
  number of skip-limit errors (`StorageBound`).
- **A duplicate is not harmless, nor is an invented header.** Nothing checks for a number that the receiving chain has
  passed, and the state changes before anything is authenticated. Deliver a session's first message twice and the
  second message is lost (`DuplicateLosesNext`). One header with an invented ratchet key, before anything else arrives,
  and the responder never accepts anything from the initiator (`FirstHeaderForged`).
  - `Guarantee.GuaranteeExactly` says, for any header and any ciphertext the network can present, exactly when everything
    is still delivered as it should be, in both directions and over every honest run from then on: it was a message of the
    peer not accepted yet, or the call loses nothing (`LosesNothing`). The guarantee is the one `DeliveryExactly` proves:
    the plaintext if the keys to store fit beside those stored by then, else the skip-limit error.
  - What is lost otherwise, in every later run: the message whose key the call takes (`TakenKeyIsLost`), or with a ratchet
    to any key but the peer's own, everything but what was stored by then (`AstrayCutsOff`).
  - For a duplicate, with i the index of the receiving chain and n the number of stored keys: one from an old chain costs
    nothing exactly if its previous chain length p has i < p and n + (p - i) > 100, so that the limit stops it; one on
    the current chain exactly if the peer has moved on and i is at least the number of messages it sent there
    (`DuplicateSurvivedIff`). The first kind may store keys of messages not sent yet, which costs no message
    (`DuplicateStalls`).
- **The two sides of X3DH agree only on the same choice of one-time pre-key** (`AgreeIff`). The bindings always respond
  without one (`src/api.rs:267`, `src/wasm.rs:338`), so there the secrets differ whenever the bundle carried one.

## Model

| member | source | states |
|---|---|---|
| `MessageHeader.HeaderRoundTrip` | src/ratchet/header.rs:33-35 | a JSON parser recovers every header from its printed form |
| `MessageHeader.FieldsByName` | src/ratchet/header.rs:6-14 | a search of the printed text for each of the three field names, given literally, finds that field's value |
| `MessageHeader.PrintedExample` | src/ratchet/header.rs:33-35 | one header printed in full, character by character |
| `MessageHeader.ToBytesInjective` | src/ratchet/header.rs:6-14 | equal associated data means equal key, number and previous length, so a ciphertext that opens fixes all three fields |
| `SymbolicCrypto.DhAgrees` | src/ratchet/dh_ratchet.rs:35-37 | both ends of an exchange compute the same output, and different partners give different outputs |
| `SymbolicCrypto.RootStepInFull` | src/ratchet/dh_ratchet.rs:10-25 | a root step is HKDF of the exchange with the root key as salt under the literal ratchet label, all 64 bytes, new root first and chain second |
| `Session.ChainKey.Advance` | src/ratchet/chain.rs:17-22 | replaces the chain key, counts one up and returns the message key, as the pure schedule step does |
| `Session.Session.InitAlice` | src/ratchet/state.rs:41-59 | the initiator's complete starting state: one root step taken, a sending chain, no receiving chain |
| `Session.Session.InitBob` | src/ratchet/state.rs:66-82 | the responder's complete starting state: his signed pre-key as ratchet key, no chains |
| `Session.Session.Encrypt` | src/ratchet/state.rs:89-108 | the complete new state, header and ciphertext, with the nonce drawn for it, or the error without a sending chain |
| `Session.Session.Decrypt` | src/ratchet/state.rs:114-188 | the complete new state and outcome on every path, changes made before an error included, and the number of chain advances |
| `Session.Session.RatchetTo` | src/ratchet/state.rs:139-164 | both root steps in order, both chains replaced, the length of the old sending chain kept |
| `Session.Session.ReceiveOnChain` | src/ratchet/state.rs:167-187 | skipping ahead on the current chain, then trying the next key |
| `Session.Session.SkipTo` | src/ratchet/state.rs:171-205 | the skip loop refines the recursive step function, error exit included; it counts its own advances |
| `Session.Session.SkipCurrentReceivingChain` | src/ratchet/state.rs:192-209 | the rest of the old chain is stored under the old remote key, or nothing happens |
| `SessionSpec.ResponderMustWait` | src/ratchet/state.rs:90-91 | a new responder cannot encrypt: the missing-chain error, and nothing changes |
| `SessionSpec.InitiatorHasNoChain` | src/ratchet/state.rs:168-169 | a new initiator offered a header with the signed pre-key: the missing-chain error, and nothing changes |
| `SkipLimits.SkipToStores` | src/ratchet/state.rs:171-180 | a skip loop stores exactly the numbers it passes, touches no other entry, and without an error stops exactly at its goal |
| `SkipLimits.SkipToFailsIff` | src/ratchet/state.rs:196-205 | a skip loop fails exactly if it has something to store and the map with all of it would exceed the limit |
| `SkipLimits.LimitErrorIff` | src/ratchet/state.rs:119-205 | a decryption ends in the skip-limit error exactly if the keys it must store, read off the header and the state before, do not fit; for every state and header |
| `SkipLimits.StorageAfterDecrypt` | src/ratchet/state.rs:173-204 | with a skip-limit error the map is over the limit, by at most one more than before; otherwise it is no larger than before or within the limit |
| `SkipLimits.EndsWithinLimitIff` | src/ratchet/state.rs:10-11 | exactly when a call ends with at most `MAX_SKIP` stored keys, from any state, those over the limit too |
| `SkipLimits.LimitExceededAtOnce` | src/ratchet/state.rs:173-179 | a concrete first header after which the map holds 101 keys |
| `SkipLimits.FirstHeaderLimitIff` | src/ratchet/state.rs:10-11 | of the numbers in a first header, exactly those above 100 meet the limit |
| `SkipLimits.AdvancesExactly` | src/ratchet/state.rs:167-187 | where the keys to store are new, each chain advance stores one key, but for the last, whose key is tried |
| `SkipLimits.WorkBound` | src/ratchet/state.rs:135-205 | at most `MAX_SKIP` + 1 chain advances in one decryption, over both loops, for every state and header |
| `KeyDiscipline.NextKeyIsNew` | src/ratchet/chain.rs:17-22 | the next key of either chain was never used and is not stored |
| `KeyDiscipline.DecryptKeeps` | src/ratchet/state.rs:114-188 | any decryption keeps the discipline of all message keys; the key it tries was never used before |
| `KeyDiscipline.UsedKeysHidden` | src/ratchet/state.rs:17-34 | no used key is in the derivation closure of everything a disciplined session holds, even with Diffie-Hellman secrets known |
| `KeyDiscipline.HoldingsSuffice` | src/ratchet/state.rs:89-187 | every key a session encrypts with or tries next can be derived from its holdings and its ratchet secret, so the holdings leave nothing out |
| `KeyDiscipline.DerivableIsClosed` | src/kdf/mod.rs:8-29 | the derivation closure contains what is known and is closed under HKDF and HMAC |
| `KeyDiscipline.DerivableIsLeast` | src/kdf/mod.rs:8-29 | the derivation closure used above is the least one: any property closed under HKDF and HMAC holds of all it contains |
| `KeyDiscipline.RatchetHeals` | src/ratchet/state.rs:139-164 | whoever knows all a session holds, its ratchet secret too, can derive neither the next root nor any key of the new sending chain |
| `SessionRuns.KeysNeverReused` | src/ratchet/state.rs:89-188 | in every run with arbitrary headers all keys encrypted with or tried are different |
| `SessionRuns.ForwardSecrecy` | src/ratchet/state.rs:17-34 | after every run with arbitrary headers no key used in it can be derived from what the session then holds |
| `SessionRuns.Isolation` | tests/integration_test.rs:185-232 | sessions started from unrelated secrets accept nothing of each other, in any two runs |
| `SessionRuns.StorageBound` | src/ratchet/state.rs:173-204 | in every run the stored keys are at most `MAX_SKIP` plus the skip-limit errors so far |
| `SessionRuns.IndexBound` | src/ratchet/chain.rs:17-22 | no counter passes 101 per call, so no 32-bit index can wrap in a run of up to 42,524,428 calls, whatever the headers |
| `SessionRuns.FreshIff` | src/ratchet/state.rs:151-158 | what a run with fresh keys is: each ratchet key pair is new to the session when it is drawn |
| `SessionRuns.SentHistory` | src/ratchet/state.rs:89-164 | in every run with fresh keys, messages under each ratchet key are numbered 0, 1, 2, ... and each header states exactly how many were sent under the key before |
| `SessionRuns.HeadersDiffer` | src/ratchet/state.rs:96-100 | no two messages of a session share a ratchet key and a number |
| `SessionRuns.SentAsEncrypted` | src/aead/mod.rs:15-34 | in every run what is sent is what was encrypted, in order: each text, and beside and in each ciphertext the nonce drawn for it |
| `SessionRuns.SameNonceIff` | tests/integration_test.rs:145-151 | two messages carry the same nonce exactly if the same nonce was drawn for both |
| `Healing.HealingLasts` | src/ratchet/state.rs:89-188 | once a session is healed, every later key of a healed level, every key it sends under and its root stay hidden in every later run, whoever learns the ratchet keys drawn there |
| `Healing.CompromiseHeals` | README.md:48-48 | post-compromise security over runs: a session is compromised, runs on, ratchets with two unknown keys, and runs on; from then on all it sends under, and all keys of that level or later, are hidden from whoever knew everything it held |
| `Healing.HealedAgreement` | src/ratchet/state.rs:139-188 | authenticity after a compromise: once healed, whatever the network makes of all it has learned, everything accepted under a key of a healed level was sent by the other party, header, ciphertext and plaintext, each message once |
| `HostileNetwork.OutsiderMakesNoKeys` | src/kdf/mod.rs:8-29 | whoever cannot compute the shared secret cannot compute anything made from it |
| `HostileNetwork.Agreement` | src/ratchet/state.rs:89-188 | injective agreement: in every run against a network that seals under any key it can compute, what a party accepts maps one to one into what the other encrypted, header, ciphertext and plaintext unchanged; nothing of its own is reflected |
| `HostileNetwork.HeadersUnique` | src/ratchet/state.rs:89-164 | in every run with fresh keys (ratchet key, number) names one message of the whole system |
| `KeySchedule.SkipToKeys` | src/ratchet/state.rs:171-180 | every key a skip loop stores is the schedule's key for its number, even if the loop stops at the limit |
| `KeySchedule.RatchetKeepsConserved` | src/ratchet/state.rs:135-165 | a ratchet that passes over nothing sent keeps conservation, on the longer schedule |
| `KeySchedule.RatchetOnSchedule` | src/ratchet/state.rs:139-164 | one ratchet takes a session at epoch k to exactly the schedule's root and chains for epoch k + 2 |
| `Lockstep.DecryptHonest` | src/ratchet/state.rs:114-188 | an undelivered honest message, on an old, the current or the next chain, gives its plaintext exactly if the keys it needs fit, else the skip-limit error with an exact number of keys stored; the receiving half of the invariant holds after either |
| `Lockstep.SendKeepsLink` | src/ratchet/state.rs:89-108 | an encryption keeps the joint invariant of both sessions |
| `Lockstep.DeliveryKeepsLink` | src/ratchet/state.rs:114-188 | a delivery keeps the joint invariant, on the longer schedule if it ratchets |
| `Delivery.StartInLockstep` | src/ratchet/state.rs:41-82 | two sessions set up with one secret and a matching signed pre-key are in lockstep |
| `Delivery.RunsInLockstep` | src/ratchet/state.rs:89-188 | every run with loss and reordering stays in lockstep: epochs one apart, roots and chains the schedule's, no sending chain missed |
| `Delivery.DeliveryExactly` | src/ratchet/state.rs:114-209 | after every such run, a message not yet accepted gives exactly its plaintext if stored keys plus needed skips are at most `MAX_SKIP` (or none are needed), else the skip-limit error; never another error |
| `Delivery.FirstArrival` | src/ratchet/state.rs:171-187 | between two sessions just set up, the message that arrives first is read if at most 100 come before it, and meets the limit if more do |
| `Delivery.HonestIsHostile` | src/ratchet/state.rs:89-188 | every run with loss and reordering is among those of the hostile network, whatever that knows |
| `Lockstep.DecryptLimit` | src/ratchet/state.rs:171-205 | for honest messages the limit is hit exactly when the counted skips on the old and the new chain do not fit |
| `SkipLimits.SkipToExactly` | src/ratchet/state.rs:171-180 | where the keys to store are new, the end of a skip loop in numbers: whether it stops, where, and how large the map is then |
| `SkipLimits.NewKeysLimitExactly` | src/ratchet/state.rs:171-205 | the same for a whole decryption over both loops |
| `Delivery.HonestRunsGuarded` | src/ratchet/state.rs:89-188 | every run with loss and reordering also keeps the key discipline and accepts only what was sent |
| `Delivery.LockstepDelivers` | src/ratchet/state.rs:114-209 | from lockstep the delivery guarantee holds over every honest run, in both directions |
| `Delivery.RunsTimely` | src/ratchet/state.rs:171-205 | over every such run no stored key and no chain gets ahead of what was sent |
| `Delivery.Conservation` | src/ratchet/state.rs:119-209 | after every such run and on every incoming chain, derived numbers are the disjoint union of delivered and stored ones, and each stored key is the schedule's |
| `Delivery.FailedAttempt` | src/ratchet/state.rs:171-209 | one attempt at an unaccepted message delivers it if the keys it needs fit, or else hits the limit with an exact number of skips fewer left, still in lockstep |
| `Delivery.Recovery` | src/ratchet/state.rs:135-209 | offering a message again after a skip-limit error ends in its plaintext after exactly `Retries` failures (skips needed minus the room left in the map), with at most one ratchet, in lockstep throughout |
| `Interference.FailureReceivesIff` | src/ratchet/state.rs:119-187 | at the receiver: a failed decryption of anything keeps its schedule and conservation exactly if it lost nothing, in numbers known before the call |
| `Interference.OnlyUndeliveredAccepted` | src/ratchet/state.rs:119-187 | what is accepted is, in header and ciphertext, a message of the peer not accepted before |
| `Interference.LockstepSurvivesIff` | src/ratchet/state.rs:119-187 | for every header and presentable ciphertext: the lockstep survives exactly if it is an undelivered message of the peer or the call loses nothing |
| `Interference.InterferenceExactly` | src/ratchet/state.rs:114-188 | the same after every run with loss and reordering of two sessions just set up |
| `Guarantee.TriesFixed` | src/ratchet/state.rs:119-187 | which key a session will try for a header is fixed by its state; a skip-limit error changes nothing but how much is still to be skipped |
| `Guarantee.LostBreaks` | src/ratchet/state.rs:114-209 | if for a message sent or yet to be sent another key would be tried, some honest run ends in a failure that is not the skip limit |
| `Guarantee.GuaranteeSurvivesIff` | src/ratchet/state.rs:114-209 | from lockstep, for every header and presentable ciphertext: exact delivery over all later honest runs survives exactly if it is an undelivered message of the peer or the call loses nothing |
| `Guarantee.GuaranteeExactly` | src/ratchet/state.rs:114-209 | the same after every run with loss and reordering of two sessions just set up |
| `Loss.UsedKeysStayClosed` | src/ratchet/state.rs:119-187 | a key once encrypted with or tried opens nothing in any later run |
| `Loss.CutOff` | src/ratchet/state.rs:139-164 | after a root step its peer never takes, a session accepts nothing of the peer's in any later run of both but what it had keys stored for |
| `Loss.ScheduleAvoidsStep` | src/ratchet/state.rs:139-164 | a root step of key k with any key that is not its neighbour on the schedule is in no root and no chain of it |
| `Forgery.TakenKeyIsLost` | src/ratchet/state.rs:119-187 | a header with the name of a stored key or a number on the current chain, whatever its ciphertext: the message whose key it takes was not accepted before and is accepted in no later run |
| `Forgery.AstrayCutsOff` | src/ratchet/state.rs:130-165 | a header with any ratchet key but the peer's own that the limit does not stop: nothing of the peer's is accepted in any later run but what was stored by then |
| `Forgery.FirstHeaderForged` | src/ratchet/state.rs:130-165 | from two sessions just set up: one header with an invented ratchet key, and the responder accepts nothing the initiator ever sends |
| `Redelivery.BehindFails` | src/ratchet/state.rs:167-187 | a message the chain has passed and whose key is gone fails, tries the next key and moves the chain one further |
| `Redelivery.DuplicateLosesNext` | src/ratchet/state.rs:119-187 | the shortest loss, between two sessions just set up: message 0 delivered twice makes message 1 unreadable, which it is not otherwise |
| `Redelivery.DuplicateSurvivedIff` | src/ratchet/state.rs:130-187 | the delivery guarantee over all later honest runs, and the lockstep with it, survives a duplicate exactly if the limit stops it before a ratchet, or nothing that was or will be sent is left on its chain |
| `Redelivery.DuplicateOnCurrentLoses` | src/ratchet/state.rs:167-187 | a duplicate on the current chain loses the message at the chain's index: it was not accepted before and is accepted in no later run of the two |
| `Redelivery.DuplicateOnOldCutsOff` | src/ratchet/state.rs:130-165 | a duplicate from an old chain that ratchets: no message of the peer is accepted in any later run of the two unless its key was stored by then |
| `Redelivery.DuplicateStalls` | src/ratchet/state.rs:192-209 | a duplicate from an old chain that the limit stops keeps the delivery guarantee, even where it stores a key for a message not sent yet |
| `OrderIndependence.RatchetSettles` | src/ratchet/state.rs:135-165 | deliveries before a ratchet and after it settle in the same state |
| `OrderIndependence.DeliverAll` | src/ratchet/state.rs:119-187 | readable messages of old chains, the current and the next, in any one order, all give their plaintexts, and the final session is a function of the set of their names |
| `OrderIndependence.OrderDoesNotMatter` | src/ratchet/state.rs:119-187 | two orders of the same readable messages give the same plaintexts and the same session |
| `OrderIndependence.UndeliveredAwait` | tests/ratchet_tests.rs:83-94 | any choice of undelivered messages that each fit now satisfies what order independence asks of them |
| `OrderIndependence.AnyOrder` | tests/ratchet_tests.rs:83-94 | after every run with loss and reordering, any messages of the peer not accepted yet that each fit now can be delivered in any order: every plaintext, and the same final session |
| `X3dh.Initiate` | src/x3dh/mod.rs:20-67 | succeeds exactly for a signature by the bundle's own verifying key over its own signed pre-key; the secret is HKDF with the literal salt and label of DH1, DH2, DH3 and, with a one-time pre-key, DH4, each given by its two public keys, in this order |
| `X3dh.Respond` | src/x3dh/mod.rs:72-107 | the same secret in full from the responder's side, DH4 exactly if a one-time pre-key is given |
| `X3dh.RootStepsAreNoAgreements` | src/ratchet/dh_ratchet.rs:14-19 | domain separation: no root step, from any root key and exchange, gives the secret of an agreement |
| `X3dh.AgreeIff` | src/x3dh/mod.rs:39-101 | for the responder's bundle both sides derive equal secrets exactly if they make the same choice of one-time pre-key |
| `X3dh.AgreementsUnrelated` | tests/x3dh_tests.rs:62-89 | agreements that differ in any exchange give unrelated secrets |
| `X3dh.AgreementSecretIff` | src/x3dh/mod.rs:39-61 | who can compute the secret of an agreement: with the ephemeral secret, exactly who also has the initiator's identity or the signed pre-key secret; without it, exactly who has all the responder's secrets that went in |
| `EndToEnd.PublishedMatches` | tests/x3dh_tests.rs:9-15 | a responder's own published bundle meets what the results below ask, exactly if the signed pre-key's halves belong together |
| `EndToEnd.AgreedInLockstep` | src/x3dh/mod.rs:20-107 | the sessions built from the two sides' own secrets start in lockstep, with and without a one-time pre-key |
| `EndToEnd.AgreedThenDelivered` | src/ratchet/state.rs:41-209 | exact delivery holds from key agreement onward, over every run with loss and reordering |
| `EndToEnd.AgreementsIsolated` | tests/integration_test.rs:185-232 | sessions built on two different agreements accept nothing of each other, in any two runs |
| `EndToEnd.OutsideIff` | src/x3dh/mod.rs:39-61 | a network that knows some secrets is outside an agreement exactly if it does not know enough of what went into it |
| `EndToEnd.AgreedThenAuthentic` | src/x3dh/mod.rs:20-107 | injective agreement holds from key agreement onward, against a network that knows any secrets but not enough to compute the agreement's |
| `EndToEnd.FirstMessage` | tests/ratchet_tests.rs:3-51 | on the objects themselves: agreement, two sessions and a first message that arrives exactly if the bundle's signature verifies |

## Left out

- `src/mls/mod.rs`: a wrapper around OpenMLS, whose protocol is in that library.
- `src/api.rs` and `src/wasm.rs`: bindings, encodings and handle maps; only easy lookups.
- `src/pqc/hybrid_kem.rs`: straight-line; its agreement follows from that of its two parts.
- `src/identity/keys.rs` and `src/aead/mod.rs` beyond key pairs, signatures and ideal sealing: length checks and accessors.
- The inside of AES-GCM, X25519, Ed25519, HKDF and HMAC: terms are free, so collisions, probabilities, small-order points,
  the encodings X25519 treats as the same point, and ciphertexts that open under two keys are not captured.
- Panics on malformed lengths: a header key that is not 32 bytes (src/ratchet/header.rs:28) and a nonce that is not 12
  bytes (src/aead/mod.rs:40).
- Errors that the fixed lengths rule out (HKDF output size, HMAC key, message key length).
- Randomness and erasure: fresh keys are a hypothesis where needed; a value that is overwritten is taken to be gone.
- Concurrency: a session is used through an exclusive borrow, so its calls never overlap.
- `Session.ChainKey.Advance`: counts in unbounded numbers, because `SessionRuns.IndexBound` shows the 32-bit counter
  cannot wrap in any run of up to 42,524,428 calls.
- `Session.Session.Decrypt`: takes the key pair it may draw as a parameter, because randomness is not modelled; its two skip
  loops are one method and its ratchet and last steps are two more.
- `HostileNetwork.Agreement`: the network is given no byte string made from the shared secret and cannot compute that secret,
  because with either it could write messages of its own; it may know anything else, ratchet secrets included.
- `OrderIndependence.AnyOrder`: both orders draw the same key pair if they ratchet, because the final sessions otherwise
  differ in that key.
- `SessionRuns.ForwardSecrecy`: the shared secret itself must not be derivable from the known Diffie-Hellman secrets, because
  every key grows from it; `X3dh.AgreementSecretIff` says exactly when it is not.
- `SessionRuns.Isolation`: asks that neither secret lies inside the other, because a secret that is itself a root of the other session
  shares its keys; X3DH secrets never do, which gives `EndToEnd.AgreementsIsolated`.
- `EndToEnd.AgreedInLockstep`: asks that the signed pre-key's two halves belong together, because
  `SignedPreKey::from_bytes` (src/identity/keys.rs:158-165) does not check it.
