# Threshold ECDSA: key generation, signing and the message relay

A model of the two message-passing protocols of the repository and proofs of what they guarantee, for any
number of parties and every interleaving.

**GG18 over a shared store.** Parties sign up for a number, publish under formatted keys, poll for everybody
else's entries and rebuild vectors with one slot for each party; five rounds make up key generation and ten
rounds signing. The main results: every interleaving agrees with one reference execution (`Rounds`,
`Machines`, `Agreement`); key generation routes every share to its owner and leaves matching key files
(`KeygenTheorem`); any t + 1 of its parties, in any order, compute the signature that a single holder of
the private key would compute (`SignTheorem`, `EndToEnd`); and all of them finish exactly under a stated
condition on the randomness and the message. For every check of the two protocols it is stated which answers pass,
whoever sent them (`Rejections`), and that whoever the peers are, a saved file is consistent and a returned
signature valid (`Soundness`).

**The GG20 relay.** Rooms with append-only logs, subscriptions that replay and follow them, an index counter
and a subscription counter, all 16 bits wide. The main results: no lost wake-up, subscriptions return slices
of the log, live rooms are current, indices are unique, each with its exact bound (`Relay`); who subscribes
again continues where it stopped (`Resumption`); the objects take
the steps of this model (`RelayServer`); and the online stage collects every partial signature exactly once
and always finishes (`Online`).

## How the model is laid out

- `Modular`, `Lagrange`, `Codec`, `Slots`, `Schedules`, `Vectors`, `Wrappers`: arithmetic modulo a prime,
  interpolation, bytes and hexadecimal text, slot arithmetic, in-place vectors.
- `Library`: contracts of the cryptographic library the source calls. A scalar is any integer of its residue
  class modulo the prime group order; a point is known by a representative of its discrete logarithm;
  equality of both is congruence. Commitments, proofs and ciphertexts are symbolic terms that open only for
  the value, statement and key they were made for, so a value in the wrong slot is noticed.
- `Ecdsa`: what a valid signature is, in terms of the signature equation.
- `StoreKeys`, `KeyTexts`, `Signups`, `Transport`, `Exchanges`, `Conversations`: names in the store and their texts, the signup
  counter, the store object, the send and poll loops, one round of a party and several in a row.
- `Rounds`, `Machines`, `Agreement`: the round structure common to key generation and signing, as a step system
  over arbitrary schedules, and its reference execution.
- `Keygen`, `KeygenSteps`, `KeygenProgram`, `KeyFiles`, `KeygenTheorem`: key generation as functions, as the
  imperative steps of the source, as a whole program, and the proofs.
- `Signing`, `Format`, `SignSteps`, `SignProgram`, `SignRun`, `MtaSums`, `SignProof`, `SignPhases`, `SignRounds`,
  `SignInvariants`, `SignTheorem`, `SignKeys`: the same for signing, and how many keys it needs.
- `Rejections`, `Soundness`: what a party refuses, and what it holds at the end among arbitrary peers.
- `Batches`, `Programs`, `EndToEnd`, `Examples`: whole programs among the peers of a run and all together, key
  generation followed by signing, concrete runs.
- `Relay`, `Resumption`, `Indices`, `RelayServer`, `Addressing`, `Online`: the relay, reconnecting clients, the indices
  it issues, its objects, the client's filter, and the clients of the online stage.

Methods carry the imperative parts of the source. Each is proved equal to a function (`AfterRound4` to
`Signing.Next5`, `SendToPeers` to `SentEntries`, the relay's objects to `Relay.Step`), and the theorems are
about these functions. A panic of the source is `None`.

## Conditions

- Signup is one step: between its read and its write there is no await, and the parties of a request share a
  task. `Signups.SignupsDiffer` says exactly when numbers differ otherwise. Slots are numbered in the order in which
  the parties sign up, which is a naming convention, not a restriction.
- Signing is modelled for t + 1 signers. The guard at src/api/ecdsa/gg_2018/centralized.rs:70 admits t keys
  although its message asks for t + 1; `SignKeys.AllReturn` says that all signers return only for t + 1, and
  `SignKeys.ThresholdKeysAreTooFew` that with t keys nobody ever does. A number beyond t + 1 leads to a panic
  (`SignProgram.Sign`, `SignSteps.AfterRound0`).
- The number of parties of key generation is below the group order, so that party numbers are different scalars.
- A whole program on its own relies on the others writing each message it polls for at most once and none under
  its keys (`Exchanges.WellBehaved`); for the peers of a run this is proved (`Batches.RunsBehaveWell`).
- Joining a room (lookup and subscription) is one step where stated; `Relay.SubscribeCurrent` says exactly what
  is lost otherwise.
- 16-bit counters wrap, as in the optimised build that the container image uses; where a property needs a
  bound, the exact bound is proved.
- `phase5c` is given the peers' vectors and sums their A without the own one; `phase5d` is given the full
  vectors and adds all B. This follows from the argument lists at src/ecdsa/gg_2018/sign.rs:340-349 and 412-417.

## Model

| member | source | states |
|---|---|---|
| EndToEnd.KeygenThenSign | src/api/ecdsa/gg_2018/centralized.rs:32-33 | Whatever the interleaving of key generation, whichever t + 1 of its finished parties sign and in whatever order and interleaving they do so, a signature that a signer returns verifies under the public key that every finished party of key generation saved, and 2 s is at most q. |
| SignTheorem.EveryRunSigns | src/ecdsa/gg_2018/sign.rs:432-447 | In every interleaving of t + 1 honest signers, a signer returns only if the randomness and the message are usable, and then it returns the one normalised ECDSA signature that a single holder of the private key x would make with the nonce 1/(sum of all k). Written out (FromNonce): r is the reduced x-coordinate of the nonce's point, nonce s is m + r x up to sign, and s is the smaller of the two, 2 s being at most q. |
| Ecdsa.SignatureShape | src/ecdsa/gg_2018/sign.rs:432-447 | What a single holder signs, written out in this way for every message, key and nonce: s is the smaller of the two solutions. |
| SignTheorem.FairSigningFinishes | src/ecdsa/gg_2018/sign.rs:61-447 | In every fair interleaving all signers return if and only if: neither the sum of all k, nor of all gamma, nor r, nor the final s is zero, and the message is below 2^256. |
| SignKeys.AllReturn | src/api/ecdsa/gg_2018/centralized.rs:70-80 | With m signers that all keep getting turns, all return if and only if m is t + 1 and the randomness and the message are usable. |
| SignKeys.ThresholdKeysAreTooFew | src/api/ecdsa/gg_2018/centralized.rs:70 | With t keys, which the guard admits, no signer ever returns or panics, in whatever interleaving. |
| SignKeys.TooFewKeepPolling | src/ecdsa/gg_2018/common.rs:112-126 | If one of the t + 1 signers never takes part, no other hears anything, returns or panics: all that take part poll for ever. |
| Examples.OneKeyExample | src/api/ecdsa/gg_2018/centralized.rs:70 | A concrete instance with threshold one and one key. |
| SignTheorem.ReferenceSigns | src/ecdsa/gg_2018/sign.rs:200-447 | The reference execution completes exactly under this condition and then brings every signer to that signature; otherwise no signer finishes. |
| SignTheorem.HonestReference | src/ecdsa/gg_2018/sign.rs:46-90 | The same for signers whose key files come from one key generation, the public key being the sum of all secrets. |
| SignTheorem.SharesAddUp | src/ecdsa/gg_2018/sign.rs:172-173 | Over all signers the shares delta add up to (sum of k)(sum of gamma) and the shares sigma to (sum of k)(sum of w). |
| SignTheorem.SEquation | src/ecdsa/gg_2018/sign.rs:242-244 | With R = 1/k and s = m k + r k w: R s = m + r y, and s is zero exactly if m + r y is. |
| SignTheorem.RIsInverse | src/ecdsa/gg_2018/sign.rs:200-239 | gamma/(k gamma) is the inverse of k, and neither factor is zero, whenever the reconstructed delta is not zero. |
| SignTheorem.PhaseFiveBalances | src/ecdsa/gg_2018/sign.rs:302-402 | In an honest run the final check of phase 5 balances: the own A left out of T in phase 5C is exactly what B brings back in phase 5D. |
| SignTheorem.WeightsAreTheKey | src/ecdsa/gg_2018/sign.rs:85-90 | The weights of the t + 1 signers add up to the private key. |
| SignTheorem.OutcomeIs | src/ecdsa/gg_2018/sign.rs:432-447 | What the signers put together is the single-holder signature if the run is usable and a panic otherwise. |
| SignInvariants.SignersAgree | src/ecdsa/gg_2018/sign.rs:79-90 | In every reachable state every signer past round 0 holds the same duplicate-free list of signers, with the keygen index of the owner in every slot, its own included. |
| SignInvariants.SharesInEveryRun | src/ecdsa/gg_2018/sign.rs:129-173 | In every reachable state every signer past round 2 holds its shares of delta and sigma, whose sums over all signers are (sum of k)(sum of gamma) and (sum of k) times the private key. |
| SignInvariants.RepliesAlwaysPass | src/ecdsa/gg_2018/format.rs:166-189 | In every interleaving no signer panics in the first three rounds: the run-time check that a peer's b_proof.pk is the commitment to its weight never fails. |
| SignInvariants.SameR | src/ecdsa/gg_2018/sign.rs:200-239 | In every reachable state every signer past round 4 holds the same R, the inverse of the sum of all k times the generator, whichever slot it removed and added back. |
| SignProof.WeightComCorrect | src/ecdsa/gg_2018/format.rs:180-186 | The slots of the commitments of key generation, of the list of signers and of the Paillier keys all refer to the same party: the commitment computed for the signer in slot b is that to the weight it uses, and the encryption key is its own. |
| SignProof.HonestAligned | src/ecdsa/gg_2018/sign.rs:85-92 | Key files of one key generation always fit together in this way, for every choice and order of t + 1 parties. |
| SignProof.SignersAre | src/ecdsa/gg_2018/format.rs:48-66 | Every signer rebuilds the same list of signers from its answers of round 0. |
| SignProof.RepliesAre | src/ecdsa/gg_2018/format.rs:91-136 | The replies a signer makes are, peer by peer, under the key of the party whose message A they answer, and the shares it keeps are those of the tags it used. |
| SignProof.Routed | src/ecdsa/gg_2018/sign.rs:129-145 | The reply in the sender's slot for a peer is the one that peer receives from it. |
| SignProof.AnswersDecode | src/ecdsa/gg_2018/format.rs:153-191 | Every reply passes its checks and decodes to the share that matches what its sender kept. |
| Rejections.RepliesAccepted | src/ecdsa/gg_2018/format.rs:153-191 | Whoever has sent the answers of round 2: a signer goes on if and only if there is one from every peer, both halves of each are encrypted for its key, prove the logarithms of their points and carry the plaintext these determine, and the point of the second half is congruent to the commitment to the weight of the party in the peer's slot. |
| Rejections.WeightAccepted | src/ecdsa/gg_2018/format.rs:180-186 | Among key files of one key generation, a reply made with the scalar v under the right key is accepted if and only if v is congruent to the sender's weight; with a file of another key generation the receiver panics. |
| Rejections.SoundIsAccepted | src/ecdsa/gg_2018/format.rs:166-178 | A reply decodes if and only if it is sound in this sense, and then to its plaintext. |
| SignProof.Round0 | src/ecdsa/gg_2018/sign.rs:71-90 | After round 0 a signer holds the list of signers and its weight. |
| SignProof.Round1Next | src/ecdsa/gg_2018/sign.rs:106-127 | After round 1 it holds all commitments and has made its replies. |
| SignProof.Round2Next | src/ecdsa/gg_2018/sign.rs:147-173 | After round 2 it holds its shares of delta and sigma. |
| MtaSums.SharesSumToProduct | src/ecdsa/gg_2018/sign.rs:172-173 | Each mask is added by the signer that decodes a reply and taken off by the one that made it, so the double sum of all shares is a product of two sums. |
| MtaSums.MasksCancel | src/ecdsa/gg_2018/format.rs:91-136 | Over all ordered pairs the masks received add up to the masks sent. |
| SignPhases.Round3Next | src/ecdsa/gg_2018/sign.rs:184-200 | Every signer reconstructs the same inverse of delta, or all panic because delta is zero. |
| SignPhases.ROfPeers | src/ecdsa/gg_2018/sign.rs:223-239 | Summing the peers' terms and adding the own one gives the same R whatever the own slot. |
| SignPhases.Round4Next | src/ecdsa/gg_2018/sign.rs:213-244 | The vectors without the own slot pass the check of phase 4, and R, r and the share of s follow. |
| Rejections.DecommitmentsAccepted | src/ecdsa/gg_2018/sign.rs:223-244 | A signer goes on after round 4 if and only if every peer opens its own commitment to the point its reply was made with, and R is not the point at infinity. |
| SignPhases.Round5Next | src/ecdsa/gg_2018/sign.rs:261-277 | After round 5 every signer holds the same vector of commitments of phase 5A. |
| SignPhases.Round6Next | src/ecdsa/gg_2018/sign.rs:292-349 | The vectors without the own slot pass the checks of phase 5C. |
| SignPhases.Round7Next | src/ecdsa/gg_2018/sign.rs:361-376 | After round 7 every signer holds the same vector of commitments of phase 5C. |
| SignPhases.Round8Next | src/ecdsa/gg_2018/sign.rs:389-417 | The full vectors pass the check of phase 5D if the sums balance. |
| SignPhases.Balance | src/ecdsa/gg_2018/sign.rs:302-417 | The sums balance if the sum of all V without m G and r Y is the sum of all l. |
| SignPhases.PhaseFiveDetects | src/ecdsa/gg_2018/sign.rs:302-417 | Whatever shares of s the signers hold: the sums of phase 5 balance if and only if the shares add up to a solution of the signature equation, unless the sum of all rho is zero. |
| Rejections.OpeningsAccepted | src/ecdsa/gg_2018/sign.rs:302-349 | A signer goes on after round 6 if and only if every peer opens its own commitment to points with V = s R + l G and B = l A for the s and l it proves to know, and proves to know the logarithm of a point. |
| Rejections.BalanceAccepted | src/ecdsa/gg_2018/sign.rs:399-417 | A signer goes on after round 8 if and only if every opening fits the commitment in its slot and the sums of all T and B make the sum of all U. |
| SignPhases.Round9Next | src/ecdsa/gg_2018/sign.rs:430-447 | A signer returns the signature put together exactly if it verifies and the message is below 2^256. |
| Soundness.ReturnedSignatureIsSound | src/ecdsa/gg_2018/sign.rs:432-447 | Whatever a signer has heard and from whomever: if it returns a signature, this has the smaller s and solves the signature equation for the message, which is below 2^256, and the public key in its file. |
| Library.EcdsaCorrect | src/ecdsa/gg_2018/sign.rs:432-447 | With R s = m + r y, the normalised signature satisfies the verification equation exactly if neither r nor s is zero, whichever of s and -s is taken. |
| Library.VerificationPoint | src/ecdsa/gg_2018/sign.rs:432-447 | The point recomputed by verification is R or its opposite. |
| Library.MtaWrongKey | src/ecdsa/gg_2018/format.rs:115-128 | A reply made under a key other than that of its addressee is rejected, so a routing error cannot go unnoticed in the model. |
| KeyFiles.WeightsSumToSecret | src/ecdsa/gg_2018/sign.rs:85-90 | Every choice of t + 1 distinct parties, in any order, holds weights that add up to the sum of all secrets. |
| KeyFiles.PublicKeyIsSecret | src/ecdsa/gg_2018/keygen.rs:117-118 | The public key is the sum of all secrets times the generator. |
| KeyFiles.ShareIsValue | src/ecdsa/gg_2018/keygen.rs:209-217 | A party's final share is the sum of all polynomials at its number. |
| KeyFiles.CommitmentIsValue | src/ecdsa/gg_2018/sign.rs:92 | The published commitments determine the generator times the share of every party. |
| Lagrange.Interpolation | src/ecdsa/gg_2018/sign.rs:85-90 | Lagrange interpolation at zero is exact modulo the group order for polynomials with no more coefficients than points. |
| Lagrange.CoefficientsSumToOne | src/ecdsa/gg_2018/sign.rs:85-90 | The Lagrange coefficients of distinct points add up to one. |
| Lagrange.EvalIsPowers | src/ecdsa/gg_2018/keygen.rs:209-217 | The value of a polynomial is the sum of its coefficients times the powers of the point. |
| KeygenTheorem.EveryRunGeneratesKeys | src/ecdsa/gg_2018/keygen.rs:94-269 | In every interleaving a party that finishes saves the key file that belongs to its number; it can finish only if nobody drew zero. Field by field (FileFits): n sharings, each with threshold t, share count n and t + 1 commitments to the coefficients of its dealer; u and y = u G, which is the constant term's commitment in the own slot; n encryption keys with the own one in the own slot; the party's number; a share congruent to the sum of all polynomials at this number; and the sum of all constant terms times the generator as the public key. |
| KeygenTheorem.FairKeygenFinishes | src/ecdsa/gg_2018/keygen.rs:45-269 | In every fair interleaving all parties finish if and only if nobody drew zero as its part of the key (or there is only one party). |
| KeygenTheorem.SharesRouted | src/ecdsa/gg_2018/keygen.rs:128-174 | In every reachable state a party past round 3 holds in slot p the value of p's polynomial at its own number. |
| KeygenTheorem.KeysAgree | src/ecdsa/gg_2018/keygen.rs:94-115 | Both ends of a pair hold the same Diffie-Hellman key, each in its own slot for the other. |
| KeygenTheorem.KeyExists | src/ecdsa/gg_2018/keygen.rs:106-112 | The shared key exists exactly if neither part is zero; it has 32 bytes and they decode to the x-coordinate. |
| KeygenTheorem.SharesSent | src/ecdsa/gg_2018/keygen.rs:128-147 | The ciphertext a party puts in a peer's slot carries the share of that peer under the key of the two. |
| KeygenTheorem.ShareArrives | src/ecdsa/gg_2018/keygen.rs:159-174 | The receiver's key opens it, and the bytes decode to the share that was sent. |
| KeygenTheorem.SharingFits | src/ecdsa/gg_2018/keygen.rs:209-217 | Every share passes the check against the sharing and the point in the same slot. |
| KeygenTheorem.Round1 | src/ecdsa/gg_2018/keygen.rs:56-71 | After round 1 every party holds the same vector of commitments. |
| KeygenTheorem.Round2 | src/ecdsa/gg_2018/keygen.rs:84-124 | After round 2 a party holds the points, the public key, one key for each peer and its sharing, or panics because a shared key does not exist. |
| KeygenTheorem.Round3 | src/ecdsa/gg_2018/keygen.rs:149-174 | After round 3 it holds everybody's share for it. |
| KeygenTheorem.Round4 | src/ecdsa/gg_2018/keygen.rs:186-217 | After round 4 it holds all sharings and its final share. |
| KeygenTheorem.Round5 | src/ecdsa/gg_2018/keygen.rs:230-269 | After round 5 it saves its key file. |
| Soundness.SavedFileIsSound | src/ecdsa/gg_2018/keygen.rs:209-269 | Whatever a party has heard and from whomever: if it saves a key file, its share is the one the saved sharings determine for its number, and the public key is that of the secrets these sharings commit to. |
| Rejections.CommitmentsAccepted | src/ecdsa/gg_2018/keygen.rs:94-124 | A party goes on after round 2 if and only if every opening fits the commitment in its slot and, if there are peers, nobody drew zero. |
| Rejections.SharesAccepted | src/ecdsa/gg_2018/keygen.rs:159-174 | A party goes on after round 3 if and only if every ciphertext was made with the key it shares with the peer it comes from. |
| Rejections.SharingsAccepted | src/ecdsa/gg_2018/keygen.rs:209-217 | A party goes on after round 4 if and only if in every slot the share is what the commitments determine for its number and the first commitment is the point opened in round 2. |
| Rejections.ProofsAccepted | src/ecdsa/gg_2018/keygen.rs:243-254 | A party saves its file after round 5 if and only if every peer proves its logarithm. |
| KeygenTheorem.ReferenceKeygen | src/ecdsa/gg_2018/keygen.rs:45-269 | The reference execution completes exactly if nobody drew zero, and then every party saves the file of its number. |
| Rounds.StepInv | src/ecdsa/gg_2018/common.rs:88-172 | Every step of every party keeps the invariant that ties the store, the poll loops and the parties to the reference execution. |
| Rounds.RunAgreesWithReference | src/ecdsa/gg_2018/common.rs:103-128 | In every reachable state a party has heard exactly what the reference execution delivers to it in the rounds it has finished; it is done only at the end and panics only where the reference computation does. |
| Rounds.NoPanic | src/ecdsa/gg_2018/sign.rs:61-447 | Nobody panics in a run whose reference execution completes. |
| Rounds.DoneMeansCompleted | src/ecdsa/gg_2018/keygen.rs:45-269 | All parties reach the end only if the reference execution completes, and then have heard what it delivers. |
| Rounds.RoundsInStep | src/ecdsa/gg_2018/common.rs:112-126 | A party is past round r only if every other has published its round-r message for it and has itself finished the rounds before r. |
| Rounds.MessagesWrittenOnce | src/ecdsa/gg_2018/adapter.rs:49-53 | A message, once in the store, is never overwritten. |
| Rounds.PollKeyIsMsgKey | src/ecdsa/gg_2018/common.rs:138-159 | A poll looks exactly where the peer writes the message meant for the polling party. |
| Rounds.AbsentBlocks | src/ecdsa/gg_2018/common.rs:112-126 | If one party never gets a turn, no other party finishes even the first round. |
| Rounds.SomeoneCanMove | src/ecdsa/gg_2018/common.rs:112-126 | While nobody has panicked and somebody is not done, some party can take a step that changes the state: there is no deadlock. |
| Rounds.StepRemaining | src/ecdsa/gg_2018/common.rs:156-170 | Every step that changes the state brings a global measure down. |
| Rounds.FairRunsFinish | src/ecdsa/gg_2018/common.rs:88-172 | Under every fair interleaving all parties finish if and only if the reference execution completes. |
| Agreement.RoundAgreement | src/ecdsa/gg_2018/format.rs:30-46 | In every reachable state any two parties that have finished a broadcast round hold the same rebuilt vector, and its slot i is what the party in slot i has published under its key. |
| Agreement.HeardIsStored | src/ecdsa/gg_2018/common.rs:147-172 | Every answer a party has heard, broadcast or point-to-point, is what the store holds under the key it polled. |
| Machines.DoneState | src/ecdsa/gg_2018/sign.rs:432-447 | A party that is done in some interleaving is in the final state of the reference execution. |
| Machines.StateAtRound | src/ecdsa/gg_2018/sign.rs:61-447 | A party that has finished r rounds in some interleaving has been in the state the reference execution gives it after r rounds. |
| Machines.PointToPointRound | src/ecdsa/gg_2018/common.rs:130-172 | If every sender's slot for a party holds the message meant for it, a point-to-point round delivers these messages in the order of the senders. |
| Machines.PanicRound | src/ecdsa/gg_2018/sign.rs:61-447 | If everybody panics after a round, nobody finishes. |
| Slots.RebuildRemove | src/ecdsa/gg_2018/sign.rs:223-236 | Removing the own slot from the rebuilt vector gives the answers back in order, and every answer is in its owner's slot. |
| Slots.RemoveRebuild | src/ecdsa/gg_2018/sign.rs:302-339 | Putting the removed value back gives the full vector. |
| Slots.RebuildPeers | src/ecdsa/gg_2018/format.rs:30-46 | If the owner of slot b publishes f(b), everybody rebuilds the same vector whatever the own slot. |
| StoreKeys.BroadcastKeyInjective | src/ecdsa/gg_2018/common.rs:95 | A broadcast key determines party, round and run. |
| StoreKeys.P2PKeyInjective | src/ecdsa/gg_2018/common.rs:138 | A point-to-point key determines sender, receiver, round and run. |
| StoreKeys.KeyKindsDisjoint | src/ecdsa/gg_2018/common.rs:95-138 | No broadcast key is a point-to-point key. |
| StoreKeys.TextInjective | src/ecdsa/gg_2018/common.rs:95-138 | Two messages under the same key are the same message. |
| KeyTexts.DecimalIsNumeral | src/ecdsa/gg_2018/common.rs:95 | Numbers in keys are decimal digits without leading zeros, whose value, most significant digit first, is the number. |
| KeyTexts.KeygenKeyText | src/ecdsa/gg_2018/keygen.rs:59-236 | The text of every key that a party of key generation writes or polls: numbers, the name of the round, from round1 to round5, and the uuid with dashes in between; round3 is from sender to recipient. |
| KeyTexts.SignKeyText | src/ecdsa/gg_2018/sign.rs:64-430 | The same for signing, from round0 to round9, round2 being point-to-point. |
| StoreKeys.RoomKeyDisjoint | src/ecdsa/gg_2018/adapter.rs:78 | The signup record of a UUID-shaped room is under no message key. |
| Signups.SignupsGiveNumbers | src/ecdsa/gg_2018/adapter.rs:55-80 | Over every sequence of atomic signups and message writes, the i-th signup is granted the number i under one uuid as long as i is within the limit, and all later ones fail; the first is granted even if the limit is zero. |
| Signups.SignupsDiffer | src/ecdsa/gg_2018/adapter.rs:55-80 | Over every sequence of separate reads and writes of the record, the granted numbers are pairwise different if and only if no signup reads between another's read and its write. |
| Signups.OverlapExample | src/ecdsa/gg_2018/adapter.rs:55-80 | Two tasks that both read before either writes are both given number one. |
| Signups.SignupIsStep | src/ecdsa/gg_2018/adapter.rs:55-80 | Signing up in the round protocol is this signup. |
| Transport.StoreCommunity.GetPartySignup | src/ecdsa/gg_2018/adapter.rs:55-80 | Reads and writes the record as these sequences require, and nothing else. |
| Transport.StoreCommunity.GetEntry | src/ecdsa/gg_2018/adapter.rs:38-47 | The entry under the key, or an error if there is none. |
| Transport.StoreCommunity.SetEntry | src/ecdsa/gg_2018/adapter.rs:49-53 | The store with the entry under the key. |
| Transport.Broadcast | src/ecdsa/gg_2018/common.rs:88-101 | Writes one entry, under the broadcast key. |
| Transport.SendP2P | src/ecdsa/gg_2018/common.rs:130-145 | Writes one entry, under the point-to-point key. |
| Transport.SendToPeers | src/ecdsa/gg_2018/sign.rs:129-145 | The send loop with its counter writes what SentEntries says. |
| Transport.SentEntriesHold | src/ecdsa/gg_2018/sign.rs:129-145 | After the send loop the j-th message is under the key of the j-th peer. |
| Transport.SentEntriesKeep | src/ecdsa/gg_2018/sign.rs:129-145 | The send loop leaves all other entries unchanged. |
| Transport.PollForBroadcasts | src/ecdsa/gg_2018/common.rs:103-128 | However the others' writes are spread over time, the loop returns the entries under the peers' keys in the order of their numbers, and fails to return only if one of them is never written; meanwhile nothing happens to the store but the first few of the others' writes. |
| Transport.PollForP2P | src/ecdsa/gg_2018/common.rs:147-172 | The same for point-to-point messages. |
| Transport.LoopKeysAreProtocolKeys | src/ecdsa/gg_2018/common.rs:109-160 | The keys of the send and poll loops are those of the round protocol. |
| Transport.PollAnswersAreHeard | src/ecdsa/gg_2018/common.rs:103-172 | In every reachable store the answers of a poll loop are what the reference execution delivers. |
| Exchanges.Exchange | src/ecdsa/gg_2018/common.rs:88-172 | The store ends up with the party's messages of the round under their keys and the others' writes of the meantime, and nothing else; the party hears the messages under its peers' keys, and nothing only if one of them is missing. |
| Exchanges.Talk | src/ecdsa/gg_2018/common.rs:88-172 | Round by round, a party that sends what the protocol makes it send has all it sent in the store, has heard what is under its peers' keys, and has changed nothing under keys that are not its own. |
| Conversations.Converse | src/ecdsa/gg_2018/common.rs:88-172 | The same for a party with a state: it sends what its state prescribes and is then in the next state, or has stopped. |
| Format.FormatVecFromReads | src/ecdsa/gg_2018/format.rs:30-46 | The loop appends the answers with the own value in its own slot, and panics exactly if there is no such slot, having appended the answers alone. |
| Format.FormatSigners | src/ecdsa/gg_2018/format.rs:48-66 | The loop yields the decremented identities slot by slot, for every party number, and panics exactly if an answer it needs is missing or malformed. |
| Format.OwnSlotInList | src/ecdsa/gg_2018/format.rs:48-66 | For a signer with a slot of its own this is the list of all signers. |
| Format.FormatBroadcastPhase1AndMessageAVec | src/ecdsa/gg_2018/format.rs:68-89 | All commitments with the own one in its slot, and the peers' messages A in order. |
| Format.FormatMessageBAndNiVec | src/ecdsa/gg_2018/format.rs:91-136 | The j-th reply answers the j-th peer's message A under the key of the party that the list of signers has in this peer's slot; it panics exactly if such a key is missing. |
| Format.FormatRound2RecGammaAndWVec | src/ecdsa/gg_2018/format.rs:138-151 | The two halves of the answers, in order. |
| Format.FormatRound2AlphaAndMiuVec | src/ecdsa/gg_2018/format.rs:153-191 | The decoded shares; it panics exactly if some reply fails its checks (Replies2Ok, which Rejections.RepliesAccepted spells out), and whenever some reply's b_proof.pk is not congruent to the commitment to the weight of the party in its sender's slot. |
| SignSteps.AfterRound0 | src/ecdsa/gg_2018/sign.rs:81-90 | The imperative step computes what the model of a signer does; a signer whose number is beyond t + 1 panics. |
| SignSteps.AfterRound1 | src/ecdsa/gg_2018/sign.rs:115-127 | The imperative step, with its loops, computes what the model of a signer does. |
| SignSteps.AfterRound2 | src/ecdsa/gg_2018/sign.rs:157-173 | The imperative step computes the shares of delta and sigma of the model; if it does not panic, every reply carries the weight of the party in its sender's slot. |
| SignSteps.AfterRound3 | src/ecdsa/gg_2018/sign.rs:193-200 | The same for the inverse of delta. |
| SignSteps.AfterRound4 | src/ecdsa/gg_2018/sign.rs:223-244 | The same for R, with the own slot removed from both vectors in place. |
| SignSteps.AfterRound5 | src/ecdsa/gg_2018/sign.rs:271-277 | The same for the commitments of phase 5A. |
| SignSteps.AfterRound6 | src/ecdsa/gg_2018/sign.rs:302-349 | The same for phase 5C, with the own slot removed in place and the full vector kept. |
| SignSteps.AfterRound7 | src/ecdsa/gg_2018/sign.rs:371-376 | The same for the commitments of phase 5C. |
| SignSteps.AfterRound8 | src/ecdsa/gg_2018/sign.rs:399-417 | The same for phase 5D, on the full vectors. |
| SignSteps.AfterRound9 | src/ecdsa/gg_2018/sign.rs:430-447 | The same for the signature and its final check. |
| SignSteps.RunCheckSig | src/ecdsa/gg_2018/common.rs:192-225 | The check goes through exactly if the message is below 2^256, r and s are between 1 and q - 1, and some point with r as its reduced x-coordinate solves the signature equation R s = m + r y. |
| SignProgram.Sign | src/ecdsa/gg_2018/sign.rs:31-447 | The program of one signer, from the signup on. It is granted the number the record says. With a number up to t + 1 it either returns the result of the protocol's party for what its peers write, having published all messages that this party publishes, or it has panicked or polls for a message nobody writes, having published those due so far; under all keys but its own and the room's the store becomes what it would have become without it. With a number beyond t + 1 it publishes its identity and returns nothing; without a number it does nothing. |
| Programs.SignAmongPeers | src/ecdsa/gg_2018/sign.rs:31-447 | Started at the moment at which the signer of an honest run is to sign up, with the others' writes in whatever batches of this run: if the run finishes, the program returns the single-holder signature, whose s is the smaller of the two solutions (FromNonce) and which verifies under its public key, and publishes exactly the messages of the run's signer. |
| Programs.AllSignersAgree | src/api/ecdsa/gg_2018/centralized.rs:77-80 | When the programs of all t + 1 signers have returned, and one store has what each has sent and heard, the randomness was usable and all have returned the single-holder signature, with the smaller s. |
| Programs.ProgramsAgree | src/ecdsa/gg_2018/common.rs:88-172 | If one store has what every party has sent in r rounds and what every party has heard in them, every party has heard what it hears in the reference execution: the programs of all parties make up a run of the protocol. |
| Batches.RunsBehaveWell | src/ecdsa/gg_2018/common.rs:88-172 | The writes of the others in a run, cut into batches at arbitrary moments, put each polled message into the store once, never touch the party's own keys, and in the end are the run's messages. |
| Batches.RunToTakePartIn | src/ecdsa/gg_2018/sign.rs:57-61 | For every slot of a protocol that completes there is such a run: it has come to the signup of this slot, and goes on to its end. |
| Programs.SignerReturnsSignature | src/ecdsa/gg_2018/sign.rs:31-447 | If what the signer's peers write is what they write in a finished honest run, what the program has done by its contract is to return the single-holder signature and to publish the messages of the run's signer. |
| KeygenSteps.AfterRound1 | src/ecdsa/gg_2018/keygen.rs:66-71 | The imperative step, with its in-place insertion, computes what the model of a party does. |
| KeygenSteps.AfterRound2 | src/ecdsa/gg_2018/keygen.rs:94-124 | The same for the points, the keys and the public key. |
| KeygenSteps.EncKey | src/ecdsa/gg_2018/keygen.rs:106-112 | The padded x-coordinate of the Diffie-Hellman point, or a panic if there is none. |
| KeygenSteps.FoldPoints | src/ecdsa/gg_2018/keygen.rs:117-118 | The fold from the first point on is the sum of all points. |
| KeygenSteps.SealAll | src/ecdsa/gg_2018/keygen.rs:128-147 | The loop with its two counters seals, for the j-th peer, the share of that peer's slot under the j-th key. |
| KeygenSteps.AfterRound3 | src/ecdsa/gg_2018/keygen.rs:159-174 | The loop yields everybody's share, the own one in its slot; it panics exactly if a ciphertext does not open under the key in its slot. |
| KeygenSteps.AfterRound4 | src/ecdsa/gg_2018/keygen.rs:196-217 | The same for the sharings and the final share. |
| KeygenSteps.AfterRound5 | src/ecdsa/gg_2018/keygen.rs:240-269 | The same for the proofs and the key file. |
| KeygenProgram.GenerateKey | src/ecdsa/gg_2018/keygen.rs:25-269 | The program of one party of key generation, from the signup on, related to the protocol's party like that of a signer: its number, what it publishes, what it leaves alone and what it returns. |
| Programs.GenerateAmongPeers | src/ecdsa/gg_2018/keygen.rs:25-269 | Among the peers of a finished honest run the program returns the key file of its number, whose fields are as EveryRunGeneratesKeys says, and publishes exactly the messages of the run's party. |
| Programs.PartyReturnsKeyFile | src/ecdsa/gg_2018/keygen.rs:25-269 | If what the party's peers write is what they write in a finished honest run, what the program has done by its contract is to return the key file of its number, its fields being as EveryRunGeneratesKeys says, and to publish the messages of the run's party. |
| Codec.Bytes32RoundTrip | src/ecdsa/common.rs:30-33 | A number has a 32-byte form exactly if it is below 2^256, and this form decodes to it. |
| Codec.PaddingKeepsValue | src/ecdsa/gg_2018/keygen.rs:109-112 | Padding on the left keeps the number, for any bytes of at most the given length. |
| Codec.BytesRoundTrip | src/ecdsa/gg_2018/keygen.rs:133-169 | The bytes of a share decode to the share. |
| Codec.BigEndian | src/ecdsa/gg_2018/keygen.rs:109-112 | Byte strings and digits are big-endian: their value is the sum of the digits times powers of the base by position. |
| Codec.CompactRoundTrip | src/ecdsa/common.rs:42-51 | The 64 bytes of a signature exist exactly for numbers below 2^256; the first 32 are r and the last 32 are s. |
| Codec.ExtendPadded | src/ecdsa/common.rs:42-49 | Extends the buffer in place by the padded bytes, and panics exactly on more than 32 bytes. |
| Codec.CheckSigInputs | src/ecdsa/common.rs:30-51 | The buffers built in place are the 32-byte message and the compact signature; building them fails exactly if one of the numbers does not fit. |
| Codec.SignatureTextRoundTrip | src/ecdsa/gg_2020/sign.rs:72-76 | The signature text has 130 hexadecimal digits exactly if r and s are below 2^256 and v below 256, and then the first 64 are r, the next 64 s and the last two v. |
| Codec.HexPaddedRoundTrip | src/ecdsa/gg_2020/sign.rs:76 | The padded text of a number decodes to it and has the given width exactly if the number fits. |
| Signing.CheckSigIs | src/ecdsa/common.rs:24-54 | Padding, compact form and parsing change nothing: the final check is verification of messages below 2^256. |
| Ecdsa.VerifyExactly | src/ecdsa/gg_2018/common.rs:192-225 | Verification accepts a signature if and only if r and s are between 1 and q - 1 and some point, not at infinity, with r as its reduced x-coordinate solves R s = m + r y. |
| Ecdsa.CheckSigExactly | src/ecdsa/common.rs:24-54 | The final check accepts if and only if in addition the message is below 2^256. |
| Ecdsa.OneMessagePerSignature | src/ecdsa/common.rs:24-54 | Where only opposite points share their reduced x-coordinate, a signature accepted for two messages makes m + r y and m' + r y equal or opposite. |
| Examples.WrongMessageIsRejected | src/ecdsa/gg_2018/common.rs:192-225 | A concrete signature that the check accepts for one message and rejects for another. |
| Examples.LongMessageIsNotSigned | src/ecdsa/gg_2018/common.rs:200-202 | A message of 2^256 or more is never signed by anybody in any honest run, because the final check panics on it. |
| Examples.LongMessageExample | src/ecdsa/gg_2018/common.rs:200-202 | A concrete honest run with the message 2^256. |
| Examples.TwoSignersSign | src/ecdsa/gg_2018/sign.rs:31-447 | Concrete honest signers whose run is usable for exactly the messages below 2^256 that are not minus the key. |
| Examples.ZeroPartExample | src/ecdsa/gg_2018/keygen.rs:106-108 | A concrete honest key generation in which one party drew zero and nobody finishes. |
| Relay.TwoPhaseLookup | src/state/db.rs:27-48 | The lookup with its two phases is the one-step lookup (the live room, else a new one) at the moment of the phase that decides, whatever others do in between. |
| Relay.StepInvariant | src/state/db.rs:60-108 | Every critical section keeps the invariant of rooms and subscriptions, in whatever order they come and for arbitrary references to rooms. |
| Relay.NoLostWakeup | src/state/db.rs:60-101 | In every reachable state a subscriber that waits on a notification created after the last call of notify_waiters has nothing to read; whenever there is something to read, the next turn returns it, and otherwise the next turn waits. |
| Relay.SubscriptionIsSlice | src/state/db.rs:83-101 | In every reachable state what a subscription has returned is a contiguous slice of its room's log from its start on, with the position as the event id, as long as positions stay within 16 bits; they do as long as the log has fewer than 2^16 entries. |
| Relay.SubscriptionWraps | src/state/db.rs:92-95 | Beyond the last 16-bit position it starts again from the beginning of the log, so the bound is exact. |
| Resumption.ResumesAfter | src/state/db.rs:66-101 | Over every run: what a subscription opened with last event k below 65535 has returned are the log's entries from position k + 1 on, in order, each once, and none at a position up to k while positions stay within 16 bits; without a last event it starts at position 0, and so it does, wrapping, after event 65535. The next turn returns the next entry as long as there is one. |
| Resumption.ReconnectIsSeamless | src/api/ecdsa/gg_2020/management.rs:17-36 | What a client got up to event k followed by what it gets after subscribing again with last event k is one contiguous part of the log from its beginning, with no repeat and no gap. |
| Resumption.RunKeepsSubs | src/state/db.rs:54-58 | In every run a subscription keeps its room and its start, and what it has returned stays returned. |
| Relay.IndicesIssued | src/state/db.rs:78-80 | The indices a room issues are exactly 1, 2, ..., k if and only if k is below 2^16, and pairwise different if and only if k is at most 2^16. |
| Relay.LogsOnlyGrow | src/state/db.rs:60-64 | In every run logs are only extended and rooms never removed. |
| Relay.LiveRoomsAreCurrent | src/state/db.rs:27-48 | In every reachable state every room somebody is subscribed to is the one mapped for its id, provided that every subscription is to the room mapped at that moment (as it is when joining is one step) and no room gets crowded. |
| Relay.SubscribeCurrent | src/api/ecdsa/gg_2020/management.rs:23-25 | A subscription in a step of its own keeps this if and only if it is to the mapped room. |
| Relay.SplitJoinSeparatesClients | src/api/ecdsa/gg_2020/management.rs:23-25 | Without this two clients of one id can end up in different rooms. |
| Relay.LookUpFindsLiveRoom | src/state/db.rs:74-76 | A lookup finds the live room if and only if its 16-bit subscription counter has not come back to zero. |
| Relay.LookUpExactly | src/state/db.rs:27-58 | In every reachable state a lookup leads to the room of the id, whatever it holds, if the number of its live subscriptions is not a multiple of 2^16, and otherwise puts a fresh room in its place, with an empty log and first index 1; no other room or id is affected. |
| Relay.OneLiveRoomPerId | src/api/ecdsa/gg_2020/management.rs:17-44 | All clients subscribed under one id are in the same room. |
| Relay.SubscribedClientGetsNewIndex | src/ecdsa/gg_2020/sm_client.rs:18-30 | A client that is subscribed before it asks for an index gets it from its own room, and it is one the room has not issued before (up to 2^16 of them). |
| Indices.IndicesDifferInEveryRun | src/ecdsa/gg_2020/sm_client.rs:18-30 | Over every such run, whatever clients come and go: every client that asks gets its index from its own room, two answers of a room differ as long as it has issued at most 2^16, and clients subscribed under one id at the same time are in one room. |
| Relay.IndexBeforeJoinRepeats | src/ecdsa/gg_2020/sm_client.rs:20-30 | Clients that asked for an index before subscribing could get the same one. |
| RelayServer.Room.Publish | src/state/db.rs:60-64 | The object's method takes the step of the model. |
| RelayServer.Room.Subscribe | src/state/db.rs:66-72 | The same, and the new subscription reads from event 0 without a last event, from event k + 1 after event k below 65535, and from event 0 after event 65535. |
| RelayServer.Room.IsAbandoned | src/state/db.rs:74-76 | True exactly if the subscription counter is zero. |
| RelayServer.Room.IssueUniqueIdx | src/state/db.rs:78-80 | The same, and the index returned is the old value of the counter. |
| RelayServer.Subscription.Next | src/state/db.rs:89-101 | However the messages that others publish are spread over the waits of the loop, it returns the entry at its next position of the log with this position as its id, advances by one, and keeps waiting only if there is going to be no such entry. |
| RelayServer.Subscription.Turn | src/state/db.rs:91-98 | One turn of the loop takes the step of the model and returns the event it appends to what was returned. |
| RelayServer.Subscription.Drop | src/state/db.rs:104-108 | Leaves the room and ends the subscription. |
| RelayServer.Db.ReadPhase | src/state/db.rs:28-35 | The lookup under the read lock is that of the model. |
| RelayServer.Db.WritePhase | src/state/db.rs:37-46 | The lookup under the write lock is that of the model. |
| RelayServer.Db.GetRoomMeanwhile | src/state/db.rs:27-48 | With any requests of others served between the phases, the outcome is the one-step lookup at the moment of the phase that decides. |
| RelayServer.Db.GetRoomOrCreateEmpty | src/state/db.rs:27-48 | With nothing in between, both phases together are the one-step lookup. |
| RelayServer.Db.Subscribe | src/api/ecdsa/gg_2020/management.rs:17-26 | The handler's effect on the whole database is the Join step. |
| RelayServer.Db.IssueIdx | src/api/ecdsa/gg_2020/management.rs:39-44 | The handler's effect on the whole database is a lookup and an Issue step, and the index is the one issued. |
| RelayServer.Db.Broadcast | src/api/ecdsa/gg_2020/management.rs:46-51 | The handler's effect on the whole database is a lookup and a Publish step. |
| RelayServer.Db.Stream | src/api/ecdsa/gg_2020/management.rs:26-36 | One turn of an event stream is a Poll step and yields what it delivers. |
| RelayServer.Db.Close | src/state/db.rs:104-108 | Closing an event stream is a Drop step. |
| Online.StepInvariant | src/ecdsa/gg_2020/sign.rs:42-63 | Every step of every client keeps the invariant of the online stage. |
| Online.CompleteCollection | src/ecdsa/gg_2020/sign.rs:59-63 | Whatever the order of joining, sending and reading, a client that finishes has taken exactly one partial signature from each other client, under that client's index, and none of its own. |
| Online.RoomOutlivesCollection | src/state/db.rs:27-35 | No client finishes before all have joined and sent, and the room of a client that has not finished is the one a lookup finds. |
| Online.IndicesDiffer | src/ecdsa/gg_2020/sm_client.rs:29-37 | Clients of the room have different indices between 1 and their number. |
| Online.FairClientsFinish | src/ecdsa/gg_2020/sign.rs:42-63 | If every client keeps getting turns, all clients finish. |
| Online.SomeoneCanMove | src/ecdsa/gg_2020/sign.rs:51-63 | While a client has not finished, some client can take a step that brings it closer to its end. |
| Online.KeptAreOthers | src/ecdsa/gg_2020/sm_client.rs:32-37 | In the online stage what the filter lets through are the messages of the others, in the order in which they were sent. |
| Addressing.TakenIsAddressed | src/ecdsa/gg_2020/sm_client.rs:32-37 | From any log a client takes exactly the messages that others have sent to everybody or to it, each once and in the order of the log. |
| Addressing.OthersMailIgnored | src/ecdsa/gg_2020/sm_client.rs:32-37 | A message addressed to somebody else makes no difference, wherever it is in the log. |
| Addressing.SubscriptionDelivers | src/ecdsa/gg_2020/sm_client.rs:20-37 | Over any run of the relay, the filter applied to what a subscription from the start has returned is the filter applied to the log as far as it has been read. |

## Left out

- The inside of the cryptographic library (Paillier, zero-knowledge proofs, curve arithmetic, AES-GCM): only the contracts in `Library` and `Keygen`; nothing is claimed about secrecy. About parties that deviate, only what `Rejections` and `Soundness` state.
- The range of Paillier plaintexts: the conversion is modelled over the integers, as if no plaintext exceeded the key.
- The recovery id of a signature and the printing of the GG18 result: the former is the library's, the latter does not pad its numbers.
- Decoding of the message from hexadecimal text or raw bytes: the message is a number.
- JSON, HTTP, event-stream framing, retries, delays and logging: values are passed as they are, and requests of the relay's clients are atomic steps.
- The GG20 key generation and offline stage, which are state machines of a library: only the relay, the client's filter and the online exchange.
- Party identifiers of zero in answers of round 0: the source wraps them to 65535 and panics at a later lookup, the model panics at once.
- A threshold of 65535, for which `threshold + 1` wraps in the source.
- Programs polling for ever: `PollForBroadcasts` and `PollForP2P` return None when the others will write nothing more and the entry is missing, where the source keeps polling.
- A subscription waiting for ever: `RelayServer.Subscription.Next` returns None when nothing more will be published and there is nothing to return.
- Online.CompleteCollection: the clients are alone in their room and messages are addressed to everybody, as the online stage sends them.
- Database-backed and remote communities, token checks, configuration and the other endpoint handlers.
