# Raucle authority model

A Dafny model of the parts of Raucle that decide, record and revoke an agent's authority,
with proofs of what they promise. Module by module:

- `Canon`, `Order`, `CanonicalOrder`, `Texts`: canonical key order over Python strings (UTF-16, section 3.2.3 of RFC 8785),
  `sorted`, `str.split` and `str.join`.
- `Values`, `Policy`, `PolicyMeaning`, `Narrowing`, `MergeMeaning`, `Absorb`, `Repeats`, `MergeLoops`, `FileUris`: the seven constraint kinds over nested
  call arguments, their canonical form, and the narrowing merge.
- `Attenuation`, `MintMeaning`, `Gate`, `GateMeaning`, `Eqr`, `EqrMeaning`: delegation, the verifier's narrowing re-check, the gate with its ancestor walk,
  and evidence quality as a narrowing.
- `Merkle`, `Audit`, `AuditRuns`, `AuditSound`, `AuditChain`, `AuditIdeal`: the hash-chained audit log, its writer and its
  verifier, and a run on which every assumption made about them holds.
- `Conformance`, `Recheck`, `RecheckMeaning`: commitments to call arguments, selective disclosure, and the three-valued re-check.
- `Ledger`, `LedgerMeaning`, `ReceiptStream`, `Containment`, `HoldEscape`, `ContainmentRuns`, `HoldLifecycle`, `Manager`:
  the delegation ledger and emergency holds, as one state machine and as the classes that run it.
- `ChainGraph`, `GraphTurns`, `GraphWalk`, `GraphResolve`, `GraphRun`, `GraphClosure`: bounded resolution of an authority graph.
- `Epaec`, `EvidenceChain`, `EvidenceMeaning`: requirement expressions and the fail-closed walk over an evidence chain.
- `Canary`, `CanaryRegistry`: zero-width watermarks and the canary registry.

Conventions:

- A digest is an uninterpreted function. Binding results read "equal, or two different inputs among those
  hashed here share a digest"; the inputs are named sets, and no hash is assumed injective.
- Signatures are ideal: in the audit results the signatures in the writer's file verify, and no other checkpoint does.
- Canonical JSON and UTF-8 are parameters with the one property needed: injective, NUL escaped, or undone by decoding.
- A Python string is a sequence of code points, lone surrogates included; where they are refused, so they are here.
- Scalars have two equalities, as in the code: the merge keeps `True` apart from `1`, the checkers do not.
- A step that touches files is atomic; `ok` says whether its receipt can be written.
- A class method is proved against a function of the old state, and lemmas are proved about that function.

Where the code and its documentation differ, the model follows the code, and a lemma says exactly when the promise holds:

- `starts_with` narrows raw strings but is checked on canonical file paths
  (`Narrowing.PrefixNarrowsIff`, `FileUris.RawPrefixExtensionEscapes`).
- The merge is the meet of two whitelists unless a bool meets its integer (`Narrowing.IntersectIsMeetIff`).
- A record registered before its parent, or hanging below an id that is registered again under another parent,
  can escape a hold on the chain (`HoldEscape.RegisterKeepsHoldIff`, `HoldEscape.RelinkedEscapes`).
- A child minted from a parent with a repeated list entry can fail the verifier's re-check
  (`Attenuation.MintedChildPassesIff`, `Attenuation.RepeatedEntryDenied`).
- Three loops that follow parent ids need not end: the delegation walk of a resolution (`GraphTurns.WalkEndsIff`),
  the search for descendants (`Ledger.SearchEndsIff`) and the climb of the gate (`Gate.ClimbEndsIff`).
- A child whose own intent names no tools, or no constraints, drops those of the parent's intent
  (`MintMeaning.ToolsNarrowIff`, `MintMeaning.DroppedBlockNarrowsIff`, `MintMeaning.RestatedPurposeWidens`).
- The first record of a kind can improve a verdict (`Eqr.SuccessorOnlyDegradesIff`).
- A broken link past the depth is not listed as unknown (`GraphClosure.BrokenLinkIsUnknownIff`).
- Resuming an agent or chain hold drops the revocations others appended meanwhile (`HoldLifecycle.RevokedAfterResumeIff`).
- The conformance re-check does not look inside containers, and judges combinations by truth
  (`Recheck.ForbiddenAgreesIff`, `Recheck.AllowedAgreesIff`, `Recheck.CombinationAgreesIff`).

Run `dafny verify dfyconfig.toml` to check the project.

## Model

| member | source | states |
|---|---|---|
| Canon.RejectLoneSurrogates | raucle/_canon.py:20-40 | accepts exactly the encodable strings and otherwise reports the first unpaired surrogate |
| Canon.ByteOrderIsUnitOrder | raucle/_canon.py:43-54 | comparing big-endian UTF-16 bytes is comparing code units, the order section 3.2.3 of RFC 8785 asks for |
| Canon.Key16Injective | raucle/_canon.py:43-54 | two encodable strings with one sort key are the same string |
| Canon.BmpOrderIsCodePointOrder | raucle/_canon.py:43-54 | without astral characters the key order is plain code-point order |
| Canon.AstralOrderDiffers | raucle/_canon.py:43-54 | with an astral character the two orders disagree (U+1F511 against U+FF5E) |
| Canon.KeyOrderIsUnitOrder | raucle/_canon.py:43-54 | keys of encodable strings compare as their code units do, and equal keys mean equal strings |
| Canon.OneTreePerValue | raucle/_canon.py:72-80 | two encodable values reorder to one tree exactly when only insertion order, at any depth, tells them apart |
| Canon.ReorderIgnoresInsertionOrder | raucle/_canon.py:72-80 | all insertion orders of one JSON value, at every depth, reorder to one tree |
| Canon.ReorderKeepsValue | raucle/_canon.py:72-80 | reordering changes nothing but the order of object members |
| Canon.ReorderIdempotent | raucle/_canon.py:72-80 | reordering a reordered tree changes nothing |
| CanonicalOrder.UnitsSpell | raucle/_canon.py:43-54 | a character is one code unit or the surrogate pair that spells it |
| CanonicalOrder.ReorderIff | raucle/_canon.py:20-80 | reordering is refused exactly when some key at some depth has a lone surrogate; otherwise the keys of every object stand in code-unit order |
| CanonicalOrder.CanonicalForm | raucle/capability.py:542-656 | the canonical block holds the same entries, names and combinations, each list in the order of `value_sort_key`, and the same bounds and prefixes |
| CanonicalOrder.CommittedInOrder | raucle/conformance.py:70-81 | a commitment is the root over the leaves of all arguments in the order of their field names |
| Values.FlattenComplete | raucle/capability.py:2188-2205 | flattening finds exactly the scalars and keys that occur in a value at any depth |
| PolicyMeaning.AcceptsIffMet | raucle/capability.py:2241-2423 | a block admits a call if and only if every kind is met, each stated over the scalars that occur in the arguments |
| PolicyMeaning.RefusalNamesFirst | raucle/capability.py:2241-2286 | a refusal names the first kind, in the gate’s order, that is not met |
| MergeMeaning.MergedIff | raucle/capability.py:1180-1229 | the merge succeeds exactly when shared prefixes extend, kinds are known, field names stay apart under NFC and every entry that is kept has a place in the canonical order |
| MergeMeaning.MergeRefusedFor | raucle/capability.py:1114-1229 | otherwise its error is that of the first of these that fails |
| MergeMeaning.CanonicalIff | raucle/capability.py:542-656 | a block has a canonical form exactly when it can be merged with the empty block |
| Narrowing.NormaliseKeepsMeaning | raucle/capability.py:542-656 | putting a constraint block in canonical form never changes which calls it admits |
| Absorb.NormaliseIdempotent | raucle/capability.py:542-656 | the canonical form of a canonical block is the block |
| Narrowing.IntersectIsMeetIff | raucle/capability.py:1104-1111 | intersecting two whitelists admits exactly the arguments both admit, if and only if a bool in one never meets its integer in the other |
| Narrowing.TrueMeetsOne | raucle/capability.py:1081-1111 | `True` and `1`: two members to the merge, one value to the checker, so both lists admit 1 and their intersection does not |
| Narrowing.MergeNarrowsParent | raucle/capability.py:1180-1229 | a call a merged block admits is refused by the parent only for a prefix extended as a raw string, and never when every file prefix narrows canonically |
| Narrowing.MergeNarrowsExtra | raucle/capability.py:1180-1229 | a call a merged block admits is admitted by the extra block exactly when that block names no unknown kind, which the merge drops |
| Narrowing.MergeIsMeet | raucle/capability.py:1180-1229 | a call both blocks admit is refused by the merge only where a whitelist lost a bool that met its integer; with no such pair, no unknown kind and canonical file prefixes the merge admits exactly the calls both admit |
| Narrowing.PrefixNarrowsIff | raucle/capability.py:1114-1132 | a raw prefix extension narrows what the checker admits if and only if the canonical file paths extend too |
| Narrowing.SelfCanonicalSuffices | raucle/capability.py:1114-1132 | prefixes written in canonical form always narrow soundly |
| Absorb.MergeAbsorbsIff | raucle/capability.py:1180-1229 | merging the parent with the merge gives the merge back, if and only if the merge repeats no list entry |
| Repeats.MergeDupFreeIff | raucle/capability.py:1095-1229 | a merge repeats no list entry if and only if the extra block names every list of the parent that repeats one, for value lists, required fields and combinations |
| MergeLoops.UnionValues | raucle/capability.py:1095-1101 | the loop keeps first occurrences over both lists, bools and integers apart |
| MergeLoops.IntersectValues | raucle/capability.py:1104-1111 | the loop keeps the first occurrences of shared values |
| MergeLoops.MergeForbidden | raucle/capability.py:1191-1193 | the forbidden lists of the block that `MergeMeaning` gives its meaning to |
| MergeLoops.MergeAllowed | raucle/capability.py:1195-1201 | the allowed lists: intersected where both name the field, added otherwise |
| MergeLoops.MergePrefixes | raucle/capability.py:1114-1132 | refuses exactly when some shared prefix is not extended, else keeps the longer ones |
| MergeLoops.MergeBounds | raucle/capability.py:1207-1215 | the tighter bound of every shared field |
| MergeLoops.MergeNarrowing | raucle/capability.py:1180-1229 | the loops together compute the merge the lemmas of `Narrowing` and `Absorb` are about |
| FileUris.CanonicalPathHasNoDots | raucle/capability.py:2316-2344 | no "." or ".." segment survives canonicalisation |
| FileUris.ResolveDotsRules | raucle/capability.py:2331-2339 | "." goes, ".." goes with the segment before it or alone at the root, everything else stays |
| FileUris.DotRulesDecide | raucle/capability.py:2331-2339 | those rules determine the resolved path of every list of segments |
| FileUris.SlashRulesDecide | raucle/capability.py:2340-2343 | so do two rules the collapsed path: a double slash counts as one, and a text without one stays |
| FileUris.ResolvePath | raucle/capability.py:2330-2344 | the two loops compute the canonical path: no dot segment, no double slash |
| FileUris.RawPrefixExtensionEscapes | raucle/capability.py:1114-1132 | a child with prefix `file:///d/../` passes every delegation test of a parent confined to `file:///d/` and admits a file outside it |
| Attenuation.BlockEqSameMeaning | raucle/capability.py:1324-1325 | blocks Python compares equal admit the same calls, although `True` may stand for `1` |
| Attenuation.SameBodyIff | raucle/capability.py:351-378 | the signed body covers every member but the id and the signature, constraints up to canonical form |
| Attenuation.AttenuationNarrows | raucle/capability.py:1296-1326 | attenuation soundness, for all nested arguments and all seven kinds: a call a passing child admits is refused by its parent only by the parent’s own prefix test, and never when every file prefix narrows canonically |
| Attenuation.SignedChildNeverRaises | raucle/capability.py:1324 | the uncaught normalisation in the re-check cannot raise for a token whose signed body exists |
| Attenuation.AssertNarrowingNeverFires | raucle/capability.py:1135-1177 | the mint-time defence in depth never refuses a merge |
| Attenuation.MintedFields | raucle/capability.py:1009-1078 | a minted child stays inside the parent in tool, agent, window and pair, cites it, and signs its own body |
| MintMeaning.MintedIff | raucle/capability.py:1009-1078 | delegation succeeds exactly when nine conditions on parent, request and clock hold, from a signed parent to an expiry inside its own |
| MintMeaning.RefusedFor | raucle/capability.py:1009-1293 | otherwise it gives the error of the first of the nine that fails |
| MintMeaning.MintedMembers | raucle/capability.py:1050-1078 | the child carries the agent asked for, the ttl asked for or the parent’s expiry, the later start, this issuer and clock, the pair, and the parent’s intent when none is given |
| MintMeaning.ToolsNarrowIff | raucle/capability.py:1262-1282 | the child’s intent names no new tool exactly when the parent’s names none or a given intent names its own |
| MintMeaning.DroppedBlockNarrowsIff | raucle/capability.py:1262-1282 | without a block on both sides a given intent drops the parent’s, which narrows exactly when that block demands nothing |
| MintMeaning.MergedBlockNarrows | raucle/capability.py:1278-1281 | with a block on both sides the child’s intent stays inside the parent’s, the parent’s own prefix test aside |
| MintMeaning.RestatedPurposeWidens | raucle/capability.py:1262-1282 | a parent approved for one tool and a request that restates the purpose without tools mint a child approved for another |
| MintMeaning.ViolationIff | raucle/capability.py:1296-1326 | the verifier passes a child exactly when seven comparisons with its parent hold, and otherwise names the first that does not |
| Attenuation.MintedChildPassesIff | raucle/capability.py:1009-1078 | a minted child passes the verifier’s independent re-check if and only if every list of the parent that repeats an entry is named by the extra constraints too |
| Attenuation.RepeatedEntryDenied | raucle/capability.py:1319-1326 | a parent whose whitelist lists "a" twice, delegated unchanged, mints a child the verifier refuses |
| Attenuation.MintedChildNarrows | raucle/capability.py:1009-1078 | a call a minted child admits is admitted by the extra constraints unless they name an unknown kind, and by the parent when every file prefix narrows canonically |
| Attenuation.ScopeTransitive | raucle/capability.py:1232-1247 | dot-delimited agent scopes compose along a chain |
| Gate.Open | raucle/capability.py:1622-1687 | no gate without a trusted issuer; otherwise one with the given pins, resolver and revocations |
| Gate.CapabilityGate.Revoke | raucle/capability.py:1689-1709 | one more id is revoked and nothing else changes |
| Gate.CapabilityGate.VerifyAncestorChain | raucle/capability.py:2006-2062 | from every token from which it ends, the climbing loop returns the ids passed or the first refusal |
| Gate.CapabilityGate.CheckCall | raucle/capability.py:1967-2004 | the staged decision: identity, then binding, then chain, with attribution |
| GateMeaning.OwnDenialIff | raucle/capability.py:1719-2004 | a call is denied for a reason exactly when that is the first check of token and call that fails; it is attributable exactly from the binding checks on |
| GateMeaning.ChainDecides | raucle/capability.py:1967-2062 | once those pass the chain decides, never as misuse: no resolver, the first link that is refused, or ALLOW with the ids of a verified lineage |
| GateMeaning.WalkUpRefusedIff | raucle/capability.py:2006-2062 | the climb is refused exactly for the first link that is unresolved, untrusted, forged, revoked or widening |
| GateMeaning.NeedsClimbIff | raucle/capability.py:1967-2004 | the chain is climbed exactly for a token that cites a parent and passes every check of its own, under a resolver |
| GateMeaning.EmptyParentIsRoot | raucle/capability.py:1898-2013 | an empty parent id is no parent to the climb, but the decision still asks for a resolver |
| Gate.ClimbEndsIff | raucle/capability.py:2012-2062 | the climb over finitely many answers ends if and only if it never comes back, through links that pass, to a token it has passed |
| Gate.SelfCitingNeverEnds | raucle/capability.py:2012-2062 | a resolver that answers with a signed token citing itself is climbed for ever: ids of ancestors are not recomputed |
| Gate.WalkUpIff | raucle/capability.py:2006-2062 | the walk succeeds exactly when the tokens the resolver names form a lineage up to a root with every link authentic, unrevoked and a narrowing, and reports its ids |
| Gate.AllowIff | raucle/capability.py:1967-2004 | ALLOW exactly when the token admits the call and a lineage of it is verified up to a root; the reported chain is that lineage |
| Gate.AllowedInsideEveryAncestor | raucle/capability.py:1967-2062 | an allowed call is inside the tool, window, agent scope and constraints of the token and, when file prefixes narrow canonically, of every ancestor up to a root, each signed by a pinned key and unrevoked |
| Gate.RevocationReachesDescendants | raucle/capability.py:1689-1717 | revoking an id denies it and everything descended from it, and admits no new call |
| Eqr.EvaluateEqr | raucle/eqr.py:278-315 | the fold returns the worst verdict among the records of the kind, UNKNOWN when there is none |
| EqrMeaning.RecordVerdictIff | raucle/eqr.py:134-165 | a record is unknown, stale or below the floor for the first of usable, fresh and strong that it lacks |
| EqrMeaning.OutcomeIff | raucle/eqr.py:397-453 | passing evidence changes nothing; degraded evidence reduces exactly when the declared scope merges and the token is signed and in time, and denies otherwise |
| EqrMeaning.ReducedMembers | raucle/eqr.py:397-453 | the reduced child keeps agent, tool, expiry, intent and pair of the token it cites |
| Eqr.PassingIff | raucle/eqr.py:278-315 | PASSING exactly when evidence of the kind exists and every record of it passes |
| Eqr.SuccessorOnlyDegradesIff | raucle/eqr.py:278-315 | new evidence never improves a verdict, if and only if evidence of the kind was recorded before |
| Eqr.DoubleMergeIsSingleIff | raucle/eqr.py:397-453 | the verifier accepts every reduced child, and merging to test the scope and again to mint is merging once if and only if the reduced scope names every list the token repeats |
| Eqr.DegradedNarrows | raucle/eqr.py:397-453 | a call the reduced child admits is admitted by the reduced scope, unknown kinds aside, and by the token when file prefixes narrow canonically |
| Merkle.FoldLevelLoop | raucle/conformance.py:60-67 | one pass hashes neighbours, the odd last node with itself |
| Merkle.RootLoop | raucle/audit.py:399-416 | repeated folding computes the root |
| Merkle.RootBinds | raucle/audit.py:399-416 | count and root together fix every leaf, or two different hashed inputs share a digest |
| Merkle.RootIgnoresRepeatedLast | raucle/audit.py:399-416 | the root alone binds nothing: repeating the last of an odd number of leaves, three or more, keeps it |
| Merkle.PathReachesRoot | raucle/conformance.py:84-103 | an honest sibling path recomputes the root, self-paired nodes included |
| Audit.MerkleRoot | raucle/audit.py:399-416 | the decode-and-fold of hex leaves, with the failure on text that is not hex |
| Audit.VerifyChain | raucle/audit.py:582-695 | the one-pass verifier computes the report the soundness and completeness lemmas are about |
| Audit.HashChainSink.constructor | raucle/audit.py:191-266 | opening writes a header to a new file and resumes an existing one |
| Audit.HashChainSink.Resume | raucle/audit.py:268-287 | one pass recovers tail hash, index and leaves from the file |
| Audit.HashChainSink.Append | raucle/audit.py:293-323 | links, hashes and writes the record, checkpointing when one is due, and says when that raised |
| Audit.HashChainSink.EmitCheckpoint | raucle/audit.py:357-391 | writes a signed count and root exactly when signing and non-empty, and raises exactly on a leaf that is not hex |
| Audit.HashChainSink.Close | raucle/audit.py:331-337 | closing writes a last checkpoint |
| AuditRuns.Step | raucle/audit.py:191-391 | each operation carried out on the sink object is the step of the run model |
| AuditRuns.Drive | raucle/audit.py:191-391 | a whole run carried out on sink objects leaves exactly the file of the run model |
| AuditRuns.RunKeepsInvariant | raucle/audit.py:191-391 | after any run of open, append, checkpoint and close the verifier has found no fault and tracks the writer’s tail |
| AuditRuns.RunVerifies | raucle/audit.py:582-695 | completeness: after a run that ends closed the verifier accepts the file, counts the appends and matches the writer’s own head |
| AuditRuns.ResumeRestores | raucle/audit.py:268-287 | reopening reads back exactly the tail hash, index and leaves an open sink holds |
| AuditRuns.RunNeverRaises | raucle/audit.py:357-416 | in a run no checkpoint raises: every leaf is the hex of a digest |
| AuditSound.ValidReflectsBodies | raucle/audit.py:506-545 | while a file counts as valid the verifier’s whole state is a function of its records |
| AuditChain.ValidIff | raucle/audit.py:446-545 | the file is valid so far exactly when every line is as it must be after the lines before it: header, checkpoint, index, link and digest |
| AuditChain.VerifiedIff | raucle/audit.py:547-737 | the verifier accepts exactly the files of such lines that, under a key, are signed and sealed by a checkpoint, and that meet the anchored head |
| AuditChain.AcceptedIsChained | raucle/audit.py:502-545 | key or no key, every record of an accepted file carries its position and the digest of the record before it, back to the genesis digest |
| AuditChain.SameTailSameRecords | raucle/audit.py:502-545 | two accepted files whose last records have one digest hold the same records, or two encodings collide |
| AuditChain.HashAnchorBinds | raucle/audit.py:698-737 | an anchored last hash alone pins every record, or two encodings collide |
| AuditChain.AnchorIsHead | raucle/audit.py:698-737 | the head a writer would publish after a run names the last index, the last digest and the root of its records |
| AuditChain.FirstInvalidIff | raucle/audit.py:502-545 | in any file the first invalid index is that of the first record with a wrong index, link or digest |
| AuditChain.ReportCounts | raucle/audit.py:419-471 | every count of the report, signatures that verify and signatures that fail included, its mode and its chain key are those of the file, valid or not |
| AuditSound.CheckpointsAreTrue | raucle/audit.py:822-927 | in a valid file every checkpoint states the count and root of the records before it |
| AuditSound.AcceptedIsCheckpointedPrefix | raucle/audit.py:547-695 | soundness: a file accepted under the writer’s key holds exactly its first n records, n being 0 or a checkpointed count, or a collision is exhibited |
| AuditSound.AnchorBindsWholeLog | raucle/audit.py:698-737 | a file accepted against an anchored head holds exactly the writer’s records, key or no key, or a collision is exhibited |
| AuditSound.TruncationAtCheckpointAccepted | raucle/audit.py:547-580 | cutting the file right after any checkpoint gives a file the key alone accepts |
| AuditSound.CheckpointedPrefixAccepted | raucle/audit.py:547-580 | every prefix soundness names, the empty one included, is held by some accepted file |
| AuditIdeal.IdealSuiteMeets | raucle/audit.py:822-928 | every signing run meets the assumptions of soundness under the verifier that accepts exactly the signatures its writer made |
| AuditIdeal.SoundnessApplies | raucle/audit.py:191-391 | open, append, close: a concrete suite and run that meet every assumption, with an accepted record, a checkpoint and no collision |
| Conformance.CommitArgs | raucle/conformance.py:70-81 | sort, hash and fold compute the commitment, refused exactly for a field name with a lone surrogate |
| Conformance.CommitmentIgnoresOrder | raucle/conformance.py:70-81 | the commitment depends on the arguments, not on their insertion order |
| Conformance.DisclosurePath | raucle/conformance.py:84-103 | the sibling loop returns the path of a present field, nothing for an absent one, and the encoding error |
| Conformance.DiscloseArgs | raucle/conformance.py:106-125 | the package holds exactly the requested fields that are present, with value and path; it fails exactly when one is present and some name cannot be encoded |
| Conformance.LeafReachesRoot | raucle/conformance.py:153-174 | accepts exactly encodable fields with well-formed paths that recompute the root |
| Conformance.VerifyDisclosure | raucle/conformance.py:128-150 | succeeds exactly when every entry verifies, and returns exactly the disclosed values |
| Conformance.CommitDiscloseVerify | raucle/conformance.py:70-150 | completeness: commit, disclose and verify always succeeds and returns exactly the requested fields that are present |
| Conformance.DisclosureSound | raucle/conformance.py:128-174 | soundness: whatever path verifies against a commitment, the field is among the committed arguments with the same canonical value, or a collision is exhibited |
| Conformance.EmptyAdmitsNothing | raucle/conformance.py:77-78 | nothing verifies against the commitment to no arguments without a collision |
| Recheck.MoreDisclosureOnlySettles | raucle/conformance.py:222-326 | a verdict reached on some fields stands however many more are disclosed; only UNKNOWN can change |
| RecheckMeaning.FieldVerdictsIff | raucle/conformance.py:222-293 | per kind: VIOLATED exactly when a disclosed field breaks its entry, UNKNOWN when none does and one is hidden, SATISFIED when all are disclosed and pass; an exception exactly for a value that cannot be compared |
| RecheckMeaning.RequiredIff | raucle/conformance.py:280-294 | required names are SATISFIED exactly when all are disclosed, UNKNOWN otherwise, never VIOLATED |
| RecheckMeaning.CombosIff | raucle/conformance.py:297-326 | combinations are VIOLATED exactly when all fields of one are disclosed and true, SATISFIED when each is disclosed with a falsy field |
| RecheckMeaning.GateVerdict | raucle/conformance.py:222-326 | where the single readings agree each verdict is the gate’s answer, except that an absent name stays UNKNOWN |
| Recheck.ForbiddenAgreesIff | raucle/conformance.py:186-211 | `forbidden_values` is read as the gate reads it exactly for values that are not containers of nameable scalars |
| Recheck.AllowedAgreesIff | raucle/conformance.py:182-208 | `allowed_values` agrees with the gate exactly for leaves and for containers the gate refuses whatever the list |
| Recheck.BoundsAgreeIff | raucle/conformance.py:190-216 | numeric bounds agree with the gate exactly for numbers and NaN; otherwise the re-check accepts a bool or an infinity, or raises |
| Recheck.OneStringAgreesIff | raucle/conformance.py:198-219 | a prefix given as one string is iterated by characters, which is the gate’s reading exactly for prefixes of one character |
| Recheck.OneStringIsWeaker | raucle/conformance.py:198-219 | for a prefix that is neither empty nor a file URI whatever the gate admits is accepted |
| Recheck.CombinationAgreesIff | raucle/conformance.py:297-326 | a combination is judged by truth, not presence: it agrees with the gate unless a present field is falsy |
| Ledger.ChainIdsLoop | raucle/capability.py:1515-1524 | the upward walk ends on every ledger, cyclic ones included, with every id it passes |
| Ledger.ChainIdsAreAncestors | raucle/capability.py:1515-1524 | on every ledger, cyclic ones included, the chain of a record is exactly itself and its ancestors |
| Ledger.ChainIdsAreAbove | raucle/capability.py:1469-1524 | the chain checked before a record is stored is exactly what is above it once stored, relinked ids included |
| Ledger.Descendants | raucle/capability.py:1557-1573 | below an id that is not its own ancestor the search ends, repeats nothing and finds exactly the ids whose chain reaches the start |
| Ledger.SearchEndsIff | raucle/capability.py:1557-1573 | the search ends if and only if the start is not its own ancestor, whatever cycles there are elsewhere |
| Ledger.OnCycleIff | raucle/capability.py:1515-1524 | being its own ancestor is told from the chain of the parent |
| Ledger.SelfParentNeverEnds | raucle/capability.py:1557-1573 | the search below a record naming itself as parent never ends |
| Ledger.DelegationLedger.constructor | raucle/capability.py:1376-1401 | opening loads the ledger file: the latest record of every id, and the control rows in order |
| Ledger.DelegationLedger.ActiveHoldsLoop | raucle/capability.py:1502-1513 | the control rows fold to the holds in force, in order |
| LedgerMeaning.ActiveHoldsIff | raucle/capability.py:1502-1513 | the holds in force are exactly the scopes whose last control row is a hold, one each, in the order they were opened |
| LedgerMeaning.EmptyParentIsNone | raucle/capability.py:1515-1524 | an empty parent id is no parent |
| LedgerMeaning.RegisteredIff | raucle/capability.py:1475-1556 | the first hold in force that covers a record decides: its id is revoked, or the registration refused for want of a revocations file; none leaves the rows alone |
| Ledger.DelegationLedger.Register | raucle/capability.py:1410-1500 | a record inside a held scope is revoked as it is stored, or refused when the hold names no revocations file; loading the file again would give the same memory |
| Ledger.DelegationLedger.AppendControl | raucle/containment.py:886-907 | a control row is appended and seen by the next load |
| ReceiptStream.ComputeHead | raucle/containment.py:144-158 | one pass computes count and folded head |
| ReceiptStream.NoGapIff | raucle/containment.py:190-215 | a stream shows no gap exactly when it still lists the anchored receipt hashes, or the folds hashed a collision |
| Manager.TokensForAgent | raucle/capability.py:1575-1582 | exactly the ids delegated to the agent, once each |
| Manager.ContainmentManager.constructor | raucle/containment.py:267-277 | a manager works on the files it finds; on fresh ones the invariant holds |
| Manager.ContainmentManager.EmitReceipt | raucle/containment.py:328-373 | refuses onto a rewritten stream, else appends and re-anchors |
| Manager.ContainmentManager.ResolveIds | raucle/containment.py:472-490 | exactly the ids in the scope, or a refusal of a malformed or unknown scope |
| Manager.ContainmentManager.RewriteReceipted | raucle/containment.py:787-834 | a target whose receipt cannot be written gets its bytes back |
| Manager.ContainmentManager.ApplyHoldLocked | raucle/containment.py:751-884 | the stepwise apply with rollback is the atomic step of the state machine |
| Manager.ContainmentManager.Hold | raucle/containment.py:494-593 | applies at once, or opens a receipted pending state when a quorum is configured |
| Manager.ContainmentManager.ApproveHold | raucle/containment.py:595-667 | one fresh approver, receipted; the completing one applies the stop |
| Manager.ContainmentManager.AbortHold | raucle/containment.py:669-708 | a pending hold is cancelled only with a receipt |
| Manager.ContainmentManager.ResumeHold | raucle/containment.py:998-1130 | every check, then the receipt, then the restore, from any state file |
| ContainmentRuns.RegisterKeepsIff | raucle/capability.py:1410-1500 | in every world that meets the invariant a registration keeps it if and only if it leaves nothing unrevoked in the chain held |
| ContainmentRuns.StepKeeps | raucle/containment.py:494-1130 | every step of manager, ledger, revoker or key keeps the invariant |
| ContainmentRuns.NothingEscapes | raucle/capability.py:1475-1500 | in every interleaving of such registrations with holds, resumes, revocations and key changes each record in the scope of the hold in force is revoked, the marker fold is exactly that hold, and it is receipted with a matching snapshot; what it wrote stands: the deny-all policy, or the appended revocations, under the digest on record |
| Manager.Step | raucle/containment.py:494-1130 | each call on manager, ledger or file object is the step of the state machine |
| Manager.Drive | raucle/containment.py:494-1130 | a whole run of calls on the objects is a run of the state machine, and nothing escapes |
| HoldEscape.RegisterKeepsHoldIff | raucle/capability.py:1475-1524 | on every ledger a registration, of a new id or one stored before, keeps a chain hold closed if and only if it lies outside the chain or every other record already below it is revoked |
| HoldEscape.ParentsFirstIsClosed | raucle/capability.py:1475-1524 | registering an id nobody names as parent, or keeping the link it has, always does |
| HoldEscape.RegisterKeepsAgentHold | raucle/capability.py:1475-1500 | an agent hold stays closed whatever is registered |
| HoldEscape.ChildFirstEscapes | raucle/capability.py:1475-1524 | a child registered before its parent escapes a hold on the chain above both |
| HoldEscape.RelinkedEscapes | raucle/capability.py:1475-1524 | an id stored before and registered again under a held parent takes what hangs below it into the held chain unrevoked |
| HoldLifecycle.FailureChangesNothing | raucle/containment.py:751-884 | a failed step changes no enforcement file, state or marker; at most the approval before a failed apply stays receipted |
| HoldLifecycle.HoldWrites | raucle/containment.py:760-800 | the step that applies a hold replaces the policy by its deny-all rewrite, or appends the revocation of exactly the ids in scope |
| HoldLifecycle.EveryTransitionIsReceipted | raucle/containment.py:328-373 | no change of state without its own receipt appended to the stream |
| HoldLifecycle.ResumeUndoesHold | raucle/containment.py:998-1130 | whatever happened in between, the resume that ends a hold restores exactly the bytes the hold read, after its receipt |
| HoldLifecycle.RevokedAfterResumeIff | raucle/containment.py:998-1130 | after the resume of an agent or chain hold an id is revoked if and only if it was in the bytes the hold read, whatever was revoked meanwhile; a global hold drops no revocation |
| HoldLifecycle.ResumeIsBoundToReceipt | raucle/containment.py:1043-1057 | whoever wrote the state file, only bytes whose digest a receipt of the same scope recorded are restored |
| HoldLifecycle.ResumeSucceedsIff | raucle/containment.py:1014-1057 | in every reachable held world whose receipts have distinct ids a resume succeeds exactly under the pinned key |
| HoldLifecycle.RewrittenStreamRefused | raucle/containment.py:336-347 | nothing is receipted onto a stream changed since it was anchored |
| HoldLifecycle.EnforcementNeedsQuorum | raucle/containment.py:595-708 | above a quorum of one, the manager changes an enforcement file only in the completing approval or in a resume |
| HoldLifecycle.HeldByQuorum | raucle/containment.py:633-660 | every hold in force above a quorum of one names that many distinct approvers, each receipted earlier |
| ChainGraph.GraphState.constructor | raucle/chain_graph.py:411-418 | a resolution starts with an empty graph |
| ChainGraph.GraphState.AddNode | raucle/chain_graph.py:420-432 | a known id is fine; a new one must fit the breadth or is recorded as cut |
| ChainGraph.GraphState.AddEdge | raucle/chain_graph.py:434-438 | one edge more |
| ChainGraph.GraphState.Prune | raucle/chain_graph.py:440-442 | one cut more, and the graph is truncated |
| ChainGraph.GraphState.UnknownRef | raucle/chain_graph.py:444-445 | one unknown reference more |
| GraphWalk.Visit | raucle/chain_graph.py:461-475 | each turn of the walk is the turn `GraphTurns` speaks of, and states its link or the reason it was cut |
| GraphWalk.WalkDelegation | raucle/chain_graph.py:448-483 | from every state from which it ends the walk names every target and gives every delegation node its parent edge |
| GraphTurns.WalkEndsIff | raucle/chain_graph.py:461-483 | the walk ends if and only if some token above the capability, no further than hops and records reach, is no record, is met past the hops without being a node id, or brings one node too many |
| GraphTurns.SelfNamedToken | raucle/chain_graph.py:461-483 | a receipt "r" whose capability is a token "r" that names itself as parent: the walk never ends unless the breadth is one |
| GraphTurns.SeparateWalksLeave | raucle/chain_graph.py:448-483 | token ids that are no node ids make every walk of a resolution end |
| GraphTurns.DescendingWalksLeave | raucle/chain_graph.py:448-483 | so do delegation records without a cycle |
| GraphResolve.BindPolicy | raucle/chain_graph.py:486-501 | the policy node and every deployment are bound, their targets in the graph or recorded as cut |
| GraphResolve.ProcessReceipt | raucle/chain_graph.py:504-540 | a receipt is added with all its links, recorded as cut, or recorded as unknown; its parents are returned |
| GraphRun.WeightDrops | raucle/chain_graph.py:607-619 | each turn lowers the weight of the queue, so the worklist ends on cyclic corpora too |
| GraphRun.ResolutionHaltsIff | raucle/chain_graph.py:448-619 | a resolution halts if and only if every delegation walk it performs ends |
| GraphRun.LeavingResolutionHalts | raucle/chain_graph.py:448-619 | it halts when every chain cited within the depth leaves the records or meets a token id that is no node id |
| GraphRun.SelfNamedResolution | raucle/chain_graph.py:448-619 | on the receipt and the token both called "r" it halts only when the breadth is one |
| GraphClosure.Resolve | raucle/chain_graph.py:543-642 | whenever it halts, resolution gives a graph of at most `breadth` nodes, every receipt within `depth` links, every edge justified and its target named, every cut and unknown reference justified by the link that ran out of room or hops, truncated exactly when something was cut |
| GraphClosure.UntruncatedIsComplete | raucle/chain_graph.py:604-642 | a result that was not truncated holds exactly the decodable receipts reachable from the root and lists every reachable broken link |
| GraphClosure.ReceiptsAreWithinDepth | raucle/chain_graph.py:604-619 | unless the breadth ran out, the receipts are exactly the decodable ones within the depth |
| GraphClosure.DepthCutsAreTheNextReceipts | raucle/chain_graph.py:607-611 | unless the breadth ran out, the depth cuts name exactly the receipts one link further |
| GraphClosure.BrokenLinkIsUnknownIff | raucle/chain_graph.py:621-626 | a parent link that does not resolve is listed as unknown only when its target is within the depth, and exactly then unless the breadth ran out |
| GraphClosure.BrokenLinkPastDepth | raucle/chain_graph.py:621-626 | a broken link one hop too far reads as not found without being an unknown reference, against the comment |
| Epaec.TokenizeRequirement | raucle/epaec.py:177-197 | the scanner returns the tokens, refusing a long text first and then an unknown character |
| Epaec.TokensIff | raucle/epaec.py:177-197 | a text has tokens exactly when every character is white, a parenthesis or a word character |
| Epaec.TokensKeepText | raucle/epaec.py:177-197 | tokens lose nothing but white space and invent nothing |
| Epaec.TokensOfSpaced | raucle/epaec.py:177-197 | tokens written with blanks between them are read back |
| Epaec.ParseRequirement | raucle/epaec.py:200-224 | the evaluating recursive descent delivers the meaning of the tree of the tokens read, or the tree’s error |
| Epaec.ParseTermValue | raucle/epaec.py:227-243 | the same for one term |
| Epaec.ParsePrinted | raucle/epaec.py:200-243 | on the print of a tree the parser rebuilds that tree, wherever it starts, or reports the depth |
| Epaec.AcceptsIffPrint | raucle/epaec.py:200-243 | the parser accepts with tree e exactly when the tokens are the print of e, so no token list prints two trees |
| Epaec.OnlyDepthRefuses | raucle/epaec.py:213-214 | a well-formed expression is refused only for nesting deeper than 16, and says so |
| Epaec.EvaluateRequirement | raucle/epaec.py:246-269 | the error depends on the text alone; without one the value is the meaning of the one tree |
| Epaec.WrittenTreeIsUnderstood | raucle/epaec.py:177-269 | print, write, tokenize and parse gives every bounded tree back |
| Epaec.UnderstoodIsWritten | raucle/epaec.py:177-269 | whatever is accepted spells its tree, white space aside |
| Epaec.DenoteMonotone | raucle/epaec.py:219-243 | satisfying more names never falsifies an expression |
| Epaec.DenoteNothing | raucle/epaec.py:219-243 | nothing is satisfied by nothing |
| Epaec.NoPrecedence | raucle/epaec.py:208-211 | `a OR b AND c` is `(a OR b) AND c`, so a alone does not satisfy it |
| EvidenceChain.ValidateComponents | raucle/epaec.py:125-142 | the first fault in order, or none exactly when components are complete and types distinct |
| EvidenceChain.ValidateChain | raucle/epaec.py:156-169 | the structural checks and their order |
| EvidenceChain.WalkComponents | raucle/epaec.py:463-516 | the satisfied set is exactly the names of components verified and bound to this action |
| EvidenceMeaning.WellFormedIff | raucle/epaec.py:125-169 | a chain is well formed exactly when six checks of its members pass |
| EvidenceMeaning.MalformedFor | raucle/epaec.py:125-169 | otherwise it is denied with the error of the first check, and of the first component, that fails |
| EvidenceMeaning.StatusIff | raucle/epaec.py:495-516 | a component is verified exactly when the verifier of its type vouches for its evidence and this action, invalid when it answers anything else, unverified without evidence or verifier |
| EvidenceMeaning.SatisfiedIff | raucle/epaec.py:463-492 | a name is satisfied exactly when a component of that type or label is verified for this action |
| EvidenceChain.VerifyChain | raucle/epaec.py:519-560 | ALLOW exactly when the chain is sound, its digest matches and the requirement holds of the satisfied names; PASS when also nothing was invalid |
| EvidenceChain.MoreEvidenceKeepsAllow | raucle/epaec.py:519-560 | a chain for the same action that keeps every verified component stays allowed |
| EvidenceChain.AllowNeedsEvidence | raucle/epaec.py:519-560 | nothing is allowed without a verified component bound to this action |
| EvidenceChain.OnlyVerifiedCarriesAuthority | raucle/epaec.py:463-516 | dropping all unverified and rejected components changes no decision |
| EvidenceChain.PassIsNotReplayable | raucle/epaec.py:495-556 | components that passed for one action authorize no action with another digest |
| Canary.TokenToZw | raucle/canary.py:73-79 | one octet of zero-width characters per byte, separated |
| Canary.ZwToToken | raucle/canary.py:82-110 | collects the runs and returns the first that decodes, longest first, earlier ones first among equals |
| Canary.RunsAround | raucle/canary.py:86-98 | every maximal zero-width run is collected once, in its place |
| Canary.ReadOctetsFilters | raucle/canary.py:103-108 | pieces that are not eight bits long between the octets do not matter |
| Canary.WatermarkRecoveredIff | raucle/canary.py:73-110 | a watermark other runs do not touch is recovered if and only if the first run that decodes among those no shorter before it and those longer after it, if any, decodes to the same token |
| Canary.WatermarkRecovered | raucle/canary.py:73-110 | round trip: a watermark is recovered from any text whose own runs do not touch it and are shorter before and no longer after it |
| Canary.WatermarkInjective | raucle/canary.py:73-79 | different tokens never share a watermark |
| Canary.DecoyWins | raucle/canary.py:101-110 | a longer run without octets reads as the empty token and ends the search |
| CanaryRegistry.EmbeddingIsInvisible | raucle/canary.py:254-262 | a zero-width watermark changes nothing a reader sees |
| CanaryRegistry.WatermarkIsPlaced | raucle/canary.py:254-262 | the watermark follows the full stop of the first sentence, or the whole prompt |
| CanaryRegistry.MarkIsReadable | raucle/canary.py:264-268 | the other strategies append a readable mark to the prompt without its trailing white space |
| CanaryRegistry.EmbeddedIsRecovered | raucle/canary.py:254-262 | embedded into a prompt without zero-width characters the token decodes again, wherever it went |
| CanaryRegistry.LeakedPromptIsDetected | raucle/canary.py:356-402 | output that repeats the watermarked prompt anywhere is a leak at the full confidence of its strategy |
| CanaryRegistry.LiteralLeakSurvives | raucle/canary.py:356-402 | a leak found literally stays a leak whatever text surrounds it; only decoding can be disturbed |
| CanaryRegistry.LeakIff | raucle/canary.py:356-410 | a check reports the strongest evidence the output shows, with its confidence, and no leak exactly when it shows none |
| CanaryRegistry.RegisterKeepsBound | raucle/canary.py:349-354 | a registration fails exactly when there is room for none; otherwise the registry keeps to its bound, holds one token per value and always the newest |
| CanaryRegistry.RegistryIsLatest | raucle/canary.py:349-354 | fresh tokens registered as time passes leave exactly the latest ones |
| CanaryRegistry.LatestAreWatched | raucle/canary.py:272-305 | repeating the prompt of any of the latest tokens makes a check of the whole registry report a leak |
| CanaryRegistry.VerifiesIffSigned | raucle/canary.py:324-347 | with a secret a value verifies exactly when it is some text with its own digest attached |
| CanaryRegistry.VerifyTokenIff | raucle/canary.py:324-339 | everything verifies without a secret and nothing without a dot; otherwise what follows the last dot is compared, and text that has no encoding raises |
| CanaryRegistry.CanaryManager.constructor | raucle/canary.py:196-207 | a manager starts with an empty registry |
| CanaryRegistry.CanaryManager.Register | raucle/canary.py:349-354 | evicts the oldest when full, then stores |
| CanaryRegistry.CanaryManager.Embed | raucle/canary.py:233-270 | registers a token and returns the prompt with its watermark in place |
| CanaryRegistry.CanaryManager.CheckOutput | raucle/canary.py:272-305 | reports a leak exactly when some registered token leaked, namely the first |
| CanaryRegistry.CanaryManager.CheckOutputAll | raucle/canary.py:307-314 | reports every leak in registry order |
| CanaryRegistry.CanaryManager.RevokeToken | raucle/canary.py:316-318 | removes exactly the named token |

## Left out

- Files, locks, atomic renames, fsync, reloads by mtime, threads and environment variables: every operation is one atomic step.
- Ed25519, ML-DSA-65, PEM handling and the hybrid branches of `CapabilityGate` and the audit verifier: abstract signatures stand for them.
- Proof enforcement in the gate (`_check_proof_enforcement`): the model is the gate with it switched off.
- Minting a root capability (`CapabilityIssuer.mint`) and parsing tokens from JSON: field validation with no property across functions.
- Value bounds given as floats, and constraint blocks that are not of the declared shape: the constraint types exclude them.
- Percent-decoding and URL splitting in `_canonical_file_uri`: the decoded path is a parameter; the dot-segment and slash loops are modelled.
- Intent along the chain: `_attenuation_violation` does not look at it, so nothing is claimed about a parent's intent.
- `_trace_transition` and `_lease_transition` in `raucle/containment.py`: receipted appends to two registries, the same pattern as a hold without its snapshot.
- `EvidenceStore` in `raucle/eqr.py`: an append-only list per kind.
- Marker append failure after a hold is persisted, and legacy streams without an anchor: an anchor, once written, is always there.
- White space around approver names: names arrive stripped.
- Signature states, sorting and de-duplication of the resolved graph's output lists, and decoding of receipts: the corpus holds decoded receipts.
- Component evidence formats (`verify_receipt_jws`): a verifier is a function from evidence to its answer.
- Random token generation and the clock in `raucle/canary.py`: both are parameters.
- Gate.AllowedInsideEveryAncestor: says of ancestors what holds when file prefixes narrow canonically, because the code accepts raw extensions that do not.
- Gate.CapabilityGate.VerifyAncestorChain: requires that the climb ends, because the loop follows a cycle forever (`Gate.ClimbEndsIff`).
- Ledger.Descendants: requires a start that is not its own ancestor, because the search follows a cycle forever (`Ledger.SearchEndsIff`).
- GraphWalk.WalkDelegation: requires that the walk ends, because it need not (`GraphTurns.WalkEndsIff`).
- GraphClosure.Resolve: requires that the resolution halts, because it need not (`GraphRun.ResolutionHaltsIff`).
- Manager.TokensForAgent: does not state the registration order of the ids, because the records are a map.
- AuditSound.AcceptedIsCheckpointedPrefix: assumes one writer per key whose checkpoints alone verify.
- Lone surrogates inside argument values: canonical JSON is a total parameter of the commitment; field names are checked.
