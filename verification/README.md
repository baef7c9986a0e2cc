# BoardProof: what its receipts can be relied on for

BoardProof is a receipt kernel. A proposed action passes through operator rules, a capability
lease and, where a rule asks for it, an operator. Every outcome becomes a signed receipt that
names its predecessor's leaf hash, and a validating log appends it. This project models that
path and proves what holds of it over all inputs, all runs and all interleavings:

- `Json`, `Utf8`, `Utf16`, `Canonical`, `Writers`, `PythonPort`: the RFC 8785 canonicalizer. A strict reader
  inverts the printer, so canonical bytes determine a value up to member order; the byte
  writers append exactly those bytes; the Python port, which sorts keys by code point, agrees
  with it on an exactly described set of values.
- `Receipts`, `Leaf`, `Crypto`, `SignedText`: receipts and the bytes their ids, signatures and leaf
  hashes cover. Both preimages are injective, so any clash of ids or leaf hashes is a BLAKE3
  collision; and what they spell is stated field by field, in literal keys and words: canonical key
  order from schema version 2 on, declared order before.
- `Budgets`: the lease object, and exact conservation in a tree of leases.
- `Constitution`, `Kernel`, `KernelObject`, `KernelRuns`: the operator rules, the kernel's four
  kinds of event as functions and as the stateful object the source has, and theorems over
  whole runs: every log accepts them, the head commits to the history, Deny is final.
- `Outcomes`: what each event leaves in its receipt and outcome, told in the event's own fields:
  why it was rejected, denied or made pending, what was charged, and what an execution shows.
- `Log`, `MemoryLog`, `SqliteLog`: the log contract, its two implementations, the refinement
  between them, and the exact verdict of a walk over contents nobody vouches for. Opening a file, even
  in vain, loses no row and no metadata (`SqliteLog.OpeningKeepsFile`).
- `Host`, `HostRuns`, `HostApi`: the HTTP host as a machine whose requests look up, mint and
  append in separate critical sections, may be cancelled between them, and survive restarts.
- `HostRequests`: from a request to the receipt it ends up holding, whatever other requests do in
  between: the operator's refusal is a refusal, a reported output the one recorded.
- `Router`: the driver that routes a pending receipt to an operator and resolves it.
- `Explain`: the reason recovered from a receipt alone, against the reason the kernel acted on.
  Its genesis flag means just that the receipt starts a chain (`Explain.GenesisIff`).
- `Capabilities`, `Clock`: the one-pass glob matcher against the meaning of `*`, and the
  closed-form calendar against the Gregorian calendar counted day by day.

Objects whose methods update fields in the source are classes here (`ByteVec`, `Hasher`,
`CapabilityLease`, `KernelObject`, `InMemoryReceiptLog`, `SqliteReceiptLog`, `ApiState`, `SqliteApiState`,
`ApprovalRouter`); each method is proved equal to a specification function of the old state,
and the theorems are about those functions.

## Assumptions

- BLAKE3, Ed25519 signing and Ed25519 verification are arbitrary functions (`Leaf.Primitives`).
  The one thing asked of them is that signatures made with the key verify under it. Collision
  freedom is never assumed: where a result depends on it, the statement offers the collision
  instead (`Crypto.IdClash`, `Crypto.LeafClash`, `Leaf.Collision`).
- `Crypto.SignerContract` is what the kernel asks of a signer: the same body back, its own key,
  the current version, a signature that verifies. `Leaf.InstanceSigns` proves it of the
  concrete signer.
- "No forgeries" in `KernelRuns.DenyIsFinal` means that a receipt carried by an event and
  verifying under the kernel's key has a body the kernel signed earlier in the run.
- The signing key stays the same across restarts of the host, since the log is pinned to it. The
  operator's rules and the key id may change at every restart; what a Deny rule rules out is
  stated for actions denied at every boot, and for fixed rules.
- Sequence numbers saturate at 2^64 - 1, so runs are shorter than that; for the SQLite log,
  shorter than 2^63.
- Wall-clock readings are parameters.

## Where code and documentation disagree

- `crates/boardproof-kernel/src/kernel.rs:92-94` says pending receipts never charge the lease.
  The guard below it leaves out only a Pending set by the constitution, so a Pending proposed
  by the caller is charged: `Router.PendingChargedOn` gives an input, and by
  `Router.PendingUnchargedIff` a pending outcome leaves the lease alone exactly when a rule
  asked for the approval, there is no lease, or the charge is zero. The driver still charges
  once, because resolving starts again from the uncharged proposal (`Router.LeaseSettledOnce`).
- `crates/boardproof-budget/tests/composition.rs:3-5` promises that consumed plus remaining,
  summed down a path of leases, never exceeds the root budget. A reservation counts in both
  parent and child. The first chain of that file already sums to 1700 under a root of 1000
  (`Budgets.ChainOvercounts`); down any path the promise holds exactly when every delegation
  on the way granted an empty budget (`Budgets.PathOvercountIff`), and over the whole tree
  exactly when all did (`Budgets.OvercountIff`). What is conserved is direct charges plus what
  remains (`Budgets.Conservation`).
- `packages/client-py/src/boardproof_client/_canonical.py:61-66` relies on BMP-only keys. That
  is sufficient (`Canonical.PythonAgreesOnBmpKeys`) and more than needed
  (`Canonical.PythonAgreesIff`).
- The explainer presents a rule as the reason for a denial. It takes the first plainly named
  match, even one that asks only for approval while another rule denies
  (`Explain.BlameCanMiss`). The presented rule is one that denies exactly when the matched ids
  are those of no other reason and that first match carries the id of a matching Deny rule
  (`Explain.NamesDenierIff`); with distinct ids, exactly when it is itself a Deny rule
  (`Explain.NamesDenierDistinct`).
- A proposal whose caller asks for Approved is explained as an operator's approval
  (`Explain.ProposedApprovedMisread`); `Explain.ExplanationAgreesIff` has the exact condition.
- Sleep report totals are u64 sums: a release build wraps around. Two passes of 2^63
  bytes report 0 (`Kernel.PassTotalWrapsOn`), and `Kernel.PassTotalWraps` says exactly when a
  total is the true one.
- The leaf preimage joins its fields without separators. It is injective for every timestamp
  and every action string, with no restriction on either.
- `crates/boardproof-store/src/lib.rs:12-14` says `verify_chain` re-checks the invariants a log
  accepts receipts by, the pinned issuer among them, and
  `crates/boardproof-store-sqlite/src/lib.rs:14` that it re-checks every invariant. Neither walk
  looks at the issuer or the exact version. A log pinned to another key, or holding a receipt
  relabelled with an older version, passes (`Log.WalkMissesIssuer`,
  `KernelRuns.WalkMissesVersion`). Contents that pass are contents that appends would have
  accepted exactly when every receipt carries the pinned issuer and the current version and no
  two share an id (`Log.PassingWalkIff`); the ids take care of themselves unless two bodies
  clash (`Log.PinnedWalkSuffices`).
- `crates/boardproof-host/src/clock.rs:91` calls the date conversion correct for any 64-bit day
  count. Its first addition overflows on the largest (`Clock.LargestDayOverflows`); every step
  fits exactly up to 719468 days below it (`Clock.StepsFitIff`), and no i64 second count gets
  beyond that (`Clock.NoOverflow`).

## Model

| member | source | states |
|---|---|---|
| `Utf16.CompareUtf16` | crates/boardproof-receipt/src/canonical.rs:138-153 | the comparator answers Less, Greater and Equal exactly as UTF-16 lexicographic order does, Equal only for identical keys |
| `Utf16.SurrogatesOf` | crates/boardproof-receipt/src/canonical.rs:138-153 | the units compared are those of UTF-16: a BMP character itself, any other a high and a low surrogate with ten bits each |
| `Utf16.KeyOrderTotal` | crates/boardproof-receipt/src/canonical.rs:138-153 | key comparison is irreflexive, asymmetric and total on distinct keys, by UTF-16 unit and by code point |
| `Utf16.KeyOrderTransitive` | crates/boardproof-receipt/src/canonical.rs:138-153 | key comparison is transitive in both orders |
| `Utf16.OrdersDisagreeIff` | packages/client-py/src/boardproof_client/_canonical.py:60-67 | the two orders rank a pair of keys differently exactly when, at their first difference, one has a character in U+E000..U+FFFF and the other one beyond the BMP |
| `Json.ReadEscapedChar` | crates/boardproof-receipt/src/canonical.rs:178-206 | the character is read back from its escaped form, whatever follows |
| `Json.EscapeTable` | crates/boardproof-receipt/src/canonical.rs:178-206 | which characters are escaped and how: the quote, the backslash, five controls by short name, every other control as four lower-case hex digits, and nothing else |
| `Json.NoLeadingZero` | crates/boardproof-receipt/src/canonical.rs:155-176 | decimal numbers carry no leading zero |
| `Json.Punctuation` | crates/boardproof-receipt/src/canonical.rs:87-128 | the bare words, and brackets, braces, single commas and colons without blanks around the printed parts |
| `Json.ParseEmit` | crates/boardproof-receipt/src/canonical.rs:87-128 | unique readability: a printed value followed by any legal text reads back as that value and leaves exactly that text |
| `Json.ParseSound` | crates/boardproof-receipt/src/canonical.rs:87-128 | conversely, whatever the reader accepts is the printed form of what it returns |
| `Json.EmitInjective` | crates/boardproof-receipt/src/canonical.rs:87-128 | printed values are prefix-free up to legal following text |
| `Canonical.SortKeysAscending` | crates/boardproof-receipt/src/canonical.rs:106-113 | the keys come out strictly ascending in the chosen order |
| `Canonical.CanonicalTextReadsBack` | crates/boardproof-receipt/src/canonical.rs:87-128 | canonical text reads back as the same value, its members in canonical order |
| `Canonical.CanonicalBytesIff` | crates/boardproof-receipt/src/canonical.rs:71-128 | two values have the same canonical bytes if and only if they are equal up to the order of object members |
| `Canonical.ReorderedObject` | crates/boardproof-receipt/src/canonical.rs:106-125 | every insertion order of an object prints the same bytes |
| `Canonical.PythonAgreesIff` | packages/client-py/src/boardproof_client/_canonical.py:41-74 | the Python port prints the same text if and only if no object, at any depth, has two keys that the two orders rank differently |
| `Canonical.PythonDiffersOn` | packages/client-py/src/boardproof_client/_canonical.py:60-67 | a two-key object that the two print differently |
| `Canonical.PythonAgreesOnBmpKeys` | packages/client-py/src/boardproof_client/_canonical.py:60-73 | the Python port and the Rust printer agree on every value with BMP-only keys |
| `PythonPort.CanonicalizeJcs` | packages/client-py/src/boardproof_client/_canonical.py:41-74 | the Python function, building and joining its lists of parts, returns the printer's text under code-point key order |
| `PythonPort.CanonicalizeJcsString` | packages/client-py/src/boardproof_client/_canonical.py:77-100 | its string loop returns the same quoted, escaped text as the Rust printer |
| `Writers.WriteNumber` | crates/boardproof-receipt/src/canonical.rs:155-176 | appends the decimal text of any i64 or u64 |
| `Writers.WriteString` | crates/boardproof-receipt/src/canonical.rs:178-206 | appends the quoted, escaped string |
| `Writers.WriteCanonical` | crates/boardproof-receipt/src/canonical.rs:87-128 | the recursive writer appends exactly the canonical bytes |
| `Writers.WriteArray` | crates/boardproof-receipt/src/canonical.rs:94-104 | the array loop with its `first` flag appends exactly the array's canonical bytes |
| `Writers.WriteObject` | crates/boardproof-receipt/src/canonical.rs:106-125 | sorting keys, then looking each one up and writing it, appends exactly the object's canonical bytes |
| `Writers.ToVecFromValue` | crates/boardproof-receipt/src/canonical.rs:81-85 | the entry point returns the canonical bytes |
| `Utf8.EncodedForm` | crates/boardproof-receipt/src/canonical.rs:178-206 | a character that is not escaped goes out as the shortest of the four UTF-8 forms, with its lead and continuation bytes |
| `Receipts.HexInjective` | crates/boardproof-receipt/src/lib.rs:284-298 | equal hex texts come from equal digests |
| `Receipts.HexDigits` | crates/boardproof-receipt/src/lib.rs:284-298 | two lower-case digits a byte, the high one first |
| `Receipts.PreimageInjective` | crates/boardproof-receipt/src/lib.rs:245-255 | the bytes hashed and signed determine the whole body: within and across schema versions, `key_id` absent or present, redactor hash null or set |
| `SignedText.PreimageIsCanonical` | crates/boardproof-receipt/src/lib.rs:245-255 | from schema version 2 on the bytes are UTF-8 of a text that reads, whole, as an object with exactly the body's fields under their literal keys, every object at every level in ascending UTF-16 key order |
| `SignedText.PreimageIsDeclared` | crates/boardproof-receipt/src/lib.rs:245-255 | up to version 1 they are such a text with every object's keys in declared order |
| `SignedText.IdAndSignatureCoverText` | crates/boardproof-receipt/src/lib.rs:489-530 | content id, signature and verification of a current body are all over those canonical bytes |
| `Leaf.ComputeLeafHash` | crates/boardproof-kernel/src/leaf.rs:22-41 | the successive updates digest the joined preimage |
| `Leaf.LeafPreimageInjective` | crates/boardproof-kernel/src/leaf.rs:22-41 | that preimage determines sequence, timestamp, action, decision and previous hash, for all strings |
| `SignedText.LeafLayout` | crates/boardproof-kernel/src/leaf.rs:22-41 | the layout: sequence number in eight little-endian bytes, the timestamp, a JSON text of the action in declared key order, the quoted decision word, and the previous hash |
| `Leaf.InstanceSigns` | crates/boardproof-receipt/src/lib.rs:489-530 | a signer over the preimage, and the verifier with its version check, meet the signer contract |
| `Leaf.IdClashIsCollision` | crates/boardproof-receipt/src/lib.rs:229-232 | two bodies with one content id exhibit a hash collision |
| `Leaf.LeafClashIsCollision` | crates/boardproof-kernel/src/leaf.rs:22-41 | two leaves with one leaf hash exhibit a hash collision |
| `Budgets.CapabilityLease.TryCharge` | crates/boardproof-budget/src/lease.rs:79-108 | charges, or refuses for exactly the reason that holds in exact sums, and then changes nothing |
| `Budgets.CapabilityLease.Delegate` | crates/boardproof-budget/src/lease.rs:117-143 | reserves the child's whole budget or refuses and changes nothing |
| `Budgets.CapabilityLease.Revoke` | crates/boardproof-budget/src/lease.rs:145-148 | sets the revoked flag and nothing else; from then on every charge and every delegation is refused |
| `Budgets.RevokedIsFrozen` | crates/boardproof-budget/src/lease.rs:145-148 | no later run charges a revoked lease, reserves from it or revives it |
| `Budgets.ChargeExact` | crates/boardproof-budget/src/lease.rs:79-108 | on a lease that is not overspent a charge is accepted if and only if the lease is live and the exact sums fit; nothing saturates, and it stays not overspent |
| `Budgets.ChargeRefusedWhy` | crates/boardproof-budget/src/lease.rs:79-108 | why a charge is refused, on any lease: revoked if and only if it is revoked, and each resource if and only if its exact sum is the first, in field order, to exceed the budget |
| `Budgets.DelegationExact` | crates/boardproof-budget/src/lease.rs:117-143 | why a delegation is refused, and that an accepted one consumes exactly the child's budget and starts the child live, unspent and under its parent's id |
| `Budgets.Conservation` | crates/boardproof-budget/src/lease.rs:79-148 | after any run of charges, delegations and revocations from one root, direct charges plus remaining capacity equal the root budget, resource by resource, and no lease is overspent |
| `Budgets.PathOvercountIff` | crates/boardproof-budget/tests/composition.rs:3-5 | down any path from the root, consumed plus remaining stays within the root budget if and only if every accepted delegation on the way granted an empty budget |
| `Budgets.OvercountIff` | crates/boardproof-budget/tests/composition.rs:3-8 | over all leases of the tree it does if and only if every accepted delegation granted an empty budget |
| `Budgets.ChainOvercounts` | crates/boardproof-budget/tests/composition.rs:32-43 | a chain of 1000, 500 and 200 bytes whose sum is 1700 |
| `Constitution.MatchedInOrder` | crates/boardproof-constitution/src/evaluator.rs:57-71 | the recorded ids are those of exactly the matching rules, each once, in document order |
| `Constitution.EvaluateRules` | crates/boardproof-constitution/src/evaluator.rs:52-86 | the one-pass loop records the matching rules in order, and its override is Denied exactly if a Deny rule fires, Pending exactly if only a RequireApproval rule does |
| `Constitution.VerdictMeans` | crates/boardproof-constitution/src/evaluator.rs:52-86 | the override is Denied if and only if some Deny rule has its kind absent or equal and its target text absent or occurring, Pending if and only if none does and some RequireApproval rule does, and absent otherwise |
| `Constitution.ExcludedRulesAreSilent` | crates/boardproof-constitution/src/rule.rs:67-79 | rules that name another kind, or a text that occurs nowhere in the target, deny nothing, override nothing and are not recorded |
| `Constitution.RecordedAreFiring` | crates/boardproof-constitution/src/evaluator.rs:57-71 | the recorded ids are those of exactly the rules that fire so, each once, marked matched, in document order |
| `KernelObject.KernelObject.Mint` | crates/boardproof-kernel/src/kernel.rs:524-567 | mints the signed body at the current position and moves sequence and previous hash just past it |
| `Outcomes.EnvelopeOf` | crates/boardproof-kernel/src/kernel.rs:524-567 | every receipt carries version 2, the clock reading, the key id, its number, the previous hash and the leaf hash over them, verifies under the kernel's key, and moves the state just past it, the number saturating |
| `KernelObject.KernelObject.HandleProposal` | crates/boardproof-kernel/src/kernel.rs:81-137 | constitution, then budget unless denied or set pending by a rule, then the receipt and the outcome kind |
| `Outcomes.RuledProposal` | crates/boardproof-kernel/src/kernel.rs:81-137 | when a rule fires: Denied if a Deny rule does and Pending otherwise, the lease untouched, only the firing rules recorded |
| `Outcomes.UnruledProposal` | crates/boardproof-kernel/src/kernel.rs:81-137 | when none does: the caller's decision stands and the lease is charged exactly once, unless the caller proposed Denied or the charge exceeds the budget; then outcome and last recorded rule name the resource |
| `KernelObject.KernelObject.HandleResolveApproval` | crates/boardproof-kernel/src/kernel.rs:139-228 | the four authenticity checks in order, each rejection leaving the state as it was; then the charge and the resolution receipt |
| `Outcomes.ResolutionRejectedWhy` | crates/boardproof-kernel/src/kernel.rs:139-178 | each rejection if and only if its check is the first of the four to fail |
| `Outcomes.ResolutionOutcome` | crates/boardproof-kernel/src/kernel.rs:180-228 | a refusal is Denied in the operator's name; an approval is Approved and paid exactly once, or Denied for the exact resource the lease cannot pay; the last edge carries the pending receipt's id |
| `KernelObject.KernelObject.HandleSleep` | crates/boardproof-kernel/src/kernel.rs:230-333 | one receipt per sleep pass, with its u64 totals and one edge per cleaner or walker |
| `Outcomes.SleepOutcome` | crates/boardproof-kernel/src/kernel.rs:230-333 | the action sums the passes up, and each pass has its edge with its own figures or error, in order |
| `Outcomes.FiguresAddUp` | crates/boardproof-sleep/src/lib.rs:180-196 | totals and failures add up over the passes: a failed pass counts one failure and no figures |
| `Kernel.PassTotalWraps` | crates/boardproof-sleep/src/lib.rs:180-196 | a report total is the exact sum modulo 2^64, and the exact sum exactly while that fits |
| `Kernel.PassTotalWrapsOn` | crates/boardproof-sleep/src/lib.rs:190-196 | two passes of 2^63 bytes report a total of 0 |
| `KernelObject.KernelObject.HandleRecordToolExecution` | crates/boardproof-kernel/src/kernel.rs:335-515 | the five authenticity checks in order, then the receipt with its execution, input, output, secret and redaction edges |
| `Outcomes.RecordingRejectedWhy` | crates/boardproof-kernel/src/kernel.rs:335-388 | each rejection if and only if its check is the first of the five to fail |
| `Outcomes.ExecutionShown` | crates/boardproof-kernel/src/kernel.rs:390-515 | a success commits, in edge and outcome, to the redacted hash if there is a report and to the tool's own otherwise, followed by one edge per secret and per redaction rule with a positive count and by nothing else; a failure shows its variant and message; the stack hash is the report's |
| `Outcomes.OneEdgeEach` | crates/boardproof-kernel/src/kernel.rs:390-470 | a success has exactly one edge each for tool, input and output |
| `KernelObject.KernelObject.Handle` | crates/boardproof-kernel/src/kernel.rs:71-79 | the whole step equals the specification step on the old state; a rejected event leaves the state as it was |
| `KernelRuns.StepChained` | crates/boardproof-kernel/src/kernel.rs:524-567 | one accepted event mints one verifying receipt with a correct leaf hash at the current position; a rejected one changes nothing |
| `KernelRuns.RunChained` | crates/boardproof-kernel/src/state.rs:32-35 | the receipts of any run are numbered and linked without a gap from the starting state to the final one |
| `KernelRuns.RunAccepted` | crates/boardproof-store/src/memory.rs:57-110 | every receipt of every run from genesis, rejected events mixed in, is accepted in order by a log pinned to the kernel's key, and the whole passes the walk; a refusal would need two bodies with one content id |
| `KernelRuns.ConcreteRunAccepted` | crates/boardproof-store/src/memory.rs:57-110 | with BLAKE3 and Ed25519 in place such a refusal exhibits a BLAKE3 collision |
| `KernelRuns.HeadCommitsToHistory` | crates/boardproof-kernel/src/leaf.rs:22-41 | two genuine chains with one head agree on length and on every field a leaf covers, or exhibit two leaves with one hash |
| `KernelRuns.DenyIsFinal` | crates/boardproof-kernel/src/kernel.rs:81-228 | in every run without forgeries, a receipt minted for a proposal or a resolution whose action a Deny rule matches is Denied |
| `Log.WalkVerdictUnique` | crates/boardproof-store/src/memory.rs:130-154 | the verdict of a walk is a function of the contents: Ok exactly for a valid chain, else the least failing index and the first failing check there |
| `Log.WalkReports` | crates/boardproof-store/src/memory.rs:130-154 | which fault is reported: at the first receipt out of place, its number if wrong, else its link if wrong, else its signature, with the values wanted and found |
| `Log.RefusedWhy` | crates/boardproof-store/src/memory.rs:57-110 | which error an append gets: the first that fails of version, issuer, number, link, signature and fresh id, with the values wanted and found |
| `Log.AppendKeepsGood` | crates/boardproof-store/src/memory.rs:57-110 | an accepted append keeps numbers, links, signatures, issuer pin, version and unique ids |
| `Log.GoodLogIff` | crates/boardproof-store/src/memory.rs:57-110 | contents have all of those properties if and only if appending them one by one to an empty log is accepted throughout |
| `Log.PassingWalkIff` | crates/boardproof-store/src/lib.rs:3-14 | a chain that passes the walk is one appends would have accepted if and only if every receipt carries the pinned issuer and current version and no two share an id |
| `Log.PinnedWalkSuffices` | crates/boardproof-store/src/memory.rs:130-154 | for a passing chain the issuer pin and version are enough, or two of its bodies share a content id |
| `Log.WalkMissesIssuer` | crates/boardproof-store/src/memory.rs:130-154 | a log pinned to another key passes the walk with a receipt that an append refuses |
| `KernelRuns.WalkMissesVersion` | crates/boardproof-store/src/memory.rs:130-154 | a receipt relabelled with an older version passes the walk, and an append refuses it |
| `MemoryLog.IndexIsScan` | crates/boardproof-store/src/memory.rs:98-128 | in every reachable log, lookup by id finds a receipt exactly when a stored one has that id, and that one is unique |
| `MemoryLog.InMemoryReceiptLog.Append` | crates/boardproof-store/src/memory.rs:57-110 | the six checks in order; a refusal changes neither the list nor the index |
| `MemoryLog.InMemoryReceiptLog.GetBySequence` | crates/boardproof-store/src/memory.rs:120-123 | finds the stored receipt with that number, if there is one |
| `MemoryLog.InMemoryReceiptLog.GetById` | crates/boardproof-store/src/memory.rs:125-128 | finds a receipt exactly when a stored one has that id |
| `MemoryLog.InMemoryReceiptLog.VerifyChain` | crates/boardproof-store/src/memory.rs:130-154 | on any contents whatever, returns the verdict owed: sound, complete, and naming the first fault |
| `SqliteLog.AppendRefines` | crates/boardproof-store-sqlite/src/lib.rs:359-439 | same verdict, same error and same contents as the in-memory append |
| `SqliteLog.LookupByIdRefines` | crates/boardproof-store-sqlite/src/lib.rs:475-487 | the select by id answers as the index does |
| `SqliteLog.LookupBySequenceRefines` | crates/boardproof-store-sqlite/src/lib.rs:445-473 | the selects by number and of the last row answer as the vector does |
| `SqliteLog.ReopenRefines` | crates/boardproof-store-sqlite/src/lib.rs:241-261 | reopening rebuilds exactly the cached length and leaf hash held before closing |
| `SqliteLog.SqliteRefinesMemory` | crates/boardproof-store-sqlite/src/lib.rs:171-487 | any run of at most 2^63 appends, lookups and reopenings from a fresh file draws the same replies from both logs, and leaves the table, the cached length and the cached leaf hash as the in-memory contents imply |
| `SqliteLog.SqliteReceiptLog.OpenInner` | crates/boardproof-store-sqlite/src/lib.rs:171-262 | pins or checks schema, format and issuer blobs in order, then rebuilds the caches; or returns the first error, wrong lengths included, and the file with what was already pinned |
| `SqliteLog.OpeningFailsWhy` | crates/boardproof-store-sqlite/src/lib.rs:171-262 | which error an attempt gets, in terms of the stored bytes, and that it succeeds if and only if no entry is wrong and the last row decodes |
| `SqliteLog.OpenedIsPinned` | crates/boardproof-store-sqlite/src/lib.rs:196-239 | a file once opened is pinned: later attempts change nothing in it and succeed exactly under the same issuer |
| `SqliteLog.OpeningKeepsFile` | crates/boardproof-store-sqlite/src/lib.rs:171-262 | an attempt to open, successful or not, loses no row and changes no metadata entry there was |
| `SqliteLog.InsertRefusedWhy` | crates/boardproof-store-sqlite/src/lib.rs:397-439 | on any table, what the insert makes of a receipt that passed every other check: out of order from number 2^63 on, a failing signature if the number is taken, a duplicate if only the id is, and otherwise accepted |
| `SqliteLog.SqliteReceiptLog.Append` | crates/boardproof-store-sqlite/src/lib.rs:359-439 | the checks and the insert; the caches move only after a successful insert |
| `SqliteLog.SqliteReceiptLog.VerifyChain` | crates/boardproof-store-sqlite/src/lib.rs:489-527 | on any table, the verdict owed, a row that does not decode counting as a failing signature at its index |
| `SqliteLog.WalksAgree` | crates/boardproof-store-sqlite/src/lib.rs:489-527 | on equal contents, when every row decodes, the two walks return the same result |
| `Host.MintKeeps` | crates/boardproof-host/src/api.rs:729-735 | minting under the kernel lock keeps the host invariant, whatever other requests are in flight |
| `Host.AppendKeeps` | crates/boardproof-host/src/api.rs:737-740 | appending under the log lock, accepted or refused, keeps the host invariant |
| `Host.BeginKeeps` | crates/boardproof-host/src/api.rs:526-714 | building an event from what the log holds at that moment keeps the host invariant |
| `Host.BootKeeps` | crates/boardproof-host/src/api.rs:143-161 | rebuilding the kernel from the log head establishes the invariant and resumes at the log's end |
| `Host.RunKeeps` | crates/boardproof-host/src/api.rs:720-741 | every interleaving of requests, cancellations and restarts keeps the host invariant |
| `HostRuns.LogIsValidPrefix` | crates/boardproof-host/src/api.rs:720-741 | after any run the log is a valid chain: the boot log continued by a prefix of the receipts minted since |
| `HostRuns.ApprovalsTraced` | crates/boardproof-host/src/api.rs:543-590 | every Approved receipt in the log is preceded by a logged Pending receipt for the same action, whose id its last edge carries; rules may change at every restart |
| `HostRuns.DeniedNeverApproved` | crates/boardproof-kernel/src/kernel.rs:81-228 | an action that a Deny rule matches at every boot is never pending and never approved in the log |
| `HostRuns.ApprovalsUndenied` | crates/boardproof-kernel/src/kernel.rs:81-228 | with the same rules at every boot no Deny rule matches the action of an Approved receipt |
| `HostRuns.ExecutionsTraced` | crates/boardproof-host/src/api.rs:599-710 | every execution edge in the log points to an earlier logged Allowed receipt whose kind starts with `tool.` |
| `HostRuns.RecordingsCarryEdge` | crates/boardproof-kernel/src/kernel.rs:335-415 | whenever a recorded execution is minted, the first edge of its receipt is such an execution edge, to a receipt already logged |
| `HostRuns.AcceptedIffNext` | crates/boardproof-host/src/api.rs:737-740 | a minted receipt is accepted exactly when it is the next in mint order, and is otherwise out of order |
| `HostRuns.DropBlocksLog` | crates/boardproof-host/src/api.rs:727-740 | once a minted receipt is dropped, no further steps short of a restart grow the log past its number |
| `HostRuns.RestartResyncs` | crates/boardproof-host/src/api.rs:143-161 | after a restart the log is kept, nothing is lost any more, and the next proposal served on its own is appended |
| `HostRuns.InOrderNeverRefused` | crates/boardproof-host/src/api.rs:720-741 | if appends happen in mint order none is ever refused, restarts included |
| `HostRequests.ProposalAnswered` | crates/boardproof-host/src/api.rs:526-536 | under any interleaving a proposal ends in a receipt decided and recorded by the rules of the last boot, stamped with their key id |
| `HostRequests.ResolutionAnswered` | crates/boardproof-host/src/api.rs:543-590 | answering a logged pending receipt ends in a receipt for its action: Approved if the operator approves, Denied under the operator's rule if not, with its edges carried forward and the approval edge last |
| `HostRequests.RecordingAnswered` | crates/boardproof-host/src/api.rs:599-710 | recording an execution of a logged allowed tool call ends in a receipt that shows the reported output, secrets and redaction, or the reported message |
| `HostRequests.BeginsIffAnswerable` | crates/boardproof-host/src/api.rs:543-649 | a request begins exactly when the log holds a receipt of that id it can answer; any other leaves no trace |
| `HostApi.ApiState.HandleEvent` | crates/boardproof-host/src/api.rs:720-741 | over the in-memory log: drives the kernel object and then the log object; kernel state, log and answer are those of the specification |
| `HostApi.SqliteApiState.HandleEvent` | crates/boardproof-host/src/api.rs:720-741 | over the SQLite log: the same kernel state, contents and answer |
| `HostApi.BuildKernelFromLog` | crates/boardproof-host/src/api.rs:143-161 | over the in-memory log: the kernel object resumes at the number and leaf hash after the last receipt, or at genesis |
| `HostApi.BuildKernelFromSqlite` | crates/boardproof-host/src/api.rs:143-161 | over the SQLite log: the same kernel state |
| `HostApi.CompletedIsMintThenAppend` | crates/boardproof-host/src/api.rs:720-741 | handling an event is the machine's mint step followed by its append step; a success answers with the receipt minted and logged, a conflict mints nothing |
| `Router.EvaluateWithRouting` | crates/boardproof-router/src/orchestrate.rs:58-90 | kernel state, questions asked and result are those of the specified exchange |
| `Router.NeverKernelError` | crates/boardproof-router/src/orchestrate.rs:49-57 | the driver never fails with a kernel error on its own pending receipt |
| `Router.RouterAskedIffPending` | crates/boardproof-router/src/orchestrate.rs:71-79 | the router is asked exactly when the proposal pends, once, about the receipt just minted |
| `Router.LeaseSettledOnce` | crates/boardproof-router/src/orchestrate.rs:58-90 | on success with a lease the final decision is not Pending; the lease is the original charged exactly once unless Denied, and untouched if Denied |
| `Router.PendingUnchargedIff` | crates/boardproof-kernel/src/kernel.rs:92-108 | a pending outcome leaves the lease alone if and only if a rule asked for the approval, there is no lease, or the charge is zero |
| `Router.PendingChargedOn` | crates/boardproof-kernel/src/kernel.rs:92-108 | a caller-proposed Pending on a ten-byte lease whose outcome has five bytes consumed |
| `Router.ProposedPendingIsCharged` | crates/boardproof-kernel/src/kernel.rs:97-108 | a Pending proposed by the caller, with no rule asking for approval, leaves its evaluation with the lease charged exactly once |
| `Router.FinalDecision` | crates/boardproof-kernel/src/kernel.rs:180-206 | after asking, the decision is Approved exactly when the operator approves and the lease can pay, and Denied otherwise |
| `Router.LedgerExact` | crates/boardproof-router/src/orchestrate.rs:58-90 | over any number of driven proposals on one lease, consumption grows by exactly the charges of those that went through, and never past the budget |
| `Explain.ComputeVerdict` | crates/boardproof-explain/src/lib.rs:265-307 | the three searches with early return: operator denial first, then the last budget rule, then the first constitution rule |
| `Explain.DenialReads` | crates/boardproof-explain/src/lib.rs:228-307 | a denial in the recorded ids: the operator if and only if his rule is matched; else the last matched budget rule, with its word and phrase; else the first matched rule without a `$` name; else the caller |
| `Explain.OthersRead` | crates/boardproof-explain/src/lib.rs:265-307 | any other decision is explained as itself, with the number of rules on record |
| `Explain.ExplainReceipt` | crates/boardproof-explain/src/lib.rs:193-225 | the explanation quotes the receipt field by field and adds only id, signature check, classified rules and verdict |
| `Explain.ExplanationShowsLeaf` | crates/boardproof-explain/src/lib.rs:193-225 | receipts explained alike agree on every field their leaf hash covers |
| `Explain.GenesisIff` | crates/boardproof-explain/src/lib.rs:169-176 | the genesis flag of an explanation is set exactly when the previous hash is the one a chain starts from |
| `Explain.ShortNameRoundTrips` | crates/boardproof-budget/src/error.rs:30-58 | the short name in a receipt names the resource that ran out |
| `Explain.ExplanationAgreesIff` | crates/boardproof-explain/src/lib.rs:228-307 | the explanation matches the kernel's outcome, for a budget denial down to the resource: always for resolutions, sleep passes and tool executions, and for proposals if and only if the recorded rule ids are not those of another reason and the caller did not ask for Approved where no rule and no lease stood in the way |
| `Explain.PlainProposalsAgree` | crates/boardproof-explain/src/lib.rs:228-307 | the explanation matches the kernel's outcome when caller rules are unmatched, the caller proposes Allowed or Denied and no operator rule id starts with `$` |
| `Explain.ProposedApprovedMisread` | crates/boardproof-kernel/src/kernel.rs:120-130 | a caller-proposed Approved is explained as an operator's approval although the kernel reports Allowed |
| `Explain.BlamedRule` | crates/boardproof-explain/src/lib.rs:293-300 | a denial by the constitution is blamed on the first matching rule without a `$` name, whatever that rule's own verdict |
| `Explain.NamesDenierIff` | crates/boardproof-explain/src/lib.rs:293-300 | the rule presented for a denial by the constitution is one that denies if and only if the matched ids are those of no other reason and the first plainly named match carries the id of a matching Deny rule |
| `Explain.NamesDenierDistinct` | crates/boardproof-explain/src/lib.rs:293-300 | with distinct rule ids, if and only if that first match is itself a Deny rule |
| `Explain.BlameCanMiss` | crates/boardproof-explain/src/lib.rs:293-300 | two rules for which the one that only asks for approval is presented |
| `Capabilities.SplitMeaning` | crates/boardproof-tools/src/capability.rs:65-65 | cutting the pattern at every `*` keeps its meaning |
| `Capabilities.LeftmostIsEnough` | crates/boardproof-tools/src/capability.rs:97-108 | choosing the leftmost place for a middle part loses no match |
| `Capabilities.GlobMatch` | crates/boardproof-tools/src/capability.rs:64-115 | the pass without backtracking returns true exactly when the candidate can be split to fit the pattern, each `*` standing for any text |
| `Capabilities.StarsCollapse` | crates/boardproof-tools/src/capability.rs:102-104 | a run of `*` means one `*` |
| `Capabilities.MatchesRequest` | crates/boardproof-tools/src/capability.rs:173-178 | a grant allows exactly requests of its own kind that fit its pattern |
| `Capabilities.SameVariantIff` | crates/boardproof-tools/src/capability.rs:173-212 | two capabilities are of one kind exactly when they carry the same of the seven names |
| `Capabilities.IsGrantedBy` | crates/boardproof-tools/src/capability.rs:232-234 | true exactly when some declared capability grants the request |
| `Clock.EpochDay` | crates/boardproof-host/src/clock.rs:104-121 | day 0 is 1970-01-01 |
| `Clock.DaysFollowCalendar` | crates/boardproof-host/src/clock.rs:104-121 | every day maps to a real date, and the next day to the next calendar date, leap years included |
| `Clock.StepsFitIff` | crates/boardproof-host/src/clock.rs:104-121 | every step of the conversion stays in its machine type, unsigned subtractions included, if and only if the day count is at most 719468 below the largest i64 |
| `Clock.LargestDayOverflows` | crates/boardproof-host/src/clock.rs:91-105 | on the largest i64 day count the first addition overflows |
| `Clock.NoOverflow` | crates/boardproof-host/src/clock.rs:76-121 | no step leaves its machine type for any i64 second count |
| `Clock.DatesAscend` | crates/boardproof-host/src/clock.rs:104-121 | later days get later dates |
| `Clock.FourDigitYearIff` | crates/boardproof-host/src/clock.rs:104-121 | an instant falls in the years 0 to 9999 exactly when its second count lies between two constants |
| `Clock.StampsSortAsInstants` | crates/boardproof-host/src/clock.rs:76-84 | for years 0 to 9999 the printed instants sort as text exactly as the instants do |
| `Clock.StampReads` | crates/boardproof-host/src/clock.rs:76-84 | every printed instant is the year, at least four wide, and `-MM-DDTHH:MM:SSZ`, whose numbers are the month and day of the calendar day and a time that adds up to the second of that day |

## Left out

- SQLite, BLAKE3 and Ed25519 internals: a table in key order with its two uniqueness constraints, and uninterpreted functions, stand in for them.
- Storage errors, poisoned locks and power loss: the refinement is between logs whose storage works.
- `peek_issuer`, iteration over receipts, and receipt JSON decoding: a stored row either decodes to a receipt or does not.
- HTTP routing, bearer authentication, request parsing and response rendering; a request that fails to parse never becomes a step of the machine.
- Sleep events are modelled in the kernel but not driven by the host, which has no route for them.
- A debug build panics where a sleep total overflows; the model is the release build, which wraps around.
- A clock reading is a string parameter; `StubClock` and `SystemClock` are not part of this model.
- Lease ids are numbers; how the caller picks a child's id is not modelled.
- The glob matcher runs over characters where the source works on UTF-8 offsets; both cut only at character boundaries.
- Key sorting is an insertion sort; the source calls the standard library's sort, which yields the same list for distinct keys.
- Integers outside the i64/u64 range and strings with lone surrogates, which only the Python port could be handed.
- Floats (the Rust canonicalizer panics on them) and JavaScript's loss of precision above 2^53.
- `packages/verifier-ts/src/canonical.ts` sorts by UTF-16 unit and escapes as the Rust printer does; the model has one printer for both.
- `Digest::from_hex`, human-readable explanation rendering and the command-line tools.
- The contents of tool outputs: the kernel reads only the output hash and the secret names.
- The WASM runtime, redaction, secret broker and SSRF table.
- A pending receipt may be resolved more than once: the kernel stores no pending state, and nothing here says otherwise.
