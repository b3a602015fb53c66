# SecurePeakData hook model

A Dafny model of the logic in the `useSecurePeakData` React hook of the
SecurePeakData front end. This is a browser dApp that keeps an FHE-encrypted
energy-consumption log on chain. The hook does four things:

- It resolves the contract descriptor for the wallet's chain.
- It refreshes the list of masked records and their graph points from the
  contract's record metadata.
- It creates a record by encrypting two values and sending a transaction.
- It decrypts one record and merges the plaintext into the lists.

Every call into code outside the hook becomes an input, given in the order the
flow awaits it. The answers of the contract client, the FHE SDK and the
decryption-signature cache are each a `Reply`, which either answers or throws.
The "same chain" and "is stale" checks cannot throw, so their answers are plain
booleans.

Files:

- `wrappers.dfy`: `Option` and `Reply`.
- `radix.dfy`: JavaScript `toString(radix)` and `padStart`, and reading digit
  strings back.
- `deployment.dfy`: `getSecurePeakDataByChainId` and `isDeployed`.
- `handles.dfy`: the bigint-handle to 32-byte hex encoding, and its inverse.
- `records.dfy`: the record and graph-point types and the placeholder lists the
  refresh loop builds. It also holds the decrypt merges and the `WellFormed`
  invariant of the lists.
- `hook.dfy`: the hook state as the class `SecurePeakData` and its flows, plus
  the specification functions for the calls each flow issues.

The state is a class because the hook overwrites it step by step. Its fields are
`records`, `graphData`, `message`, the three in-flight flags and the resolved
descriptor. `Refresh`, `Create` and `Decrypt` check their own flag first. A flag
that is already set at entry stands for another call of the same flow that is
suspended at an `await`. In that case the call changes nothing and issues no
external call. On every other path each method leaves its flag as it found it,
so the flag is cleared on every exit after being set. Every method keeps
`WellFormed` for the two lists:

- the lists have equal length;
- record ids are strictly ascending;
- each record is either masked or decrypted;
- each graph point is flagged encrypted.

Behaviour of the code that the model follows where a plain reading might expect
otherwise:

- The refresh loop keeps index `i` only if its metadata says it exists AND the
  same-chain check made at that index holds (line 147). So a chain switch during
  the loop can drop entries.
- Records are merged by id, but graph points are merged by position
  (lines 395 and 410). The two agree when refresh kept every index
  (`MergePairsWhenAligned`). With an index skipped, the decrypt reveals the
  record but updates an unrelated graph point, or none at all
  (`MergeMissesGraphWhenSkipped`).
- A refresh rebuilds every record as masked. So a record decrypted earlier shows
  as encrypted again after any later refresh, including the one a create
  triggers. Decrypted views therefore do not persist for the whole session.
- The resolver never returns the zero address. So the zero-address test in
  `isDeployed` never decides anything, and `isDeployed` is plain truthiness of
  the address (`ResolvedDeployedIsTruthy`).

## Model

| member | source | states |
|---|---|---|
| `Deployment.Resolve` | frontend/hooks/useSecurePeakData.tsx:33-55 | The three outcomes. With no (or a zero) chain id, nothing but the ABI. With no entry, no address or the zero address, the ABI and the input chain id. Otherwise the entry's address and name, and the entry's chain id or else the input. Never the zero address; an address always comes with a chain id. |
| `Deployment.IsDeployed` | frontend/hooks/useSecurePeakData.tsx:103-109 | Definition of `isDeployed`: the address is present, non-empty and not the zero address. Its properties on resolved descriptors are in `ResolvedIsDeployed` and `ResolvedDeployedIsTruthy`. |
| `Deployment.ResolvedIsDeployed` | frontend/hooks/useSecurePeakData.tsx:103-109 | `isDeployed` of the resolved descriptor holds exactly when the chain id is given and the table has a non-empty, non-zero address for it. |
| `Deployment.ResolvedDeployedIsTruthy` | frontend/hooks/useSecurePeakData.tsx:45-47 | For a resolved descriptor, `isDeployed` is equivalent to the address being truthy. |
| `Radix.Digits` | frontend/hooks/useSecurePeakData.tsx:346 | `toString(16)` of a non-negative integer gives at least one digit of the radix, with no leading zero. |
| `Radix.ToRadixString` | frontend/hooks/useSecurePeakData.tsx:346 | A non-negative value gives exactly its digits (`Digits`); a negative one gives a minus sign followed by the digits of its magnitude. |
| `Radix.PadStart` | frontend/hooks/useSecurePeakData.tsx:346 | `padStart` result: length is the larger of the width and the input length; ends with the input; every position before it holds the filler. |
| `Radix.ValueOfDigits` | frontend/hooks/useSecurePeakData.tsx:346 | Reading the digit string back gives the number. |
| `Radix.ValueIgnoresLeadingZeros` | frontend/hooks/useSecurePeakData.tsx:346 | Zero padding keeps the string a digit string and leaves its value unchanged. |
| `Radix.DigitsLength` | frontend/hooks/useSecurePeakData.tsx:346 | The digit string is at most `k` long exactly when the number is below `base^k`. |
| `Radix.HexPowIsBinaryPow` | frontend/hooks/useSecurePeakData.tsx:346 | 16^k = 2^(4k). So 64 hex digits hold exactly the values below 2^256. |
| `Handles.HandleLimitIsPow` | frontend/hooks/useSecurePeakData.tsx:346 | The written-out bound `HANDLE_LIMIT` of a 32-byte handle equals 2^256. It lets `EncodeWidth` be applied to concrete handles. |
| `Handles.Encode` | frontend/hooks/useSecurePeakData.tsx:345-350 | A non-bigint handle passes through unchanged. A bigint one becomes "0x" and at least 64 further characters. |
| `Handles.Decode` | frontend/hooks/useSecurePeakData.tsx:345-350 | Accepts only "0x" followed by lower-case hex digits; this is the inverse used for the round trip. |
| `Handles.EncodeWidth` | frontend/hooks/useSecurePeakData.tsx:346 | For 0 <= h < `HANDLE_LIMIT` (= 2^256) the encoding is "0x" and exactly 64 lower-case hex digits: zeros, then the digits of h. |
| `Handles.PaddedDigits` | frontend/hooks/useSecurePeakData.tsx:346 | When the handle has at most 64 hex digits, the encoding is "0x", then zeros up to 64 digits, then those digits. |
| `Handles.EncodeWidthExact` | frontend/hooks/useSecurePeakData.tsx:346 | The encoding is 66 characters long exactly when the handle is below 2^256. |
| `Handles.DecodeEncode` | frontend/hooks/useSecurePeakData.tsx:345-350 | Round trip: decoding the encoding of any non-negative bigint handle gives the handle. |
| `Handles.EncodeSmallHandle` | frontend/hooks/useSecurePeakData.tsx:345-350 | The handle 123n is sent as "0x", 62 zeros and "7b", and reads back as 123. |
| `Handles.EncodeInjective` | frontend/hooks/useSecurePeakData.tsx:371 | Distinct handles have distinct encodings, so the encoded string is a sound key into the decryption result. |
| `Handles.NegativeDoesNotDecode` | frontend/hooks/useSecurePeakData.tsx:345-347 | A negative bigint encodes with a minus sign among the digits and does not read back. |
| `Records.Pad2` | frontend/hooks/useSecurePeakData.tsx:150 | Definition of `pad`: decimal digits padded to at least two characters. Its two-digit reading is stated by `Pad2Reads`. |
| `Records.TimeLabel` | frontend/hooks/useSecurePeakData.tsx:151 | Definition of the `HH:MM` graph label, at least five characters. Its shape is stated by `TimeLabelReads`. |
| `Records.DateLabel` | frontend/hooks/useSecurePeakData.tsx:152 | Definition of the `YYYY-MM-DD HH:MM` record label, with the month shifted to 1-based; at least thirteen characters. |
| `Records.Placeholder` | frontend/hooks/useSecurePeakData.tsx:154-162 | Definition of the record pushed for a kept index: it is masked (`Sealed`), and carries the index as id and the date label as timestamp. `CollectContents` states that the loop emits exactly these. |
| `Records.PlaceholderPoint` | frontend/hooks/useSecurePeakData.tsx:164-168 | Definition of the graph point pushed beside it: the time label, consumption 0, flagged encrypted. |
| `Records.Reveal` | frontend/hooks/useSecurePeakData.tsx:396-402 | Definition of one revealed record: a masked or decrypted record becomes decrypted (`Opened`) with the given consumption and peak, and keeps its id, timestamp and encrypted flag. `MergeRecordsFrame` states where the merge applies it. |
| `Records.Pad2Reads` | frontend/hooks/useSecurePeakData.tsx:150 | `pad(n)` for 0 <= n < 100 is exactly two decimal digits that read back as n. |
| `Records.TimeLabelReads` | frontend/hooks/useSecurePeakData.tsx:151 | The time label of a real clock reading is `HH:MM`: five characters, with the hours and minutes in two digits around a colon. |
| `Records.Kept` | frontend/hooks/useSecurePeakData.tsx:144-147 | Definition of the loop's keep condition: the metadata read answered, the entry exists, and the same-chain check at that index held. `CollectContents` states that the ids built are exactly the kept indices, and `CollectAllKept` covers the case where every index is kept. |
| `Records.Collect` | frontend/hooks/useSecurePeakData.tsx:143-170 | Definition of the refresh loop as a function of the count and the replies. When it answers, the two lists have equal length, at most the count. `CollectWellFormed`, `CollectThrows`, `CollectContents` and `CollectAllKept` state its properties, and `Hook.ReadRecords` is proved equal to it. |
| `Records.CollectWellFormed` | frontend/hooks/useSecurePeakData.tsx:143-170 | `Collect`, the loop as a function of the count and the replies, yields well-formed lists: equal length, ids ascending and below the count, every record masked (`Sealed`), every point encrypted. |
| `Records.CollectThrows` | frontend/hooks/useSecurePeakData.tsx:143-145 | The loop throws exactly when some metadata read below the count throws. |
| `Records.CollectContents` | frontend/hooks/useSecurePeakData.tsx:143-169 | `Built`: an id is present exactly for each index below the count whose metadata exists and whose same-chain check held. Each record is the masked placeholder for that index and time ("******", not peak, "Encrypted data", encrypted, not decrypted). The point beside it has consumption 0 and is encrypted. |
| `Records.CollectAllKept` | frontend/hooks/useSecurePeakData.tsx:143-169 | When every index is kept, there are `count` records and record j has id j. |
| `Records.ToNumber` | frontend/hooks/useSecurePeakData.tsx:398 | `Number(x)` is NaN exactly for a missing value, and an integer plaintext stays that integer. |
| `Records.ToBoolean` | frontend/hooks/useSecurePeakData.tsx:399 | `Boolean(x)` is true exactly for a present value other than 0 and false. |
| `Records.MergeRecords` | frontend/hooks/useSecurePeakData.tsx:393-405 | The merge keeps the list length and every record's id. |
| `Records.MergeGraph` | frontend/hooks/useSecurePeakData.tsx:408-417 | The graph merge keeps the list length. |
| `Records.MergeRecordsFrame` | frontend/hooks/useSecurePeakData.tsx:393-405 | With distinct ids, only the record with id k changes. It gets the decrypted consumption and peak, "Decrypted data" and isDecrypted, and keeps its id, time and encrypted flag. Every other record is unchanged. |
| `Records.MergeRecordsAbsent` | frontend/hooks/useSecurePeakData.tsx:393-405 | Decrypting an id that no record has leaves the records unchanged. |
| `Records.MergeRecordsIdempotent` | frontend/hooks/useSecurePeakData.tsx:393-405 | Merging the same decryption twice equals merging it once. |
| `Records.MergeRecordsMonotone` | frontend/hooks/useSecurePeakData.tsx:393-405 | A decrypted record stays decrypted through later merges. |
| `Records.MergeGraphFrame` | frontend/hooks/useSecurePeakData.tsx:408-417 | Only the point at position k changes, and only its consumption. |
| `Records.MergeKeepsWellFormed` | frontend/hooks/useSecurePeakData.tsx:393-417 | The decrypt merge preserves the lists' invariant. |
| `Records.MergePairsWhenAligned` | frontend/hooks/useSecurePeakData.tsx:393-417 | On aligned lists, the record and the graph point that change are at the same position. |
| `Records.MergeMissesGraphWhenSkipped` | frontend/hooks/useSecurePeakData.tsx:395-410 | With index 0 skipped, decrypting record 1 reveals it but changes no graph point. |
| `Hook.RefreshReady` | frontend/hooks/useSecurePeakData.tsx:114-118 | Definition of the refresh guard: an address, a chain id and a read provider. When it holds, the address is present and non-empty. `AfterRefresh` uses it. |
| `Hook.AfterRefresh` | frontend/hooks/useSecurePeakData.tsx:112-182 | What one `refreshRecords` leaves behind. Well-formed lists stay well formed. The message is either kept or becomes the fetch failure, and it changes only when a read threw. The lists change only when no refresh was in flight. With none in flight, a failed guard empties both lists, a thrown read keeps the lists and sets the fetch failure, and an answered read with the chain still the same at the end installs exactly `RefreshResult`'s lists. |
| `Hook.RefreshResult` | frontend/hooks/useSecurePeakData.tsx:130-177 | The refresh's try block throws exactly when the count read or a metadata read below the count throws. Otherwise its lists are well formed. |
| `Hook.ReadRecords` | frontend/hooks/useSecurePeakData.tsx:137-170 | The count-then-metadata loop returns `Throws` when the count read throws. Otherwise it returns exactly `Collect` over that count, which is what `RefreshResult` specifies when the labels come from `LabelsOf(toLocal)`. |
| `Hook.Lookup` | frontend/hooks/useSecurePeakData.tsx:371-385 | Definition of `values[key]` on a decryption result: it is present exactly when the key is, and is then the stored plaintext. `Handles.EncodeInjective` makes the encoded handle a sound key, and `ToNumber` and `ToBoolean` read the result. |
| `Hook.Blocker` | frontend/hooks/useSecurePeakData.tsx:192-201 | Preconditions fail in a fixed order: no address first, then no instance, then no signer. None of them fails exactly when all three are present. |
| `Hook.CreateCalls` | frontend/hooks/useSecurePeakData.tsx:220-268 | Definition of the external calls of a started create: one to five calls, the first the consumption encryption. Its properties are in `CreateSubmits`, `CreateEncrypts` and `CreateRefreshes`. |
| `Hook.CreateSubmits` | frontend/hooks/useSecurePeakData.tsx:220-259 | The create transaction is sent exactly when both encryptions answered and neither staleness check fired. It carries their handles and proofs. |
| `Hook.CreateEncrypts` | frontend/hooks/useSecurePeakData.tsx:221-238 | Create encrypts the consumption first and the peak flag second, as 1 or 0, for the contract and signer address. |
| `Hook.CreateRefreshes` | frontend/hooks/useSecurePeakData.tsx:261-268 | The nested refresh runs exactly when the receipt arrived and the context is fresh. It is the fifth and last call. |
| `Hook.DecryptCalls` | frontend/hooks/useSecurePeakData.tsx:310-385 | Definition of the external calls of a started decrypt: one to five calls, the first the signature load for the contract and the user. `DecryptSendsEncodedHandles` states what the `userDecrypt` calls carry. |
| `Hook.DecryptExits` | frontend/hooks/useSecurePeakData.tsx:310-419 | A started decrypt ends in exactly one way: merge, staleness cancel, throw, or missing signature. |
| `Hook.DecryptSendsEncodedHandles` | frontend/hooks/useSecurePeakData.tsx:340-385 | Every `userDecrypt` request targets the contract with the loaded signature and an encoded handle. A bigint handle below `HANDLE_LIMIT` (2^256) is sent as 66 characters that read back as the handle. |
| `Hook.SecurePeakData.constructor` | frontend/hooks/useSecurePeakData.tsx:78-101 | The initial state has empty lists, no flag set and the resolved descriptor. When the descriptor has no address, the message reports the missing deployment. |
| `Hook.SecurePeakData.SelectChain` | frontend/hooks/useSecurePeakData.tsx:92-101 | On a chain change the descriptor is resolved again and a missing deployment is reported. |
| `Hook.SecurePeakData.Refresh` | frontend/hooks/useSecurePeakData.tsx:112-182 | With its flag already set, refresh changes nothing. Otherwise the lists and the message become exactly `AfterRefresh` of what it found. Without address, chain id or provider it empties both lists. Otherwise it commits the built lists only if the chain is unchanged at the end, and on a throw it keeps the old lists and reports the failure. The flag is back to its entry value on every exit, and the descriptor and the other flags are untouched. |
| `Hook.SecurePeakData.Create` | frontend/hooks/useSecurePeakData.tsx:190-286 | With its flag set, create is a no-op with no calls. A missing precondition throws that error with no calls and no change. Otherwise it issues exactly `CreateCalls`, and it throws exactly when a step threw before a staleness exit. Without the nested refresh it leaves the lists unchanged. With it, the lists and the message are exactly `AfterRefresh` applied to the lists it found and the "record created" message. That can empty both lists or replace them with freshly masked ones. Its flag ends as it began. |
| `Hook.SecurePeakData.Decrypt` | frontend/hooks/useSecurePeakData.tsx:289-438 | With its flag set, decrypt is a no-op with no calls. A missing precondition throws that error with no calls and no change. Otherwise it issues exactly `DecryptCalls`. Only when every step answered and no staleness check fired does it merge: records by id and graph points by position, using the values looked up under the encoded handles. On every other exit both lists are unchanged, and its flag ends as it began. |

## Left out

- Contract reads and writes, `tx.wait()`, the FHE SDK (`createEncryptedInput`, `add32`, `encrypt`, `userDecrypt`) and `FhevmDecryptionSignature.loadOrSign` are foreign calls. They appear only as their answers (`Reply` parameters) and, for create and decrypt, as entries in the returned call list. In particular, `add32` rejecting an out-of-range value is just an encryption that throws.
- The ABI (frontend/abi/SecurePeakDataABI.ts) is a constant attached to every descriptor, so it is not carried. The deployment table is an abstract `map<int, Entry>`. It stands for the generated address file, which is keyed by `chainId.toString()`; that file is not part of this model.
- Chain ids are integers or absent. NaN and fractional chain ids are not modelled. An entry whose `address` key is present but `undefined` is not modelled either.
- Async interleaving between flows and the repaint `setTimeout` (line 213) are not modelled. A flow runs to completion in one method call. Every `sameChain` / `isStale` answer is a boolean input, and a flag found set at entry stands for a suspended call.
- The `Date` conversion of the timestamp depends on the host time zone (lines 148-149), so it is an input function `toLocal`. Only `pad` and the two labels are modelled.
- The `useEffect` that refreshes on mount (lines 185-187) and the rest of the React machinery are left out. The ref flags and their mirrored `useState` flags always change together, so each pair is one field. `contractInfo` and `contractRef.current` are one field.
- The message texts and the exception values are left out. `message` is an enum with one constructor per text, and a rethrown exception is `Threw(Rethrown)`.
- Records.ToNumber: does not model the rounding of `Number(bigint)` above 2^53. The decrypted consumption is a 32-bit value. A plaintext returned as a hex string is not modelled.
- `handles[0]` of an encryption is modelled as its one handle. An empty handle list is not modelled.
- The page, the presentation components, the header, the footer and the layout are presentation only and are not modelled.
