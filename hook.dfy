/** The state of the `useSecurePeakData` hook and its three flows: refreshing the
    record list, creating a record, and decrypting one. Every answer from outside
    (contract reads and writes, the FHE SDK, the signature cache, and each
    "same chain" / "is stale" check) arrives as a parameter, in the order the
    flow awaits it; Create and Decrypt also return the external calls they issue. */
module Hook {
  import opened Wrappers
  import opened Deployment
  import opened Handles
  import opened Records

  /** The diagnostic `message`, one constructor per text the hook sets. */
  datatype Message =
    | NoMessage | DeploymentNotFound | FetchFailed
    | CreatingRecord | ContextChanged | SendingTransaction | WaitingForTransaction | RecordCreated
    | DecryptingRecord | NoDecryptionSignature | DecryptingValues | RecordDecrypted
    | CreateFailed | DecryptFailed

  /** What create and decrypt throw: a missing precondition, or an exception
      from an external call, recorded and thrown again. */
  datatype Failure = NotDeployed | InstanceNotReady | SignerUnavailable | Rethrown

  datatype Completion = Returned | Threw(failure: Failure)

  /** The hook parameters a flow sees: whether the FHE instance exists, the
      connected signer's address, whether a read-only provider is set. */
  datatype Session = Session(instanceReady: bool, signer: Option<Address>, readProvider: bool)

  /** Answers seen by one refresh: `getRecordCount`, `getRecordMetadata(i)`, the
      same-chain check inside the loop at index `i` and after it, and the local
      time `Date` gives for a timestamp. */
  datatype RefreshReplies = RefreshReplies(
    count: Reply<nat>, metadata: nat -> Reply<Metadata>,
    sameChainAt: nat -> bool, sameChainAtEnd: bool, toLocal: int -> LocalTime)

  /** `handles[0]` and `inputProof` of one `encrypt()`. */
  datatype Encrypted = Encrypted(handle: string, inputProof: string)

  /** Answers seen by one create, in the order they are awaited. */
  datatype CreateReplies = CreateReplies(
    consumption: Reply<Encrypted>, staleAfterConsumption: bool,
    peak: Reply<Encrypted>, staleAfterPeak: bool,
    txHash: Reply<string>, receipt: Reply<int>, staleAfterReceipt: bool,
    refresh: RefreshReplies)

  /** The decryption credential `loadOrSign` returns; passed through to `userDecrypt`. */
  datatype Signature = Signature(
    privateKey: string, publicKey: string, signature: string,
    contractAddresses: seq<Address>, userAddress: Address, startTimestamp: int, durationDays: int)

  /** Answers seen by one decrypt, in the order they are awaited. */
  datatype DecryptReplies = DecryptReplies(
    signature: Reply<Option<Signature>>, staleAfterSignature: bool,
    consumptionHandle: Reply<RawHandle>, peakHandle: Reply<RawHandle>, staleAfterHandles: bool,
    consumptionValues: Reply<map<string, ClearValue>>, peakValues: Reply<map<string, ClearValue>>,
    staleAfterDecrypt: bool)

  /** An external call a flow issues. */
  datatype Call =
    | Encrypt(contract: Address, user: Address, value: int)
    | SubmitCreate(consumptionHandle: string, consumptionProof: string, peakHandle: string, peakProof: string)
    | WaitForReceipt(txHash: string)
    | RefreshRecords
    | LoadOrSign(contracts: seq<Address>, user: Address)
    | ReadConsumptionHandle(recordId: int)
    | ReadPeakHandle(recordId: int)
    | UserDecrypt(handle: string, contract: Address, signature: Signature)

  // ---------------------------------------------------------------- refresh

  /** The refresh guard: an address and a chain id in the descriptor, and a read provider. */
  predicate RefreshReady(d: Descriptor, readProvider: bool)
    ensures RefreshReady(d, readProvider) ==> readProvider && d.address.Some? && d.address.value != ""
  {
    AddressGiven(d.address) && ChainIdGiven(d.chainId) && readProvider
  }

  /** What the try block of a refresh computes: the lists, or `Throws`. */
  function RefreshResult(r: RefreshReplies): (res: Reply<Lists>)
    ensures res.Throws? <==> r.count.Throws? || exists i :: 0 <= i < r.count.value && r.metadata(i).Throws?
    ensures res.Answer? ==> WellFormed(res.value.records, res.value.points)
  {
    if r.count.Throws? then Throws
    else
      var c := Collect(r.count.value, r.metadata, r.sameChainAt, LabelsOf(r.toLocal));
      CollectThrows(r.count.value, r.metadata, r.sameChainAt, LabelsOf(r.toLocal));
      if c.Throws? then c
      else
        CollectWellFormed(r.count.value, r.metadata, r.sameChainAt, LabelsOf(r.toLocal));
        c
  }

  /** What the hook shows: the record list, the graph points and the message. */
  datatype View = View(records: seq<ConsumptionRecord>, points: seq<ConsumptionDataPoint>, message: Message)

  /** What one call of `refreshRecords` leaves behind, given what it found: nothing
      changes while another refresh is in flight; without an address, a chain id or
      a read provider both lists are emptied; a thrown read keeps the lists and
      reports the failure; otherwise the fresh lists replace the old ones when the
      chain is still the same at the end. */
  function AfterRefresh(refreshing: bool, d: Descriptor, readProvider: bool, r: RefreshReplies, before: View): (after: View)
    ensures WellFormed(before.records, before.points) ==> WellFormed(after.records, after.points)
    ensures after.message == before.message || after.message == FetchFailed
    ensures after.message != before.message ==> !refreshing && RefreshReady(d, readProvider) && RefreshResult(r).Throws?
    ensures !refreshing && !RefreshReady(d, readProvider) ==> after.records == [] && after.points == []
    ensures !refreshing && RefreshReady(d, readProvider) && RefreshResult(r).Throws? ==>
              after == before.(message := FetchFailed)
    ensures !refreshing && RefreshReady(d, readProvider) && RefreshResult(r).Answer? && r.sameChainAtEnd ==>
              after.records == RefreshResult(r).value.records && after.points == RefreshResult(r).value.points
    ensures after.records != before.records || after.points != before.points ==>
              && !refreshing
              && ((!RefreshReady(d, readProvider) && after.records == [] && after.points == [])
                  || (RefreshReady(d, readProvider) && r.sameChainAtEnd
                      && RefreshResult(r) == Answer(Lists(after.records, after.points))))
  {
    if refreshing then before
    else if !RefreshReady(d, readProvider) then View([], [], before.message)
    else
      match RefreshResult(r)
      case Throws => before.(message := FetchFailed)
      case Answer(l) => if r.sameChainAtEnd then View(l.records, l.points, before.message) else before
  }

  /** The try block of `refreshRecords`: read the count, then the metadata of
      each index in ascending order, keeping a placeholder record and graph point
      for each index that exists while the chain is unchanged; a thrown read ends it.
      `stamp` is the date and time labelling of a timestamp. */
  method ReadRecords(count: Reply<nat>, metadata: nat -> Reply<Metadata>, sameChainAt: nat -> bool,
                     stamp: int -> Stamp)
    returns (result: Reply<Lists>)
    ensures count.Throws? ==> result == Throws
    ensures count.Answer? ==> result == Collect(count.value, metadata, sameChainAt, stamp)
  {
    if count.Throws? {
      return Throws;
    }
    var n := count.value;
    var newRecords: seq<ConsumptionRecord> := [];
    var newGraphData: seq<ConsumptionDataPoint> := [];
    var i := 0;
    while i < n
      invariant 0 <= i <= n
      invariant Collect(i, metadata, sameChainAt, stamp) == Answer(Lists(newRecords, newGraphData))
    {
      var m := metadata(i);
      if m.Throws? {
        CollectThrowsOnward(i + 1, n, metadata, sameChainAt, stamp);
        return Throws;
      }
      CollectStep(i, metadata, sameChainAt, stamp);
      if Kept(metadata, sameChainAt, i) {
        var t := stamp(m.value.timestamp);
        newRecords := newRecords + [Placeholder(i, t)];
        newGraphData := newGraphData + [PlaceholderPoint(t)];
      }
      i := i + 1;
    }
    return Answer(Lists(newRecords, newGraphData));
  }

  // ---------------------------------------------------------------- create and decrypt

  /** The precondition checks of create and decrypt, in their order: deployed
      contract, then FHE instance, then signer. */
  function Blocker(d: Descriptor, s: Session): (f: Option<Failure>)
    ensures f.None? <==> AddressGiven(d.address) && s.instanceReady && s.signer.Some?
    ensures f == Some(NotDeployed) <==> !AddressGiven(d.address)
    ensures f == Some(InstanceNotReady) <==> AddressGiven(d.address) && !s.instanceReady
    ensures f == Some(SignerUnavailable) <==> AddressGiven(d.address) && s.instanceReady && s.signer.None?
  {
    if !AddressGiven(d.address) then Some(NotDeployed)
    else if !s.instanceReady then Some(InstanceNotReady)
    else if s.signer.None? then Some(SignerUnavailable)
    else None
  }

  /** Create stops at a staleness check. */
  predicate CreateCancelled(r: CreateReplies) {
    r.consumption.Answer? && (r.staleAfterConsumption || (r.peak.Answer? && r.staleAfterPeak))
  }

  /** Create throws: an awaited step threw before any staleness exit. */
  predicate CreateThrows(r: CreateReplies) {
    r.consumption.Throws?
    || (!r.staleAfterConsumption
        && (r.peak.Throws? || (!r.staleAfterPeak && (r.txHash.Throws? || r.receipt.Throws?))))
  }

  /** The external calls one started create issues, in order. */
  function CreateCalls(address: Address, user: Address, consumption: int, isPeak: bool, r: CreateReplies): (calls: seq<Call>)
    ensures 1 <= |calls| <= 5 && calls[0] == Encrypt(address, user, consumption)
  {
    var c1 := [Encrypt(address, user, consumption)];
    if r.consumption.Throws? || r.staleAfterConsumption then c1
    else
      var c2 := c1 + [Encrypt(address, user, if isPeak then 1 else 0)];
      if r.peak.Throws? || r.staleAfterPeak then c2
      else
        var e1, e2 := r.consumption.value, r.peak.value;
        var c3 := c2 + [SubmitCreate(e1.handle, e1.inputProof, e2.handle, e2.inputProof)];
        if r.txHash.Throws? then c3
        else
          var c4 := c3 + [WaitForReceipt(r.txHash.value)];
          if r.receipt.Throws? || r.staleAfterReceipt then c4 else c4 + [RefreshRecords]
  }

  /** The transaction is sent exactly when both encryptions answered and neither
      staleness check after them fired, and it carries the two handles and proofs. */
  lemma CreateSubmits(address: Address, user: Address, consumption: int, isPeak: bool, r: CreateReplies)
    ensures var calls := CreateCalls(address, user, consumption, isPeak, r);
            && ((exists c :: c in calls && c.SubmitCreate?) <==>
                  r.consumption.Answer? && !r.staleAfterConsumption && r.peak.Answer? && !r.staleAfterPeak)
            && (r.consumption.Answer? && !r.staleAfterConsumption && r.peak.Answer? && !r.staleAfterPeak ==>
                  calls[2] == SubmitCreate(r.consumption.value.handle, r.consumption.value.inputProof,
                                           r.peak.value.handle, r.peak.value.inputProof))
  {
    var calls := CreateCalls(address, user, consumption, isPeak, r);
    if r.consumption.Answer? && !r.staleAfterConsumption && r.peak.Answer? && !r.staleAfterPeak {
      assert calls[2].SubmitCreate?;
    } else {
      assert forall c :: c in calls ==> !c.SubmitCreate?;
    }
  }

  /** Create encrypts the consumption first and the peak flag second, as 1 or 0. */
  lemma CreateEncrypts(address: Address, user: Address, consumption: int, isPeak: bool, r: CreateReplies)
    ensures var calls := CreateCalls(address, user, consumption, isPeak, r);
            && calls[0] == Encrypt(address, user, consumption)
            && (|calls| > 1 ==> calls[1] == Encrypt(address, user, if isPeak then 1 else 0))
  {
  }

  /** Create's nested refresh runs exactly when the receipt arrived and the
      context is still fresh; it is always the last call. */
  lemma CreateRefreshes(address: Address, user: Address, consumption: int, isPeak: bool, r: CreateReplies)
    ensures var calls := CreateCalls(address, user, consumption, isPeak, r);
            && (RefreshRecords in calls <==> !CreateThrows(r) && !CreateCancelled(r) && !r.staleAfterReceipt)
            && (RefreshRecords in calls ==> calls[|calls| - 1] == RefreshRecords && |calls| == 5)
  {
  }

  /** Decrypt stops at a staleness check. */
  predicate DecryptCancelled(r: DecryptReplies) {
    r.signature.Answer? && r.signature.value.Some?
    && (r.staleAfterSignature
        || (r.consumptionHandle.Answer? && r.peakHandle.Answer?
            && (r.staleAfterHandles
                || (r.consumptionValues.Answer? && r.peakValues.Answer? && r.staleAfterDecrypt))))
  }

  /** Decrypt throws: an awaited step threw before any other exit. */
  predicate DecryptThrows(r: DecryptReplies) {
    r.signature.Throws?
    || (r.signature.value.Some? && !r.staleAfterSignature
        && (r.consumptionHandle.Throws? || r.peakHandle.Throws?
            || (!r.staleAfterHandles && (r.consumptionValues.Throws? || r.peakValues.Throws?))))
  }

  /** Decrypt reaches the merge. */
  predicate DecryptMerges(r: DecryptReplies) {
    && r.signature.Answer? && r.signature.value.Some? && !r.staleAfterSignature
    && r.consumptionHandle.Answer? && r.peakHandle.Answer? && !r.staleAfterHandles
    && r.consumptionValues.Answer? && r.peakValues.Answer? && !r.staleAfterDecrypt
  }

  /** `values[key]`: the plaintext stored under `key`, or `undefined`. */
  function Lookup(m: map<string, ClearValue>, key: string): (v: Option<ClearValue>)
    ensures v.Some? <==> key in m
    ensures v.Some? ==> v.value == m[key]
  {
    if key in m then Some(m[key]) else None
  }

  /** The decrypted consumption, read under the encoded handle. */
  function DecryptedConsumption(r: DecryptReplies): JsNumber
    requires DecryptMerges(r)
  {
    ToNumber(Lookup(r.consumptionValues.value, Encode(r.consumptionHandle.value)))
  }

  /** The decrypted peak flag, read under the encoded handle. */
  function DecryptedPeak(r: DecryptReplies): bool
    requires DecryptMerges(r)
  {
    ToBoolean(Lookup(r.peakValues.value, Encode(r.peakHandle.value)))
  }

  /** The external calls one started decrypt issues, in order. */
  function DecryptCalls(address: Address, user: Address, recordId: int, r: DecryptReplies): (calls: seq<Call>)
    ensures 1 <= |calls| <= 5 && calls[0] == LoadOrSign([address], user)
  {
    var c1 := [LoadOrSign([address], user)];
    if r.signature.Throws? || r.signature.value.None? || r.staleAfterSignature then c1
    else
      var sig := r.signature.value.value;
      var c2 := c1 + [ReadConsumptionHandle(recordId)];
      if r.consumptionHandle.Throws? then c2
      else
        var c3 := c2 + [ReadPeakHandle(recordId)];
        if r.peakHandle.Throws? || r.staleAfterHandles then c3
        else
          var c4 := c3 + [UserDecrypt(Encode(r.consumptionHandle.value), address, sig)];
          if r.consumptionValues.Throws? then c4
          else c4 + [UserDecrypt(Encode(r.peakHandle.value), address, sig)]
  }

  /** The exits of a started decrypt are exclusive: it merges, is cancelled,
      throws, or finds no signature, and exactly one of these. */
  lemma DecryptExits(r: DecryptReplies)
    ensures DecryptMerges(r) ==> !DecryptCancelled(r) && !DecryptThrows(r)
    ensures DecryptCancelled(r) ==> !DecryptThrows(r)
    ensures !DecryptMerges(r) && !DecryptCancelled(r) && !DecryptThrows(r) <==> r.signature == Answer(None)
  {
  }

  /** Every `userDecrypt` request names the record's handle in its 32-byte hex form:
      for a handle below 2^256, "0x" and 64 hex digits that read back as the handle. */
  lemma DecryptSendsEncodedHandles(address: Address, user: Address, recordId: int, r: DecryptReplies, c: Call)
    requires c in DecryptCalls(address, user, recordId, r) && c.UserDecrypt?
    ensures c.contract == address && c.signature == r.signature.value.value
    ensures c.handle == Encode(r.consumptionHandle.value) || c.handle == Encode(r.peakHandle.value)
    ensures forall n: nat ::
              ((r.consumptionHandle.value == BigInt(n) || r.peakHandle.value == BigInt(n))
               && c.handle == Encode(BigInt(n)) && n < HANDLE_LIMIT)
              ==> |c.handle| == 66 && Decode(c.handle) == Some(n)
  {
    forall n: nat | (r.consumptionHandle.value == BigInt(n) || r.peakHandle.value == BigInt(n))
                    && c.handle == Encode(BigInt(n)) && n < HANDLE_LIMIT
      ensures |c.handle| == 66 && Decode(c.handle) == Some(n)
    {
      EncodeWidth(n);
      DecodeEncode(n);
    }
  }

  // ---------------------------------------------------------------- the hook

  class SecurePeakData {
    var records: seq<ConsumptionRecord>
    var graphData: seq<ConsumptionDataPoint>
    var message: Message
    /** `isRefreshingRef` and the `isRefreshing` state, which always change together. */
    var isRefreshing: bool
    var isCreating: bool
    var isDecrypting: bool
    /** `contractRef.current` and `contractInfo`: the descriptor for the current chain. */
    var contract: Descriptor

    ghost predicate Valid()
      reads this
    {
      WellFormed(records, graphData)
    }

    /** The hook on first render: empty lists, no flow in flight, the descriptor
        for `chainId`, and the "deployment not found" message when it has no address. */
    constructor (table: DeploymentTable, chainId: Option<int>)
      ensures Valid()
      ensures records == [] && graphData == []
      ensures !isRefreshing && !isCreating && !isDecrypting
      ensures contract == Resolve(table, chainId)
      ensures message == if AddressGiven(contract.address) then NoMessage else DeploymentNotFound
    {
      records, graphData := [], [];
      isRefreshing, isCreating, isDecrypting := false, false, false;
      contract := Resolve(table, chainId);
      message := if AddressGiven(Resolve(table, chainId).address) then NoMessage else DeploymentNotFound;
    }

    /** A new chain id: the descriptor is resolved again, and a missing deployment
        is reported. Nothing else changes. */
    method SelectChain(table: DeploymentTable, chainId: Option<int>)
      modifies this`contract, this`message
      ensures contract == Resolve(table, chainId)
      ensures message == if AddressGiven(contract.address) then old(message) else DeploymentNotFound
    {
      contract := Resolve(table, chainId);
      if !AddressGiven(contract.address) {
        message := DeploymentNotFound;
      }
    }

    /** `refreshRecords`. */
    method Refresh(readProvider: bool, r: RefreshReplies)
      requires Valid()
      modifies this
      ensures Valid()
      ensures contract == old(contract) && isCreating == old(isCreating) && isDecrypting == old(isDecrypting)
      ensures isRefreshing == old(isRefreshing)
      ensures old(isRefreshing) ==> unchanged(this)
      ensures View(records, graphData, message)
                == AfterRefresh(old(isRefreshing), contract, readProvider, r, old(View(records, graphData, message)))
    {
      if isRefreshing {
        return;
      }
      if !AddressGiven(contract.address) || !ChainIdGiven(contract.chainId) || !readProvider {
        records, graphData := [], [];
        return;
      }
      isRefreshing := true;
      var result := ReadRecords(r.count, r.metadata, r.sameChainAt, LabelsOf(r.toLocal));
      assert result == RefreshResult(r);
      match result {
        case Throws =>
          message := FetchFailed;
        case Answer(l) =>
          if r.sameChainAtEnd {
            records, graphData := l.records, l.points;
          }
      }
      isRefreshing := false;
    }

    /** `createRecord(consumption, isPeak)`. */
    method Create(session: Session, consumption: int, isPeak: bool, r: CreateReplies)
      returns (outcome: Completion, calls: seq<Call>)
      requires Valid()
      modifies this
      ensures Valid()
      ensures contract == old(contract) && isDecrypting == old(isDecrypting) && isRefreshing == old(isRefreshing)
      ensures isCreating == old(isCreating)
      ensures old(isCreating) ==> outcome == Returned && calls == [] && unchanged(this)
      ensures !old(isCreating) && Blocker(contract, session).Some? ==>
                outcome == Threw(Blocker(contract, session).value) && calls == [] && unchanged(this)
      ensures !old(isCreating) && Blocker(contract, session).None? ==>
                && calls == CreateCalls(contract.address.value, session.signer.value, consumption, isPeak, r)
                && outcome == (if CreateThrows(r) then Threw(Rethrown) else Returned)
                && (CreateThrows(r) ==> message == CreateFailed)
                && (CreateCancelled(r) ==> message == ContextChanged)
                && (!CreateThrows(r) && !CreateCancelled(r) ==>
                      message == RecordCreated || (RefreshRecords in calls && message == FetchFailed))
                && (RefreshRecords !in calls ==> records == old(records) && graphData == old(graphData))
                && (RefreshRecords in calls ==>
                      View(records, graphData, message)
                        == AfterRefresh(isRefreshing, contract, session.readProvider, r.refresh,
                                        View(old(records), old(graphData), RecordCreated)))
    {
      if isCreating {
        return Returned, [];
      }
      var blocker := Blocker(contract, session);
      if blocker.Some? {
        return Threw(blocker.value), [];
      }
      isCreating := true;
      message := CreatingRecord;
      var address, user := contract.address.value, session.signer.value;
      outcome, calls := Returned, [Encrypt(address, user, consumption)];
      if r.consumption.Throws? {
        message, outcome := CreateFailed, Threw(Rethrown);
        isCreating := false;
        return;
      }
      if r.staleAfterConsumption {
        message := ContextChanged;
        isCreating := false;
        return;
      }
      calls := calls + [Encrypt(address, user, if isPeak then 1 else 0)];
      if r.peak.Throws? {
        message, outcome := CreateFailed, Threw(Rethrown);
        isCreating := false;
        return;
      }
      if r.staleAfterPeak {
        message := ContextChanged;
        isCreating := false;
        return;
      }
      message := SendingTransaction;
      var e1, e2 := r.consumption.value, r.peak.value;
      calls := calls + [SubmitCreate(e1.handle, e1.inputProof, e2.handle, e2.inputProof)];
      if r.txHash.Throws? {
        message, outcome := CreateFailed, Threw(Rethrown);
        isCreating := false;
        return;
      }
      message := WaitingForTransaction;
      calls := calls + [WaitForReceipt(r.txHash.value)];
      if r.receipt.Throws? {
        message, outcome := CreateFailed, Threw(Rethrown);
        isCreating := false;
        return;
      }
      message := RecordCreated;
      if !r.staleAfterReceipt {
        calls := calls + [RefreshRecords];
        Refresh(session.readProvider, r.refresh);
      }
      isCreating := false;
    }

    /** `decryptRecord(recordId)`. */
    method Decrypt(session: Session, recordId: int, r: DecryptReplies)
      returns (outcome: Completion, calls: seq<Call>)
      requires Valid()
      modifies this
      ensures Valid()
      ensures contract == old(contract) && isCreating == old(isCreating) && isRefreshing == old(isRefreshing)
      ensures isDecrypting == old(isDecrypting)
      ensures old(isDecrypting) ==> outcome == Returned && calls == [] && unchanged(this)
      ensures !old(isDecrypting) && Blocker(contract, session).Some? ==>
                outcome == Threw(Blocker(contract, session).value) && calls == [] && unchanged(this)
      ensures !old(isDecrypting) && Blocker(contract, session).None? ==>
                && calls == DecryptCalls(contract.address.value, session.signer.value, recordId, r)
                && outcome == (if DecryptThrows(r) then Threw(Rethrown) else Returned)
                && (DecryptThrows(r) ==> message == DecryptFailed)
                && (DecryptCancelled(r) ==> message == ContextChanged)
                && (r.signature == Answer(None) ==> message == NoDecryptionSignature)
                && (DecryptMerges(r) ==>
                      && records == MergeRecords(old(records), recordId, DecryptedConsumption(r), DecryptedPeak(r))
                      && graphData == MergeGraph(old(graphData), recordId, DecryptedConsumption(r))
                      && message == RecordDecrypted)
                && (!DecryptMerges(r) ==> records == old(records) && graphData == old(graphData))
    {
      if isDecrypting {
        return Returned, [];
      }
      var blocker := Blocker(contract, session);
      if blocker.Some? {
        return Threw(blocker.value), [];
      }
      isDecrypting := true;
      message := DecryptingRecord;
      var address, user := contract.address.value, session.signer.value;
      outcome, calls := Returned, [LoadOrSign([address], user)];
      if r.signature.Throws? {
        message, outcome := DecryptFailed, Threw(Rethrown);
        isDecrypting := false;
        return;
      }
      if r.signature.value.None? {
        message := NoDecryptionSignature;
        isDecrypting := false;
        return;
      }
      var sig := r.signature.value.value;
      if r.staleAfterSignature {
        message := ContextChanged;
        isDecrypting := false;
        return;
      }
      calls := calls + [ReadConsumptionHandle(recordId)];
      if r.consumptionHandle.Throws? {
        message, outcome := DecryptFailed, Threw(Rethrown);
        isDecrypting := false;
        return;
      }
      calls := calls + [ReadPeakHandle(recordId)];
      if r.peakHandle.Throws? {
        message, outcome := DecryptFailed, Threw(Rethrown);
        isDecrypting := false;
        return;
      }
      var consumptionHandle := Encode(r.consumptionHandle.value);
      var peakHandle := Encode(r.peakHandle.value);
      if r.staleAfterHandles {
        message := ContextChanged;
        isDecrypting := false;
        return;
      }
      message := DecryptingValues;
      calls := calls + [UserDecrypt(consumptionHandle, address, sig)];
      if r.consumptionValues.Throws? {
        message, outcome := DecryptFailed, Threw(Rethrown);
        isDecrypting := false;
        return;
      }
      var decryptedConsumption := Lookup(r.consumptionValues.value, consumptionHandle);
      calls := calls + [UserDecrypt(peakHandle, address, sig)];
      if r.peakValues.Throws? {
        message, outcome := DecryptFailed, Threw(Rethrown);
        isDecrypting := false;
        return;
      }
      var decryptedPeak := Lookup(r.peakValues.value, peakHandle);
      if r.staleAfterDecrypt {
        message := ContextChanged;
        isDecrypting := false;
        return;
      }
      MergeKeepsWellFormed(records, graphData, recordId, ToNumber(decryptedConsumption), ToBoolean(decryptedPeak));
      records := MergeRecords(records, recordId, ToNumber(decryptedConsumption), ToBoolean(decryptedPeak));
      graphData := MergeGraph(graphData, recordId, ToNumber(decryptedConsumption));
      message := RecordDecrypted;
      isDecrypting := false;
    }
  }
}
