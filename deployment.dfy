/** Resolution of the SecurePeakData contract descriptor for the wallet's chain
    (`getSecurePeakDataByChainId`) and the `isDeployed` flag derived from it.
    The generated ABI is the same constant in every descriptor, so it is not
    carried in the model. */
module Deployment {
  import opened Wrappers

  type Address = string

  /** `ethers.ZeroAddress`. */
  const ZERO_ADDRESS: Address := "0x0000000000000000000000000000000000000000"

  /** One entry of the generated deployment table; a field the entry lacks is `None`. */
  datatype Entry = Entry(address: Option<Address>, chainId: Option<int>, chainName: Option<string>)

  /** The generated table from chain id to deployment entry. */
  type DeploymentTable = map<int, Entry>

  /** `SecurePeakDataInfoType` without its ABI. */
  datatype Descriptor = Descriptor(address: Option<Address>, chainId: Option<int>, chainName: Option<string>)

  /** JavaScript truthiness of a `number | undefined` chain id (NaN is not modelled). */
  predicate ChainIdGiven(c: Option<int>) {
    c.Some? && c.value != 0
  }

  /** JavaScript truthiness of an optional address string. */
  predicate AddressGiven(a: Option<Address>) {
    a.Some? && a.value != ""
  }

  /** The table holds a usable deployment for `chainId`: an entry with an address
      other than the zero address. */
  predicate HasDeployment(table: DeploymentTable, chainId: int) {
    chainId in table && table[chainId].address.Some? && table[chainId].address.value != ZERO_ADDRESS
  }

  /** `getSecurePeakDataByChainId`: three outcomes. No chain id: nothing but the
      ABI. A chain with no usable deployment: the ABI and the chain id. Otherwise
      the entry's address and name, with the entry's chain id defaulting to the
      one asked for. */
  function Resolve(table: DeploymentTable, chainId: Option<int>): (d: Descriptor)
    ensures !ChainIdGiven(chainId) ==> d == Descriptor(None, None, None)
    ensures ChainIdGiven(chainId) && !HasDeployment(table, chainId.value) ==>
              d == Descriptor(None, chainId, None)
    ensures ChainIdGiven(chainId) && HasDeployment(table, chainId.value) ==>
              var e := table[chainId.value];
              d == Descriptor(e.address, Some(e.chainId.GetOr(chainId.value)), e.chainName)
    ensures d.address != Some(ZERO_ADDRESS)
    ensures d.address.Some? ==> d.chainId.Some?
  {
    if !ChainIdGiven(chainId) then
      Descriptor(None, None, None)
    else
      var c := chainId.value;
      if c !in table || table[c].address.None? || table[c].address.value == ZERO_ADDRESS then
        Descriptor(None, chainId, None)
      else
        var e := table[c];
        Descriptor(e.address, Some(if e.chainId.Some? then e.chainId.value else c), e.chainName)
  }

  /** `isDeployed`: an address is present, non-empty, and not the zero address. */
  predicate IsDeployed(d: Descriptor)
    ensures IsDeployed(d) ==> d.address.Some? && d.address.value != "" && d.address.value != ZERO_ADDRESS
  {
    AddressGiven(d.address) && d.address.value != ZERO_ADDRESS
  }

  /** `isDeployed` of a resolved descriptor holds exactly when the wallet's chain id
      is given and the table has a non-empty, non-zero address for it. */
  lemma ResolvedIsDeployed(table: DeploymentTable, chainId: Option<int>)
    ensures IsDeployed(Resolve(table, chainId)) <==>
              ChainIdGiven(chainId) && HasDeployment(table, chainId.value)
              && table[chainId.value].address.value != ""
  {
  }

  /** Because the resolver never returns the zero address, `isDeployed` of a
      resolved descriptor is plain truthiness of its address: the zero-address
      test in `isDeployed` never decides anything. */
  lemma ResolvedDeployedIsTruthy(table: DeploymentTable, chainId: Option<int>)
    ensures IsDeployed(Resolve(table, chainId)) <==> AddressGiven(Resolve(table, chainId).address)
  {
  }
}
