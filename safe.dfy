/** The `/api/switch_owner` handler of app.py: the check of the new owner's
    address and the `swapOwner` call the agent signs and broadcasts. */
module Safe {
  import opened Wrappers

  /** The head of the Safe's owner list, passed as the previous owner. */
  const Sentinel: string := "0x0000000000000000000000000000000000000001"

  /** The Safe whose owner is swapped. */
  const SafeAddress: string := "0xf3939FE058981eF1AC0CD5C316E6270F5C65F591"

  /** The contract function that is called. */
  const SwapOwnerSignature: string := "swapOwner(address,address,address)"

  /** The fixed gas limit of the transaction. */
  const SwapGas: nat := 200000

  /** The arguments of `swapOwner`, in their order in the call. */
  datatype SwapCall = SwapCall(prevOwner: string, oldOwner: string, newOwner: string) {
    function Arguments(): seq<string> {
      [prevOwner, oldOwner, newOwner]
    }
  }

  /** What the handler reads from the chain before building the transaction:
      the chain id, the gas price and the agent account's transaction count. */
  datatype ChainView = ChainView(chainId: nat, gasPrice: nat, agentTxCount: nat)

  /** The transaction given to `buildTransaction`, signing and broadcast. */
  datatype Transaction = Transaction(
    to: string, callee: string, call: SwapCall,
    chainId: nat, gas: nat, gasPrice: nat, nonce: nat)

  datatype SwitchError = NoNewAddress

  /** `new_owner = data.get("new_address")`, refused when missing or empty;
      otherwise the call replaces the agent's own address (taken as the
      current owner) with the new address, the sentinel standing before it. */
  function SwapArguments(newAddress: Option<string>, agent: string): (r: Result<SwapCall, SwitchError>)
    ensures r.Failure? <==> newAddress.None? || newAddress.value == []
    ensures r.Success? ==> r.value.Arguments() == [Sentinel, agent, newAddress.value]
  {
    match newAddress
    case None => Failure(NoNewAddress)
    case Some(a) => if a == [] then Failure(NoNewAddress) else Success(SwapCall(Sentinel, agent, a))
  }

  /** The transaction for `call`: sent to the Safe, with the fixed gas limit
      and the agent account's transaction count as nonce. */
  function SwapTransaction(call: SwapCall, chain: ChainView): (t: Transaction)
    ensures t.to == SafeAddress && t.callee == SwapOwnerSignature && t.call == call
    ensures t.chainId == chain.chainId && t.gasPrice == chain.gasPrice
    ensures t.gas == 200000 && t.nonce == chain.agentTxCount
  {
    Transaction(SafeAddress, SwapOwnerSignature, call, chain.chainId, SwapGas, chain.gasPrice, chain.agentTxCount)
  }

  /** The answers of `/api/switch_owner`. */
  datatype SwitchResponse = MissingAddress | TransactionFailed | TransactionSent(txHash: string) {
    function Status(): nat {
      match this
      case MissingAddress => 400
      case TransactionFailed => 500
      case TransactionSent(_) => 200
    }
  }

  /** `/api/switch_owner`. `chain` is `None` when a read from the chain raised;
      `submit` stands for building, signing and broadcasting the transaction
      and gives the transaction hash, or `None` when any of these raised. */
  function SwitchOwner(newAddress: Option<string>, agent: string, chain: Option<ChainView>,
                       submit: Transaction -> Option<string>): (r: SwitchResponse)
    ensures r.Status() == 400 <==> newAddress.None? || newAddress.value == []
    ensures r.TransactionSent? ==>
      && chain.Some?
      && submit(SwapTransaction(SwapCall(Sentinel, agent, newAddress.value), chain.value)) == Some(r.txHash)
  {
    match SwapArguments(newAddress, agent)
    case Failure(_) => MissingAddress
    case Success(call) =>
      match chain
      case None => TransactionFailed
      case Some(c) =>
        match submit(SwapTransaction(call, c))
        case None => TransactionFailed
        case Some(txHash) => TransactionSent(txHash)
  }

  /** A missing or empty address is refused before anything is read from the
      chain or submitted: the answer does not depend on either. */
  lemma RefusalSubmitsNothing(newAddress: Option<string>, agent: string,
                              chain1: Option<ChainView>, submit1: Transaction -> Option<string>,
                              chain2: Option<ChainView>, submit2: Transaction -> Option<string>)
    requires newAddress.None? || newAddress.value == []
    ensures SwitchOwner(newAddress, agent, chain1, submit1) == SwitchOwner(newAddress, agent, chain2, submit2) == MissingAddress
  {
  }

  /** With an address and the chain readable, the one transaction submitted
      calls `swapOwner(SENTINEL, agent, new address)` on the Safe, with gas
      200000 and the agent's transaction count as nonce; the handler answers
      200 exactly when that submission gives a hash. */
  lemma SwitchOwnerSubmitsSwap(newAddress: string, agent: string, chain: ChainView,
                               submit: Transaction -> Option<string>)
    requires newAddress != []
    ensures var tx := SwapTransaction(SwapCall(Sentinel, agent, newAddress), chain);
      && tx.to == SafeAddress && tx.callee == SwapOwnerSignature
      && tx.call.Arguments() == [Sentinel, agent, newAddress]
      && tx.gas == SwapGas && tx.nonce == chain.agentTxCount
      && (SwitchOwner(Some(newAddress), agent, Some(chain), submit).Status() == 200 <==> submit(tx).Some?)
  {
  }
}
