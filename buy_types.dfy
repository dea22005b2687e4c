/**
 * The records the buy hook reads and produces: the wallet's chains and
 * accounts, the fiat on-ramp provider catalog entries, and the resolved
 * provider entries handed to the UI.
 */
module BuyTypes {
  import opened Wrappers

  type ChainId = string

  datatype Currency = Currency(coinDenom: string)

  /** The chain metadata the hook reads: its id, display name and staking currency. */
  datatype ChainInfo = ChainInfo(chainId: ChainId, chainName: string, stakeCurrency: Currency)

  /** A wallet account; its address is absent while the account is not initialised. */
  datatype Account = Account(bech32Address: Option<string>)

  /** One fiat on-ramp provider of the catalog. */
  datatype FiatOnRampServiceInfo = FiatOnRampServiceInfo(
    serviceId: string,
    buyOrigin: string,
    apiKey: string,
    buySupportChainIds: seq<ChainId>,
    buySupportCurrencies: Option<seq<Currency>>,
    buySupportCurrenciesByChainId: Option<map<ChainId, seq<Currency>>>)

  /**
   * A provider as the hook returns it: the catalog entry plus the optional
   * fields the hook may add (`isLoading` is added only by the final merge).
   */
  datatype BuySupportServiceInfo = BuySupportServiceInfo(
    serviceInfo: FiatOnRampServiceInfo,
    buySupportChainAccounts: Option<seq<Account>>,
    buySupportChainInfos: Option<seq<ChainInfo>>,
    buyUrl: Option<string>,
    isLoading: Option<bool>)

  /** A catalog entry returned as it is, with none of the added fields. */
  function Unresolved(service: FiatOnRampServiceInfo): BuySupportServiceInfo {
    BuySupportServiceInfo(service, None, None, None, None)
  }

  /**
   * What the hook reads from the wallet's chain and account stores: the
   * current chain id, the current chain and its account (absent stands for a
   * falsy value), and the two lookups by chain id.
   */
  datatype Stores = Stores(
    currentChainId: ChainId,
    currentChainInfo: Option<ChainInfo>,
    currentChainAccount: Option<Account>,
    getAccount: ChainId -> Account,
    getChain: ChainId -> ChainInfo)

  /** `currentChainInfo && currentChainAccount` is truthy. */
  predicate HasActiveChain(st: Stores) {
    st.currentChainInfo.Some? && st.currentChainAccount.Some?
  }
}
