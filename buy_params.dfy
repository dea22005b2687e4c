/**
 * The per-provider query parameters of a purchase link (the `buyUrlParams`
 * switch): a closed dispatch on `serviceId` over moonpay, transak and kado,
 * with no parameters for any other provider.
 */
module BuyParams {
  import opened Wrappers
  import opened Text
  import opened UriComponent
  import opened Json
  import opened Records
  import opened BuyTypes

  /** A parameter value: a string, an array of strings, or `undefined`. */
  datatype ParamValue = StringValue(s: string) | ArrayValue(items: seq<string>) | UndefinedValue

  type Params = seq<(string, ParamValue)>

  /** An optional address as a JSON member value. */
  function AddressJson(address: Option<string>): Json {
    match address
    case Some(a) => JString(a)
    case None => JUndefined
  }

  /** An optional address as a parameter value. */
  function AddressParam(address: Option<string>): ParamValue {
    match address
    case Some(a) => StringValue(a)
    case None => UndefinedValue
  }

  /** The lower-cased staking denomination: the key of a chain's address in the JSON objects. */
  function DenomKey(ci: ChainInfo): string {
    ToLowerCase(ci.stakeCurrency.coinDenom)
  }

  function DenomKeys(infos: seq<ChainInfo>): seq<string> {
    seq(|infos|, i requires 0 <= i < |infos| => DenomKey(infos[i]))
  }

  /** The staking denominations as they are, in supported-chain order. */
  function Denoms(infos: seq<ChainInfo>): seq<string> {
    seq(|infos|, i requires 0 <= i < |infos| => infos[i].stakeCurrency.coinDenom)
  }

  /** One write per supported chain: its denomination key and its account's address (looked up again by the chain info's id). */
  function DenomAddressWrites(infos: seq<ChainInfo>, getAccount: ChainId -> Account): (es: seq<(string, Json)>)
    ensures Keys(es) == DenomKeys(infos)
  {
    seq(|infos|, i requires 0 <= i < |infos| =>
      (DenomKey(infos[i]), AddressJson(getAccount(infos[i].chainId).bech32Address)))
  }

  /** The `reduce` from `{}` that spreads the accumulator and writes one denomination per chain. */
  function DenomAddresses(infos: seq<ChainInfo>, getAccount: ChainId -> Account): seq<(string, Json)> {
    Object(DenomAddressWrites(infos, getAccount))
  }

  function MoonpayParams(service: FiatOnRampServiceInfo, st: Stores, infos: seq<ChainInfo>): Params {
    Assign(
      Object([("apiKey", StringValue(service.apiKey)), ("showWalletAddressForm", StringValue("true"))]),
      if HasActiveChain(st) then
        var denom := DenomKey(st.currentChainInfo.value);
        var single := Object([(denom, AddressJson(st.currentChainAccount.value.bech32Address))]);
        Object([("walletAddress", StringValue(EncodeUriComponent(StringifyObject(single)))),
                ("currencyCode", StringValue(denom))])
      else
        Object([("walletAddresses",
                 StringValue(EncodeUriComponent(StringifyObject(DenomAddresses(infos, st.getAccount)))))]))
  }

  function TransakParams(service: FiatOnRampServiceInfo, st: Stores, infos: seq<ChainInfo>): Params {
    Assign(
      Object([("apiKey", StringValue(service.apiKey)), ("hideMenu", StringValue("true"))]),
      if HasActiveChain(st) then
        Object([("walletAddress", StringValue(st.currentChainAccount.value.bech32Address.GetOr(""))),
                ("cryptoCurrencyCode", StringValue(st.currentChainInfo.value.stakeCurrency.coinDenom))])
      else
        var data := Object([("coins", JObject(DenomAddresses(infos, st.getAccount)))]);
        Object([("walletAddressesData", StringValue(EncodeUriComponent(StringifyObject(data)))),
                ("cryptoCurrencyList", StringValue(Join(",", Denoms(infos))))]))
  }

  /** The upper-cased display name of every supported chain, in order. */
  function NetworkList(infos: seq<ChainInfo>): (r: seq<string>)
    ensures |r| == |infos|
    ensures forall i :: 0 <= i < |r| ==> |r[i]| == |infos[i].chainName|
    ensures forall i, n :: 0 <= i < |r| && 0 <= n < |r[i]| ==>
              !IsLower(r[i][n]) && SameIgnoringCase(r[i][n], infos[i].chainName[n])
  {
    seq(|infos|, i requires 0 <= i < |infos| => ToUpperCase(infos[i].chainName))
  }

  /** `buySupportCurrencies?.map(c => c.coinDenom)`. */
  function CryptoList(service: FiatOnRampServiceInfo): (v: ParamValue)
    ensures v.UndefinedValue? <==> service.buySupportCurrencies.None?
    ensures v.ArrayValue? ==>
      |v.items| == |service.buySupportCurrencies.value|
      && forall i :: 0 <= i < |v.items| ==> v.items[i] == service.buySupportCurrencies.value[i].coinDenom
    ensures !v.StringValue?
  {
    match service.buySupportCurrencies
    case Some(cs) => ArrayValue(seq(|cs|, i requires 0 <= i < |cs| => cs[i].coinDenom))
    case None => UndefinedValue
  }

  /** `buySupportCurrenciesByChainId?.[chainId]?.[0].coinDenom` throws: the list is present and empty. */
  predicate RevCurrencyThrows(service: FiatOnRampServiceInfo, chainId: ChainId) {
    && service.buySupportCurrenciesByChainId.Some?
    && chainId in service.buySupportCurrenciesByChainId.value
    && |service.buySupportCurrenciesByChainId.value[chainId]| == 0
  }

  /** The first currency configured for the chain, or `undefined` when there is no list for it. */
  function RevCurrency(service: FiatOnRampServiceInfo, chainId: ChainId): (v: ParamValue)
    requires !RevCurrencyThrows(service, chainId)
    ensures v.UndefinedValue? <==>
              service.buySupportCurrenciesByChainId.None? || chainId !in service.buySupportCurrenciesByChainId.value
    ensures !v.UndefinedValue? ==> v == StringValue(service.buySupportCurrenciesByChainId.value[chainId][0].coinDenom)
  {
    match service.buySupportCurrenciesByChainId
    case None => UndefinedValue
    case Some(byChain) =>
      if chainId in byChain then StringValue(byChain[chainId][0].coinDenom) else UndefinedValue
  }

  function KadoParams(service: FiatOnRampServiceInfo, st: Stores, infos: seq<ChainInfo>): Params
    requires HasActiveChain(st) ==> !RevCurrencyThrows(service, st.currentChainId)
  {
    Assign(
      Object([("apiKey", StringValue(service.apiKey)),
              ("product", StringValue("BUY")),
              ("networkList", ArrayValue(NetworkList(infos))),
              ("cryptoList", CryptoList(service))]),
      if HasActiveChain(st) then
        Object([("onToAddress", AddressParam(st.currentChainAccount.value.bech32Address)),
                ("onRevCurrency", RevCurrency(service, st.currentChainId)),
                ("network", StringValue(ToUpperCase(st.currentChainInfo.value.chainName)))])
      else [])
  }

  /** Building the parameters throws: a kado entry reading `[0]` of an empty per-chain list. */
  predicate ParamsThrow(service: FiatOnRampServiceInfo, st: Stores) {
    service.serviceId == "kado" && HasActiveChain(st) && RevCurrencyThrows(service, st.currentChainId)
  }

  predicate IsKnownService(serviceId: string) {
    serviceId == "moonpay" || serviceId == "transak" || serviceId == "kado"
  }

  /** The `switch` on `serviceId`: parameters for the three known providers, none otherwise. */
  function BuyUrlParams(service: FiatOnRampServiceInfo, st: Stores, infos: seq<ChainInfo>): (r: Option<Params>)
    requires !ParamsThrow(service, st)
    ensures r.Some? <==> IsKnownService(service.serviceId)
    ensures r.Some? ==> |r.value| >= 3 && r.value[0] == ("apiKey", StringValue(service.apiKey))
  {
    match service.serviceId
    case "moonpay" =>
      if HasActiveChain(st) then MoonpaySingleCurrencyRecord(service, st, infos); Some(MoonpayParams(service, st, infos))
      else MoonpayMultiCurrencyRecord(service, st, infos); Some(MoonpayParams(service, st, infos))
    case "transak" =>
      if HasActiveChain(st) then TransakSingleAddressRecord(service, st, infos); Some(TransakParams(service, st, infos))
      else TransakMultiAddressRecord(service, st, infos); Some(TransakParams(service, st, infos))
    case "kado" => KadoRecord(service, st, infos); Some(KadoParams(service, st, infos))
    case _ => None
  }

  /** The two members every moonpay link starts with. */
  function MoonpayHead(service: FiatOnRampServiceInfo): Params {
    [("apiKey", StringValue(service.apiKey)), ("showWalletAddressForm", StringValue("true"))]
  }

  /** With an active chain: moonpay's single-currency form, as an ordered record. */
  lemma MoonpaySingleCurrencyRecord(service: FiatOnRampServiceInfo, st: Stores, infos: seq<ChainInfo>)
    requires HasActiveChain(st)
    ensures var denom := DenomKey(st.currentChainInfo.value);
      var address := AddressJson(st.currentChainAccount.value.bech32Address);
      MoonpayParams(service, st, infos) ==
        MoonpayHead(service) + [("walletAddress", StringValue(EncodeUriComponent(StringifyObject([(denom, address)])))),
                                ("currencyCode", StringValue(denom))]
  {
    var head := MoonpayHead(service);
    AssignTwo([], head[0].0, head[0].1, head[1].0, head[1].1);
    assert Object(head) == head;
    var denom := DenomKey(st.currentChainInfo.value);
    var address := AddressJson(st.currentChainAccount.value.bech32Address);
    AssignOne([], denom, address);
    assert Object([(denom, address)]) == [(denom, address)];
    var wallet := StringValue(EncodeUriComponent(StringifyObject([(denom, address)])));
    var code := StringValue(denom);
    var tail := [("walletAddress", wallet), ("currencyCode", code)];
    AssignTwo([], "walletAddress", wallet, "currencyCode", code);
    assert Object(tail) == tail;
    assert MoonpayParams(service, st, infos) == Assign(head, tail);
    assert Keys(head) == ["apiKey", "showWalletAddressForm"];
    AssignTwo(head, "walletAddress", wallet, "currencyCode", code);
  }

  /** Without an active chain: moonpay's multi-currency form, as an ordered record. */
  lemma MoonpayMultiCurrencyRecord(service: FiatOnRampServiceInfo, st: Stores, infos: seq<ChainInfo>)
    requires !HasActiveChain(st)
    ensures MoonpayParams(service, st, infos) ==
      MoonpayHead(service) + [("walletAddresses",
                               StringValue(EncodeUriComponent(StringifyObject(DenomAddresses(infos, st.getAccount)))))]
  {
    var head := MoonpayHead(service);
    AssignTwo([], head[0].0, head[0].1, head[1].0, head[1].1);
    assert Object(head) == head;
    var wallets := StringValue(EncodeUriComponent(StringifyObject(DenomAddresses(infos, st.getAccount))));
    AssignOne([], "walletAddresses", wallets);
    assert Object([("walletAddresses", wallets)]) == [("walletAddresses", wallets)];
    assert MoonpayParams(service, st, infos) == Assign(head, [("walletAddresses", wallets)]);
    assert Keys(head) == ["apiKey", "showWalletAddressForm"];
    AssignOne(head, "walletAddresses", wallets);
  }

  /** The two members every transak link starts with. */
  function TransakHead(service: FiatOnRampServiceInfo): Params {
    [("apiKey", StringValue(service.apiKey)), ("hideMenu", StringValue("true"))]
  }

  /** With an active chain: transak's single-address form, as an ordered record. */
  lemma TransakSingleAddressRecord(service: FiatOnRampServiceInfo, st: Stores, infos: seq<ChainInfo>)
    requires HasActiveChain(st)
    ensures TransakParams(service, st, infos) ==
      TransakHead(service) + [("walletAddress", StringValue(st.currentChainAccount.value.bech32Address.GetOr(""))),
                              ("cryptoCurrencyCode", StringValue(st.currentChainInfo.value.stakeCurrency.coinDenom))]
  {
    var head := TransakHead(service);
    AssignTwo([], head[0].0, head[0].1, head[1].0, head[1].1);
    assert Object(head) == head;
    var wallet := StringValue(st.currentChainAccount.value.bech32Address.GetOr(""));
    var code := StringValue(st.currentChainInfo.value.stakeCurrency.coinDenom);
    AssignTwo([], "walletAddress", wallet, "cryptoCurrencyCode", code);
    assert Object([("walletAddress", wallet), ("cryptoCurrencyCode", code)]) ==
      [("walletAddress", wallet), ("cryptoCurrencyCode", code)];
    assert TransakParams(service, st, infos) == Assign(head, [("walletAddress", wallet), ("cryptoCurrencyCode", code)]);
    assert Keys(head) == ["apiKey", "hideMenu"];
    AssignTwo(head, "walletAddress", wallet, "cryptoCurrencyCode", code);
  }

  /** Without an active chain: transak's multi-address form, as an ordered record. */
  lemma TransakMultiAddressRecord(service: FiatOnRampServiceInfo, st: Stores, infos: seq<ChainInfo>)
    requires !HasActiveChain(st)
    ensures var data := [("coins", JObject(DenomAddresses(infos, st.getAccount)))];
      TransakParams(service, st, infos) ==
        TransakHead(service) + [("walletAddressesData", StringValue(EncodeUriComponent(StringifyObject(data)))),
                                ("cryptoCurrencyList", StringValue(Join(",", Denoms(infos))))]
  {
    var head := TransakHead(service);
    AssignTwo([], head[0].0, head[0].1, head[1].0, head[1].1);
    assert Object(head) == head;
    var coins := JObject(DenomAddresses(infos, st.getAccount));
    AssignOne([], "coins", coins);
    assert Object([("coins", coins)]) == [("coins", coins)];
    var data := StringValue(EncodeUriComponent(StringifyObject([("coins", coins)])));
    var list := StringValue(Join(",", Denoms(infos)));
    AssignTwo([], "walletAddressesData", data, "cryptoCurrencyList", list);
    assert Object([("walletAddressesData", data), ("cryptoCurrencyList", list)]) ==
      [("walletAddressesData", data), ("cryptoCurrencyList", list)];
    assert TransakParams(service, st, infos) ==
      Assign(head, [("walletAddressesData", data), ("cryptoCurrencyList", list)]);
    assert Keys(head) == ["apiKey", "hideMenu"];
    AssignTwo(head, "walletAddressesData", data, "cryptoCurrencyList", list);
  }

  /** The four members every kado link has. */
  function KadoHead(service: FiatOnRampServiceInfo, infos: seq<ChainInfo>): Params {
    [("apiKey", StringValue(service.apiKey)),
     ("product", StringValue("BUY")),
     ("networkList", ArrayValue(NetworkList(infos))),
     ("cryptoList", CryptoList(service))]
  }

  lemma KadoHeadLiteral(service: FiatOnRampServiceInfo, infos: seq<ChainInfo>)
    ensures Object(KadoHead(service, infos)) == KadoHead(service, infos)
  {
    var head := KadoHead(service, infos);
    var first := head[..2];
    var rest := head[2..];
    assert head == first + rest;
    AssignTwo([], first[0].0, first[0].1, first[1].0, first[1].1);
    assert Assign([], first) == first;
    assert Keys(first) == ["apiKey", "product"];
    AssignTwo(first, rest[0].0, rest[0].1, rest[1].0, rest[1].1);
    AssignSplit([], first, rest);
  }

  /** The kado parameters as an ordered record: the extra three members only with an active chain. */
  lemma KadoRecord(service: FiatOnRampServiceInfo, st: Stores, infos: seq<ChainInfo>)
    requires HasActiveChain(st) ==> !RevCurrencyThrows(service, st.currentChainId)
    ensures KadoParams(service, st, infos) ==
      if HasActiveChain(st) then
        KadoHead(service, infos) +
          [("onToAddress", AddressParam(st.currentChainAccount.value.bech32Address)),
           ("onRevCurrency", RevCurrency(service, st.currentChainId)),
           ("network", StringValue(ToUpperCase(st.currentChainInfo.value.chainName)))]
      else KadoHead(service, infos)
  {
    var head := KadoHead(service, infos);
    KadoHeadLiteral(service, infos);
    if HasActiveChain(st) {
      var to := AddressParam(st.currentChainAccount.value.bech32Address);
      var rev := RevCurrency(service, st.currentChainId);
      var net := StringValue(ToUpperCase(st.currentChainInfo.value.chainName));
      AssignThree([], "onToAddress", to, "onRevCurrency", rev, "network", net);
      var tail := [("onToAddress", to), ("onRevCurrency", rev), ("network", net)];
      assert Object(tail) == tail;
      assert KadoParams(service, st, infos) == Assign(head, tail);
      assert Keys(head) == ["apiKey", "product", "networkList", "cryptoList"];
      AssignThree(head, "onToAddress", to, "onRevCurrency", rev, "network", net);
    } else {
      assert KadoParams(service, st, infos) == Assign(head, []);
    }
  }

  /**
   * Moonpay: `apiKey` and `showWalletAddressForm` come first; then the
   * single-currency form (`walletAddress`, `currencyCode`) exactly when there
   * is an active chain, and the multi-currency form (`walletAddresses`)
   * otherwise, never both.
   */
  lemma MoonpayAddressForms(service: FiatOnRampServiceInfo, st: Stores, infos: seq<ChainInfo>)
    ensures var p := MoonpayParams(service, st, infos);
      && |p| >= 3
      && Keys(p)[..2] == ["apiKey", "showWalletAddressForm"]
      && Get(p, "apiKey") == Some(StringValue(service.apiKey))
      && Get(p, "showWalletAddressForm") == Some(StringValue("true"))
      && ("walletAddress" in Keys(p) <==> HasActiveChain(st))
      && ("currencyCode" in Keys(p) <==> HasActiveChain(st))
      && ("walletAddresses" in Keys(p) <==> !HasActiveChain(st))
  {
    var p := MoonpayParams(service, st, infos);
    var head := MoonpayHead(service);
    assert Keys(head) == ["apiKey", "showWalletAddressForm"];
    if HasActiveChain(st) {
      MoonpaySingleCurrencyRecord(service, st, infos);
      var tail := p[2..];
      assert p == head + tail;
      KeysAppend(head, tail);
      assert Keys(tail) == ["walletAddress", "currencyCode"];
      SingleFormKeys();
    } else {
      MoonpayMultiCurrencyRecord(service, st, infos);
      var tail := p[2..];
      assert p == head + tail;
      KeysAppend(head, tail);
      assert Keys(tail) == ["walletAddresses"];
      MultiFormKeys();
    }
    GetAt(p, 0);
    GetAt(p, 1);
  }

  /** Solver aid: membership facts about the literal key list of moonpay's single-currency form. */
  lemma SingleFormKeys()
    ensures var ks := ["apiKey", "showWalletAddressForm"] + ["walletAddress", "currencyCode"];
      "walletAddress" in ks && "currencyCode" in ks && "walletAddresses" !in ks
  {
    var ks := ["apiKey", "showWalletAddressForm"] + ["walletAddress", "currencyCode"];
    assert ks[2] == "walletAddress" && ks[3] == "currencyCode";
    assert forall i :: 0 <= i < |ks| ==> |ks[i]| != |"walletAddresses"|;
  }

  /** Solver aid: membership facts about the literal key list of moonpay's multi-currency form. */
  lemma MultiFormKeys()
    ensures var ks := ["apiKey", "showWalletAddressForm"] + ["walletAddresses"];
      "walletAddress" !in ks && "currencyCode" !in ks && "walletAddresses" in ks
  {
    var ks := ["apiKey", "showWalletAddressForm"] + ["walletAddresses"];
    assert ks[2] == "walletAddresses";
    assert forall i :: 0 <= i < |ks| ==> |ks[i]| != |"walletAddress"| && |ks[i]| != |"currencyCode"|;
  }

  /**
   * Moonpay's single-currency form: `currencyCode` is the lower-cased
   * denomination of the active chain, and `walletAddress` encodes the JSON
   * object whose only key is that same code.
   */
  lemma MoonpayCurrencyCodeIsWalletKey(service: FiatOnRampServiceInfo, st: Stores, infos: seq<ChainInfo>)
    requires HasActiveChain(st)
    ensures var p := MoonpayParams(service, st, infos);
      exists code: string ::
        && Get(p, "currencyCode") == Some(StringValue(code))
        && Get(p, "walletAddress") == Some(StringValue(EncodeUriComponent(
             StringifyObject([(code, AddressJson(st.currentChainAccount.value.bech32Address))]))))
        && SameLetters(code, st.currentChainInfo.value.stakeCurrency.coinDenom)
        && NoUpper(code)
  {
    MoonpaySingleCurrencyRecord(service, st, infos);
    var code := DenomKey(st.currentChainInfo.value);
    var p := MoonpayParams(service, st, infos);
    GetAt(p, 2);
    GetAt(p, 3);
    assert Get(p, "currencyCode") == Some(StringValue(code));
  }

  predicate NoUpper(s: string) {
    forall i :: 0 <= i < |s| ==> !IsUpper(s[i])
  }

  predicate NoLower(s: string) {
    forall i :: 0 <= i < |s| ==> !IsLower(s[i])
  }

  /** `a` and `b` spell the same, ignoring the case of ASCII letters. */
  predicate SameLetters(a: string, b: string) {
    |a| == |b| && forall i :: 0 <= i < |a| ==> SameIgnoringCase(a[i], b[i])
  }

  /**
   * The per-chain address object (moonpay `walletAddresses`, transak
   * `coins`): its keys are the lower-cased denominations, each once, in order
   * of first occurrence.
   */
  lemma DenomAddressesKeys(infos: seq<ChainInfo>, getAccount: ChainId -> Account)
    ensures Keys(DenomAddresses(infos, getAccount)) == Dedup(DenomKeys(infos))
    ensures forall k :: k in Keys(DenomAddresses(infos, getAccount)) ==> NoUpper(k)
  {
    var es := DenomAddressWrites(infos, getAccount);
    var empty: seq<(string, Json)> := [];
    assert Keys(empty) + Keys(es) == DenomKeys(infos);
    AssignKeys([], es);
    forall k | k in Keys(DenomAddresses(infos, getAccount)) ensures NoUpper(k) {
      assert k in DenomKeys(infos);
    }
  }

  /**
   * In the per-chain address object a repeated denomination holds the
   * address of the last chain that has it.
   */
  lemma DenomAddressesLastWins(infos: seq<ChainInfo>, getAccount: ChainId -> Account, i: nat)
    requires i < |infos|
    requires forall j :: i < j < |infos| ==> DenomKey(infos[j]) != DenomKey(infos[i])
    ensures Get(DenomAddresses(infos, getAccount), DenomKey(infos[i]))
              == Some(AddressJson(getAccount(infos[i].chainId).bech32Address))
  {
    var es := DenomAddressWrites(infos, getAccount);
    assert forall j :: i < j < |es| ==> es[j].0 == DenomKey(infos[j]);
    AssignGetLast([], es, DenomKey(infos[i]), i);
  }

  /**
   * Transak without an active chain: `cryptoCurrencyList` splits back on
   * commas into one denomination per supported chain, in order and with its
   * case kept.
   */
  lemma TransakCurrencyListTokens(service: FiatOnRampServiceInfo, st: Stores, infos: seq<ChainInfo>)
    requires !HasActiveChain(st)
    requires |infos| > 0
    requires forall i :: 0 <= i < |infos| ==> ',' !in infos[i].stakeCurrency.coinDenom
    ensures exists list: string ::
      && Get(TransakParams(service, st, infos), "cryptoCurrencyList") == Some(StringValue(list))
      && Split(list, ',') == Denoms(infos)
      && |Split(list, ',')| == |infos|
  {
    TransakMultiAddressRecord(service, st, infos);
    var list := Join(",", Denoms(infos));
    SplitJoin(Denoms(infos), ',');
    GetAt(TransakParams(service, st, infos), 3);
    assert Get(TransakParams(service, st, infos), "cryptoCurrencyList") == Some(StringValue(list));
  }

  /**
   * Transak with an active chain: `walletAddress` is the active address, or
   * the empty string when it is absent; `cryptoCurrencyCode` is the
   * denomination with its case kept.
   */
  lemma TransakSingleAddress(service: FiatOnRampServiceInfo, st: Stores, infos: seq<ChainInfo>)
    requires HasActiveChain(st)
    ensures var p := TransakParams(service, st, infos);
      var address := st.currentChainAccount.value.bech32Address;
      && Keys(p) == ["apiKey", "hideMenu", "walletAddress", "cryptoCurrencyCode"]
      && (address.Some? ==> Get(p, "walletAddress") == Some(StringValue(address.value)))
      && (address.None? ==> Get(p, "walletAddress") == Some(StringValue("")))
      && Get(p, "cryptoCurrencyCode") == Some(StringValue(st.currentChainInfo.value.stakeCurrency.coinDenom))
  {
    TransakSingleAddressRecord(service, st, infos);
    var p := TransakParams(service, st, infos);
    GetAt(p, 2);
    GetAt(p, 3);
  }

  /**
   * Kado: `networkList` holds one upper-cased chain name per supported
   * chain, and the three members `onToAddress`, `onRevCurrency` and
   * `network` are there exactly when a chain is active.
   */
  lemma KadoMembers(service: FiatOnRampServiceInfo, st: Stores, infos: seq<ChainInfo>)
    requires HasActiveChain(st) ==> !RevCurrencyThrows(service, st.currentChainId)
    ensures var p := KadoParams(service, st, infos);
      && |p| >= 4
      && Keys(p)[..4] == ["apiKey", "product", "networkList", "cryptoList"]
      && (exists names: seq<string> ::
            && Get(p, "networkList") == Some(ArrayValue(names))
            && |names| == |infos|
            && forall i :: 0 <= i < |names| ==> NoLower(names[i]) && SameLetters(names[i], infos[i].chainName))
      && ("onToAddress" in Keys(p) <==> HasActiveChain(st))
      && ("onRevCurrency" in Keys(p) <==> HasActiveChain(st))
      && ("network" in Keys(p) <==> HasActiveChain(st))
      && |Keys(p)| == if HasActiveChain(st) then 7 else 4
  {
    KadoKeys(service, st, infos);
    KadoNetworkList(service, st, infos);
  }

  /** Solver aid: the key half of `KadoMembers`. */
  lemma KadoKeys(service: FiatOnRampServiceInfo, st: Stores, infos: seq<ChainInfo>)
    requires HasActiveChain(st) ==> !RevCurrencyThrows(service, st.currentChainId)
    ensures var ks := Keys(KadoParams(service, st, infos));
      && |ks| == (if HasActiveChain(st) then 7 else 4)
      && ks[..4] == ["apiKey", "product", "networkList", "cryptoList"]
      && ("onToAddress" in ks <==> HasActiveChain(st))
      && ("onRevCurrency" in ks <==> HasActiveChain(st))
      && ("network" in ks <==> HasActiveChain(st))
  {
    KadoRecord(service, st, infos);
    var p := KadoParams(service, st, infos);
    if HasActiveChain(st) {
      assert Keys(p) == ["apiKey", "product", "networkList", "cryptoList"] + ["onToAddress", "onRevCurrency", "network"];
      KadoActiveKeys();
    } else {
      assert Keys(p) == ["apiKey", "product", "networkList", "cryptoList"];
      KadoBaseKeys();
    }
  }

  /** Solver aid: the three extra kado keys are in the literal key list of the active form. */
  lemma KadoActiveKeys()
    ensures var ks := ["apiKey", "product", "networkList", "cryptoList"] + ["onToAddress", "onRevCurrency", "network"];
      "onToAddress" in ks && "onRevCurrency" in ks && "network" in ks
  {
    var ks := ["apiKey", "product", "networkList", "cryptoList"] + ["onToAddress", "onRevCurrency", "network"];
    assert ks[4] == "onToAddress" && ks[5] == "onRevCurrency" && ks[6] == "network";
  }

  /** Solver aid: the three extra kado keys are not in the literal list of the four fixed keys. */
  lemma KadoBaseKeys()
    ensures var ks := ["apiKey", "product", "networkList", "cryptoList"];
      "onToAddress" !in ks && "onRevCurrency" !in ks && "network" !in ks
  {
    var ks := ["apiKey", "product", "networkList", "cryptoList"];
    assert |"network"| != |ks[2]|;
    assert forall i :: 0 <= i < |ks| ==> ks[i][0] != 'o';
    assert forall i :: 0 <= i < |ks| && i != 2 ==> ks[i][0] != 'n';
  }

  /** Solver aid: the `networkList` half of `KadoMembers`. */
  lemma KadoNetworkList(service: FiatOnRampServiceInfo, st: Stores, infos: seq<ChainInfo>)
    requires HasActiveChain(st) ==> !RevCurrencyThrows(service, st.currentChainId)
    ensures var p := KadoParams(service, st, infos);
      exists names: seq<string> ::
        && Get(p, "networkList") == Some(ArrayValue(names))
        && |names| == |infos|
        && forall i :: 0 <= i < |names| ==> NoLower(names[i]) && SameLetters(names[i], infos[i].chainName)
  {
    KadoRecord(service, st, infos);
    var p := KadoParams(service, st, infos);
    var names := NetworkList(infos);
    GetAt(p, 2);
    assert Get(p, "networkList") == Some(ArrayValue(names));
  }
}
