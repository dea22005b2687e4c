/**
 * The `useBuy` hook without its React and network plumbing: resolve every
 * catalog entry against the current chain, build and assemble its purchase
 * link, merge the signed moonpay link state over the result, and report
 * whether any provider supports the current chain.
 */
module UseBuy {
  import opened Wrappers
  import opened BuyTypes
  import opened BuyParams
  import opened BuyUrl
  import opened UriComponent

  /** Resolving `service` throws: it supports the current chain and building its parameters throws. */
  predicate ResolveThrows(service: FiatOnRampServiceInfo, st: Stores) {
    st.currentChainId in service.buySupportChainIds && ParamsThrow(service, st)
  }

  /** No catalog entry makes the resolution throw. */
  predicate CatalogResolves(catalog: seq<FiatOnRampServiceInfo>, st: Stores) {
    forall i :: 0 <= i < |catalog| ==> !ResolveThrows(catalog[i], st)
  }

  /** One catalog entry: returned as it is when it does not support the current chain, completed otherwise. */
  function ResolveServiceInfo(service: FiatOnRampServiceInfo, st: Stores): (r: BuySupportServiceInfo)
    requires !ResolveThrows(service, st)
    ensures r.serviceInfo == service && r.isLoading.None?
    ensures st.currentChainId !in service.buySupportChainIds ==> r == Unresolved(service)
    ensures st.currentChainId in service.buySupportChainIds ==>
      && r.buySupportChainAccounts.Some? && r.buySupportChainInfos.Some?
      && |r.buySupportChainAccounts.value| == |service.buySupportChainIds|
      && |r.buySupportChainInfos.value| == |service.buySupportChainIds|
      && (forall i :: 0 <= i < |service.buySupportChainIds| ==>
            && r.buySupportChainAccounts.value[i] == st.getAccount(service.buySupportChainIds[i])
            && r.buySupportChainInfos.value[i] == st.getChain(service.buySupportChainIds[i]))
    ensures r.buyUrl.Some? <==> st.currentChainId in service.buySupportChainIds && IsKnownService(service.serviceId)
    ensures r.buyUrl.Some? ==>
      var url := r.buyUrl.value;
      |url| > |service.buyOrigin| && url[..|service.buyOrigin|] == service.buyOrigin && url[|service.buyOrigin|] == '?'
    ensures r.buyUrl.Some? ==>
      && r.buySupportChainInfos.Some?
      && BuyUrlParams(service, st, r.buySupportChainInfos.value).Some?
      && r.buyUrl.value == AssembleBuyUrl(service.buyOrigin, BuyUrlParams(service, st, r.buySupportChainInfos.value).value)
  {
    var ids := service.buySupportChainIds;
    if st.currentChainId !in ids then Unresolved(service)
    else
      var accounts := seq(|ids|, i requires 0 <= i < |ids| => st.getAccount(ids[i]));
      var infos := seq(|ids|, i requires 0 <= i < |ids| => st.getChain(ids[i]));
      var params := BuyUrlParams(service, st, infos);
      var url := if params.Some? then Some(AssembleBuyUrl(service.buyOrigin, params.value)) else None;
      BuySupportServiceInfo(service, Some(accounts), Some(infos), url, None)
  }

  /** `FiatOnRampServiceInfos.map(...)`: one resolved entry per catalog entry, in catalog order. */
  function ResolveCatalog(catalog: seq<FiatOnRampServiceInfo>, st: Stores): (r: seq<BuySupportServiceInfo>)
    requires CatalogResolves(catalog, st)
    ensures |r| == |catalog|
    ensures forall i :: 0 <= i < |r| ==> r[i].serviceInfo == catalog[i]
    ensures forall i :: 0 <= i < |r| ==> r[i] == ResolveServiceInfo(catalog[i], st)
  {
    seq(|catalog|, i requires 0 <= i < |catalog| => ResolveServiceInfo(catalog[i], st))
  }

  /**
   * Writes the signed moonpay link and its loading flag over every entry
   * whose `serviceId` is moonpay, supported or not; every other entry is
   * left as it is.
   */
  function MergeSignedUrl(infos: seq<BuySupportServiceInfo>, signedUrl: string, isLoading: bool): (r: seq<BuySupportServiceInfo>)
    ensures |r| == |infos|
    ensures forall i :: 0 <= i < |r| ==>
      && r[i].serviceInfo == infos[i].serviceInfo
      && r[i].buySupportChainAccounts == infos[i].buySupportChainAccounts
      && r[i].buySupportChainInfos == infos[i].buySupportChainInfos
    ensures forall i :: 0 <= i < |r| && infos[i].serviceInfo.serviceId != "moonpay" ==> r[i] == infos[i]
    ensures forall i :: 0 <= i < |r| && infos[i].serviceInfo.serviceId == "moonpay" ==>
      r[i].buyUrl == Some(signedUrl) && r[i].isLoading == Some(isLoading)
  {
    seq(|infos|, i requires 0 <= i < |infos| =>
      if infos[i].serviceInfo.serviceId == "moonpay"
      then infos[i].(buyUrl := Some(signedUrl), isLoading := Some(isLoading))
      else infos[i])
  }

  predicate Supports(info: BuySupportServiceInfo, chainId: ChainId) {
    chainId in info.serviceInfo.buySupportChainIds
  }

  /** The `filter` of the entries that list the chain id, in order. */
  function SupportingServices(infos: seq<BuySupportServiceInfo>, chainId: ChainId): (r: seq<BuySupportServiceInfo>)
    ensures |r| <= |infos|
    ensures forall x :: x in r ==> x in infos && Supports(x, chainId)
  {
    if |infos| == 0 then []
    else if Supports(infos[0], chainId) then [infos[0]] + SupportingServices(infos[1..], chainId)
    else SupportingServices(infos[1..], chainId)
  }

  /**
   * `r` is the sub-list of `xs` at the strictly increasing positions `idx`,
   * and those positions are exactly the ones `keep` marks.
   */
  ghost predicate FilterAt<T>(idx: seq<int>, r: seq<T>, xs: seq<T>, keep: seq<bool>) {
    && |keep| == |xs|
    && |idx| == |r|
    && (forall k :: 0 <= k < |idx| ==> 0 <= idx[k] < |xs| && r[k] == xs[idx[k]] && keep[idx[k]])
    && (forall k, l :: 0 <= k < l < |idx| ==> idx[k] < idx[l])
    && (forall i :: 0 <= i < |xs| && keep[i] ==> i in idx)
  }

  /** Which entries list the chain. */
  function SupportMask(infos: seq<BuySupportServiceInfo>, chainId: ChainId): (m: seq<bool>)
    ensures |m| == |infos| && forall i :: 0 <= i < |m| ==> (m[i] <==> Supports(infos[i], chainId))
  {
    seq(|infos|, i requires 0 <= i < |infos| => Supports(infos[i], chainId))
  }

  /** Positions shifted past a dropped head. */
  function Shift(idx: seq<int>): (r: seq<int>)
    ensures |r| == |idx| && forall k :: 0 <= k < |r| ==> r[k] == idx[k] + 1
  {
    seq(|idx|, k requires 0 <= k < |idx| => idx[k] + 1)
  }

  /** `filter` keeps every entry that lists the chain and no other, in order. */
  lemma {:induction false} SupportingServicesIsFilter(infos: seq<BuySupportServiceInfo>, chainId: ChainId)
    ensures exists idx :: FilterAt(idx, SupportingServices(infos, chainId), infos, SupportMask(infos, chainId))
  {
    var mask := SupportMask(infos, chainId);
    if |infos| == 0 {
      assert FilterAt([], SupportingServices(infos, chainId), infos, mask);
    } else {
      var tail := infos[1..];
      SupportingServicesIsFilter(tail, chainId);
      var rest := SupportingServices(tail, chainId);
      var idx :| FilterAt(idx, rest, tail, SupportMask(tail, chainId));
      assert mask == [mask[0]] + SupportMask(tail, chainId);
      assert infos == [infos[0]] + tail;
      if mask[0] {
        FilterKeep(idx, rest, infos[0], tail, SupportMask(tail, chainId));
        assert FilterAt([0] + Shift(idx), SupportingServices(infos, chainId), infos, mask);
      } else {
        FilterDrop(idx, rest, infos[0], tail, SupportMask(tail, chainId));
        assert FilterAt(Shift(idx), SupportingServices(infos, chainId), infos, mask);
      }
    }
  }

  /** Every kept position of the tail, shifted by one, is a kept position of the whole list. */
  lemma ShiftCovers<T>(idx: seq<int>, rest: seq<T>, x: T, tail: seq<T>, b: bool, keep: seq<bool>)
    requires FilterAt(idx, rest, tail, keep)
    ensures forall i :: 1 <= i < |[x] + tail| && ([b] + keep)[i] ==> i in Shift(idx)
  {
    var shifted := Shift(idx);
    forall i | 1 <= i < |[x] + tail| && ([b] + keep)[i] ensures i in shifted {
      assert keep[i - 1];
      var k :| 0 <= k < |idx| && idx[k] == i - 1;
      assert shifted[k] == i;
    }
  }

  /** A kept head goes in front of the tail's filter. */
  lemma FilterKeep<T>(idx: seq<int>, rest: seq<T>, x: T, tail: seq<T>, keep: seq<bool>)
    requires FilterAt(idx, rest, tail, keep)
    ensures FilterAt([0] + Shift(idx), [x] + rest, [x] + tail, [true] + keep)
  {
    var xs, r, keep2, full := [x] + tail, [x] + rest, [true] + keep, [0] + Shift(idx);
    forall k | 0 <= k < |full| ensures 0 <= full[k] < |xs| && r[k] == xs[full[k]] && keep2[full[k]] {
      if k > 0 {
        assert full[k] == idx[k - 1] + 1 && r[k] == rest[k - 1];
        assert xs[idx[k - 1] + 1] == tail[idx[k - 1]] && keep2[idx[k - 1] + 1] == keep[idx[k - 1]];
      }
    }
    forall k, l | 0 <= k < l < |full| ensures full[k] < full[l] {
      if k > 0 {
        assert full[k] == idx[k - 1] + 1 && full[l] == idx[l - 1] + 1;
      }
    }
    ShiftCovers(idx, rest, x, tail, true, keep);
    forall i | 0 <= i < |xs| && keep2[i] ensures i in full {
      if i == 0 { assert full[0] == 0; } else { assert i in Shift(idx); }
    }
  }

  /** A head that is not kept is dropped. */
  lemma FilterDrop<T>(idx: seq<int>, rest: seq<T>, x: T, tail: seq<T>, keep: seq<bool>)
    requires FilterAt(idx, rest, tail, keep)
    ensures FilterAt(Shift(idx), rest, [x] + tail, [false] + keep)
  {
    var xs, keep2, sh := [x] + tail, [false] + keep, Shift(idx);
    forall k | 0 <= k < |sh| ensures 0 <= sh[k] < |xs| && rest[k] == xs[sh[k]] && keep2[sh[k]] {
      assert sh[k] == idx[k] + 1;
      assert xs[idx[k] + 1] == tail[idx[k]] && keep2[idx[k] + 1] == keep[idx[k]];
    }
    ShiftCovers(idx, rest, x, tail, false, keep);
  }

  /** `filter(...).length > 0`. */
  function IsSupportChain(infos: seq<BuySupportServiceInfo>, chainId: ChainId): bool {
    |SupportingServices(infos, chainId)| > 0
  }

  /** The chain is supported exactly when some entry lists it. */
  lemma {:induction false} IsSupportChainIff(infos: seq<BuySupportServiceInfo>, chainId: ChainId)
    ensures IsSupportChain(infos, chainId) <==> exists i :: 0 <= i < |infos| && Supports(infos[i], chainId)
  {
    if |infos| > 0 {
      IsSupportChainIff(infos[1..], chainId);
      if !Supports(infos[0], chainId) {
        forall i | 0 < i < |infos| && Supports(infos[i], chainId)
          ensures exists j :: 0 <= j < |infos[1..]| && Supports(infos[1..][j], chainId)
        {
          assert infos[1..][i - 1] == infos[i];
        }
      }
    }
  }

  /** `find(serviceId === "moonpay")`: the first moonpay entry, if there is one. */
  function FindMoonpay(infos: seq<BuySupportServiceInfo>): (r: Option<BuySupportServiceInfo>)
    ensures r.None? <==> forall i :: 0 <= i < |infos| ==> infos[i].serviceInfo.serviceId != "moonpay"
    ensures r.Some? ==> r.value.serviceInfo.serviceId == "moonpay"
    ensures r.Some? ==> exists i :: (0 <= i < |infos| && infos[i] == r.value &&
      forall j :: 0 <= j < i ==> infos[j].serviceInfo.serviceId != "moonpay")
  {
    if |infos| == 0 then None
    else if infos[0].serviceInfo.serviceId == "moonpay" then Some(infos[0])
    else
      var r := FindMoonpay(infos[1..]);
      assert forall i :: 0 < i < |infos| ==> infos[i] == infos[1..][i - 1];
      r
  }

  /** Where the signing effect sends the moonpay link. */
  const SignEndpoint: string := "https://wallet.keplr.app/api/moonpay-sign?url="

  /** What the signing effect does when the first moonpay entry's link changes. */
  datatype SignEffect = RequestSignature(requestUrl: string) | ClearSignature

  /**
   * The effect's choice: a truthy (present, non-empty) link of the first
   * moonpay entry is sent, URI-encoded, to the signing endpoint; otherwise
   * the signed link is reset to "".
   */
  function SigningEffect(infos: seq<BuySupportServiceInfo>): (e: SignEffect)
    ensures e.RequestSignature? <==>
      FindMoonpay(infos).Some? && FindMoonpay(infos).value.buyUrl.Some? && FindMoonpay(infos).value.buyUrl.value != ""
    ensures e.RequestSignature? ==>
      |e.requestUrl| >= |SignEndpoint| && e.requestUrl[..|SignEndpoint|] == SignEndpoint
      && PercentDecode(e.requestUrl[|SignEndpoint|..]) == Utf8String(FindMoonpay(infos).value.buyUrl.value)
      && '&' !in e.requestUrl[|SignEndpoint|..]
  {
    var moonpay := FindMoonpay(infos);
    if moonpay.Some? && moonpay.value.buyUrl.Some? && moonpay.value.buyUrl.value != "" then
      var encoded := EncodeUriComponent(moonpay.value.buyUrl.value);
      DecodeEncodeUriComponent(moonpay.value.buyUrl.value);
      EncodedHasNoDelimiters(moonpay.value.buyUrl.value);
      assert (SignEndpoint + encoded)[|SignEndpoint|..] == encoded;
      RequestSignature(SignEndpoint + encoded)
    else ClearSignature
  }

  /**
   * After resolution a signature is requested exactly when the first moonpay
   * entry of the catalog supports the current chain.
   */
  lemma SignatureRequestedIff(catalog: seq<FiatOnRampServiceInfo>, st: Stores)
    requires CatalogResolves(catalog, st)
    ensures SigningEffect(ResolveCatalog(catalog, st)).RequestSignature? <==>
      exists i :: 0 <= i < |catalog| && catalog[i].serviceId == "moonpay"
        && (forall j :: 0 <= j < i ==> catalog[j].serviceId != "moonpay")
        && st.currentChainId in catalog[i].buySupportChainIds
  {
    var resolved := ResolveCatalog(catalog, st);
    var found := FindMoonpay(resolved);
    if found.Some? {
      var k :| 0 <= k < |resolved| && resolved[k] == found.value &&
        forall j :: 0 <= j < k ==> resolved[j].serviceInfo.serviceId != "moonpay";
      assert catalog[k].serviceId == "moonpay";
      assert forall j :: 0 <= j < k ==> catalog[j].serviceId != "moonpay";
      assert found.value == ResolveServiceInfo(catalog[k], st);
      FirstIsUnique(catalog, k);
    } else {
      assert forall i :: 0 <= i < |catalog| ==> catalog[i].serviceId != "moonpay";
    }
  }

  /** Solver aid: two first moonpay positions are the same position. */
  lemma FirstIsUnique(catalog: seq<FiatOnRampServiceInfo>, k: nat)
    requires k < |catalog| && catalog[k].serviceId == "moonpay"
    requires forall j :: 0 <= j < k ==> catalog[j].serviceId != "moonpay"
    ensures forall i :: (0 <= i < |catalog| && catalog[i].serviceId == "moonpay" &&
      (forall j :: 0 <= j < i ==> catalog[j].serviceId != "moonpay")) ==> i == k
  {
  }

  /** What the hook returns. */
  datatype UseBuyResult = UseBuyResult(buySupportServiceInfos: seq<BuySupportServiceInfo>, isSupportChain: bool)

  /**
   * The hook for one render: the signed moonpay link and its loading flag
   * are the state the signing effect last set.
   */
  function UseBuy(catalog: seq<FiatOnRampServiceInfo>, st: Stores, moonpayBuyUrlWithSign: string,
                  isMoonpayBuyUrlSignLoading: bool): (r: UseBuyResult)
    requires CatalogResolves(catalog, st)
    ensures |r.buySupportServiceInfos| == |catalog|
    ensures forall i :: 0 <= i < |catalog| ==> r.buySupportServiceInfos[i].serviceInfo == catalog[i]
    ensures r.isSupportChain <==> exists i :: 0 <= i < |catalog| && st.currentChainId in catalog[i].buySupportChainIds
  {
    var resolved := ResolveCatalog(catalog, st);
    IsSupportChainIff(resolved, st.currentChainId);
    UseBuyResult(MergeSignedUrl(resolved, moonpayBuyUrlWithSign, isMoonpayBuyUrlSignLoading),
                 IsSupportChain(resolved, st.currentChainId))
  }

  /** A provider that does not list the current chain comes back as given, unless it is moonpay. */
  lemma UnsupportedProviderUnchanged(catalog: seq<FiatOnRampServiceInfo>, st: Stores, signed: string, loading: bool, i: nat)
    requires CatalogResolves(catalog, st)
    requires i < |catalog| && st.currentChainId !in catalog[i].buySupportChainIds
    requires catalog[i].serviceId != "moonpay"
    ensures UseBuy(catalog, st, signed, loading).buySupportServiceInfos[i] == Unresolved(catalog[i])
  {
    var resolved := ResolveCatalog(catalog, st);
    assert resolved[i] == ResolveServiceInfo(catalog[i], st);
  }

  /**
   * Every moonpay entry ends up with the signed link and the loading flag,
   * even when it does not support the current chain; its other fields are
   * those of the resolution.
   */
  lemma MoonpayTakesSignedUrl(catalog: seq<FiatOnRampServiceInfo>, st: Stores, signed: string, loading: bool, i: nat)
    requires CatalogResolves(catalog, st)
    requires i < |catalog| && catalog[i].serviceId == "moonpay"
    ensures var r := UseBuy(catalog, st, signed, loading).buySupportServiceInfos[i];
      var resolved := ResolveServiceInfo(catalog[i], st);
      r == resolved.(buyUrl := Some(signed), isLoading := Some(loading))
  {
    var resolved := ResolveCatalog(catalog, st);
    assert resolved[i] == ResolveServiceInfo(catalog[i], st);
  }

  /** An entry other than moonpay is its resolution, untouched by the merge. */
  lemma OtherProvidersKeepResolution(catalog: seq<FiatOnRampServiceInfo>, st: Stores, signed: string, loading: bool, i: nat)
    requires CatalogResolves(catalog, st)
    requires i < |catalog| && catalog[i].serviceId != "moonpay"
    ensures UseBuy(catalog, st, signed, loading).buySupportServiceInfos[i] == ResolveServiceInfo(catalog[i], st)
  {
    var resolved := ResolveCatalog(catalog, st);
    assert resolved[i] == ResolveServiceInfo(catalog[i], st);
  }

  /**
   * A provider with an unknown `serviceId` that lists the current chain gets
   * its accounts and chain infos but no link, and nothing throws.
   */
  lemma UnknownServiceHasNoLink(catalog: seq<FiatOnRampServiceInfo>, st: Stores, signed: string, loading: bool, i: nat)
    requires CatalogResolves(catalog, st)
    requires i < |catalog| && st.currentChainId in catalog[i].buySupportChainIds
    requires !IsKnownService(catalog[i].serviceId)
    ensures var r := UseBuy(catalog, st, signed, loading).buySupportServiceInfos[i];
      r.buyUrl.None? && r.isLoading.None?
      && r.buySupportChainAccounts.Some? && r.buySupportChainInfos.Some?
  {
    OtherProvidersKeepResolution(catalog, st, signed, loading, i);
  }

  /** The support flag does not depend on the signed link state. */
  lemma IsSupportChainIgnoresSigning(catalog: seq<FiatOnRampServiceInfo>, st: Stores,
                                     signed1: string, loading1: bool, signed2: string, loading2: bool)
    requires CatalogResolves(catalog, st)
    ensures UseBuy(catalog, st, signed1, loading1).isSupportChain == UseBuy(catalog, st, signed2, loading2).isSupportChain
  {
  }
}
