/**
 * The purchase link: the provider's origin, `?`, and the parameters as
 * `key=value` pairs joined by `&` in insertion order. Values are written as
 * they are; only the values that carry JSON were encoded, by the builders.
 */
module BuyUrl {
  import opened Text
  import opened UriComponent
  import opened Json
  import opened Records
  import opened BuyTypes
  import opened BuyParams

  /** How `[key, value].join("=")` writes a value: an array joined by commas, `undefined` as nothing. */
  function RenderValue(v: ParamValue): string {
    match v
    case StringValue(s) => s
    case ArrayValue(items) => Join(",", items)
    case UndefinedValue => ""
  }

  function Pair(key: string, v: ParamValue): string {
    key + "=" + RenderValue(v)
  }

  function QueryString(p: Params): string {
    Join("&", seq(|p|, i requires 0 <= i < |p| => Pair(p[i].0, p[i].1)))
  }

  /** `${buyOrigin}?${entries.map(kv => kv.join("=")).join("&")}`. */
  function AssembleBuyUrl(origin: string, p: Params): (url: string)
    ensures |url| > |origin| && url[..|origin|] == origin && url[|origin|] == '?'
  {
    origin + "?" + QueryString(p)
  }

  /** `s` cut at the first `d`: the text before it and the text after it (all of `s` and nothing when there is none). */
  function SplitAtFirst(s: string, d: char): (r: (string, string))
    ensures d !in r.0
    ensures d in s ==> r.0 + [d] + r.1 == s
    ensures d !in s ==> r == (s, "")
  {
    if |s| == 0 then ("", "")
    else if s[0] == d then
      assert s == [d] + s[1..];
      ("", s[1..])
    else
      var rest := SplitAtFirst(s[1..], d);
      assert s == [s[0]] + s[1..];
      ([s[0]] + rest.0, rest.1)
  }

  /** A query string read back: split on `&`, then each piece at its first `=`. */
  function ParseQuery(q: string): seq<(string, string)> {
    var pieces := Split(q, '&');
    seq(|pieces|, i requires 0 <= i < |pieces| => SplitAtFirst(pieces[i], '='))
  }

  lemma SplitAtFirstPair(key: string, value: string, d: char)
    requires d !in key
    ensures SplitAtFirst(key + [d] + value, d) == (key, value)
  {
    var s := key + [d] + value;
    assert s[|key|] == d;
    var r := SplitAtFirst(s, d);
    assert r.0 + [d] + r.1 == s;
    assert forall j :: 0 <= j < |key| ==> s[j] == key[j] && s[j] != d;
    assert forall j :: 0 <= j < |r.0| ==> s[j] == r.0[j] && s[j] != d;
    assert s[|r.0|] == d;
    assert |r.0| == |key|;
    assert r.0 == s[..|r.0|] == key;
    assert r.1 == s[|key| + 1..] == value;
  }

  /**
   * When no key holds `&` or `=` and no written value holds `&`, reading the
   * query string back gives every key with its written value, in order:
   * nothing is lost, reordered or re-encoded.
   */
  lemma ParseQueryString(p: Params)
    requires |p| > 0
    requires forall i :: 0 <= i < |p| ==> '&' !in p[i].0 && '=' !in p[i].0 && '&' !in RenderValue(p[i].1)
    ensures ParseQuery(QueryString(p)) == seq(|p|, i requires 0 <= i < |p| => (p[i].0, RenderValue(p[i].1)))
  {
    var pairs := seq(|p|, i requires 0 <= i < |p| => Pair(p[i].0, p[i].1));
    forall i | 0 <= i < |p| ensures '&' !in pairs[i] {
      assert pairs[i] == p[i].0 + "=" + RenderValue(p[i].1);
    }
    SplitJoin(pairs, '&');
    assert Split(QueryString(p), '&') == pairs;
    forall i | 0 <= i < |p| ensures SplitAtFirst(pairs[i], '=') == (p[i].0, RenderValue(p[i].1)) {
      SplitAtFirstPair(p[i].0, RenderValue(p[i].1), '=');
    }
  }

  /** A link splits at its first `?` into the origin and the query string, when the origin has no `?`. */
  lemma BuyUrlSplits(origin: string, p: Params)
    requires '?' !in origin
    ensures SplitAtFirst(AssembleBuyUrl(origin, p), '?') == (origin, QueryString(p))
  {
    SplitAtFirstPair(origin, QueryString(p), '?');
  }

  /** Two parameters in insertion order. */
  lemma TwoParamsExample()
    ensures AssembleBuyUrl("https://x", [("a", StringValue("1")), ("b", StringValue("2"))]) == "https://x?a=1&b=2"
  {
    var p := [("a", StringValue("1")), ("b", StringValue("2"))];
    assert QueryString(p) == Join("&", ["a=1", "b=2"]);
  }

  /** An array value is written comma-joined, so it splits back into its items. */
  lemma ArrayValueItems(items: seq<string>)
    requires |items| > 0
    requires forall i :: 0 <= i < |items| ==> ',' !in items[i]
    ensures Split(RenderValue(ArrayValue(items)), ',') == items
  {
    SplitJoin(items, ',');
  }

  /**
   * Moonpay without an active chain: reading the link's query back gives
   * the API key, the form flag and the encoded address object exactly as the
   * builder wrote it.
   */
  lemma MoonpayMultiCurrencyQuery(service: FiatOnRampServiceInfo, st: Stores, infos: seq<ChainInfo>)
    requires !HasActiveChain(st)
    requires '&' !in service.apiKey
    ensures ParseQuery(QueryString(MoonpayParams(service, st, infos))) ==
      [("apiKey", service.apiKey),
       ("showWalletAddressForm", "true"),
       ("walletAddresses", EncodeUriComponent(StringifyObject(DenomAddresses(infos, st.getAccount))))]
  {
    MoonpayMultiCurrencyRecord(service, st, infos);
    var p := MoonpayParams(service, st, infos);
    var wallets := EncodeUriComponent(StringifyObject(DenomAddresses(infos, st.getAccount)));
    EncodedHasNoDelimiters(StringifyObject(DenomAddresses(infos, st.getAccount)));
    assert p[0] == ("apiKey", StringValue(service.apiKey));
    assert p[1] == ("showWalletAddressForm", StringValue("true"));
    assert p[2] == ("walletAddresses", StringValue(wallets));
    MoonpayMultiCurrencyKeysSafe();
    ParseThree(p);
  }

  /** Solver aid: the literal keys and flag of the moonpay query contain no delimiter. */
  lemma MoonpayMultiCurrencyKeysSafe()
    ensures '&' !in "apiKey" && '=' !in "apiKey"
    ensures '&' !in "showWalletAddressForm" && '=' !in "showWalletAddressForm"
    ensures '&' !in "walletAddresses" && '=' !in "walletAddresses"
    ensures '&' !in "true"
  {
  }

  /** `ParseQueryString` for three parameters, kept apart so the solver sees a fixed-length list. */
  lemma ParseThree(p: Params)
    requires |p| == 3
    requires forall i :: 0 <= i < 3 ==> '&' !in p[i].0 && '=' !in p[i].0 && '&' !in RenderValue(p[i].1)
    ensures ParseQuery(QueryString(p)) ==
      [(p[0].0, RenderValue(p[0].1)), (p[1].0, RenderValue(p[1].1)), (p[2].0, RenderValue(p[2].1))]
  {
    ParseQueryString(p);
  }
}
