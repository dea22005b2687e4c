# useBuy: fiat on-ramp purchase links

The Keplr wallet extension's `useBuy` hook turns a fixed catalog of fiat
on-ramp providers (moonpay, transak, kado) into purchase links for the
chain the user is looking at. For every catalog entry that lists the current
chain id the hook looks up one account and one chain info per supported chain
id. It then builds a provider-specific parameter object and assembles
`buyOrigin?key=value&...`. The moonpay link is sent to a signing service,
and the signed link and a loading flag are written over every moonpay entry.
Finally the hook reports whether any provider supports the current chain.

This project models the hook as pure functions over values:

- `wrappers.dfy`: `Option`.
- `text.dfy`: `toLowerCase`, `toUpperCase`, `join` and `split`.
- `uri_component.dfy`: `encodeURIComponent`: every character outside the unreserved set is written as `%XX` for each byte of its UTF-8 encoding, with a percent-decoder as its partner.
- `json.dfy`: `JSON.stringify` of string-valued objects. Members whose value is `undefined` are omitted, and `"`, `\` and control characters are escaped. An unescaper is its partner.
- `records.dfy`: JavaScript objects built by literals, spread and `reduce`, as ordered association lists. A key written again keeps its first position and takes the last value.
- `buy_types.dfy`: the catalog entry, the resolved entry and the wallet stores. The stores are the current chain id, the current chain info and account, and the account and chain lookups.
- `buy_params.dfy`: the `buyUrlParams` switch for each provider, and the shape of each provider's parameters.
- `buy_url.dfy`: assembling the link, and parsing its query string back.
- `use_buy.dfy`: resolution of the catalog, the signing effect's choice, the merge of the signed link, `isSupportChain` and the hook's result.

The current chain is "active" when both `chainStore.current` and the account
for it are present. This is the `currentChainInfo && currentChainAccount` test
that chooses between the single-address and multi-address forms. Both forms
are modelled.

The model follows the code in three places a reader might not expect:

- A known provider that supports the current chain always gets a link. A missing address does not remove the link. It becomes an omitted JSON member, an empty `walletAddress` for transak, or `onToAddress=` for kado.
- A kado entry whose per-chain currency list for the current chain is present but empty throws a TypeError at `[0].coinDenom`. Every member that builds kado parameters therefore requires that this does not happen (`BuyParams.ParamsThrow`, `UseBuy.CatalogResolves`).
- `isLoading` is written on every moonpay entry, whether or not it supports the current chain, and it is written as `false` as well as `true`.

## Model

All source cells refer to the hook's file.

| member | source | states |
|---|---|---|
| Text.ToLowerCase | packages/extension/src/hooks/use-buy.ts:53-56 | the result has the input's length, and each character is the input's character with ASCII upper case mapped to lower case |
| Text.ToLowerCaseIdempotent | packages/extension/src/hooks/use-buy.ts:53-56 | lower-casing a denomination twice gives the same key as lower-casing it once |
| Text.ToUpperCase | packages/extension/src/hooks/use-buy.ts:107-108 | the result has the input's length, with no lower-case letter, and is the same letter for letter ignoring case |
| Text.Join | packages/extension/src/hooks/use-buy.ts:98-100 | joining a single piece gives that piece |
| Text.SplitJoin | packages/extension/src/hooks/use-buy.ts:98-100 | splitting a comma join on the comma gives back the pieces, when no piece contains a comma |
| Text.JoinPieceCount | packages/extension/src/hooks/use-buy.ts:98-100 | a join of n comma-free pieces splits into exactly n pieces |
| UriComponent.Utf8 | packages/extension/src/hooks/use-buy.ts:51-55 | a code point encodes as 1, 2, 3 or 4 bytes exactly in the ranges below 0x80, 0x800, 0x10000 and above; the lead byte is the one for that length and the rest are continuation bytes; the bytes decode back to the code point (so the shortest, well-formed encoding) |
| UriComponent.EncodeUriComponent | packages/extension/src/hooks/use-buy.ts:51-55 | the output holds only unreserved characters and `%`, and a string of unreserved characters comes back unchanged |
| UriComponent.DecodeEncodeUriComponent | packages/extension/src/hooks/use-buy.ts:51-55 | percent-decoding the encoded text gives the UTF-8 bytes of the input |
| UriComponent.EncodedHasNoDelimiters | packages/extension/src/hooks/use-buy.ts:59-71 | an encoded value contains no `&`, `=`, `?` or `#`, so it cannot break the query string |
| Json.Stringify | packages/extension/src/hooks/use-buy.ts:52-54 | the result is absent exactly for `undefined` |
| Json.StringifyOmitsUndefined | packages/extension/src/hooks/use-buy.ts:52-54 | a member whose value is `undefined` (an account without an address) leaves no trace in the JSON text |
| Json.UnescapeEscape | packages/extension/src/hooks/use-buy.ts:52-54 | unescaping an escaped JSON string literal gives back the original string |
| Json.EscapedLiteralEnd | packages/extension/src/hooks/use-buy.ts:52-54 | a JSON reader that consumes `\x` pairs reads all of an escaped string and stops at the `"` that follows it, whatever the string holds |
| Json.QuoteClosesAtEnd | packages/extension/src/hooks/use-buy.ts:52-54 | the string literal that a quoted key or address opens closes exactly at its last character, so no key or address can end the literal early |
| Records.Keys | packages/extension/src/hooks/use-buy.ts:128-130 | `Object.entries` yields one key per member |
| Records.Put | packages/extension/src/hooks/use-buy.ts:65-68 | `{...acc, [k]: v}`; its contract is in `PutGet`, `PutGetOther` and `PutKeys` below |
| Records.PutGet | packages/extension/src/hooks/use-buy.ts:65-68 | after writing a key, reading it gives the written value |
| Records.PutGetOther | packages/extension/src/hooks/use-buy.ts:65-68 | writing a key leaves every other key's value unchanged |
| Records.PutKeys | packages/extension/src/hooks/use-buy.ts:65-68 | writing an existing key keeps the key order, and writing a new key appends it |
| Records.Dedup | packages/extension/src/hooks/use-buy.ts:61-69 | keeps every key and yields each key once |
| Records.DedupDistinct | packages/extension/src/hooks/use-buy.ts:61-69 | a list without repeats is left as it is |
| Records.Assign | packages/extension/src/hooks/use-buy.ts:61-69 | the spreads of a literal and the steps of a `reduce`, one `Put` per member; its contract is in `AssignKeys`, `AssignGetLast`, `AssignGetUnwritten` and `AssignFresh` below |
| Records.AssignKeys | packages/extension/src/hooks/use-buy.ts:61-69 | the keys after a sequence of spreads are the keys in order of first occurrence |
| Records.AssignGetUnwritten | packages/extension/src/hooks/use-buy.ts:61-69 | a key never written keeps its old value |
| Records.AssignGetLast | packages/extension/src/hooks/use-buy.ts:61-69 | a key written several times holds its last written value |
| Records.AssignFresh | packages/extension/src/hooks/use-buy.ts:49-57 | spreading members with new, distinct keys appends them in order |
| Records.AssignSplit | packages/extension/src/hooks/use-buy.ts:46-72 | spreading `a` then `b` is spreading `a + b` |
| Records.GetAt | packages/extension/src/hooks/use-buy.ts:128-130 | the member at a position whose key does not occur earlier is the one a lookup finds |
| BuyParams.DenomAddressWrites | packages/extension/src/hooks/use-buy.ts:61-69 | the `reduce` writes one key per supported chain, namely that chain's lower-cased denomination, in order |
| BuyParams.DenomAddresses | packages/extension/src/hooks/use-buy.ts:61-69 | the per-chain address object; `DenomAddressesKeys` gives its keys and `DenomAddressesLastWins` its values |
| BuyParams.CryptoList | packages/extension/src/hooks/use-buy.ts:110-112 | `undefined` exactly when the entry has no currency list; otherwise an array of the currencies' denominations, one per currency, in order |
| BuyParams.NetworkList | packages/extension/src/hooks/use-buy.ts:107-109 | one name per supported chain, each the chain name upper-cased, with length and letters kept |
| BuyParams.RevCurrency | packages/extension/src/hooks/use-buy.ts:116-119 | `undefined` exactly when there is no per-chain map or no entry for the chain; otherwise the first currency's denomination |
| BuyParams.BuyUrlParams | packages/extension/src/hooks/use-buy.ts:43-126 | parameters exist exactly for moonpay, transak and kado; there are at least three, and `apiKey` comes first |
| BuyParams.MoonpayParams | packages/extension/src/hooks/use-buy.ts:45-73 | moonpay's parameters; `MoonpaySingleCurrencyRecord` and `MoonpayMultiCurrencyRecord` give the exact record for each form |
| BuyParams.MoonpaySingleCurrencyRecord | packages/extension/src/hooks/use-buy.ts:45-57 | with an active chain: `apiKey`, `showWalletAddressForm=true`, `walletAddress` (the encoded one-member JSON) and `currencyCode`, in that order |
| BuyParams.MoonpayMultiCurrencyRecord | packages/extension/src/hooks/use-buy.ts:45-73 | without an active chain: `apiKey`, `showWalletAddressForm=true` and `walletAddresses` (the encoded per-chain address object) |
| BuyParams.MoonpayAddressForms | packages/extension/src/hooks/use-buy.ts:45-73 | `apiKey` and `showWalletAddressForm` come first; `walletAddress` and `currencyCode` are present iff a chain is active, and `walletAddresses` iff none is |
| BuyParams.MoonpayCurrencyCodeIsWalletKey | packages/extension/src/hooks/use-buy.ts:49-57 | `currencyCode` is the lower-cased active denomination, and it is the only key of the JSON in `walletAddress` |
| BuyParams.DenomAddressesKeys | packages/extension/src/hooks/use-buy.ts:61-69 | the address object's keys are the lower-cased denominations, once each, in order of first occurrence |
| BuyParams.DenomAddressesLastWins | packages/extension/src/hooks/use-buy.ts:61-69 | a denomination shared by several chains holds the address of the last chain that has it |
| BuyParams.TransakParams | packages/extension/src/hooks/use-buy.ts:74-102 | transak's parameters; `TransakSingleAddressRecord` and `TransakMultiAddressRecord` give the exact record for each form |
| BuyParams.TransakSingleAddressRecord | packages/extension/src/hooks/use-buy.ts:74-83 | with an active chain: `apiKey`, `hideMenu=true`, `walletAddress` and `cryptoCurrencyCode`, in that order |
| BuyParams.TransakMultiAddressRecord | packages/extension/src/hooks/use-buy.ts:74-102 | without an active chain: `apiKey`, `hideMenu=true`, `walletAddressesData` (the encoded `{coins: ...}`) and `cryptoCurrencyList` |
| BuyParams.TransakSingleAddress | packages/extension/src/hooks/use-buy.ts:78-83 | `walletAddress` is the active address, or `""` when it is absent; `cryptoCurrencyCode` keeps the denomination's case |
| BuyParams.TransakCurrencyListTokens | packages/extension/src/hooks/use-buy.ts:98-100 | `cryptoCurrencyList` splits on commas into the supported chains' denominations, one per chain, in order |
| BuyParams.KadoParams | packages/extension/src/hooks/use-buy.ts:103-122 | kado's parameters; `KadoRecord` gives the exact record and `KadoMembers` its keys and `networkList` |
| BuyParams.KadoRecord | packages/extension/src/hooks/use-buy.ts:103-122 | kado's four fixed members, followed by `onToAddress`, `onRevCurrency` and `network` exactly when a chain is active |
| BuyParams.KadoMembers | packages/extension/src/hooks/use-buy.ts:103-122 | the four fixed keys come first; `networkList` is the upper-cased chain names; the three extra keys are present iff a chain is active; 7 or 4 keys |
| BuyUrl.RenderValue | packages/extension/src/hooks/use-buy.ts:128-129 | how `join("=")` writes a value: a string as itself, an array comma-joined, `undefined` as nothing; `ArrayValueItems` and `ParseQueryString` state what a reader gets back |
| BuyUrl.QueryString | packages/extension/src/hooks/use-buy.ts:128-130 | the `key=value` pairs joined by `&`; `ParseQueryString` proves it parses back to every key and value in order |
| BuyUrl.AssembleBuyUrl | packages/extension/src/hooks/use-buy.ts:127-131 | the link starts with the provider's origin followed by `?` |
| BuyUrl.SplitAtFirst | packages/extension/src/hooks/use-buy.ts:128-130 | splits at the first delimiter, and the two parts reassemble the input |
| BuyUrl.BuyUrlSplits | packages/extension/src/hooks/use-buy.ts:127-131 | splitting the link at its first `?` gives the origin and the query string, when the origin has no `?` |
| BuyUrl.ParseQueryString | packages/extension/src/hooks/use-buy.ts:128-130 | parsing the query string gives back every key with its rendered value, in order, when keys have no `&` or `=` and values have no `&` |
| BuyUrl.ArrayValueItems | packages/extension/src/hooks/use-buy.ts:107-112 | an array value renders as its comma-free items joined by commas, and splits back into them |
| BuyUrl.TwoParamsExample | packages/extension/src/hooks/use-buy.ts:127-131 | `https://x` with `a=1`, `b=2` assembles to `https://x?a=1&b=2` |
| BuyUrl.MoonpayMultiCurrencyQuery | packages/extension/src/hooks/use-buy.ts:58-73 | the multi-currency moonpay query parses back to the api key, `true` and the encoded address object |
| UseBuy.ResolveServiceInfo | packages/extension/src/hooks/use-buy.ts:30-138 | an entry that does not list the chain comes back unchanged; otherwise it gets one account and one chain info per supported id, in order, and a link iff the provider is known; that link is exactly `AssembleBuyUrl` of `buyOrigin` and the provider's `BuyUrlParams` over the resolved chain infos, and so starts with `buyOrigin?` |
| UseBuy.ResolveCatalog | packages/extension/src/hooks/use-buy.ts:30-140 | one entry per catalog entry, in catalog order, and entry i is the resolver (`ResolveServiceInfo`, with its own contract) applied to catalog entry i |
| UseBuy.FindMoonpay | packages/extension/src/hooks/use-buy.ts:142-144 | the first moonpay entry, or none exactly when there is no moonpay entry |
| UseBuy.SigningEffect | packages/extension/src/hooks/use-buy.ts:152-166 | a signature is requested iff the first moonpay entry has a non-empty link; the request URL is the endpoint followed by a parameter that percent-decodes to that link and contains no `&` |
| UseBuy.SignatureRequestedIff | packages/extension/src/hooks/use-buy.ts:142-166 | after resolution, a signature is requested iff the first moonpay catalog entry lists the current chain |
| UseBuy.MergeSignedUrl | packages/extension/src/hooks/use-buy.ts:170-178 | every moonpay entry takes the signed link and the loading flag; every other entry, and every other field, is unchanged |
| UseBuy.SupportingServices | packages/extension/src/hooks/use-buy.ts:180-183 | keeps only entries that list the chain id, taken from the input |
| UseBuy.SupportingServicesIsFilter | packages/extension/src/hooks/use-buy.ts:180-183 | the result is the entries at strictly increasing positions, and those positions are exactly the entries that list the chain: every such entry is kept, no other, in order |
| UseBuy.IsSupportChain | packages/extension/src/hooks/use-buy.ts:180-183 | `filter(...).length > 0`; `IsSupportChainIff` states what it means |
| UseBuy.IsSupportChainIff | packages/extension/src/hooks/use-buy.ts:180-183 | `isSupportChain` holds iff some entry lists the current chain id |
| UseBuy.UseBuy | packages/extension/src/hooks/use-buy.ts:185-188 | one result entry per catalog entry, in order; `isSupportChain` holds iff some catalog entry lists the current chain, whether or not a link was built |
| UseBuy.UnsupportedProviderUnchanged | packages/extension/src/hooks/use-buy.ts:32-34 | a provider other than moonpay that does not list the current chain is returned without support fields |
| UseBuy.MoonpayTakesSignedUrl | packages/extension/src/hooks/use-buy.ts:170-178 | a moonpay entry is its resolution with the signed link and the loading flag written over it |
| UseBuy.OtherProvidersKeepResolution | packages/extension/src/hooks/use-buy.ts:170-178 | an entry other than moonpay is exactly its resolution |
| UseBuy.UnknownServiceHasNoLink | packages/extension/src/hooks/use-buy.ts:123-131 | a provider with an unknown id that lists the chain gets accounts and chain infos but no link and no loading flag |
| UseBuy.IsSupportChainIgnoresSigning | packages/extension/src/hooks/use-buy.ts:180-188 | `isSupportChain` does not depend on the signed link or the loading flag |

## Left out

- The signing round trip, lines 145-168: the `useState` cells, the `useEffect` trigger, the HTTP request with Axios, the response, and the later state updates. The signed link and the loading flag are inputs of `UseBuy.UseBuy`. `UseBuy.SigningEffect` models only the effect's choice and the request URL. The model therefore states nothing about which of two overlapping responses wins, nor about a failed request that leaves the loading flag `true`.
- The MobX stores (`chainStore`, `accountStore`) are modelled as lookup functions and optional values. Their own behaviour is not part of this model. In the wallet the current chain and its account are always objects, so only the active-chain branch is reached there. Both branches are modelled.
- The provider catalog (`FiatOnRampServiceInfos` in `config.ui`) is not part of this model. The catalog is a parameter, and only the fields the hook reads are kept.
- `Text.ToLowerCase`, `Text.ToUpperCase`: map ASCII letters only. JavaScript's full Unicode case mapping is not modelled.
- `BuyTypes.Stores` keeps the current chain id, the current chain info and the current account as independent fields. The hook derives the account with `getAccount(currentChainId)` and reads the chain info from `chainStore.current`, so in the wallet they agree. No contract depends on that agreement.
- `Json.Stringify`: does not model the escaping of lone surrogates.
- `UriComponent.EncodeUriComponent`: does not model the URIError that `encodeURIComponent` throws on a lone surrogate; characters are code points, so a lone surrogate cannot be represented.
- `Records.Keys`: JavaScript lists integer-like keys first, in numeric order. This model keeps insertion order for every key, which matches the hook whenever no lower-cased denomination is a canonical array index.
- `BuyParams.BuyUrlParams`: the TypeError that kado raises on an empty per-chain currency list is a precondition (`ParamsThrow`), not a modelled exception.
- The `buyUrl` text is pinned by `UseBuy.ResolveServiceInfo` as `AssembleBuyUrl` applied to the provider's `BuyUrlParams`; the individual providers' records are exact, but the full query text is stated only through `ParseQueryString`'s round trip, not as one closed-form string per provider.
