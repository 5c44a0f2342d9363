# Stacks wallet helper and BNS name lookup, in Dafny

A model of `src/lib/stacksConnect.ts`, the wallet-connection helper of the
BNS pre-launch registration page, with proofs about it.

- **Network preference** (`StacksConnect`): `getPersistedNetwork` reads the
  `stacks-network` key of `localStorage`, defaulting to `mainnet` when the key
  is missing or empty and otherwise taking the stored string unchecked;
  `persistNetwork` writes it. The network is a plain string, so the branch
  "anything but `mainnet` selects the testnet address" is visible.
- **The `useStacksWallet` composable** (`StacksConnect.Wallet`): its reactive
  refs are the fields of a class; mount hydration, `updateAddresses`,
  `setNetwork`, `authenticate` with its `onFinish` and `onCancel`
  continuations, `disconnect` and `copyAddressToClipboard` are methods. The
  delayed `setTimeout` callbacks are a queue of pending timers fired by an
  explicit event method, and the popups opened by `showConnect` are a queue of
  pending requests, each holding the success callback it captured. Every
  method keeps the address invariant `Valid()`: disconnected means no
  addresses, connected means both addresses are known and the current address
  is the mainnet one on `mainnet`, the testnet one otherwise.
- **Address display**: `truncateAddress` as a function.
- **Name lookup** (`BnsNames`): `fetchUserOwnedBtcNamesFromApi` as functions
  of the address argument and of the server's answer: address normalisation,
  the request URL, the error for a non-ok response (with the status rendered
  in decimal), and the order-preserving filter and map over `names`.

The environment is modelled in its own modules: `Browser.LocalStorage` and
`Browser.Clipboard` (browser services, each a class with the state it
exposes) and `StacksLibrary.UserSession` (the library's session: a signed-in
flag and the user's `(testnet, mainnet)` address pair, set by the foreign
wallet popup). A null `LocalStorage` stands for the absence of a browser
window, which `getPersistedNetwork` and `persistNetwork` test for. The HTTP
exchange is a function parameter `server` from URL to parsed response or
network error. `StacksConnectScenarios` re-derives the unit tests'
expectations from the contracts.

## Model

| member | source | states |
|---|---|---|
| `StacksConnect.NetworkFromStored` | src/lib/stacksConnect.ts:46 | a missing or empty stored value gives `mainnet`; any other stored string is returned unchanged; the result is never empty |
| `StacksConnect.GetPersistedNetwork` | src/lib/stacksConnect.ts:43-47 | without a window the network is `mainnet`; with nothing or `""` under `stacks-network` it is `mainnet`; otherwise it is exactly the stored string |
| `StacksConnect.PersistNetwork` | src/lib/stacksConnect.ts:53-56 | with a window, only the `stacks-network` entry changes, to the given name, and `GetPersistedNetwork` then reads that name back (or `mainnet` for `""`); without a window nothing happens |
| `StacksConnect.PersistedNetworkRoundTrip` | src/lib/stacksConnect.ts:43-56 | storing any non-empty network name and reading the preference back yields that name |
| `StacksConnect.TruncateAddress` | src/lib/stacksConnect.ts:174-178 | null or empty gives `""`; up to 12 characters unchanged; longer gives 13 characters: the first 6, `...`, the last 4; never longer than the input, and at most 13 characters unless unchanged |
| `StacksConnect.TruncateAddressIdempotent` | src/lib/stacksConnect.ts:174-178 | truncating an already truncated address changes nothing |
| `StacksConnect.TruncateAddressCollides` | src/lib/stacksConnect.ts:174-178 | two long addresses display alike if and only if they share their first 6 and last 4 characters |
| `StacksConnect.SelectAddress` | src/lib/stacksConnect.ts:101 | the current address is always one of the two stored addresses: the mainnet one for `mainnet`, the testnet one for every other network string |
| `StacksConnect.Wallet.constructor` | src/lib/stacksConnect.ts:63-75 | initial state: not open, not connected, not copied, no addresses, network from the persisted preference, no pending popups or timers; the address invariant holds |
| `StacksConnect.Wallet.UpdateAddresses` | src/lib/stacksConnect.ts:90-102 | only the three address fields change; afterwards the address invariant holds and, when connected, both addresses are the session's |
| `StacksConnect.Wallet.Mount` | src/lib/stacksConnect.ts:78-84 | a signed-in session makes the wallet connected with the session's addresses and the invariant; otherwise nothing changes |
| `StacksConnect.Wallet.SetNetwork` | src/lib/stacksConnect.ts:108-112 | network becomes the argument, the storage holds it under `stacks-network` and reads it back, the address invariant holds with the session's addresses; connection, open and copy flags, timers and popups are unchanged |
| `StacksConnect.Wallet.Authenticate` | src/lib/stacksConnect.ts:118-132 | when `showConnect` is loaded, the wallet is open and one popup carrying the given callback is pending; otherwise nothing changes; no other field changes |
| `StacksConnect.Wallet.OnFinish` | src/lib/stacksConnect.ts:133-150 | the popup is closed, connected equals the session's signed-in status, the address invariant holds with the session's addresses, and a success timer is scheduled if and only if signed in and a callback was captured |
| `StacksConnect.Wallet.OnCancel` | src/lib/stacksConnect.ts:151-154 | only the open flag (false) and the pending popup change; no timer is scheduled |
| `StacksConnect.Wallet.Disconnect` | src/lib/stacksConnect.ts:162-167 | from any state: the session is signed out, the wallet is not connected, all three addresses are null; network, open and copy flags are unchanged |
| `StacksConnect.Wallet.CopyAddressToClipboard` | src/lib/stacksConnect.ts:184-192 | a non-empty current address is written to the clipboard exactly once, the copy flag is set and a clear timer is scheduled; a null or empty one changes nothing |
| `StacksConnect.Wallet.FireTimer` | src/lib/stacksConnect.ts:188-190 | the elapsed timer leaves the queue; the copy timer clears the copy flag, the success timer (lines 146-148) runs its callback; nothing else changes |
| `BnsNames.AddressString` | src/lib/stacksConnect.ts:243-254 | a ref holding null or `""` fails with `Address ref is null or undefined`; a ref holding a non-empty string and every other value give that string |
| `BnsNames.RequestUrl` | src/lib/stacksConnect.ts:257 | the URL is the fixed `https://api.bnsv2.com/names/address/` prefix, the address, then `/valid` |
| `BnsNames.RequestUrlInjective` | src/lib/stacksConnect.ts:257 | distinct addresses are requested at distinct URLs |
| `BnsNames.DecimalString` | src/lib/stacksConnect.ts:260 | the status is rendered as a non-empty string of digits without a leading zero |
| `BnsNames.DecimalRoundTrip` | src/lib/stacksConnect.ts:260 | the rendered status reads back as the status |
| `BnsNames.ResponseErrorMessage` | src/lib/stacksConnect.ts:260 | the error message starts with `BNSv2 API response error: ` |
| `BnsNames.ResponseErrorMessageInjective` | src/lib/stacksConnect.ts:259-261 | the error message determines both the status and the status text |
| `BnsNames.FilterBtc` | src/lib/stacksConnect.ts:267-268 | the kept entries are `btc` entries of the response, no more of them than the response has |
| `BnsNames.FullNames` | src/lib/stacksConnect.ts:269 | one full name per entry, position by position |
| `BnsNames.BtcFullNames` | src/lib/stacksConnect.ts:267-269 | the result is no longer than the `names` array |
| `BnsNames.FilterBtcAppend` | src/lib/stacksConnect.ts:267-268 | filtering a concatenation is the concatenation of the filtered parts, so response order is kept |
| `BnsNames.FilterBtcCounts` | src/lib/stacksConnect.ts:267-268 | each `btc` entry is kept as many times as it occurs (duplicates stay), every other entry is dropped |
| `BnsNames.FilterBtcIsSubsequence` | src/lib/stacksConnect.ts:267-268 | the kept entries are a subsequence of the response, in response order |
| `BnsNames.BtcFullNamesMembership` | src/lib/stacksConnect.ts:267-269 | a name is returned if and only if some `btc` entry has it as its full name |
| `BnsNames.HandleResponse` | src/lib/stacksConnect.ts:259-276 | a network error is rethrown unchanged; a non-ok response fails with the status message; an ok response succeeds with the `btc` full names, no more than the entries |
| `BnsNames.FetchUserOwnedBtcNames` | src/lib/stacksConnect.ts:240-277 | a falsy ref fails with the ref error; otherwise the result is the server's answer for the templated URL, handled as above |
| `BnsNames.EmptyRefMakesNoRequest` | src/lib/stacksConnect.ts:245-249 | for a falsy ref the result does not depend on the server at all: the request is never made |
| `StacksConnectScenarios.TruncateAddressExamples` | src/tests/unit/stacksConnect.spec.ts:80-91 | `abc` is kept, `0123456789abcdef` shows as `012345...cdef`, null gives `""` |
| `StacksConnectScenarios.RequestUrlExample` | src/tests/unit/stacksConnect.spec.ts:212-213 | the URL for `test-address-123` |
| `StacksConnectScenarios.ResponseErrorExample` | src/tests/unit/stacksConnect.spec.ts:220-231 | a 404 `Not Found` response gives `BNSv2 API response error: 404 Not Found` |
| `StacksConnectScenarios.ConvertedAddressExample` | src/tests/unit/stacksConnect.spec.ts:247-258 | a converted object address is requested at its URL |
| `StacksConnectScenarios.FilterExample` | src/tests/unit/stacksConnect.spec.ts:174-218 | one `btc` and one `id` entry give exactly `["test.btc"]` |

The methods `InitialState`, `PersistedNetworkIsUsed`, `SetNetworkPersists`,
`DisconnectClears` and `CopyThenTimer` of `StacksConnectScenarios` prove the
expectations of src/tests/unit/stacksConnect.spec.ts:54-78 and 126-166 from the
wallet's contracts alone. `AuthenticateRunsCallback` and `CancelRunsNoCallback`
exercise the `onFinish` and `onCancel` paths of
src/lib/stacksConnect.ts:133-154 in the same way.

`setNetwork` calls `updateAddresses`, which reloads both addresses from the
session (src/lib/stacksConnect.ts:98, 111) rather than reusing the ones already
known. The network is not restricted to `mainnet`/`testnet`, because the stored
string is cast without a check (src/lib/stacksConnect.ts:46).

## Left out

- `registerBnsName` (src/lib/stacksConnect.ts:313-328): a single foreign database write with a server-generated id; nothing to state about it. Its unit test expects a contract call the code does not make.
- `callBnsContractFunction` (src/lib/stacksConnect.ts:288-304): logs and returns a constant placeholder.
- src/lib/appwrite.ts and src/router.ts: SDK client construction and a declarative route table, with no logic.
- Console logging throughout.
- The `showConnect` popup itself (app name, icon, redirect path): the model records that a popup is pending; the library decides whether `onFinish` or `onCancel` runs and sets the session's fields.
- `signUserOut`'s navigation to the current URL: the model only signs the session out.
- `loadUserData` throwing when no session data exists (possible when another wallet instance signed out while this one is still connected): the model returns the session's stored addresses.
- The guard `if (!userSession) return;` (src/lib/stacksConnect.ts:163): the session is a module-level object that always exists, so the model's session reference is never null and the early return has no counterpart.
- Timer delays (100 ms, 1000 ms): `FireTimer` lets any pending timer fire, so it also admits orders that real delays exclude.
- Vue reactivity and the `onMounted` lifecycle: `Mount` is an explicit event method.
- `Authenticate`, `Disconnect`: the error thrown without a browser window is not modelled. `authenticate` reads `window.location.origin` (src/lib/stacksConnect.ts:130) after setting the open flag, so without a window it throws with the wallet open and no popup; `disconnect` reads `window.location` (src/lib/stacksConnect.ts:164) first, so it throws with the state unchanged. In the model a null storage (no window) does not affect either method: `Authenticate` still adds a pending popup and `Disconnect` still clears the connection.
- Promise rejection of `navigator.clipboard.writeText`, and JSON parsing of the response (a body without `names` would throw a type error).
- `String(x)` on arbitrary objects and non-string falsy ref values (`0`, `false`, `undefined`): an address argument is given as the string it converts to, and a ref's value as an optional string.
- `response.ok` is taken as given rather than derived from the status.
- TruncateAddress: lengths and slices count Dafny characters (Unicode scalar values), where JavaScript counts UTF-16 code units; the two agree on Stacks addresses, which are ASCII.
