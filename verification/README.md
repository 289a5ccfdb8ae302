# Storefront configuration resolver — a verified model

`config.js` is the shared configuration script of a multi-tenant children's
clothing storefront. On page load it decides which configuration
(`STORE_CONFIG`: catalogue, delivery fees, discounts, store details, age-to-size
table, colour and size lists) the page uses. It starts a fetch of `config.json`
from the active tenant's GitHub repository, or from the storefront's own
repository `ahcene43/WAW`. It falls back on the copy cached in `localStorage`
under `storeConfig`, and then on a built-in default configuration. From the
admin pages it also publishes a configuration back to GitHub through the
contents API, using the file's `sha` as its version token. Two routines check
and repair product image links so that they point into the active tenant's
repository.

This project models that decision logic in Dafny and proves what it promises.
Browser services become plain values:

- `localStorage` is a record with one field per key. The `storeConfig` and
  `stores` slots hold what `JSON.parse` makes of the stored text: nothing,
  unparseable text, or a value. `currentStore` is read as raw text, or nothing.
- The network is a parameter. `Page.FinishRemoteLoad` receives the answer to
  the raw-file fetch. `SaveToGitHub` receives a function `send` that gives the
  backend's answer to each request.
- JavaScript's falsy strings (missing or empty `image`, `username`, `repo`,
  `branch`, `message`) are the empty string.
- Thrown exceptions are `Err(SyntaxError)` (`JSON.parse`, `response.json()`),
  `Err(TypeError)` (reading `PRODUCTS` of a config without it, or `fetch`
  rejecting) and `Err(Thrown(message))`.

Modules follow the script's parts:

- `Types` holds the configuration record and the tenant records.
- `Text` models `includes` and `split('/').pop()`.
- `Defaults` models `getDefaultConfig`.
- `Storage` models the local-storage reads.
- `Remote` models URL selection.
- `Resolver` is the fallback policy of `loadConfig`.
- `Consistency` models `validateGithubConfig` and `correctImageLinks`.
- `GitHub` models `saveToGitHub`.
- `Client.Page` is a class holding the two pieces of page-wide mutable state,
  `STORE_CONFIG` and `localStorage`. Its methods are the state-changing
  operations.

Behaviour the model keeps as the code has it, though a reader might expect otherwise:

- The remote load in `loadConfig` is not awaited. The cache fallback runs on
  the state as it was before, and a remote answer that arrives later replaces
  whatever the fallback chose (`Page.FinishRemoteLoad`, `Client.StartUp`).
- A write with a stale version token is not reported as a distinct conflict.
  It fails like any other rejected write, with the backend's message.
- The repaired image links use the fixed host `raw.githubusercontent.com` and
  the literal branch `main`, not the tenant's branch.
- The mismatch test is a substring test for `/{username}/{repo}/`.
- The metadata read before a write names no branch. Its `sha` is therefore the
  one on the repository's default branch.

## Model

| member | source | states |
|---|---|---|
| Storage.StoresOf | config.js:9 | reading `stores`: a missing key is the empty map; unparseable text is a SyntaxError; otherwise the parsed map |
| Storage.EntryOf | config.js:197 | the active entry exists exactly when `currentStore` is set, non-empty and a key of `stores`, and it is that key's entry |
| Storage.InheritedEntry | config.js:197 | a non-empty tenant id that is not a key of `stores` but names an `Object.prototype` member makes `stores[currentStore]` truthy without giving a tenant entry |
| Storage.RepoOf | config.js:224 | a tenant's coordinates count exactly when its `github` record exists with a non-empty username and repo |
| Remote.ConfigUrl | config.js:9-18 | with an active entry whose github names a username and repo, the URL is `https://raw.githubusercontent.com/{username}/{repo}/{branch or main}/config.json`; in every other case it is the fixed `ahcene43/WAW/main` URL |
| Remote.RawConfigUrlInjective | config.js:16 | for slash-free owner and repository names (branches may hold '/'), two tenants get the same configuration URL only if username, repo and effective branch all agree |
| Remote.ConfigUrlIsDefault | config.js:11-17 | for slash-free owner and repository names (branches may hold '/'), the fetched URL is the default one exactly when there is no usable tenant repository, or the tenant's repository is `ahcene43/WAW` on branch `main` |
| Remote.RemoteLoadRequest | config.js:5-20 | the synchronous part of `loadRemoteConfig` issues no fetch exactly when `stores` is unparseable; otherwise it fetches the chosen URL plus `?t=` and the timestamp; with no `stores` key this is the default URL |
| Remote.TokenLoadRequest | config.js:173 | `loadRemoteConfigWithToken` fetches, for a tenant whose username and repo are non-empty, the same URL the checked selection would choose for that tenant, plus `?t=` and the timestamp |
| Remote.TokenLoadIsDefault | config.js:173 | for slash-free owner and repository names, `loadRemoteConfigWithToken` fetches the default configuration exactly when the tenant is `ahcene43/WAW` on branch `main`: unlike `loadRemoteConfig`, it never falls back, so a tenant with an empty username or repo still gets its own template URL |
| Defaults.DefaultConfig | config.js:66-102 | the default configuration is not empty and contains product 1. Every product's sizes and colours belong to AVAILABLE_SIZES and AVAILABLE_COLORS. Every AGE_SIZES value belongs to AVAILABLE_SIZES |
| Resolver.Resolved | config.js:39-63 | the result is never empty. A non-empty state is kept. An empty state adopts a cache that parses to a non-empty object. Otherwise (no cache, corrupt cache, cache of `{}`) the result is `getDefaultConfig()` |
| Resolver.ResolvedIsStable | config.js:44-60 | a second `loadConfig` leaves the state as the first one set it, whatever the cache holds |
| Resolver.SavedConfigIsAdopted | config.js:106-107 | a non-empty configuration stored by `saveConfig` is what a fresh page adopts from the cache |
| Client.Page.constructor | config.js:2 | the state starts as `{}` over the given storage |
| Client.Page.LoadConfig | config.js:39-63 | storage is unchanged. The request left in flight is the one `loadRemoteConfig` issues. The new state is `Resolved(old state, cached storeConfig)`. The return value is the new state and is never empty |
| Client.Page.FinishRemoteLoad | config.js:20-34 | the load succeeds exactly when the fetch answers ok with a parseable body. The state is then replaced wholesale by that body; otherwise it is unchanged. Storage is unchanged |
| Client.Page.SaveConfig | config.js:106-112 | the `storeConfig` slot holds the given configuration, or the current state when none is given. Nothing else changes |
| Client.Page.CorrectImageLinks | config.js:216-242 | outcome and new storage are exactly `Corrected(old storage)`. The state is unchanged |
| Client.StartUp | config.js:5-34 | after the load at script start, a later successful remote answer leaves the state equal to the remote configuration whenever `stores` parses; when it does not, no fetch was issued and the state is the one `loadConfig` chose from the cache or the defaults. Storage is untouched |
| Types.Config.IsEmpty | config.js:49 | a configuration has no keys exactly when it is the object `{}` |
| Text.Includes | config.js:205 | the left-to-right scan of `includes` answers true exactly when `t` occurs in `s` at some position |
| Text.OccursInTail | config.js:205 | when `t` does not start `s`, it occurs in `s` exactly when it occurs in the rest of `s` |
| Text.IncludesInfix | config.js:205 | a string `p + t + q` includes `t` |
| Text.LastSegment | config.js:229 | the file name is the longest slash-free suffix of the link: it holds no '/'. It is a suffix. Either it is the whole link or a '/' precedes it |
| Text.LastSegmentAfterSlash | config.js:229 | for a slash-free name `f`, the last segment of `p + "/" + f` is `f` |
| Consistency.ValidateGithubConfig | config.js:193-214 | true exactly when the active entry exists, has PRODUCTS, its github has a non-empty username and repo, and some non-empty product image does not include `/{username}/{repo}/`. Unparseable `stores` throws SyntaxError. An active entry without PRODUCTS throws TypeError, and so does a tenant id naming an inherited `Object.prototype` member. Otherwise false |
| Consistency.WrongImagesCounted | config.js:203-208 | the filtered list of wrong images is non-empty exactly when a wrong image exists |
| Consistency.RewrittenProducts | config.js:225-233 | keys are kept. A product with an empty image is unchanged. Every other product's image becomes `https://raw.githubusercontent.com/{username}/{repo}/main/images/{last segment of the old image}` and nothing else changes |
| Consistency.RewriteImages | config.js:225-233 | the loop over the product ids computes exactly `RewrittenProducts` |
| Consistency.Corrected | config.js:216-242 | unparseable `stores` throws SyntaxError. A tenant with coordinates and no PRODUCTS throws TypeError. The result is true exactly when the active entry has a github username and repo and PRODUCTS. On anything but true, storage is unchanged. On true, only that tenant's PRODUCTS change, as `RewrittenProducts` states; its other config fields, its github record, other tenants, `storeConfig` and `currentStore` are unchanged |
| Consistency.RepairedImageInRepo | config.js:231 | a rebuilt link includes `/{username}/{repo}/` |
| Consistency.ImageUrlKeepsName | config.js:229-231 | the last segment of a link rebuilt from a slash-free file name is that name |
| Consistency.RepairedImageStable | config.js:229-231 | rebuilding a rebuilt link yields the same link |
| Consistency.RepairExample | config.js:229-231 | `.../old-ns/old-shop/dev/images/shirt.png` rebuilt for `new-ns/shop` on branch `dev` becomes `https://raw.githubusercontent.com/new-ns/shop/main/images/shirt.png` |
| Consistency.RepairClearsMismatch | config.js:203-206 | after a successful repair, `validateGithubConfig` on the new storage returns false |
| Consistency.RepairIsIdempotent | config.js:225-236 | repairing the repaired storage returns true again and changes nothing |
| Consistency.InheritedIdExample | config.js:197-224 | with `currentStore` = `constructor` over an empty `stores`, validation throws TypeError and the repair reports false and writes nothing |
| Consistency.MismatchIsRepairable | config.js:220-224 | whenever validation reports a mismatch, the repair applies and returns true |
| GitHub.SaveToGitHub | config.js:115-162 | the PUT goes to the contents URL with `token {token}`. It carries the encoded config, the French commit message with the timestamp, and `branch` = the tenant's branch or `main`. `sha` = the metadata answer's sha when that read is ok and parses, else `''`. An ok, parseable answer resolves with its body. A non-ok answer fails with its `message`, or `Échec de la sauvegarde des paramètres sur GitHub` when there is none. An unparseable answer fails with SyntaxError; no answer fails with TypeError |

## Left out

- `fetch`, HTTP status codes beyond `response.ok`, and Promises: each exchange is one `Response` value, and async steps are separate methods called in order.
- The interleaving of the unawaited remote load is not explored. `FinishRemoteLoad` may be called after any step, and `Client.StartUp` fixes one order.
- `JSON.parse`/`JSON.stringify`: a storage slot holds the parsed value. `saveConfig` and `correctImageLinks` store the value itself, which assumes the JSON round trip returns the same value.
- Cached or fetched JSON that parses to something other than an object (`null`, a number): the model assumes an object with known keys and well-typed fields.
- A `stores` entry without a `config` object (the source would throw a TypeError on `config.PRODUCTS`): every modelled entry has one.
- `btoa(unescape(encodeURIComponent(...)))` (base64 of UTF-8): the `encode` parameter of `SaveToGitHub`.
- `Date.now()` and `toLocaleString('fr-FR')`: the `now` parameters.
- `console.log`/`console.error` and the foreign `updateLiveStore` callback called by `saveConfig`.
- `saveToGitHubWithToken`: it only delegates to `saveToGitHub`.
- GitHub.SaveToGitHub: a metadata answer without a `sha` field reads as `''`, while the source would send `sha: undefined` and so omit the key.
- GitHub.SaveToGitHub: a missing username, repo or token renders as `""`, while the source renders the text `undefined` in the contents URL and in the `Authorization` header.
- Remote.TokenLoadRequest: a missing username or repo renders as `""`, while the source renders the text `undefined` in the raw-file URL.
- Properties of the backend itself (version checks, storing the content): only the client's requests and its reading of the answers are modelled.
