# Path-keyed query-parameter store

This project models the query-parameter service of an Ember add-on
(`addon/services/query-params.ts`). The service keeps two pieces of state:

- `byPath`: for every path visited, a parameter set that maps keys to values.
- `current`: a view bound to the entry of the active path.

The service keeps that state and the browser's address bar in step. It does
this on two triggers:

- **Route change.** The router's `routeDidChange` listener calls
  `updateParams`. That method derives the path from the router's current URL
  (`pathParts`), binds the view to the path's entry (`setupProxies`) and
  merges the parsed query into that entry (`setOnPath`). The listener then
  calls `updateURL`. That method merges the stored parameters over the live
  location's parameters, serialises them in key order (`sortKeys`), and
  *replaces* the current history entry.
- **Write through the view.** `current[key] = value` builds a URL from the
  entry with `key` set to `value`, *pushes* a history entry with it, and then
  stores the value.

The Dafny modules follow those parts:

| module | file | what it holds |
|---|---|---|
| `Values` | values.dfy | the `Value` datatype (with `Undefined`), parameter sets as maps, ordered records |
| `Strings` | strings.dfy | `split` with a one-character separator, `join`, and their round trips |
| `KeyOrder` | key_order.dfy | the default string sort order and `SortKeys` |
| `Paths` | paths.dfy | `PathParts` |
| `Urls` | urls.dfy | the browser location, Ember's `isPresent`, the two URL-assembly rules |
| `Merging` | merge.dfy | the merge `setOnPath` performs, stated key by key |
| `Service` | service.dfy | the codec, the history events and the `QueryParamsService` class |
| `Scenarios` | scenarios.dfy | two navigations followed through the class contracts |

The class keeps `byPath` as a `map<string, map<string, Value>>` field. The
view is the field `currentPath`: the path whose entry the view wraps. An entry
object is never replaced once it exists (`this.byPath[path] || {}` keeps it),
so naming the entry by its path says the same as holding a reference to it.
`window.history` is a ghost log of `Push(url)` and `Replace(url)` events. The
query-string library enters as a `Codec` value that holds two function values,
`parse` and `stringify`, about which nothing is assumed. The only exception is
`qs.parse`'s documented result for an absent or empty string, which is `{}`.
`stringify` is always applied to the key-sorted record. That record is all the
model says about the serialised query.

Where the code does something its names and comments do not suggest, the model follows the code:

- The write trap has no equality check. Writing a key's current value still
  pushes a history entry (`QueryParamsService.Set`).
- The write trap stores `undefined` as a value through `Reflect.set`. Only
  `setOnPath` deletes on `undefined`. Its identity check then skips a key that
  is already stored as `undefined`, so such a key survives a later merge that
  asks to delete it (`Merging.StoredUndefinedSurvivesMerge`).
- `updateURL` writes the hash *before* `?query`, so the query ends up inside
  the fragment of the new URL (`Urls.ReplaceUrl`).
- `pathParts` keeps only the text between the first and the second `?` when a
  URL holds several (`Paths.ParamsOfUrl`).
- `updateURL` reads the stored entry of the route's URL but does not create
  it. A missing entry adds nothing (`Service.RouteQuery`).

## Model

| member | source | states |
|---|---|---|
| `Strings.Split` | addon/services/query-params.ts:38 | `.split('?')`: the pieces between the `?`s, in order; never empty, and no piece holds `?` (its own contract); `JoinSplit` and `SplitJoin` make it the inverse of `join` |
| `Strings.JoinSplit` | addon/services/query-params.ts:38 | splitting at `?` loses nothing: joining the pieces with `?` gives the URL back |
| `Strings.SplitJoin` | addon/services/query-params.ts:38 | pieces without `?` come back unchanged from a split of their join, so the split is the inverse of the join |
| `Paths.PathParts` | addon/services/query-params.ts:37-42 | `pathParts`: splits `currentURL || ''` at `?`, forces a leading `/` on the first piece and returns the second piece when there is one; its own contract says the path is absolute and free of `?`, and `PathOfUrl`/`ParamsOfUrl` state exactly which text each part is |
| `Paths.PathOfUrl` | addon/services/query-params.ts:37-42 | the path always starts with `/`; it is the text before the first `?` (all of the URL when there is none), with `/` put in front only when missing; an empty or absent URL gives `/` |
| `Paths.ParamsOfUrl` | addon/services/query-params.ts:38-41 | the parameter text is present exactly when the URL has a `?`; it is the text after the first `?` up to the next `?` or the end, and holds no `?` |
| `KeyOrder.Less` | addon/services/query-params.ts:101 | the comparison of the default `.sort()`: a proper prefix sorts first, otherwise the first differing character decides; `LessIrreflexive`, `LessAsymmetric`, `LessTransitive` and `LessTotal` make it a strict total order |
| `KeyOrder.LessTotal` | addon/services/query-params.ts:101 | the sort order is total: any two distinct keys are ordered one way or the other |
| `KeyOrder.SortKeys` | addon/services/query-params.ts:99-107 | the rebuilt record lists its keys in strictly ascending order, builds exactly the input object (same keys, same value per key) and has one pair per key |
| `KeyOrder.SortKeysUnique` | addon/services/query-params.ts:99-107 | every record with ascending keys that builds the object is the sorted one, so the serialised input is determined by the object alone |
| `KeyOrder.SortKeysExample` | addon/services/query-params.ts:99-107 | `{b: 2, a: 1}` is enumerated as `a` then `b` |
| `Merging.Step` | addon/services/query-params.ts:84-94 | one pass of the loop body: skip when the stored value is identical, delete on `undefined`, assign otherwise; its contract says the key then holds a defined value, or is absent unless `undefined` was stored, and no other key changes; `MergeStep` ties it to `Merge` |
| `Merging.Merge` | addon/services/query-params.ts:80-95 | a defined value of `q` is stored under its key; an `undefined` of `q` leaves its key absent, unless `undefined` was already stored there; keys `q` does not mention keep their presence and value |
| `Merging.MergeStep` | addon/services/query-params.ts:84-94 | handling one more key of `q` (skip when identical, delete on `undefined`, otherwise assign) extends the merge by that key, whatever order the keys are visited in |
| `Merging.MergeIdempotent` | addon/services/query-params.ts:84-94 | merging the same parameters twice leaves the entry as merging them once |
| `Merging.MergeKeepsNoUndefined` | addon/services/query-params.ts:88-91 | over an entry that stores no `undefined`, the merge stores none and removes every key that `q` sets to `undefined` |
| `Merging.MergeIntoEmpty` | addon/services/query-params.ts:78-95 | merging into a new entry stores exactly the pairs of `q` with defined values |
| `Merging.StoredUndefinedSurvivesMerge` | addon/services/query-params.ts:84-91 | a key stored as `undefined` is still present after merging `undefined` for it: the identity check skips the delete |
| `Urls.IsPresent` | addon/services/query-params.ts:72 | Ember's `isPresent` on a string: some character lies outside JavaScript's `\s` class |
| `Urls.QuerySuffix` | addon/services/query-params.ts:72 | `${isPresent(query) ? '?' : ''}${query}`: the query with `?` in front only when it is present; `PushUrlQuery`/`ReplaceUrlQuery` state the consequence |
| `Urls.ReplaceUrl` | addon/services/query-params.ts:72 | `protocol//host pathname hash` followed by the query suffix; `ReplaceUrlQuery` states how it splits at `?` |
| `Urls.PushUrl` | addon/services/query-params.ts:116 | `protocol//host pathname` followed by the query suffix, without the hash; `PushUrlQuery` states how it splits at `?` |
| `Urls.PushUrlQuery` | addon/services/query-params.ts:114-116 | when no location part and not the query holds `?`: the pushed URL splits at `?` into `protocol//host pathname` and the query when the query is present, and holds no `?` otherwise |
| `Urls.ReplaceUrlQuery` | addon/services/query-params.ts:68-72 | the same for the replaced URL, whose part before `?` is `protocol//host pathname hash` |
| `Service.ParseQs` | addon/services/query-params.ts:56 | `params ? qs.parse(params) : {}` and `qs.parse(search.split('?')[1])` (line 70): an absent or empty string gives `{}` (its contract), any other is handed to the codec |
| `Service.Entry` | addon/services/query-params.ts:47 | `this.byPath[path] || {}` (also line 78): the stored entry, or an empty one when the path has none; `SetupProxies` and `SetOnPath` store it back |
| `Service.RouteParams` | addon/services/query-params.ts:52-59 | `updateParams` leaves an entry for the current path in the store and changes no other path's entry |
| `Service.RouteQuery` | addon/services/query-params.ts:67-71 | the serialised parameters are the location's ones overridden by the ones stored for the route's URL: stored values win on shared keys, the location's other keys are kept, and no other key appears |
| `Service.RouteParamsIdempotent` | addon/services/query-params.ts:52-59 | a second route change for the same URL leaves the store as the first one did |
| `Service.FirstVisit` | addon/services/query-params.ts:55-58 | on the first visit to a path, its entry holds exactly the defined pairs parsed from the URL's query |
| `Service.QueryParamsService.constructor` | addon/services/query-params.ts:21-28 | the store starts empty; the view is bound to the current path; the store is what one `updateParams` makes of an empty store; no history entry is written |
| `Service.QueryParamsService.SetupProxies` | addon/services/query-params.ts:44-50 | the current path gets an entry (an existing one is kept as it is) and the view is bound to it; nothing else changes |
| `Service.QueryParamsService.UpdateParams` | addon/services/query-params.ts:52-59 | the view is bound to the current path, and the store becomes `RouteParams` of the old store |
| `Service.QueryParamsService.SetOnPath` | addon/services/query-params.ts:77-96 | the entry of `path` afterwards is the merge of its old entry (empty if none) with `q`; an empty `q` still creates the entry; every other path's entry is unchanged |
| `Service.QueryParamsService.UpdateURL` | addon/services/query-params.ts:66-75 | exactly one `Replace` event is appended; its URL is `protocol//host pathname hash` followed by `?query` only when the query is present; the query serialises the sorted `RouteQuery`; the store is untouched |
| `Service.QueryParamsService.RouteDidChange` | addon/services/query-params.ts:31-34 | a route change runs `updateParams`, then `updateURL` against the new store |
| `Service.QueryParamsService.Get` | addon/services/query-params.ts:110-112 | a read through the view gives the stored value, or `undefined` for an absent key |
| `Service.QueryParamsService.Set` | addon/services/query-params.ts:113-121 | exactly one `Push` event is appended, whether or not the value changed; its URL is built from the entry with `key` set to `value`, without the hash; afterwards the entry maps `key` to `value` (`undefined` included), and no other key or path changes |

## Left out

- The router is not modelled. Its current URL and the URL `urlFor` resolves for the current route are parameters of `UpdateParams` and `RouteDidChange`. The `routeDidChange` subscription is modelled by calling `RouteDidChange`, and the listener is never removed.
- Exceptions from the router or the codec are not modelled. `urlFor` and the codec are total here.
- The internals of `qs` are not modelled. `parse` and `stringify` are uninterpreted function values. `UpdateURL` and `Set` state the record passed to `stringify`, not the resulting text.
- `window.location` is an input `Location` value, and `window.history` is a ghost log. The state object of each history entry (`{ path: url }`) and its empty title are not recorded.
- Ember's implementation of `isPresent` is not modelled; `Urls.IsPresent` states its documented behaviour on strings: the string has a character outside JavaScript's `\s` class.
- The `@tracked` decorators are not modelled, and neither is the `Proxy` mechanism. The traps are the explicit methods `Get` and `Set`.
- Service.QueryParamsService.Get, Service.QueryParamsService.Set: `Reflect.get` finds properties inherited from `Object.prototype` (such as `constructor`), and assigning the key `__proto__` through `Reflect.set` changes the prototype. The model treats an entry as a plain map and does neither.
- `Merging.Merge` compares values structurally, whereas `===` compares nested objects and arrays by reference. The source overwrites an equal but distinct nested value and the model skips it, so the stored value is the same either way. Numbers are `real`, so NaN, infinities and `-0` are not modelled.
- `Service.QueryParamsService.SetOnPath` changes the entry through a local alias and writes it back after the loop, where the source changes it in place. No code runs in between, so nothing observes the difference.
- `KeyOrder.SortKeys` does not model JavaScript's own-property order, in which integer-like keys such as `"2"` and `"10"` always enumerate first, in numeric order, whatever order they were inserted in. It also compares characters by code point, where JavaScript compares UTF-16 code units. The two orders differ only above U+FFFF.
- Urls.PushUrlQuery, Urls.ReplaceUrlQuery: the "`?` only when the query is present" rule is stated only for location parts and queries that hold no `?`. This is not an exotic case: `updateURL` itself writes `hash?query`, so after one route change with a non-empty hash and a present query, the browser reads the query as part of the hash, `search` is empty and the hash holds `?`. From then on `Urls.ReplaceUrlQuery` no longer applies, and the replaced URL holds one `?` inside the old hash plus, when the query is present, another before the new query.
- `queryParams || {}` in `setOnPath` guards against a null argument. Every caller here passes a parsed object, so the model has no null case.
- The TypeScript `declare module` registry block (lines 124-129) holds only types. `src/init/initializers/register-query-params-service.ts` is dependency-injection wiring with no logic. Neither is modelled.
