# InfraKitchen Backstage plugin: API adapter and tab shell

This project models two parts of the InfraKitchen frontend plugin for Backstage and proves properties of them.

- **The REST adapter `InfraKitchenApiClient`** (module `ApiClient`, file `api_client.dfy`). It covers:
  - how the client's `backendUrl` is built;
  - the URLs, headers and query values of list, tree, variable-schema, generic GET, raw CRUD and download calls;
  - how `setAuthToken` and `httpClient` update the request options in place;
  - how responses become values or errors: structured `ApiClientError`s, plain errors, `{}` for an empty body, and the `Content-Range` total.
- **The permission-filtered tab shell of `App.tsx`** (module `App`, file `app.dfy`). It covers:
  - which catalog tabs a permission map shows;
  - the base path inferred from the current URL;
  - the active tab and the path a tab change navigates to;
  - what is rendered while permissions load, and after.

Supporting modules:
- `Strings` (`strings.dfy`) models the JavaScript string operations the code relies on. These are `startsWith`, `indexOf`, `replace` with a string or `/\/$/`, `split`/`join` on one character, integer-to-text in template literals, and `parseInt(…, 10)`.
- `Seqs` (`seqs.dfy`) models `filter` and `findIndex`.
- `Json` (`json.dfy`) models JSON values, the outcome of `JSON.parse`, and JavaScript truthiness of a field.
- `Wrappers` (`wrappers.dfy`) holds `Option` and `Result`.

Inputs instead of effects:
- The network (`fetch` and the component library's `fetchJson`) is not modelled. The identity provider and `JSON.parse` are not modelled either.
- Their results are parameters: the `response`, the `fetched` result, the `idToken`, and a `parse` function from text to a parse outcome.
- The `query-string` library's `stringify` is also a parameter.
- A call that throws returns `Failure(error)`, and one that resolves returns `Success(value)`.

Behaviour of the code worth noting:
- **The admin key is `*`, not `api:*`.** The code tests `permissions['*'] === 'admin'`. The permission map `{"api:*": "admin"}` therefore shows only the Settings tab, whose key is `*`; it does not show every tab. `App.ApiStarIsNotAdmin` proves this.
- **The list total can be `NaN`.** The code rejects a response without `Content-Range`. When the header is present but its text after the last `/` has no digit after optional leading white space and one sign (as in `items 0-9/*`), `parseInt` gives `NaN`, and the model says `None`. `ApiClient.ContentRangeUnknownLength` proves this.
- **An empty permission map still renders the page header.** It renders neither tabs nor routes, but the page frame is still there (`App.EmptyPermissionsRenderNothing`).
- **A known route before the mount point ends the base.** `basePath` takes the text before the first known route that ends a segment, even when that route is not where the plugin is mounted. So with the routes `/resources` and `/templates`, `/infrakitchen/templates/resources` gets the base `/infrakitchen/templates`. `App.EarlierRouteEndsBaseExample` proves this.
- **`getTree` and `downloadFile` put a double slash in their URLs.** Both add `/` after a `backendUrl` that already ends in `/`, so their URLs hold `//`. `ApiClient.ClientUrlsHaveDoubleSlash` proves this.

## Model

| member | source | states |
|---|---|---|
| ApiClient.BackendUrl | plugins/infrakitchen/src/api/InfraKitchenApiClient.ts:44-49 | the backend URL is the configured base URL followed by exactly `/api/proxy/infrakitchen/api/`, so it ends in `/api/` and in `/` |
| ApiClient.TokenText | plugins/infrakitchen/src/api/InfraKitchenApiClient.ts:57 | `${idToken}`: the token itself, or the text `undefined` without one; `ApiClient.DefaultHeaders` states the resulting header |
| ApiClient.Bearer | plugins/infrakitchen/src/api/InfraKitchenApiClient.ts:57 | `` `Bearer ${idToken}` ``, also at lines 86 and 148; `ApiClient.DefaultHeaders`, `ApiClient.SetAuthToken` and `ApiClient.DownloadRequest` state where it goes |
| ApiClient.TokenTruthy | plugins/infrakitchen/src/api/InfraKitchenApiClient.ts:84 | `if (idToken)`: a present, non-empty token; `ApiClient.SetAuthToken` states both branches |
| ApiClient.DefaultHeaders | plugins/infrakitchen/src/api/InfraKitchenApiClient.ts:53-59 | exactly the headers accept, content-type and authorization; JSON for the first two; authorization is `Bearer ` and the token, or `Bearer undefined` without one |
| ApiClient.StatusLine | plugins/infrakitchen/src/api/InfraKitchenApiClient.ts:17 | the generic error message `<status> <statusText>.`, also used at line 35; `ApiClient.StatusLineCarriesStatus` states what it carries |
| ApiClient.StatusLineCarriesStatus | plugins/infrakitchen/src/api/InfraKitchenApiClient.ts:17 | the generic error message `<status> <statusText>.` reads back, through `parseInt`, as the response status |
| Json.Field | plugins/infrakitchen/src/api/InfraKitchenApiClient.ts:20-32 | property access `v.key`: a value exactly when `v` is an object holding `key`, otherwise `undefined` |
| Json.Truthy | plugins/infrakitchen/src/api/InfraKitchenApiClient.ts:20 | truthiness as tested at lines 20, 27 and 32: absent (`undefined`), `null`, `false`, `0` and `""` are falsy; `true`, every other number and string, and every array and object are truthy |
| Json.OrElse | plugins/infrakitchen/src/api/InfraKitchenApiClient.ts:32 | the metadata default of line 32 (JavaScript or-else with `{}`): the first value when it is truthy, otherwise the second |
| ApiClient.ParseErrorBody | plugins/infrakitchen/src/api/InfraKitchenApiClient.ts:12-37 | a structured error exactly when the body parses, is truthy and has a truthy `message`. It then carries the status and the message, with either the body's `error_code` and `metadata` or `unknown_error` and the metadata defaulting to `{}`. Every other case is a plain `<status> <statusText>.` error |
| ApiClient.StructuredErrorExample | plugins/infrakitchen/src/api/InfraKitchenApiClient.ts:20-26 | a body with a message and an error code gives an `ApiClientError` with both and no metadata |
| ApiClient.MessageOnlyErrorExample | plugins/infrakitchen/src/api/InfraKitchenApiClient.ts:27-33 | a body with only a message gives the code `unknown_error` and empty metadata |
| ApiClient.IsOk | plugins/infrakitchen/src/api/InfraKitchenApiClient.ts:62 | `response.ok`, also at line 151: the status is in 200 to 299; `ApiClient.HandleResponse` and `ApiClient.DownloadResult` state both branches |
| ApiClient.ParseFailureMessage | plugins/infrakitchen/src/api/InfraKitchenApiClient.ts:70 | `Failed to parse JSON response: ` and the parser's reason; `ApiClient.HandleResponse` states when it is raised |
| ApiClient.HandleResponse | plugins/infrakitchen/src/api/InfraKitchenApiClient.ts:61-78 | success exactly when the status is 2xx and the body is empty or parses. A failed status yields the error-body error, and an unparsable body a `Failed to parse JSON response:` error. On success the status, headers and text are kept and the JSON is `{}` for an empty body, otherwise the parsed value |
| ApiClient.JsonOf | plugins/infrakitchen/src/api/InfraKitchenApiClient.ts:139 | keeps a failure and, on success, yields only the parsed JSON |
| ApiClient.User.constructor | plugins/infrakitchen/src/api/InfraKitchenApiClient.ts:83 | the empty user record `{}` |
| ApiClient.Options.constructor | plugins/infrakitchen/src/api/InfraKitchenApiClient.ts:104-108 | options with the given headers, method and body, and no user |
| ApiClient.SetAuthToken | plugins/infrakitchen/src/api/InfraKitchenApiClient.ts:81-88 | afterwards the options have a user: the existing one or a fresh empty one. A truthy token marks it authenticated with `Bearer <token>`. A falsy token changes nothing on an existing user. Headers, method and body are unchanged |
| ApiClient.HttpClient | plugins/infrakitchen/src/api/InfraKitchenApiClient.ts:51-79 | installs the default headers only when the options have none, leaves the rest of the options alone, sends the URL with the options' headers, method and body, and returns the handled response |
| ApiClient.Send | plugins/infrakitchen/src/api/InfraKitchenApiClient.ts:137-139 | a call with fresh options sends the default headers and succeeds exactly when the status is 2xx and the body is empty or parses |
| ApiClient.TreeUrl | plugins/infrakitchen/src/api/InfraKitchenApiClient.ts:132-140 | the tree URL is the tree head followed by exactly the direction name, `children` when absent; it begins with the backend URL and `/` and ends in `/tree/<direction>` |
| ApiClient.DirectionName | plugins/infrakitchen/src/api/InfraKitchenApiClient.ts:135 | the direction's text: `parents`, `children` or `both`; `ApiClient.TreeUrl` states where it goes |
| ApiClient.IdText | plugins/infrakitchen/src/api/InfraKitchenApiClient.ts:134-138 | a numeric id's decimal text or a string id as is, as the template literal renders them; `ApiClient.TreeHead` states where it goes |
| ApiClient.TreeHead | plugins/infrakitchen/src/api/InfraKitchenApiClient.ts:138 | the head is the backend URL and `/`, followed by exactly the component, `/`, the id and `/tree/` |
| ApiClient.TreeUrlDoubleSlash | plugins/infrakitchen/src/api/InfraKitchenApiClient.ts:138 | with a backend URL ending in `/`, the tree URL holds `//` where the backend URL ends |
| ApiClient.ParentResourcesQuery | plugins/infrakitchen/src/api/InfraKitchenApiClient.ts:160-162 | empty without parents or with an empty list, otherwise starts with the first name |
| ApiClient.ParentResourcesRoundTrip | plugins/infrakitchen/src/api/InfraKitchenApiClient.ts:160-162 | comma-free names are recovered by splitting the query value on `,` |
| ApiClient.VariableSchemaUrl | plugins/infrakitchen/src/api/InfraKitchenApiClient.ts:163 | the URL is `<backend>source_code_versions/<id>/variables?` followed by exactly `parent_resources=` and the joined names |
| ApiClient.GetUrl | plugins/infrakitchen/src/api/InfraKitchenApiClient.ts:168-171 | the URL is the backend URL and path, with `?` and the query string added exactly when the query string is not empty |
| ApiClient.DownloadUrl | plugins/infrakitchen/src/api/InfraKitchenApiClient.ts:145 | the URL is `<backend>/resources/` followed by exactly `<id>/debug` |
| ApiClient.DownloadUrlDoubleSlash | plugins/infrakitchen/src/api/InfraKitchenApiClient.ts:145 | with a backend URL ending in `/`, the download URL holds `//` where the backend URL ends |
| ApiClient.ClientUrlsHaveDoubleSlash | plugins/infrakitchen/src/api/InfraKitchenApiClient.ts:44-49 | for every configured base URL, the tree and download URLs hold `//` after the backend URL |
| ApiClient.GetTree | plugins/infrakitchen/src/api/InfraKitchenApiClient.ts:132-140 | sends the tree URL with the default headers and no method or body, and returns the handled response's JSON |
| ApiClient.GetVariableSchema | plugins/infrakitchen/src/api/InfraKitchenApiClient.ts:159-165 | sends the variable-schema URL with the default headers and returns the handled response's JSON |
| ApiClient.Get | plugins/infrakitchen/src/api/InfraKitchenApiClient.ts:167-173 | sends the stringified parameters' URL with the default headers and returns the handled response's JSON |
| ApiClient.Raw | plugins/infrakitchen/src/api/InfraKitchenApiClient.ts:175-201 | sends `<backend><path>` with the verb, the parameters as JSON body and the default headers, and returns the handled response's JSON |
| ApiClient.DownloadRequest | plugins/infrakitchen/src/api/InfraKitchenApiClient.ts:144-150 | the download request carries only an `Authorization: Bearer` header, no method and no body |
| ApiClient.DownloadResult | plugins/infrakitchen/src/api/InfraKitchenApiClient.ts:151-156 | the payload exactly when the status is 2xx; otherwise a plain error that is `Request failed with <status> ` followed by exactly the status text, `, ` and the body |
| ApiClient.PaginationOf | plugins/infrakitchen/src/api/InfraKitchenApiClient.ts:91 | the caller's page and page size, or page 1 of 10; `ApiClient.ListQuery` and `ApiClient.ListDefaults` state its use |
| ApiClient.SortOf | plugins/infrakitchen/src/api/InfraKitchenApiClient.ts:92 | the caller's sort, or `id` ascending; `ApiClient.ListQuery` and `ApiClient.ListDefaults` state its use |
| ApiClient.RangeStart | plugins/infrakitchen/src/api/InfraKitchenApiClient.ts:94 | a page's first index; `ApiClient.PageHoldsPerPageIndices`, `ApiClient.PagesAreAdjacent` and `ApiClient.IndexOnExactlyOnePage` state its properties |
| ApiClient.RangeEnd | plugins/infrakitchen/src/api/InfraKitchenApiClient.ts:95 | a page's last index, inclusive; the same three lemmas state its properties |
| ApiClient.PageHoldsPerPageIndices | plugins/infrakitchen/src/api/InfraKitchenApiClient.ts:94-95 | for positive page and page size, the range starts at a non-negative index and holds exactly page-size indices |
| ApiClient.PagesAreAdjacent | plugins/infrakitchen/src/api/InfraKitchenApiClient.ts:94-95 | each page's range ends right before the next page's begins |
| ApiClient.IndexOnExactlyOnePage | plugins/infrakitchen/src/api/InfraKitchenApiClient.ts:94-95 | a non-negative index lies in a page's range exactly when the page is `index / perPage + 1` |
| ApiClient.RangeHeader | plugins/infrakitchen/src/api/InfraKitchenApiClient.ts:106 | the `Range` header is `<resource>=` followed by exactly `<start>-<end>` |
| ApiClient.DecodeRangeHeader | plugins/infrakitchen/src/api/InfraKitchenApiClient.ts:106 | models no source line: the reference reader of the `Range` header (the text after the last `=` and after its last `-`) behind `ApiClient.RangeHeaderRoundTrip` |
| ApiClient.RangeHeaderRoundTrip | plugins/infrakitchen/src/api/InfraKitchenApiClient.ts:106 | the first and last index are read back from `<resource>=<start>-<end>` whatever the resource name, when the last index is not negative |
| ApiClient.ListQuery | plugins/infrakitchen/src/api/InfraKitchenApiClient.ts:97-101 | the query has exactly the keys sort, range and filter: sort is the caller's field and order or `id`/`ASC`, range is the page's first and last index or 0 to 9, filter is the caller's filter |
| ApiClient.ListRequestOf | plugins/infrakitchen/src/api/InfraKitchenApiClient.ts:90-108 | the list URL is `<backend><resource>?` followed by exactly the stringified list query; the `Range` header is the resource with the page's first and last index; the query is the list query |
| ApiClient.RangeHeaderAgreesWithQuery | plugins/infrakitchen/src/api/InfraKitchenApiClient.ts:94-108 | for a positive page and page size, the `range` query value is the page's first and last index, the `Range` header decodes to the same two indices, and they span exactly one page from a non-negative start |
| ApiClient.ListDefaults | plugins/infrakitchen/src/api/InfraKitchenApiClient.ts:91-92 | without pagination and sort, the call asks for indices 0 to 9 sorted by `id` ascending |
| ApiClient.ContentRangeTotal | plugins/infrakitchen/src/api/InfraKitchenApiClient.ts:119-122 | `parseInt` of the text after the last `/`; `ApiClient.ContentRangeTotalRoundTrip`, `ApiClient.ContentRangeExample` and `ApiClient.ContentRangeUnknownLength` state its results |
| ApiClient.ContentRangeTotalRoundTrip | plugins/infrakitchen/src/api/InfraKitchenApiClient.ts:119-122 | the total is read from after the last `/`, whatever precedes it |
| ApiClient.ContentRangeExample | plugins/infrakitchen/src/api/InfraKitchenApiClient.ts:119-122 | `items 0-9/42` gives the total 42 |
| ApiClient.ContentRangeUnknownLength | plugins/infrakitchen/src/api/InfraKitchenApiClient.ts:119-122 | `items 0-9/*` gives `NaN` |
| ApiClient.MissingContentRange | plugins/infrakitchen/src/api/InfraKitchenApiClient.ts:113-115 | the exact text of the missing-header error; `ApiClient.ListResultOf` states when it is raised |
| ApiClient.ListResultOf | plugins/infrakitchen/src/api/InfraKitchenApiClient.ts:111-123 | a missing `Content-Range` gives the missing-header error; otherwise the data is the JSON and the total is read from the header |
| ApiClient.GetList | plugins/infrakitchen/src/api/InfraKitchenApiClient.ts:90-125 | builds the list request, sends fresh options holding only the `Range` header and a fresh user with the token set as `setAuthToken` does, keeps a fetch failure and otherwise returns the list result |
| Strings.ParseIntOfIntToString | plugins/infrakitchen/src/api/InfraKitchenApiClient.ts:119-122 | `parseInt` reads back any integer's decimal text followed by a non-digit or by nothing |
| Strings.Split | plugins/infrakitchen/src/api/InfraKitchenApiClient.ts:120 | `split` on one character yields at least one piece; `Strings.SplitJoin` and `Strings.LastSplit` state its pieces |
| Strings.Join | plugins/infrakitchen/src/api/InfraKitchenApiClient.ts:161 | joining nothing gives the empty text, otherwise the text starts with the first piece; `Strings.SplitJoin` states the inverse |
| Strings.IntToString | plugins/infrakitchen/src/api/InfraKitchenApiClient.ts:106 | the decimal text of an integer: non-empty, only digits and `-`, only digits when not negative; `Strings.ParseIntOfIntToString` states the inverse |
| Strings.ParseInt | plugins/infrakitchen/src/api/InfraKitchenApiClient.ts:119-122 | `parseInt(…, 10)` gives `NaN` exactly when no digit follows the optional leading white space and one sign; `Strings.ParseIntOfIntToString` states the values it reads |
| Strings.SplitJoin | plugins/infrakitchen/src/api/InfraKitchenApiClient.ts:161 | splitting the join of separator-free pieces gives the pieces back |
| Strings.LastSplit | plugins/infrakitchen/src/api/InfraKitchenApiClient.ts:120 | the last piece of a split is the text after the last separator |
| Strings.StartsWith | plugins/infrakitchen/src/App.tsx:150 | `s.startsWith(p)`, also at line 167: `s` begins with exactly the characters of `p`; `Strings.RemoveFirstOfPrefix`, `App.TabMatches` and `App.SelectsTabBelow` state its use |
| Strings.Last | plugins/infrakitchen/src/api/InfraKitchenApiClient.ts:120 | `.pop()` of the split: the last element; `Strings.LastSplit` states what it is |
| Strings.IndexOf | plugins/infrakitchen/src/App.tsx:142 | the result is -1 or an index where the pattern occurs, and the pattern occurs nowhere before it, nor anywhere at all when the result is -1 |
| Strings.RemoveFirst | plugins/infrakitchen/src/App.tsx:162 | removing a string pattern changes nothing when it does not occur; otherwise the result is shorter by the pattern's length and re-inserting the pattern at its first occurrence gives the input back |
| Strings.RemoveFirstOfPrefix | plugins/infrakitchen/src/App.tsx:162 | removing a prefix leaves exactly the rest |
| Strings.DropTrailingSlash | plugins/infrakitchen/src/App.tsx:151 | one trailing `/` is dropped; a string without one is unchanged |
| Strings.DropTrailingSlashOfConcat | plugins/infrakitchen/src/App.tsx:162 | a head not ending in `/` is never touched; only the tail loses its trailing `/` |
| Seqs.Filter | plugins/infrakitchen/src/App.tsx:125-132 | the result holds only catalog elements that pass, and every element that passes |
| Seqs.FilterIsSubsequence | plugins/infrakitchen/src/App.tsx:125-132 | filtering keeps the order |
| Seqs.FilterDistinct | plugins/infrakitchen/src/App.tsx:125-132 | filtering a duplicate-free sequence leaves it duplicate-free |
| Seqs.FindIndex | plugins/infrakitchen/src/App.tsx:163-168 | the result is -1 or an index that matches, and no earlier element matches |
| App.AllTabs | plugins/infrakitchen/src/App.tsx:47-116 | the 13 catalog tabs in order; `App.CatalogIsPrefixFree` states the shape of their paths |
| App.Granted | plugins/infrakitchen/src/App.tsx:131 | `!!permissions[key]`: the key is present and its value is not empty; `App.VisibleWithoutAdmin` states its use |
| App.IsAdmin | plugins/infrakitchen/src/App.tsx:127 | `permissions['*'] === 'admin'`; `App.AdminSeesEveryTab` and `App.ApiStarIsNotAdmin` state its use |
| App.TabVisible | plugins/infrakitchen/src/App.tsx:125-132 | the filter's test: admin, or the tab's `api:<permissionKey>` is granted; `App.AdminSeesEveryTab` and `App.VisibleWithoutAdmin` state it |
| App.VisibleTabs | plugins/infrakitchen/src/App.tsx:124-133 | `allTabs.filter(...)`; `App.AdminSeesEveryTab`, `App.VisibleWithoutAdmin`, `App.VisibleTabsKeepCatalogOrder` and `App.VisibleTabsPrefixFree` state what it keeps |
| App.AdminSeesEveryTab | plugins/infrakitchen/src/App.tsx:126-129 | a `*` key holding `admin` shows the whole catalog, in order |
| App.VisibleWithoutAdmin | plugins/infrakitchen/src/App.tsx:130-131 | otherwise a tab is shown exactly when it is in the catalog and its `api:<permissionKey>` entry is present and non-empty |
| App.VisibleTabsKeepCatalogOrder | plugins/infrakitchen/src/App.tsx:124-133 | the shown tabs are a subsequence of the catalog |
| App.SettingsNeedsApiStar | plugins/infrakitchen/src/App.tsx:115 | without admin, Settings is shown exactly when `api:*` is granted |
| App.ApiStarIsNotAdmin | plugins/infrakitchen/src/App.tsx:124-133 | the map `{"api:*": "admin"}` shows only the Settings tab |
| App.NoPermissionsNoTabs | plugins/infrakitchen/src/App.tsx:124-133 | an empty permission map shows no tab |
| App.CatalogIsPrefixFree | plugins/infrakitchen/src/App.tsx:47-116 | each catalog path is a single segment, `/` and a name without `/`; no path is a prefix of another; the catalog has no duplicates |
| App.VisibleTabsPrefixFree | plugins/infrakitchen/src/App.tsx:124-133 | the shown tabs keep the catalog's prefix-free paths |
| App.Paths | plugins/infrakitchen/src/App.tsx:137 | the known routes are the tabs' paths, index by index |
| App.EndsBase | plugins/infrakitchen/src/App.tsx:142-150 | a route's first occurrence is past index 0 and is followed by nothing or `/`; `App.RouteEndsBase` and `App.EarlierRouteAbsent` state when it holds |
| App.TrimmedOrRoot | plugins/infrakitchen/src/App.tsx:156 | one trailing `/` dropped, or `/` when nothing is left, as at lines 156 and 162; the result is never empty |
| App.BasePath | plugins/infrakitchen/src/App.tsx:135-157 | the base path is `/` or a prefix of the path. The first route occurring after index 0, and followed by the end or a `/`, gives the text before it without a trailing `/`. With no such route it is the whole path without a trailing `/`, or `/` |
| App.RouteEndsBase | plugins/infrakitchen/src/App.tsx:140-153 | under a one-segment base, a one-segment route that is no prefix of the base and has not the base as prefix is found right after the base and ends it when what follows is empty or starts with `/` |
| App.BaseBeforeFirstRoute | plugins/infrakitchen/src/App.tsx:135-157 | under a one-segment base, a first known route that is one segment apart from the base (neither a prefix of the other) recovers exactly the base |
| App.NotWithinBase | plugins/infrakitchen/src/App.tsx:140-153 | before the end of a one-segment base, a segment route apart from it occurs nowhere, whatever follows the base |
| App.BasePathExample | plugins/infrakitchen/src/App.tsx:135-157 | an admin on `/infrakitchen/resources/123` gets the base `/infrakitchen` |
| App.IntegrationsBasePathExample | plugins/infrakitchen/src/App.tsx:135-157 | a user whose only route is `/integrations`, on `/infrakitchen/integrations/7`, gets the base `/infrakitchen` |
| App.EarlierRouteEndsBase | plugins/infrakitchen/src/App.tsx:140-153 | under two segments both apart from the first known route, the base is both segments, even when the plugin is mounted under the first only |
| App.EarlierRouteEndsBaseExample | plugins/infrakitchen/src/App.tsx:135-157 | with the routes `/resources` and `/templates`, `/infrakitchen/templates/resources` gets the base `/infrakitchen/templates` |
| App.RelativePath | plugins/infrakitchen/src/App.tsx:161-162 | the relative path is never empty; under a prefix base it is the rest of the path, one trailing `/` dropped, or `/`; when the base does not occur it is the whole path so trimmed |
| App.TabMatches | plugins/infrakitchen/src/App.tsx:164-167 | a `/` tab matches only `/`, any other tab the paths it prefixes; `App.SelectsTabBelow` states when a tab matches |
| App.SelectedTabIndex | plugins/infrakitchen/src/App.tsx:160-170 | the first tab matching the relative path, or 0 when none does; always 0 or a tab index |
| App.SelectsTabBelow | plugins/infrakitchen/src/App.tsx:160-170 | among prefix-free tabs, any path formed by base, a tab's path and any rest selects that tab |
| App.ActiveTabExample | plugins/infrakitchen/src/App.tsx:160-170 | an admin on `/infrakitchen/resources/123` has the Resources tab selected |
| App.TabChangeTarget | plugins/infrakitchen/src/App.tsx:172-180 | no navigation for an index without a tab; a `/` tab goes to the base; any other tab to the base followed by exactly the tab's path |
| App.TabChangeSelectsTab | plugins/infrakitchen/src/App.tsx:160-180 | navigating to a shown tab's target makes that tab the selected one when the base stays the same; `App.TabChangeRoundTrip` proves the base does stay the same below a one-segment mount point |
| App.EarlierRouteAbsent | plugins/infrakitchen/src/App.tsx:140-153 | below a one-segment base apart from every tab path, a tab change target holds no other tab's path anywhere |
| App.BaseOfTabTarget | plugins/infrakitchen/src/App.tsx:135-157 | below a one-segment base apart from every tab path, the base inferred from a tab's target is that base |
| App.TabChangeRoundTrip | plugins/infrakitchen/src/App.tsx:135-180 | below a one-segment base apart from every shown tab's path, navigating to a shown tab's target infers the same base and selects that tab |
| App.MountApart | plugins/infrakitchen/src/App.tsx:47-116 | the mount point `/infrakitchen` is no prefix of any catalog path and has none as prefix |
| App.MountedTabChangeRoundTrip | plugins/infrakitchen/src/App.tsx:135-180 | mounted at `/infrakitchen`, every tab change lands on a path whose inferred base is `/infrakitchen` and which selects the chosen tab |
| App.RouterView | plugins/infrakitchen/src/App.tsx:22-45 | no routes exactly when the permission map is empty; otherwise the accessible routes |
| App.Render | plugins/infrakitchen/src/App.tsx:181-214 | the loading placeholder exactly while loading. After that, a tab bar exactly when some tab is shown, holding the shown tabs and the index `SelectedTabIndex` gives for the base inferred from the shown tabs' paths, and the router's view |
| App.EmptyPermissionsRenderNothing | plugins/infrakitchen/src/App.tsx:22-29 | an empty permission map, once resolved, renders no tab bar and no routes |

## Left out

- The network is not modelled. `fetch` and the component library's `fetchJson` are foreign code, so their responses are inputs. How `fetchJson` itself raises errors is not part of this model.
- The identity provider is not modelled. `getCredentials` is asynchronous foreign code, so its token is an input.
- `JSON.parse`, `JSON.stringify` and `query-string`'s `stringify` are foreign library code. `JSON.parse` is an input function returning a parse outcome, and `stringify` is an input function. JSON numbers are integers, because floating point is out of scope.
- `getToken` returns the identity provider's token unchanged. With the token an input, nothing is left to model.
- `ApiClient.DownloadResult`: the payload is the response body as text rather than an `ArrayBuffer`. Binary buffers are outside the model.
- Header values are stored as given. The Fetch API's `Headers` object also trims their surrounding white space, so an empty token sends `Bearer` rather than `Bearer `. It throws a `TypeError` on a value outside Latin-1, such as a `Range` header built from a non-ASCII resource name. Neither is modelled: the value normalisation belongs to the foreign `Headers` object.
- `ApiClient.HttpClient`: only headers, method, body and user are modelled as options. Other `fetch` options are never set by this code.
- `Strings.ParseInt`: the leading white space skipped is the ASCII set, the no-break space, the byte-order mark and the two Unicode line terminators. The other Unicode space separators, such as U+2000 to U+200A and U+3000, are not modelled.
- `Strings.IntToString`: integers only. The TypeScript client's ids and page numbers may be any JavaScript number, but floating-point formatting is not modelled.
- `ApiClient.RangeHeaderRoundTrip` requires a non-negative last index. A negative one (page 0) puts a second `-` in the header, which `ApiClient.DecodeRangeHeader` cannot take apart.
- `App.TabChangeRoundTrip` covers one-segment mount points apart from every tab path, such as `/infrakitchen`. Deeper mount points, or ones that share a prefix with a tab path, are not covered.
- React hooks, memoisation, `navigate`, the router's matching, the colour override provider, the page header and the notification popup are presentation and framework code. `App.Render` reports only the decisions the shell makes.
- `AppWrapper` and the provider nesting are not modelled; they are composition only. Nor are `plugin.ts`, the API reference and the development harness.
- Asynchronous ordering is not modelled. Every call is one sequential step from request to result.
