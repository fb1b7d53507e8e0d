# Blood-donation admin front-end: CRUD hook, data table, sign-in and route gate

This project models, in Dafny, the logic at the centre of a Next.js admin front-end. The
front-end runs on a REST API for donors and donation requests. The model covers:

- **The CRUD hook** (`useCrud`, files `crud_query.dfy`, `crud_form.dfy`, `crud.dfy`):
  - serialising filters and pagination into a query string (`toSearchParams`), proved to
    round-trip through a parse of the query string;
  - flattening a payload into multipart entries (`toFormData`), proved to keep every
    name under its parent key and every file in order;
  - normalising request errors (`unwrapAxiosError`);
  - the react-query keys and the prefix invalidation every successful mutation performs;
  - the detail query's missing-id guard;
  - the delete confirmation's cancel path;
  - the export's empty-rows branch.
- **The page list** (`buildPageItems`, file `page_items.dfy`): an imperative method with
  the source's set, sort and ellipsis loops. It is proved to yield the sorted page set
  with an ellipsis exactly at every gap.
- **The generic table** (file `table.dfy`):
  - the local search (trim, lower-case, substring match on chosen keys);
  - the page count and the client-side slice;
  - a `TableState` class holding the page, page-size and search state, whose handlers
    `goToPage`, previous/next and `handleSizeChange` update it.
- **Authentication** (file `auth.dfy`): the credentials `authorize` and the `jwt` and
  `session` callbacks, on loose JSON records.
- **The route gate** (file `route_gate.dfy`):
  - the edge middleware's chain of four session cookies;
  - its redirect to `/signin` with a `callbackUrl`;
  - its `/admin/:path*` matcher.
- **Smaller pure parts**:
  - the sign-in form's validation schema (`login_form.dfy`);
  - the Bangladesh division, district and upazila table with its three getters (`geo.dfy`);
  - the value handling of the form inputs (`form_inputs.dfy`): the multi-select toggle and
    labels, the slider value, and the combobox's selected option.

Where a stateful JavaScript object is updated step by step, the model keeps that form:
- `URLSearchParams` is the `SearchParams` class;
- `FormData` is the `FormData` class;
- react-query's cache is the `QueryClient` class;
- the table's React state is `TableState`.

Every such method is proved against a pure specification function. The properties are
proved about that function.

The code and the design description of this system disagree in several places. The model
follows the code:
- there are no role ranks and no per-route role rules;
- no sign-in variant is limited to administrators;
- role strings are not normalised;
- the gate checks only that a session cookie is present. It does not verify the token or
  look at roles;
- transport failures are not always normalised. `update` and `remove` pass the raw error on;
- a failed login request is not caught in `authorize`.

## Model

| member | source | states |
|---|---|---|
| CrudQuery.NatStringRoundTrip | src/app/hooks/useCRUD.tsx:198-199 | `String(n)` of a page number or size is a digit string that reads back as `n` |
| CrudQuery.NumStringRoundTrip | src/app/hooks/useCRUD.tsx:205 | `String(v)` of an integer in plain decimal notation is a parseable decimal that reads back as `v`, negative numbers included |
| CrudQuery.RepeatKey | src/app/hooks/useCRUD.tsx:204 | an array value becomes one `(k, String(item))` pair per item, in order |
| CrudQuery.SearchPairs | src/app/hooks/useCRUD.tsx:192-209 | with pagination the pairs are `page`, then `limit`, then exactly the filter pairs; without it they are exactly the filter pairs, or none when there are no filters |
| CrudQuery.FilterPairsAppend | src/app/hooks/useCRUD.tsx:201-206 | the filters are serialised entry by entry: the pairs of a concatenation are the concatenation of the pairs |
| CrudQuery.UndefinedEntryIsOmitted | src/app/hooks/useCRUD.tsx:203 | an `undefined` filter contributes nothing, wherever it stands |
| CrudQuery.FalsyScalarsAreKept | src/app/hooks/useCRUD.tsx:205 | only `undefined` is skipped: `0`, `false` and `""` are sent as `"0"`, `"false"` and `""` |
| CrudQuery.ArrayEntryRepeatsKey | src/app/hooks/useCRUD.tsx:204 | an array filter repeats its key once per item, in place |
| CrudQuery.EmptyArrayEntryIsOmitted | src/app/hooks/useCRUD.tsx:204 | an empty array filter contributes no pair |
| CrudQuery.SearchParams.constructor | src/app/hooks/useCRUD.tsx:196 | a new `URLSearchParams` holds no pairs |
| CrudQuery.SearchParams.Append | src/app/hooks/useCRUD.tsx:198-205 | `append` adds the pair at the end and keeps the rest |
| CrudQuery.ToSearchParams | src/app/hooks/useCRUD.tsx:192-209 | the loop over the pagination and the filters leaves exactly the serialisation of `SearchPairs` |
| CrudQuery.AppendEach | src/app/hooks/useCRUD.tsx:204 | the `forEach` appends the repeated-key pairs of the array |
| CrudQuery.AppendEntry | src/app/hooks/useCRUD.tsx:203-205 | one filter entry appends nothing when undefined, one pair per item for an array, and one pair otherwise |
| CrudQuery.SplitJoin | src/app/hooks/useCRUD.tsx:208 | splitting the `&`-joined pieces at `&` gives back the pieces |
| CrudQuery.ParseSerialize | src/app/hooks/useCRUD.tsx:208 | parsing the serialised query string gives back every pair, in order, when the escaping is invertible |
| CrudQuery.GetAllAppend | src/app/hooks/useCRUD.tsx:201-206 | the values of a key in a concatenation are the values in each part, in order |
| CrudQuery.GetAllFilterPairs | src/app/hooks/useCRUD.tsx:201-206 | with distinct filter keys, a key's values in the query are exactly its filter's values (none when absent or undefined) |
| CrudQuery.EntryValue | src/app/hooks/useCRUD.tsx:202 | the value of the first entry under a key, `undefined` when the key is absent |
| CrudQuery.GetAllPagination | src/app/hooks/useCRUD.tsx:194-199 | `getAll` on the pagination pairs finds the page number under `page`, the size under `limit` and nothing else |
| CrudQuery.FilterRoundTrip | src/app/hooks/useCRUD.tsx:192-209 | the server reading key `k` of the query string gets the page number under `page` and the size under `limit` when paginated, followed by the strings of the filter value stored under `k` (nothing when it is absent or `undefined`) |
| CrudQuery.ListUrl | src/app/hooks/useCRUD.tsx:279 | with an empty query the URL is the bare resource URL; otherwise it is the URL, `?`, then the query |
| CrudQuery.ExportUrl | src/app/hooks/useCRUD.tsx:405-407 | the export URL is `${url}/export`, followed by `?` and the query exactly when the query is non-empty |
| CrudQuery.SerializeEmpty | src/app/hooks/useCRUD.tsx:208 | `toString()` of the list is empty exactly when the list has no pairs |
| CrudForm.FormData.constructor | src/app/hooks/useCRUD.tsx:212 | a new `FormData` holds no entries |
| CrudForm.FormData.Append | src/app/hooks/useCRUD.tsx:220-231 | `append` adds the entry at the end and keeps the rest |
| CrudForm.AppendObject | src/app/hooks/useCRUD.tsx:211-234 | the loop over an object's own keys appends exactly the entries of its fields, in key order |
| CrudForm.AppendField | src/app/hooks/useCRUD.tsx:215-231 | one field appends: nothing when it is null or undefined; the ISO string for a date; the blob for a file; per-index entries for an array; nested entries for an object; `String(value)` otherwise |
| CrudForm.AppendItem | src/app/hooks/useCRUD.tsx:223-229 | one array item appends the blob, the date string, the nested object's entries or `String(item)` under `formKey[i]` |
| CrudForm.ToFormData | src/app/hooks/useCRUD.tsx:211-234 | a fresh `FormData` whose entries are exactly the specification `FormDataOf(payload)` |
| CrudForm.FieldNamesUnderKey | src/app/hooks/useCRUD.tsx:218 | every entry a field produces is named under `ns[key]` (or `key` at the top) |
| CrudForm.ObjectNamesUnder | src/app/hooks/useCRUD.tsx:218 | inside a namespace, every entry's name begins with `ns[` |
| CrudForm.ArrayNamesUnder | src/app/hooks/useCRUD.tsx:224 | every entry of an array is named under `formKey[` |
| CrudForm.ItemNamesUnder | src/app/hooks/useCRUD.tsx:224-228 | every entry of an item is named under its `formKey[i]` |
| CrudForm.EntryBlobsAppend | src/app/hooks/useCRUD.tsx:213 | the files of concatenated entries are the files of each part, in order |
| CrudForm.FieldBlobs | src/app/hooks/useCRUD.tsx:221 | a field's entries carry exactly the files inside its value, in order |
| CrudForm.ObjectBlobs | src/app/hooks/useCRUD.tsx:230 | an object's entries carry exactly the files inside it, in order |
| CrudForm.ArrayBlobs | src/app/hooks/useCRUD.tsx:222-229 | an array's entries carry exactly the files inside it, in order |
| CrudForm.ItemBlobs | src/app/hooks/useCRUD.tsx:225-227 | an item's entries carry exactly the files inside it |
| CrudForm.FormDataBlobs | src/app/hooks/useCRUD.tsx:211-234 | the upload carries every file of the payload, at any depth, once and in order |
| CrudForm.ObjectEntriesAsFields | src/app/hooks/useCRUD.tsx:213-232 | the loop over an object's first `n` keys is the entries of its first `n` fields |
| CrudForm.FieldsEntriesAppend | src/app/hooks/useCRUD.tsx:213-232 | fields are flattened independently: concatenated fields give concatenated entries |
| CrudForm.NullishFieldIsSkipped | src/app/hooks/useCRUD.tsx:216 | a null or undefined field produces no entry wherever it stands |
| CrudForm.ScalarArrayEntries | src/app/hooks/useCRUD.tsx:222-229 | an array of scalars becomes one text entry `formKey[i]` per item |
| CrudForm.NestedExamples | src/app/hooks/useCRUD.tsx:222-230 | nested objects and arrays give bracketed names such as `a[b][0]`; a null item of an array is sent as `"null"`, while a null inside a nested array or object sends nothing |
| Crud.UnwrapAxiosError | src/app/hooks/useCRUD.tsx:236-244 | the message is the first of the body's `message`, the body's `error` and the error's `message` that is present, else `Request failed` |
| Crud.BodyMessageWins | src/app/hooks/useCRUD.tsx:239 | only null or undefined fall through: a present body message decides the result, even an empty one |
| Crud.ListMessageUsesFirst | src/app/hooks/useCRUD.tsx:243 | of a list message only the first element is used |
| Crud.AuthHeader | src/app/hooks/useCRUD.tsx:269 | the `Bearer` header is sent exactly when the token is a non-empty string |
| Crud.KeysShareResourcePrefix | src/app/hooks/useCRUD.tsx:273 | the list, paginated and detail keys all start with `[url, ...queryKey]` and are told apart by their tag |
| Crud.Invalidate | src/app/hooks/useCRUD.tsx:331 | prefix invalidation marks stale exactly the entries whose key starts with the prefix; no entry is added, removed or changed otherwise |
| Crud.InvalidateIdempotent | src/app/hooks/useCRUD.tsx:331 | invalidating the same prefix twice equals invalidating it once |
| Crud.MutationInvalidatesResource | src/app/hooks/useCRUD.tsx:331 | after a mutation, every list, paginated and detail entry of the resource is stale whatever its pagination, filters or id; entries of other URLs are untouched |
| Crud.QueryClient.constructor | src/app/hooks/useCRUD.tsx:261 | the client starts from the given cache |
| Crud.QueryClient.InvalidateQueries | src/app/hooks/useCRUD.tsx:331 | the cache becomes its prefix invalidation |
| Crud.ListRequestUrl | src/app/hooks/useCRUD.tsx:277-279 | the list and paginated queries request the bare URL exactly when the pagination and filters add no pair, and `${url}?…` otherwise |
| Crud.ListRequestRoundTrip | src/app/hooks/useCRUD.tsx:277-279 | the server reading the request's query gets `page` and `limit` when paginated, then each filter's strings under its key |
| Crud.DetailRequest | src/app/hooks/useCRUD.tsx:313-315 | without a non-empty id the fetch fails with `Missing ID for detail` and sends nothing; otherwise it requests `${url}/${id}` |
| Crud.DetailQuery | src/app/hooks/useCRUD.tsx:311-315 | the detail fetch runs exactly when `detailEnabled`, by default `Boolean(id)`, holds; with the default it always requests `${url}/${id}` and never throws the missing-id error |
| Crud.RunMutation | src/app/hooks/useCRUD.tsx:321-401 | a declined or failed delete prompt sends nothing and fails with the cancel sentinel; otherwise the request is the mutation's. A success returns the response data, and nothing for a delete. Success invalidates the resource prefix and nothing else does. Create and the two form-data mutations normalise a transport error; update and remove pass it on |
| Crud.RemoveCancelPath | src/app/hooks/useCRUD.tsx:377-401 | a cancelled delete sends no DELETE, invalidates nothing and fails with the sentinel `onError` passes over; a confirmed one that succeeds invalidates the whole resource |
| Crud.ExportAll | src/app/hooks/useCRUD.tsx:411-420 | no rows (missing or empty) gives the no-data notice and no workbook; otherwise every row goes to sheet `Export` in `<fileName>.xlsx`, the file name being `export` by default |
| Crud.ExportRequestUrl | src/app/hooks/useCRUD.tsx:404-408 | the export requests `${url}/export` exactly when the filters add no pair, and `${url}/export?…` otherwise |
| Crud.ExportRequestRoundTrip | src/app/hooks/useCRUD.tsx:404-408 | the server reading the export query gets each filter's strings under its key and never a `page` or `limit` of the hook's own |
| PageItems.NumbersAppend | src/app/components/shared/GenericTable.tsx:73-80 | the page numbers of a concatenation are those of each part |
| PageItems.NumbersOfEllipsize | src/app/components/shared/GenericTable.tsx:74-79 | inserting ellipses keeps the page numbers exactly as they were |
| PageItems.EllipsizeEnds | src/app/components/shared/GenericTable.tsx:74-79 | the output starts with the first page number and ends with the last one |
| PageItems.EllipsizeWellSpaced | src/app/components/shared/GenericTable.tsx:77 | for strictly increasing numbers, an ellipsis stands between two pages exactly where they differ by more than one, and never at either end |
| PageItems.ExtendWellSpaced | src/app/components/shared/GenericTable.tsx:74-79 | one step of the output loop keeps the list well spaced: the ellipsis goes in exactly when the next number is more than one past the last |
| PageItems.SortedIsUnique | src/app/components/shared/GenericTable.tsx:72 | two strictly increasing sequences with the same members are equal, so the sorted page list is determined by the page set |
| PageItems.Least | src/app/components/shared/GenericTable.tsx:72 | the least element of a non-empty set of page numbers |
| PageItems.SortedElements | src/app/components/shared/GenericTable.tsx:72 | `Array.from(set).sort((a, b) => a - b)`: the set's elements, strictly increasing |
| PageItems.BuildPageItems | src/app/components/shared/GenericTable.tsx:64-81 | `[1]` for at most one page; otherwise the pages are strictly increasing and are exactly 1, the last page, 2, the next-to-last page and the window around the current page within range, with ellipses exactly at the gaps |
| PageItems.PageListShape | src/app/components/shared/GenericTable.tsx:64-81 | for several pages the list starts at page 1 and ends at the last page, every page lies in range, and the gaps are well spaced |
| PageItems.PageInNumbers | src/app/components/shared/GenericTable.tsx:78 | every page entry of the list is one of its page numbers |
| Table.CellString | src/app/components/shared/GenericTable.tsx:118 | `String(v)` of every cell kind: a string as is, a number in decimal, `true`/`false`, `[object Object]` for a plain object, the date's text, and `""` for null or an empty array |
| Table.ItemStrings | src/app/components/shared/GenericTable.tsx:118 | one string per array item, in order, each the item's `String` |
| Table.ArrayCellItems | src/app/components/shared/GenericTable.tsx:118 | an array cell's text is its items' strings joined by `,`: cut at the commas, it gives them back |
| Table.CellText | src/app/components/shared/GenericTable.tsx:118 | `String(row[k] ?? '')`: empty for a missing or null cell, and otherwise the cell's string |
| Table.TrimStart | src/app/components/shared/GenericTable.tsx:115-116 | drops exactly the leading white space: the result is a suffix that starts with a non-space, or is empty when all is white space |
| Table.TrimEnd | src/app/components/shared/GenericTable.tsx:115-116 | drops exactly the trailing white space |
| Table.TrimBlankIffWhitespace | src/app/components/shared/GenericTable.tsx:115 | a query trims to empty exactly when it is all white space |
| Table.TrimIdempotent | src/app/components/shared/GenericTable.tsx:116 | trimming twice is trimming once |
| Table.ToLower | src/app/components/shared/GenericTable.tsx:116-118 | lower-casing keeps the length and maps each character |
| Table.TrimLowerCommute | src/app/components/shared/GenericTable.tsx:116 | trimming and lower-casing commute |
| Table.SearchedData | src/app/components/shared/GenericTable.tsx:114-120 | without search keys or with a blank query the data is returned as is; otherwise it is filtered by the trimmed, lower-cased query |
| Table.FilterRowsSpec | src/app/components/shared/GenericTable.tsx:117-119 | the filter keeps, in their original order and as often as they occur, exactly the rows where some key's lower-cased text contains the query |
| Table.SearchIgnoresQueryCase | src/app/components/shared/GenericTable.tsx:116 | the search result does not depend on the case of the query |
| Table.SearchIgnoresQueryPadding | src/app/components/shared/GenericTable.tsx:115-116 | the search result does not depend on white space around the query |
| Table.TotalPages | src/app/components/shared/GenericTable.tsx:137 | the least page count whose pages of size `size` (1 when 0) hold every item, and never less than 1 |
| Table.JsSlice | src/app/components/shared/GenericTable.tsx:141 | `slice(start, end)` for non-negative bounds: clipped to the data, element `k` is `s[start + k]` |
| Table.ClientRowsWindow | src/app/components/shared/GenericTable.tsx:139-141 | a client page has at most `size` rows, and they are the rows that follow the earlier pages' rows |
| Table.EveryRowOnSomePage | src/app/components/shared/GenericTable.tsx:137-141 | with a positive size, every searched row appears on a page from 1 to the page count |
| Table.TableState.constructor | src/app/components/shared/GenericTable.tsx:124-125 | the table starts on page 1 with the first size option and no search text |
| Table.TableState.GoToPage | src/app/components/shared/GenericTable.tsx:144-148 | an out-of-range page changes nothing; in server mode `onPageChange(p)` is called if given; otherwise the client page becomes `p` |
| Table.TableState.HandlePrev | src/app/components/shared/GenericTable.tsx:150 | `goToPage(effectivePage - 1)` |
| Table.TableState.HandleNext | src/app/components/shared/GenericTable.tsx:151 | `goToPage(effectivePage + 1)` |
| Table.TableState.HandleSizeChange | src/app/components/shared/GenericTable.tsx:153-162 | in server mode the size callback then `onPageChange(1)` are called, each if given; otherwise the size is set and the table returns to page 1 |
| Table.TableState.SettleQuery | src/app/components/shared/GenericTable.tsx:109-130 | a new debounced search text is reported to `onSearch` if given, and client paging returns to page 1 |
| Table.TableState.NumberItems | src/app/components/shared/GenericTable.tsx:164 | no page list without paging; otherwise the page list for the effective page and the page count, with a window of one |
| Table.TableState.EffectivePage | src/app/components/shared/GenericTable.tsx:132 | the parent's `page`, by default 1, in server mode; the table's own page otherwise |
| Table.TableState.EffectiveSize | src/app/components/shared/GenericTable.tsx:133 | the parent's `pageSize`, by default the first size option, in server mode; the table's own size otherwise |
| Table.TableState.TotalItems | src/app/components/shared/GenericTable.tsx:135-136 | the server's `total`, by default the number of rows given, in server mode; the number of searched rows otherwise |
| Table.TableState.PageCount | src/app/components/shared/GenericTable.tsx:137 | at least one page, and the least number of pages of the effective size that hold every item |
| Auth.OrElse | auth.ts:27-30 | `a ?? b`: `a` unless it is null or undefined |
| Auth.UserRoles | auth.ts:30 | the user's `roles`, else `[role]`, else `["USER"]`: never nullish |
| Auth.Authorize | auth.ts:19-34 | missing or empty credentials give `null`; a reply without an access token or a user gives `null`; otherwise the user record takes the id by precedence, the phone as email, the roles and both tokens |
| Auth.RefusalIgnoresReply | auth.ts:20 | missing credentials are refused whatever the backend would answer |
| Auth.UserIdPrecedence | auth.ts:27 | the id is the first present one of `id`, `_id` and `userId` |
| Auth.SignInExample | auth.ts:19-34 | a reply with `_id` and `roles: ["admin"]` signs in as `u1` with those roles and token `tok1` |
| Auth.Jwt | auth.ts:38-47 | on sign-in the four identity keys are copied from the user; on an update with a session, the session's keys override; every other token key is kept, and so are the identity keys when there is no user; no key appears that is not in the token, the user's identity or the merged session |
| Auth.SessionUser | auth.ts:49-53 | the session user keeps its fields, with `id` set to the token's `userId` or `""` and `roles` to the token's roles or `["USER"]`, and has no other key |
| Auth.Session | auth.ts:48-56 | the session gets the rebuilt user and the token's access token; no other key is added, removed or changed |
| Auth.SignInReachesSession | auth.ts:19-56 | after a sign-in, the session user has the backend's id (or `""`) and the roles `authorize` chose, and the session has the reply's access token |
| RouteGate.FirstSessionToken | src/middleware.ts:10-14 | the first non-empty cookie among the names, in order; none exactly when every named cookie is missing or empty |
| RouteGate.FirstCookieWins | src/middleware.ts:11 | the NextAuth v4 secure cookie takes precedence over the others |
| RouteGate.RemoveAll | src/middleware.ts:19 | removing a name keeps every other pair |
| RouteGate.GetAllRemoveAll | src/middleware.ts:19 | after removing a name it has no values, and every other name keeps its values in order |
| RouteGate.SetParamGetAll | src/middleware.ts:19 | after `searchParams.set`, the name holds exactly the one value, and every other name keeps its values in order |
| RouteGate.Middleware | src/middleware.ts:8-23 | the request passes exactly when a session cookie is set; otherwise it is redirected to `/signin` on the same origin, with `callbackUrl` set to the original path and every other parameter kept |
| RouteGate.OnlyPresenceMatters | src/middleware.ts:16 | the decision depends only on whether a session cookie is set, not on its value |
| RouteGate.Gate | src/middleware.ts:6 | paths outside `/admin` and `/admin/...` always pass; guarded paths pass exactly when a session cookie is set |
| LoginForm.Utf16Length | src/app/login/page.tsx:18-20 | a string's length in UTF-16 code units: at least its character count, and equal to it for characters of the Basic Multilingual Plane |
| LoginForm.Validate | src/app/login/page.tsx:15-21 | each of the three issues is reported exactly when its check fails: phone shorter than 10, phone not all digits, password shorter than 6 |
| LoginForm.AcceptedExactly | src/app/login/page.tsx:15-21 | the form is accepted exactly for at least ten ASCII digits and a password at least six units long |
| LoginForm.DefaultsRejected | src/app/login/page.tsx:31 | the blank defaults fail all three checks |
| LoginForm.ExampleAccepted | src/app/login/page.tsx:15-21 | `01711111111` with `secret1` passes |
| Geo.KeysOf | src/app/data/bd-geo.ts:44 | `Object.keys` lists the keys in insertion order |
| Geo.Get | src/app/data/bd-geo.ts:47 | a lookup finds a value exactly when the key is present, and the value stored with it |
| Geo.GetDistinct | src/app/data/bd-geo.ts:47-53 | with distinct keys, a lookup gives the value stored with that key |
| Geo.GetDivisions | src/app/data/bd-geo.ts:44 | the eight divisions, in table order |
| Geo.GetDistricts | src/app/data/bd-geo.ts:46-49 | nothing for a missing, empty or unknown division; otherwise the division's districts in table order |
| Geo.GetUpazilas | src/app/data/bd-geo.ts:51-54 | nothing when either name is missing or empty or the pair is unknown; otherwise the district's upazilas |
| Geo.KeysDistinct | src/app/data/bd-geo.ts:11-41 | division names do not repeat, and district names do not repeat within a division |
| Geo.DistrictEntriesNonEmpty | src/app/data/bd-geo.ts:11-41 | every district has a non-empty name and at least one upazila |
| Geo.EveryDistrictHasUpazilas | src/app/data/bd-geo.ts:46-54 | every district a division lists offers at least one upazila to pick |
| FormInputs.SelectedValues | src/components/forms/inputs.tsx:560 | the field value when it is an array, else nothing |
| FormInputs.Dedupe | src/components/forms/inputs.tsx:562 | `new Set(value)`: no duplicates and the same members |
| FormInputs.DedupeOrder | src/components/forms/inputs.tsx:562 | the `Set` yields its values in the order of their first occurrence in the array |
| FormInputs.Remove | src/components/forms/inputs.tsx:563 | `set.delete(v)`: every member but `v`, the rest in their order, no duplicates added, unchanged when `v` is absent |
| FormInputs.Toggle | src/components/forms/inputs.tsx:561-565 | the loop that builds the set and then adds or deletes `v` yields the specification `Toggled` |
| FormInputs.ToggleMembership | src/components/forms/inputs.tsx:563 | toggling flips whether `v` is selected, leaves every other value's membership alone, and never yields a duplicate |
| FormInputs.ToggleTwice | src/components/forms/inputs.tsx:561-565 | toggling a value twice selects the same values as before |
| FormInputs.ToggleTwiceRestoresOrder | src/components/forms/inputs.tsx:561-565 | on a duplicate-free selection, adding then removing a value restores it exactly, order included |
| FormInputs.DedupeDistinct | src/components/forms/inputs.tsx:562 | a duplicate-free array goes through the `Set` unchanged |
| FormInputs.RemoveLast | src/components/forms/inputs.tsx:563-564 | deleting the value just added at the end gives back what came before |
| FormInputs.SelectedLabels | src/components/forms/inputs.tsx:566 | the labels of the selected options, one for each, in option order |
| FormInputs.SelectedOptionsSpec | src/components/forms/inputs.tsx:566 | the selected options are, in option order and as often as they occur, exactly the options whose value is selected |
| FormInputs.SliderValue | src/components/forms/inputs.tsx:336 | an array value as is; otherwise a single thumb at the value, or at `min` when it is missing |
| FormInputs.FindOption | src/components/forms/inputs.tsx:490 | the first option carrying the field's value; none exactly when no option carries it |

## Left out

- Network I/O: each response is a parameter of the operation that would await it. This
  covers the login reply in `authorize`, the transport outcome of a mutation and the export
  rows. The axios instance, headers other than `Authorization`, timeouts and retries are not
  modelled.
- react-query internals: fetching, caching policy, `refetchOnWindowFocus` and
  the `useMemo` of the parameters are not modelled. `enabled` is modelled for the detail
  query only (`DetailQuery`). A cache entry is an opaque snapshot
  with a stale flag. `invalidateQueries` is modelled as marking matching entries stale.
- The confirm dialog and its host (`confirmWithModal`, `ensureConfirmHost`): the user's
  answer, or a failed prompt, is an input to `RunMutation`.
- `alert('No data to export')` and the XLSX workbook: `ExportAll` returns which of the two
  happens and with what file name, sheet and rows. It does not build the sheet.
- `console.info` in `create`: it has no effect on the result.
- Crud.RunMutation: `remove`'s `onError` does nothing on any path, cancel or not. The model
  states only that the cancel sentinel is recognised.
- CrudQuery.ParseSerialize: percent-encoding is left abstract. The serialiser takes an
  escaping function, and the round trip is proved for any escaping that its inverse undoes
  and that never emits `&` or `=`.
- JavaScript numbers are modelled as unbounded integers. Fractions, `NaN` and `Infinity`
  are left out of `String(n)`, the page arithmetic and the slider. So are the limits of
  double precision: `String(n)` switching to exponent form at 1e21 and beyond (`"1e+21"`),
  and integers above 2^53 that a JavaScript number cannot hold exactly.
- Table.TableState.HandleSizeChange: takes the already converted size as a natural number.
  `Number(val)` of a non-numeric string (`NaN`) and of negative or fractional sizes is not
  modelled.
- `Date.prototype.toISOString` is left opaque: a date carries its ISO string.
- Table.CellText: `Date.prototype.toString` of a date cell is left opaque (it depends on
  the time zone): a date cell carries its text. Objects other than arrays and dates are
  all plain objects (`[object Object]`); a custom `toString` is not modelled.
- `String()` of an object or array nested in a filter is not modelled. Filter values are
  scalars or arrays of scalars.
- Table.ToLower: lower-cases ASCII letters only. Unicode case mapping beyond ASCII is not
  modelled.
- Table.TableState.constructor: a missing `pageSizeOptions[0]` is modelled as size 0. This
  behaves the same as `undefined` in both `effectiveSize || 1` and `slice`.
- Table.TableState.SettleQuery: models a change of the settled search text. The effects that
  run on mount are not modelled: `onSearch('')` and a no-op page reset. The 250 ms debounce
  (`useDebouncedValue`) is not modelled. The settled text is the input.
- Table.TableState.Rows: has no contract of its own. The client slice it returns is
  specified by `ClientRowsWindow` over `ClientRows`.
- PageItems.SortedElements: `Array.prototype.sort` with a numeric comparator is modelled by
  an extract-the-minimum loop over the page set. The result is the same strictly increasing
  sequence.
- Property lookups on JavaScript objects do not walk the prototype chain. A division named
  `toString` or `__proto__` in `getDistricts`/`getUpazilas` is not modelled.
- `hasOwnProperty` in `toFormData`: payloads are plain records without inherited keys.
- LoginForm.Validate: lists the issues `safeParse` reports. The resolver shows only each
  field's first issue in the form, and the submit handler and `signIn` call are not modelled.
- RouteGate.Gate: the `/admin/:path*` matcher is modelled as `/admin` and every path under
  `/admin/`. Other path-to-regexp features are not modelled: trailing slashes, case
  options and the `_next` data routes.
- RouteGate.Middleware: cookie values are compared with `""` only. Token signatures and
  expiry are not checked by this code.
- `authorize` when the login request throws: the rejection propagates to NextAuth and is
  not modelled.
- The navigation bars, layouts, providers, pages and configuration files are not part of
  this model. They render or configure the core but do not compute anything it depends on.
