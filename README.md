# PocketLinks core, modelled in Dafny

PocketLinks is a Next.js bookmark manager: users sign in, group links into
categories and page through their links. This project models four pieces of
its core and proves properties about them.

- **`usePagination`**. This client hook moves between pages of a listing.
  - The three guards: `goToNextPage`, `goToPrevPage` and `goToPage`.
  - `navigateToPage`, which rewrites the `page` and `cursor` query parameters of the current URL and pushes the result to the router.
  - The hook's `loading` flag and the error toast.
- **`/api/category`**. This route handler gates on the session's email, then branches on the method:
  - GET lists the caller's categories by name.
  - POST validates and trims the name, refuses a case-insensitive duplicate, creates the caller's user record if missing, then creates the category.
  - DELETE removes only an owned category without links.
  - Any other method gets 405.
- **`useCategories` and `useCategoriesSimple`**. Both client hooks keep the category list and the loading flag; `useCategories` also keeps an error. Each updates them from every request's outcome.
- **`createLinkValidationSchema`**. This Yup schema holds the rules for the title, URL and description fields of the create-link form.

Files:

- `wrappers.dfy`: `Option` and `Result`.
- `notices.dfy`: toasts, reduced to a status and a description.
- `text.dfy`: the string operations the core depends on.
  - JavaScript `trim()`.
  - The database's case-insensitive comparison and name ordering.
  - How JavaScript renders an integer as a decimal string, and how that string reads back.
- `query_params.dfy`: `URLSearchParams` as a sequence of key/value pairs, with `get`, `set` and `delete`.
- `pagination.dfy`: `usePagination`. The hook's state is a class. The query rewrite is a function that the class's method is proved against.
- `category_api.dfy`: the handler.
  - `Handler` is a function from the store before to the response and the store after.
  - The class `CategoryStore` holds the two tables. Its method `Handle` is proved equal to `Handler` and to keep the store invariant `Consistent`.
- `categories_hook.dfy`: the two hooks as classes.
- `link_schema.dfy`: a small interpreter for Yup string rules, and the concrete create-link schema.

Outside calls become parameters:

- The result of `router.push`.
- The result of `fetch` and `response.json()`.
- Which Prisma call throws, if any (`fault`). A throw becomes the handler's 500.
- Yup's URL pattern (`isUrl`).

Two behaviours of the pagination hook that the model keeps as the code has them:

- `goToNextPage` writes `page` and `cursor` only when `nextCursor` is truthy. Without a cursor it pushes the query unchanged.
- `goToPrevPage` writes `max(1, currentPage - 1)` and deletes `cursor`.

Some filters are written twice on purpose, because they model different code:

- `CategoryApi.RemoveId` is the database's `delete where id`, over the category table.
- `CategoriesHook.WithoutId` is the client's `prev.filter(...)`, over the client's list, whose rows have another type.
- `QueryParams.Delete` is `URLSearchParams.delete`. `QueryParams.Others` is the filter the query lemmas are stated with. `QueryParams.DeleteIsOthers` proves the two agree.

## Model

| member | source | states |
|---|---|---|
| Text.Trim | src/pages/api/category/index.ts:53 | `trim()` returns the slice of its input between the leading and the trailing runs of ECMAScript white space. Both dropped runs are white space. The result neither starts nor ends with white space. |
| Text.TrimStart | src/pages/api/category/index.ts:53 | Drops exactly the leading white space. The result is a suffix of the input and starts with a non-space character. |
| Text.TrimEnd | src/pages/api/category/index.ts:53 | Drops exactly the trailing white space. The result is a prefix of the input and ends with a non-space character. |
| Text.TrimEmptyIffAllSpace | src/pages/api/category/index.ts:53-57 | A name trims to the empty string exactly when every character is white space. This is the "cannot be empty" case. |
| Text.TrimIdempotent | src/hooks/useCategories.ts:63 | Trimming twice gives the same result as trimming once. The client trims, and the server trims again. |
| Text.LowerChar | src/pages/api/category/index.ts:69-72 | The result is never an ASCII capital letter. A capital maps to its lower-case letter, and every other character is left alone. |
| Text.SameIgnoringCase | src/pages/api/category/index.ts:69-72 | Definition of `mode: "insensitive"` equality: the names fold to the same string. `SameIgnoringCaseIff` characterises it. |
| Text.FoldIdempotent | src/pages/api/category/index.ts:69-72 | Folding a folded name changes nothing, so no capital letter is left after one fold. |
| Text.SameIgnoringCaseIff | src/pages/api/category/index.ts:69-72 | Two names match case-insensitively exactly when they have the same length and, position by position, are the same character or the two cases of one ASCII letter. |
| Text.NameLe | src/pages/api/category/index.ts:33-35 | Definition of the name order for `orderBy: name asc`: lexicographic by code point, with a proper prefix first. The lemmas below prove it is a total order. |
| Text.NameLeTotal | src/pages/api/category/index.ts:33-35 | The name order used for `orderBy: name asc` is total. |
| Text.NameLeTransitive | src/pages/api/category/index.ts:33-35 | The name order is transitive. |
| Text.NameLeAntisymmetric | src/pages/api/category/index.ts:33-35 | The name order is antisymmetric, so sorting by it is well defined. |
| Text.NatToStringRoundTrip | src/hooks/usePagination.ts:43 | The decimal digits of a natural number read back as that number. |
| Text.IntToString | src/hooks/usePagination.ts:43-51 | Definition of `Number.prototype.toString` on an integer: optional minus sign, then decimal digits. `IntToStringRoundTrip` and `IntToStringInjective` state its properties. |
| Text.IntToStringRoundTrip | src/hooks/usePagination.ts:43-51 | The `toString()` of a page number reads back as that page number, for any sign. |
| Text.IntToStringInjective | src/hooks/usePagination.ts:43-51 | Different page numbers render as different strings. |
| QueryParams.Get | src/hooks/usePagination.ts:39 | `get(k)` finds a value exactly when some pair has key `k`. The value found is that of the first pair with key `k`. |
| QueryParams.Delete | src/hooks/usePagination.ts:49 | `delete(k)` keeps exactly the pairs whose key is not `k`. |
| QueryParams.Set | src/hooks/usePagination.ts:42-51 | Definition of `URLSearchParams.set`: the first pair with the key takes the value and later pairs with that key are removed; with no such pair, the new pair goes at the end. `SetLeavesOnePair` and `SetKeepsOthers` state its effect. |
| QueryParams.DeleteIsOthers | src/hooks/usePagination.ts:49 | `delete(k)` is exactly the order-keeping filter that drops the one key `k`. |
| QueryParams.OthersAppend | src/hooks/usePagination.ts:39-53 | Filtering out a set of keys distributes over concatenation. |
| QueryParams.OnlyAppend | src/hooks/usePagination.ts:39-53 | Selecting one key distributes over concatenation. |
| QueryParams.DeleteRemovesKey | src/hooks/usePagination.ts:49 | After `delete(k)` no pair has key `k`, and `get(k)` finds nothing. |
| QueryParams.DeleteKeepsOthers | src/hooks/usePagination.ts:49 | `delete(k)` keeps every pair under other keys, in their order. |
| QueryParams.OnlyOfDeleteOther | src/hooks/usePagination.ts:52 | Deleting one key does not touch the pairs under another key. |
| QueryParams.SetLeavesOnePair | src/hooks/usePagination.ts:42-43 | After `set(k, v)` exactly one pair has key `k`, it holds `v`, and `get(k)` returns `v`. |
| QueryParams.SetKeepsOthers | src/hooks/usePagination.ts:42-43 | `set(k, v)` keeps every pair under other keys, in their order. |
| QueryParams.GetOthers | src/hooks/usePagination.ts:39-53 | Reading a key outside a filtered set gives the same value with or without the filter. |
| Pagination.NextPageCall | src/hooks/usePagination.ts:72-76 | `goToNextPage` navigates exactly when `hasNextPage` is set. It passes `nextCursor` only when that is truthy, and then targets `currentPage + 1`. Otherwise it targets no page. |
| Pagination.PrevPageCall | src/hooks/usePagination.ts:78-82 | `goToPrevPage` navigates exactly when `hasPrevPage` is set. It targets a page of at least 1, which is `currentPage - 1` whenever `currentPage >= 2`. |
| Pagination.GoToPageCall | src/hooks/usePagination.ts:84-91 | `goToPage(n)` navigates exactly when `1 <= n <= totalPages`, and then targets page `n`. |
| Pagination.NavigationQuery | src/hooks/usePagination.ts:39-53 | Definition of the query `navigateToPage` builds for each direction. `NavigationQueryEffect` states what it does. |
| Pagination.Resolve | src/hooks/usePagination.ts:55-56 | Definition of where a push of `${basePath}?${query}` leads: the base path, or the current path when the base path is empty, with the new query. |
| Pagination.NavigationQueryEffect | src/hooks/usePagination.ts:39-53 | Every other query parameter is kept, in its order. A navigation without a target leaves the query unchanged. With a target, `page` holds exactly one value, and that value reads back as the target. `cursor` holds the given cursor when moving forward and is gone otherwise. |
| Pagination.PaginationHook.constructor | src/hooks/usePagination.ts:21-26 | `data` starts as the initial data, and the hook is not loading. |
| Pagination.PaginationHook.NavigateToPage | src/hooks/usePagination.ts:30-70 | The pushed URL is the base path, or the current path when there is none, with the rewritten query. The location changes only when the push succeeds. A failed push adds one error toast. `loading` is raised and then lowered. Items and pagination are unchanged. |
| Pagination.PaginationHook.Navigate | src/hooks/usePagination.ts:72-91 | Runs the navigation a guard allows. With no navigation, nothing changes. |
| Pagination.PaginationHook.GoToNextPage | src/hooks/usePagination.ts:72-76 | Navigates exactly when `hasNextPage` is set; otherwise the state is unchanged. When it navigates, a successful push leads to the next-page query and a failed one keeps the location and adds the error toast. Loading is raised then lowered, and items and pagination are unchanged. |
| Pagination.PaginationHook.GoToPrevPage | src/hooks/usePagination.ts:78-82 | Navigates exactly when `hasPrevPage` is set; otherwise the state is unchanged. When it navigates, a successful push leads to the previous-page query and a failed one keeps the location and adds the error toast. Loading is raised then lowered, and items and pagination are unchanged. |
| Pagination.PaginationHook.GoToPage | src/hooks/usePagination.ts:84-91 | Navigates exactly when `1 <= n <= totalPages`; otherwise the state is unchanged. When it navigates, a successful push leads to the page-`n` query and a failed one keeps the location and adds the error toast. Loading is raised then lowered, and items and pagination are unchanged. |
| Pagination.PaginationHook.SetData | src/hooks/usePagination.ts:93-101 | `setData` replaces the items and pagination and touches nothing else. |
| Pagination.GoToPageQuery | src/hooks/usePagination.ts:50-52 | A jump to `n` writes `page=n`, drops `cursor` and keeps every other parameter. |
| Pagination.PrevPageQuery | src/hooks/usePagination.ts:44-49 | Going back writes `page=max(1, currentPage-1)`, drops `cursor` and keeps every other parameter. |
| Pagination.NextPageQuery | src/hooks/usePagination.ts:41-43 | With a cursor, going forward writes `page=currentPage+1` and that cursor and keeps every other parameter. Without a cursor the query is unchanged. |
| CategoryApi.ValidateName | src/pages/api/category/index.ts:46-63 | A name is accepted exactly when it is a string that is not all white space and whose trimmed form has at most 50 characters. The accepted name is the trimmed one. Each refusal carries the source's message: missing or not a string, empty after trimming, too long. |
| CategoryApi.ValidId | src/pages/api/category/index.ts:122-126 | Definition of the DELETE id check: the id is present, a single string, and not empty. |
| CategoryApi.UserByEmail | src/pages/api/category/index.ts:84-86 | Finds a stored user with that email, or reports that none exists. |
| CategoryApi.OwnedCategories | src/pages/api/category/index.ts:18-23 | Keeps exactly the categories whose user has the caller's email. |
| CategoryApi.InsertByName | src/pages/api/category/index.ts:33-35 | Inserting into a list sorted by name keeps it sorted and adds exactly that element. |
| CategoryApi.SortByName | src/pages/api/category/index.ts:33-35 | The result is sorted by name and is a permutation of the input. |
| CategoryApi.ListFor | src/pages/api/category/index.ts:18-38 | GET's list is sorted by name and is a permutation of the caller's categories. |
| CategoryApi.FindOwned | src/pages/api/category/index.ts:130-144 | Finds a stored category with that id owned by the caller, or reports that none exists. |
| CategoryApi.HasDuplicate | src/pages/api/category/index.ts:67-79 | Definition of the duplicate check: some category of the caller has a name equal to the new one ignoring case. |
| CategoryApi.HasLinksMessage | src/pages/api/category/index.ts:151-154 | Definition of the refusal message, which includes the decimal link count. |
| CategoryApi.RemoveId | src/pages/api/category/index.ts:158-162 | Keeps exactly the rows whose id differs from the one deleted. |
| CategoryApi.FreshId | src/pages/api/category/index.ts:89-101 | A generated id is never one already in use. |
| CategoryApi.NewUser | src/pages/api/category/index.ts:88-94 | Definition of the record `user.create` makes: a fresh id, the caller's email, and the session's name only when it is truthy (`name || null`). |
| CategoryApi.GetOrCreateUser | src/pages/api/category/index.ts:84-95 | An existing user with the email is used as it is. Otherwise a user with a fresh id and that email is appended. |
| CategoryApi.GetRoute | src/pages/api/category/index.ts:16-43 | Definition of GET: 500 when the query throws, otherwise 200 with `ListFor`. `GetListsOwn` states what is listed. |
| CategoryApi.CreateRoute | src/pages/api/category/index.ts:83-118 | The answer is 201 or 500. Categories change only on 201. Users change at most by one appended record. |
| CategoryApi.PostRoute | src/pages/api/category/index.ts:45-119 | The answer is 201, 400, 409 or 500. Categories change only on 201. Users change only on 201 or 500, by one appended record. |
| CategoryApi.DeleteRoute | src/pages/api/category/index.ts:121-169 | The answer is 200, 400, 404 or 500. Users never change. Nothing changes unless the answer is 200. |
| CategoryApi.Handler | src/pages/api/category/index.ts:6-172 | Without an authenticated caller the answer is 401 and nothing changes. The status is one of the source's. Categories change only on 200 or 201. Users change only by one appended record, on 201 or 500. A method other than GET, POST or DELETE gets 405 and changes nothing. |
| CategoryApi.RemoveIdKeepsUniqueIds | src/pages/api/category/index.ts:158-162 | Deleting keeps category ids unique. |
| CategoryApi.RemoveIdExactlyOne | src/pages/api/category/index.ts:158-162 | With unique ids, deleting by the id of row `k` removes that row and no other. |
| CategoryApi.RemoveIdAbsent | src/pages/api/category/index.ts:158-162 | Deleting an id that no row has changes nothing. |
| CategoryApi.AppendUserKeepsConsistent | src/pages/api/category/index.ts:88-95 | Appending a user with a fresh id and a new email keeps the store consistent. |
| CategoryApi.AppendCategoryKeepsConsistent | src/pages/api/category/index.ts:98-112 | Appending a category keeps the store consistent when its id is fresh, its user exists, and the owner has no case-insensitive duplicate name. |
| CategoryApi.HandlerKeepsConsistent | src/pages/api/category/index.ts:6-172 | Every request, under any fault, keeps the store consistent. Consistent means: unique user ids and emails, unique category ids, every category names a stored user, and no user has two names that match case-insensitively. |
| CategoryApi.PostKeepsConsistent | src/pages/api/category/index.ts:45-119 | Every POST keeps the store consistent. |
| CategoryApi.DeleteKeepsConsistent | src/pages/api/category/index.ts:121-169 | Every DELETE keeps the store consistent. |
| CategoryApi.FreshUserOwnsNothing | src/pages/api/category/index.ts:88-95 | In a consistent store, a user id not yet in use owns no category. |
| CategoryApi.CreateKeepsConsistent | src/pages/api/category/index.ts:83-118 | Creation after a passed duplicate check keeps the store consistent. |
| CategoryApi.PostCreatesOne | src/pages/api/category/index.ts:45-114 | In any store, a valid, non-duplicate POST answers 201 with the new category. Exactly one category is appended: trimmed name, fresh id, no links, owned by the caller. Earlier rows are unchanged. The caller's user record is created only when it was missing. |
| CategoryApi.PostDuplicateRefused | src/pages/api/category/index.ts:66-81 | A POST whose trimmed name matches one of the caller's categories case-insensitively answers 409 and changes nothing. |
| CategoryApi.PostInvalidNameRefused | src/pages/api/category/index.ts:46-63 | A POST whose name is refused (missing, not a string, all white space or too long) answers 400 with `ValidateName`'s message and changes nothing, whatever fault is pending. |
| CategoryApi.DeleteOwned | src/pages/api/category/index.ts:121-164 | In any store whose category ids are unique, deleting the caller's own category with no links answers 200 and removes exactly that row. With links it answers 400 with the link count in the message and changes nothing. |
| CategoryApi.DeleteNotOwned | src/pages/api/category/index.ts:130-148 | Deleting an id that is missing or that another user owns answers 404 and changes nothing. |
| CategoryApi.DeleteInvalidIdRefused | src/pages/api/category/index.ts:122-126 | A DELETE whose id is missing, not a single string, or empty answers 400 "Category ID is required" and changes nothing. |
| CategoryApi.ViewsOfOwned | src/pages/api/category/index.ts:18-32 | A view is listed exactly when it is the view of one of the caller's categories. |
| CategoryApi.GetListsOwn | src/pages/api/category/index.ts:16-38 | GET answers 200 with a list sorted by name that holds the caller's categories and nobody else's. The store is unchanged. |
| CategoryApi.CategoryStore.constructor | src/pages/api/category/index.ts:3 | An empty store is consistent. |
| CategoryApi.CategoryStore.Handle | src/pages/api/category/index.ts:6-172 | The method's response and new tables equal `Handler`'s, and the store stays consistent. |
| CategoryApi.CategoryStore.List | src/pages/api/category/index.ts:16-43 | GET's response, computed without changing the store. |
| CategoryApi.CategoryStore.Post | src/pages/api/category/index.ts:45-119 | POST's response and new tables equal `PostRoute`'s, and the store stays consistent. |
| CategoryApi.CategoryStore.Create | src/pages/api/category/index.ts:83-118 | Get-or-create of the user, then the insert. The response and new tables equal `CreateRoute`'s. |
| CategoryApi.CategoryStore.Remove | src/pages/api/category/index.ts:121-169 | DELETE's response and new tables equal `DeleteRoute`'s, and the store stays consistent. |
| CategoriesHook.WithoutId | src/hooks/useCategories.ts:109 | The filter keeps exactly the entries with a different id. |
| CategoriesHook.WithoutIdAppend | src/hooks/useCategories.ts:109 | The filter distributes over concatenation, so kept entries stay in order. |
| CategoriesHook.WithoutIdAbsent | src/hooks/useCategories.ts:109 | Filtering out an id that no entry has changes nothing. |
| CategoriesHook.WithoutIdIdempotent | src/hooks/useCategories.ts:109 | Deleting the same id twice gives the same list as deleting it once. |
| CategoriesHook.CreateThenDeleteRestores | src/hooks/useCategories.ts:69-109 | Appending a category with a new id and then deleting that id restores the list. |
| CategoriesHook.FetchErrorMessage | src/hooks/useCategories.ts:35-42 | Definition of the error stored by a failed fetch: the thrown `Error`'s message, "Failed to fetch categories" for a response that is not ok, or "Unknown error" for a non-`Error` value. |
| CategoriesHook.ReplyToast | src/hooks/useCategories.ts:68-95 | Definition of the toast a create or delete raises: success, or an error with the server's message when it is truthy and the fixed fallback otherwise. |
| CategoriesHook.ServerStoresSentName | src/hooks/useCategories.ts:63 | When the server accepts the trimmed name the client sent, it stores exactly that name. For such names the server's verdict on the raw name is the same. |
| CategoriesHook.TrimmedNameNeverBlank | src/hooks/useCategories.ts:63 | Because the client trims, the server never answers it "Category name cannot be empty". An all-space name arrives as "" and is refused as "Category name is required", although the raw all-space name gets "cannot be empty". |
| CategoriesHook.CategoriesState.constructor | src/hooks/useCategories.ts:22-25 | The hook starts empty, not loading, with no error. |
| CategoriesHook.CategoriesState.FetchCategories | src/hooks/useCategories.ts:28-54 | Loading is raised and then lowered, and the error is cleared. A successful fetch replaces the list. A failed one keeps the list, stores the failure's message (or "Unknown error") and adds an error toast. |
| CategoriesHook.CategoriesState.CreateCategory | src/hooks/useCategories.ts:56-98 | Sends the trimmed name. Returns true exactly on an ok reply, and then appends the created category at the end. The toast is success, the server's truthy message, or the fixed fallback. The flags are untouched. |
| CategoriesHook.CategoriesState.DeleteCategory | src/hooks/useCategories.ts:100-138 | Returns true exactly on an ok reply, and then removes every entry with that id, keeping the rest in order. The toast is as for create. The flags are untouched. |
| CategoriesHook.SimpleCategoriesState.constructor | src/hooks/useCategories.ts:158-160 | Starts empty and not loading. |
| CategoriesHook.SimpleCategoriesState.FetchCategories | src/hooks/useCategories.ts:162-176 | Only a successful fetch replaces the list. Loading is raised and then lowered in every case. |
| LinkSchema.Passes | src/utils/validationSchemas.ts:4-11 | Definition of one Yup test: `required` fails on a missing or empty value; `min` and `max` skip a missing value and count the raw characters; `url` skips a missing or empty value. |
| LinkSchema.FieldErrors | src/utils/validationSchemas.ts:4-11 | A field has no errors exactly when it passes every one of its tests. It never has more errors than tests. |
| LinkSchema.Errors | src/utils/validationSchemas.ts:3-12 | An object schema reports nothing exactly when every field it names reports nothing. |
| LinkSchema.OnlySchemaFieldsMatter | src/utils/validationSchemas.ts:3-12 | Setting or removing a field the schema does not name never changes the errors. |
| LinkSchema.TitleRulesAccept | src/utils/validationSchemas.ts:4-7 | A title is accepted exactly when it is present and has 2 to 50 characters. |
| LinkSchema.UrlRulesAccept | src/utils/validationSchemas.ts:8 | A URL is accepted exactly when it is present, non-empty and of URL format. |
| LinkSchema.DescriptionRulesAccept | src/utils/validationSchemas.ts:9-11 | A description is accepted exactly when it is present, non-empty and at most 200 characters. |
| LinkSchema.CreateLinkSchemaAccepts | src/utils/validationSchemas.ts:3-12 | The create-link form is valid exactly when all three field conditions hold together. |
| LinkSchema.CategoryIdUnconstrained | src/utils/validationSchemas.ts:3-12 | The form's `categoryId` never affects validity. |
| LinkSchema.ShortTitleMessages | src/utils/validationSchemas.ts:4-7 | A one-character title fails only the minimum-length test. An empty title fails both the minimum-length and the required test. A missing title fails only the required test. |

## Left out

- I/O. These outside calls are parameters of the model:
  - `fetch` and JSON parsing.
  - `router.push`.
  - `window.location`, modelled as a path plus its query pairs.
  - Prisma calls, modelled as tables of rows plus an optional failing step.
  - The session lookup, modelled as an optional session.
- Concurrency and React rendering:
  - Requests never interleave in the model, so two concurrent POSTs of the same name cannot both pass the duplicate check.
  - `useCallback` dependencies and stale closures are not modelled.
  - The mount effect that starts the first fetch is not modelled. The fetch method models what it does.
- Toast titles (including the `${error}` text), durations and `console.error` logging: only each toast's status and description are kept.
- Character counts are code points, where JavaScript counts UTF-16 code units. Names with characters outside the Basic Multilingual Plane therefore count differently.
- Case-insensitive matching folds ASCII letters only. The database's full Unicode folding and its collation for `orderBy` are replaced by code-point order.
- Identifiers the database generates are modelled by `FreshId`, a string no existing row uses. The real identifier format is not modelled.
- The links table is not modelled. A category carries its link count directly.
- Page numbers are integers. `NaN`, fractional and exponent-notation values, and the `toString` of numbers beyond 2^53, are not modelled.
- A request body that is absent altogether is not modelled: reading `name` from it throws outside the `try`. The model starts from the body's `name` field.
- The client inserts the category id into the DELETE URL without escaping. The model passes the id through unchanged.
- Yup's URL pattern is the parameter `isUrl`, and Yup's type coercion of non-string values is not modelled. The model reports every failed test, in declaration order. Formik's choice of one message per field to display is not modelled.
- The server-side computation of the page window (`currentPage`, `totalPages` and the cursors) lives in the listing routes, which are not part of this model. The hook takes that record as given.
