# board-yet-ui, modelled in Dafny

A model of the logic of a kanban web front end. Users sign up into an organization, which is
addressed by a subdomain. They own boards, which hold columns, which hold tasks. Tasks are
dragged between columns and columns are reordered. Columns are added through a modal, boards
are paged four at a time, and names are edited inline. The front end also has log-in, sign-up,
password-reset, forgotten-password and invitation pages.

The model follows the source file by file. Each Dafny module stands for one source file.
Pure helpers (the host name parsing of tenancy, the initials of a name, the column and task
arithmetic, answer decoding, form validation) become functions, each with lemmas about it.
The hooks and components that hold React state become classes with that state as fields.
Their handlers become methods, with `modifies` clauses and post-states stated in full.
An HTTP request is never made. Each handler takes the outcome of its call as a parameter:
`ApiUtils.Call` is a response with `success`, `data` and `error`, or a thrown error. The
handler returns the callback or notice the component would receive. The browser's location,
storage and timers are parameters too.

Shared modules:
- `Wrappers` holds Option, with `GetOr` for `??`. The API helpers have their own result type, `ApiUtils.Handled`.
- `Text` holds trimming, splitting and ASCII case.
- `Seqs` holds sequence helpers.
- `BoardTypes` holds the entities and JavaScript's `||` defaults.
- `Outcomes` holds the reduced results of the task context.
- `Forms` holds the shared validation rules and the error object.

## Model

| member | source | states |
|---|---|---|
| Text.Trim | app/lib/stringUtils.ts:2 | `trim()`: the result is no longer than the text and neither starts nor ends with white space |
| Text.TrimIsMiddle | app/lib/stringUtils.ts:2 | what `trim()` keeps is a contiguous middle of the text with only white space on either side |
| Text.TrimEmptyIffAllWhite | app/lib/stringUtils.ts:2 | the trimmed text is empty exactly when the text is all white space (both directions) |
| Text.TrimIgnoresPadding | app/lib/stringUtils.ts:2 | white space added around a text does not change its trim |
| Text.TrimOfTrimmed | app/lib/stringUtils.ts:2 | a text with non-white ends is its own trim |
| Text.TrimIdempotent | app/lib/stringUtils.ts:2 | trimming twice is trimming once |
| Text.Split | app/lib/stringUtils.ts:3 | `split(sep)` always yields at least one part |
| Text.JoinSplit | app/lib/tenancy.ts:66-68 | joining the parts of a split with the same separator gives the text back |
| Text.SplitPartsAvoidSeparator | app/lib/tenancy.ts:32 | no part of a split contains the separator |
| Text.SplitWithoutMatch | app/lib/tenancy.ts:32 | a text without the separator splits into itself alone |
| Text.SplitWithMatch | app/lib/tenancy.ts:66-67 | a text with the separator splits into at least two parts, the last one after the last separator taken |
| Text.SplitConcat | app/lib/stringUtils.ts:3 | splitting on one character splits both sides of an occurrence independently |
| Text.Take | app/lib/stringUtils.ts:9 | `substring(0, n)`: the first `min(n, length)` characters |
| Text.ToUpper | app/lib/stringUtils.ts:6 | `toUpperCase()` character by character, same length |
| Text.ToLower | app/lib/tenancy.ts:122 | `toLowerCase()` character by character, same length |
| Text.NatToDecimalShape | app/lib/taskUtils.ts:10 | the decimal rendering of a number is a non-empty run of digits without a leading zero |
| Text.IntToDecimalRoundTrip | app/lib/taskUtils.ts:10 | `card.id.toString()` can be read back: parsing the rendering gives the integer |
| Text.IntToDecimalInjective | app/lib/taskUtils.ts:10 | two cards with different ids get different task ids |
| Seqs.Filter | app/lib/taskUtils.ts:28 | `filter(p)`: every kept element satisfies p and comes from the input; every input element satisfying p is kept |
| Seqs.FilterAppend | app/lib/taskUtils.ts:88-89 | filtering a concatenation is concatenating the filtered parts |
| Seqs.FilterPartition | app/lib/taskUtils.ts:88-89 | filtering by a predicate and by its negation together keep every element exactly once (multiset) |
| Seqs.FilterMultiplicity | app/lib/taskUtils.ts:28 | an element passing the filter occurs as often as in the input, any other not at all |
| Seqs.Map | app/lib/taskUtils.ts:8-16 | `map(f)`: same length, each element the image of the one at its position |
| Seqs.ConcatMapMembers | app/lib/taskUtils.ts:6-18 | an element is in the concatenation of the images exactly when it is in the image of some element |
| Seqs.SortByKey | app/lib/taskUtils.ts:29 | a sort by key difference: sorted by the key and a permutation of the input |
| Seqs.SortByComparator | app/lib/taskUtils.ts:20-23 | a sort with an arbitrary comparator returns a permutation of the input |
| BoardTypes.OrElse | app/lib/taskUtils.ts:11-12 | `x \|\| fallback` on strings: the text when non-empty, the fallback otherwise |
| BoardTypes.OrderOr | app/lib/taskUtils.ts:14 | `order \|\| fallback`: the order unless it is undefined or 0 |
| ApiUtils.HandleApiResponse | app/api/utils.ts:3-16 | the callback runs exactly when the response succeeded with data; otherwise a failure with the response's error or the given message |
| ApiUtils.SuccessWithoutDataFails | app/api/utils.ts:8-15 | a response without data fails even when it reports success, with its own error text or, when that is empty, the caller's message |
| ApiUtils.HandleApiError | app/api/utils.ts:18-23 | always a failure, carrying an Error's message or the default |
| StringUtils.Words | app/lib/stringUtils.ts:3 | the words are non-empty and contain no space |
| StringUtils.FormatIconText | app/lib/stringUtils.ts:1-10 | two or more words give the upper-cased first letters of the first two; otherwise the first two characters of the trimmed text upper-cased; never more than two characters |
| StringUtils.PaddingIrrelevant | app/lib/stringUtils.ts:2 | white space around the text does not change its initials |
| StringUtils.WordsAroundSpace | app/lib/stringUtils.ts:3 | the words of `x + " " + y` are those of x followed by those of y |
| StringUtils.RepeatedSpaceIrrelevant | app/lib/stringUtils.ts:3 | doubling the space between two parts does not change the initials |
| StringUtils.OneWordInitials | app/lib/stringUtils.ts:9 | a text without spaces gets its first two characters |
| StringUtils.TwoWordInitials | app/lib/stringUtils.ts:5-7 | two words joined by a space get their first letters |
| StringUtils.TabIsNoSeparator | app/lib/stringUtils.ts:3 | "ab\tcd" is one word: its initials are "AB" |
| StringUtils.SpaceSeparates | app/lib/stringUtils.ts:5-7 | "ab cd" is two words: its initials are "AC" |
| StringUtils.BlankHasNoInitials | app/lib/stringUtils.ts:2-9 | blank text has empty initials |
| Pagination.ResolveIndex | app/hooks/usePagination.ts:15 | a `slice` bound: negative counts from the end, then clamped to the length |
| Pagination.Slice | app/hooks/usePagination.ts:15 | `slice(start, end)` is the items between the resolved bounds, empty when they cross |
| Pagination.TotalPages | app/hooks/usePagination.ts:12 | `Math.ceil(count / itemsPerPage)`: the fewest pages that hold all items |
| Pagination.StartFacts | app/hooks/usePagination.ts:13-14 | page numbers from 1 start at a non-negative index, and each page ends where the next begins |
| Pagination.PageItemsShape | app/hooks/usePagination.ts:13-15 | a page numbered from 1 holds the items from its start index on, at most one page of them, none past the end |
| Pagination.EmptyBeyondRange | app/hooks/usePagination.ts:12-15 | pages after the last one, and page 0, are empty |
| Pagination.NegativePageCountsFromEnd | app/hooks/usePagination.ts:15-28 | the page number is not clamped: page -1 of ten items, four a page, holds items 3 to 6 |
| Pagination.PagesArePrefix | app/hooks/usePagination.ts:13-15 | pages 1 to n together are the items before the start of page n + 1 |
| Pagination.PagesCoverItems | app/hooks/usePagination.ts:12-15 | pages 1 to totalPages together are exactly the items, in order |
| Pagination.Paginator.constructor | app/hooks/usePagination.ts:9 | the current page starts at 1 |
| Pagination.Paginator.HandlePageChange | app/hooks/usePagination.ts:26-28 | any page number is stored as given |
| Pagination.Paginator.ResetToFirstPage | app/hooks/usePagination.ts:30-32 | the current page becomes 1 |
| Tenancy.TenantFromHostname | app/lib/tenancy.ts:28-46 | no window gives no tenant; a tenant is the host's first label, a dot-free prefix followed by '.'; it is never "localhost", and "www" only on a localhost host |
| Tenancy.SingleLabelHasNoTenant | app/lib/tenancy.ts:35-45 | a host without a dot has no tenant |
| Tenancy.LocalTenant | app/lib/tenancy.ts:34-37 | `<sub>.localhost` has the tenant `<sub>` unless it is "localhost" |
| Tenancy.ProductionTenant | app/lib/tenancy.ts:41-43 | off localhost, `a.b.c` has the tenant `a` unless it is "www" |
| Tenancy.TwoLabelsNoTenant | app/lib/tenancy.ts:41-45 | off localhost, a host of two labels has no tenant |
| Tenancy.ThreeLabelTenant | app/lib/tenancy.ts:34-43 | on any host of three labels the first label is the tenant, unless it is "www" or "localhost" |
| Tenancy.LocalhostFirstLabelNoTenant | app/lib/tenancy.ts:34-38 | a host whose first label is "localhost" has no tenant |
| Tenancy.NoLocalhostInLabels | app/lib/tenancy.ts:34 | a text without the letter 'l' does not contain "localhost" |
| Tenancy.IsMainDomain | app/lib/tenancy.ts:48-55 | true without a window, and otherwise exactly when the tenant is absent, empty or "www" |
| Tenancy.MainDomainOffLocalhost | app/lib/tenancy.ts:41-54 | off localhost the main domain is shown exactly when there is no (non-empty) tenant |
| Tenancy.LocalMainDomain | app/lib/tenancy.ts:34-54 | on `<sub>.localhost` the main domain is shown exactly for an empty label or "www" |
| Tenancy.MainDomain | app/lib/tenancy.ts:57-72 | "boardyet.com" without a window, "localhost" on a localhost host, the host itself without a dot, and otherwise a two-label suffix of the host that starts it or follows a dot |
| Tenancy.LastTwoLabels | app/lib/tenancy.ts:66-68 | `parts.slice(-2).join('.')` is the host's last two labels, a suffix of the host |
| Tenancy.PortSuffix | app/lib/tenancy.ts:80-85 | ":5173" on localhost; otherwise ":" and the port unless the port is "", "80" or "443", in which case nothing |
| Tenancy.BuildOrganizationUrl | app/lib/tenancy.ts:74-88 | "" without a window; otherwise the page's protocol, the subdomain under the main domain, the port suffix and the path, in that order |
| Tenancy.LocalUrlsUseDevPort | app/lib/tenancy.ts:74-88 | on a localhost host every organization URL is `<protocol>//<sub>.localhost:5173<path>` |
| Tenancy.OrganizationHostRoundTrip | app/lib/tenancy.ts:28-88 | on a localhost host or a host with a dot, the tenant read back from the organization host built for a valid subdomain other than "www" and "localhost" is that subdomain |
| Tenancy.LocalhostSubdomainUnreachable | app/lib/tenancy.ts:28-38 | "localhost" passes the subdomain check, but its organization host reads as no tenant |
| Tenancy.WwwSubdomainUnreachable | app/lib/tenancy.ts:41-43 | "www" passes the subdomain check, but off localhost its organization host reads as no tenant |
| Tenancy.IsValidSubdomainFormat | app/lib/tenancy.ts:115-118 | valid exactly when 3 to 63 characters of `[a-z0-9-]` with neither end '-' (both directions) |
| Tenancy.ValidSubdomainIsOneLabel | app/lib/tenancy.ts:115-118 | a valid subdomain has no dot |
| Tenancy.Hyphenate | app/lib/tenancy.ts:122-123 | same length, only `[a-z0-9-]` |
| Tenancy.CollapseHyphens | app/lib/tenancy.ts:124 | no longer, same first character, only characters of the input, no "--" |
| Tenancy.CollapseFixesClean | app/lib/tenancy.ts:124 | text without "--" is left unchanged |
| Tenancy.CollapseIdempotent | app/lib/tenancy.ts:124 | collapsing twice is collapsing once |
| Tenancy.TrimHyphens | app/lib/tenancy.ts:125 | no longer, only characters of the input; on text without "--" neither end is '-' afterwards; a text with non-'-' ends is unchanged |
| Tenancy.SlugShape | app/lib/tenancy.ts:121-125 | before the cut the slug has only `[a-z0-9-]`, no "--", and no '-' at either end |
| Tenancy.GenerateSubdomainFromName | app/lib/tenancy.ts:120-127 | at most 30 characters of `[a-z0-9-]`, no "--", no leading '-', a prefix of the uncut slug and the whole of it when that is short enough |
| Tenancy.AcmeCorpExample | app/lib/tenancy.ts:120-127 | "Acme Corp" gives "acme-corp" |
| Tenancy.GeneratedValidWhenUncut | app/lib/tenancy.ts:115-127 | a slug of 3 to 30 characters is a valid subdomain |
| Tenancy.HyphenateKeepsLowerAlnum | app/lib/tenancy.ts:122-123 | lower-case letters and digits pass unchanged |
| Tenancy.GeneratedMayEndWithHyphen | app/lib/tenancy.ts:115-127 | a 29-letter word followed by a space and a letter gives a suggestion ending in '-', which is not a valid subdomain |
| Tenancy.ShortNameTooShort | app/lib/tenancy.ts:115-127 | a name of one or two lower-case letters or digits is suggested as it is, and is too short to be valid |
| TaskUtils.CardToTask | app/lib/taskUtils.ts:9-15 | id rendered as decimal, title from title, name or "Untitled Card", description defaulting to "", the column's id, and order defaulting to 1 |
| TaskUtils.CardsToTasks | app/lib/taskUtils.ts:8-16 | one task per card |
| TaskUtils.AppendColumnCards | app/lib/taskUtils.ts:7-17 | the inner loop appends exactly the tasks of the column's cards, none when `cards` is not an array |
| TaskUtils.TransformBoardTasksToTasks | app/lib/taskUtils.ts:3-24 | the result is a permutation of the tasks collected column by column, one per card |
| TaskUtils.CollectedCount | app/lib/taskUtils.ts:6-18 | the collected list has one task per card of the columns whose cards are an array |
| TaskUtils.CardsToTasksMembers | app/lib/taskUtils.ts:8-16 | a task comes from the cards exactly when it is the task of one of them |
| TaskUtils.CollectedTasksMembers | app/lib/taskUtils.ts:6-18 | a task is collected exactly when some column contributes it |
| TaskUtils.GetTasksForColumn | app/lib/taskUtils.ts:26-30 | exactly the column's tasks, each as often as in the input, sorted by order with a missing or zero order counting as 1 |
| TaskUtils.CreateOptimisticTaskUpdate | app/lib/taskUtils.ts:32-42 | same length; tasks with another id are unchanged |
| TaskUtils.OptimisticUpdateFields | app/lib/taskUtils.ts:37-41 | a matching task takes each field the patch carries (id, title, description, column and order) and keeps each it leaves out |
| TaskUtils.CreateOptimisticTaskMove | app/lib/taskUtils.ts:44-54 | same length; only the matching tasks change, and only their column |
| TaskUtils.CalculateNewOrder | app/lib/taskUtils.ts:56-79 | the moved task gets `toOrder`; a task without order keeps none; others between the two positions shift one step toward the vacated slot, the rest keep their order |
| TaskUtils.Reordered | app/lib/taskUtils.ts:92-93 | only the order of a task can change |
| TaskUtils.ReorderAll | app/lib/taskUtils.ts:91-94 | each column task is replaced by its reordered copy, in place |
| TaskUtils.CreateOptimisticTaskReorder | app/lib/taskUtils.ts:81-97 | same length; the other columns' tasks first and unchanged, then the column's tasks reordered |
| TaskUtils.IdsMultiset | app/lib/taskUtils.ts:96 | lists with the same tasks have the same ids |
| TaskUtils.ReorderPreservesIds | app/lib/taskUtils.ts:81-97 | the reorder neither loses nor duplicates a task id |
| TaskUtils.MoveRoundTrip | app/lib/taskUtils.ts:62-78 | moving back undoes a same-column move |
| TaskUtils.MoveStaysInRange | app/lib/taskUtils.ts:68-78 | a move within a range of orders keeps every order in that range |
| TaskUtils.ReorderedIsMovePosition | app/lib/taskUtils.ts:62-78 | on a well-numbered column each task's new order is its position after the move |
| TaskUtils.ReorderPermutesOrders | app/lib/taskUtils.ts:81-97 | on a column numbered lo..hi without gaps or repeats, the reorder keeps the same set of distinct orders |
| TaskUtils.ReorderToSameOrderIsIdentity | app/lib/taskUtils.ts:62-78 | a move onto its own position changes no task of the column |
| Columns.FailureMessage | app/hooks/useColumns.ts:13-18 | a thrown call gives the fixed message; a failed response its error or the fallback |
| Columns.HandleAddColumns | app/hooks/useColumns.ts:4-19 | onSuccess exactly when the response succeeded with data, with the data as a list; otherwise onError with the failure message |
| Columns.HandleUpdateColumn | app/hooks/useColumns.ts:21-40 | onSuccess exactly when the response succeeded with data; otherwise onError with the failure message |
| Columns.HandleDeleteColumn | app/hooks/useColumns.ts:42-59 | onSuccess exactly when the response succeeded, data or not; otherwise onError with the failure message |
| Columns.DeleteNeedsNoData | app/hooks/useColumns.ts:32-54 | a success without data deletes but fails an update |
| Columns.ReorderPayload | app/hooks/useColumns.ts:68-74 | each column's id with its position as order |
| Columns.PayloadIgnoresOrders | app/hooks/useColumns.ts:68-74 | the payload depends only on the ids in list order |
| Columns.HandleReorderColumns | app/hooks/useColumns.ts:61-86 | onSuccess exactly when the response succeeded with data, passing the server's list; otherwise onError with the failure message |
| Columns.RenameColumn | app/hooks/useBoardManagement.ts:51-53 | same length; the matching columns take the name and the order, the others stay |
| Columns.RemoveColumn | app/hooks/useBoardManagement.ts:71 | the list built from the back equals the front-to-back filter, so the other columns stay in their order; no kept column has the id; nothing is added |
| Columns.RemoveColumnKeepsOthers | app/hooks/useBoardManagement.ts:71 | every other column is kept as often as it was there |
| Boards.AsList | app/hooks/useBoards.ts:20 | one board becomes a one-element list, an array is kept |
| Boards.FirstOf | app/hooks/useBoards.ts:40 | one board is itself, an array gives its first element, an empty array none |
| Boards.MergeBoard | app/hooks/useBoards.ts:58 | the id stays; present updates replace the name and columns |
| Boards.UpdatedBoards | app/hooks/useBoards.ts:55-61 | same length; boards with the id are merged with the updates, the others stay |
| Boards.UpdateKeepsIds | app/hooks/useBoards.ts:55-61 | every id stays in place, and an update for an absent id changes nothing |
| Boards.FindBoard | app/hooks/useBoardManagement.ts:30 | `find`: none exactly when no board has the id, otherwise the first board with it |
| Boards.BoardStore.constructor | app/hooks/useBoards.ts:6-10 | no boards, not loading or creating, no error, not fetched |
| Boards.BoardStore.FetchBoards | app/hooks/useBoards.ts:12-30 | success with data replaces the list (one board wrapped) and clears the error; otherwise the list stays and the error is the response's or the fixed message; loading ends false |
| Boards.BoardStore.CreateNewBoard | app/hooks/useBoards.ts:32-53 | success with data appends exactly the new board and returns it; otherwise the list stays, the error is set and the response's error returned; creating ends false |
| Boards.BoardStore.UpdateBoard | app/hooks/useBoards.ts:55-61 | the boards are updated by UpdatedBoards; nothing else changes |
| Boards.BoardStore.ClearError | app/hooks/useBoards.ts:63 | the error is cleared; nothing else changes |
| Boards.BoardStore.SetHasFetched | app/hooks/useBoards.ts:71 | the flag is set; nothing else changes |
| BoardManagement.ColumnsOf | app/hooks/useBoardManagement.ts:30 | the found board's columns, none when no board has the id |
| BoardManagement.ColumnsAfterAdd | app/hooks/useBoardManagement.ts:29-31 | the found board's columns (or none) followed by the new ones |
| BoardManagement.ColumnsAfterUpdate | app/hooks/useBoardManagement.ts:48-54 | the found board's columns renamed, or [] when no board has the id |
| BoardManagement.ColumnsAfterDelete | app/hooks/useBoardManagement.ts:68-72 | the found board's columns without the column, or [] |
| BoardManagement.ErrorAfterFailureAsWritten | app/hooks/useBoardManagement.ts:33-37 | as written, a failure leaves no error message |
| BoardManagement.FailureErasesError | app/hooks/useBoardManagement.ts:33-37 | as written, the failure's message is never the error shown |
| BoardManagement.BoardManager.constructor | app/hooks/useBoardManagement.ts:8-14 | the hook over the boards store and a paginator on page 1 |
| BoardManagement.BoardManager.PaginatedBoards | app/hooks/useBoardManagement.ts:6-14 | at most four boards a page; page 1 holds the first four |
| BoardManagement.BoardManager.HandleCreateBoard | app/hooks/useBoardManagement.ts:16-22 | returns the creation's result; back to page 1 only when a board was created |
| BoardManagement.BoardManager.Fail | app/hooks/useBoardManagement.ts:33-37 | the intended failure path: the error is recorded and the boards stay |
| BoardManagement.BoardManager.HandleAddColumns | app/hooks/useBoardManagement.ts:24-39 | success appends the server's columns to the found board's; failure records the message and keeps the boards |
| BoardManagement.BoardManager.HandleUpdateColumn | app/hooks/useBoardManagement.ts:41-61 | success renames the matching column of the found board; failure records the message |
| BoardManagement.BoardManager.HandleDeleteColumn | app/hooks/useBoardManagement.ts:63-79 | success drops the matching column of the found board; failure records the message |
| BoardManagement.BoardManager.HandleReorderColumns | app/hooks/useBoardManagement.ts:81-95 | sends the ids by position; success replaces the board's columns by the server's list; failure records the message |
| BoardManagement.ColumnUpdateTouchesOneBoard | app/hooks/useBoards.ts:55-61 | a column update changes only the columns of the boards with that id |
| BoardColumnManagement.CurrentColumns | app/hooks/useBoardColumnManagement.ts:22 | `board?.columns \|\| []` |
| BoardColumnManagement.ColumnsAfterAdd | app/hooks/useBoardColumnManagement.ts:20-24 | the board's columns, then the server's new ones |
| BoardColumnManagement.ColumnsAfterUpdate | app/hooks/useBoardColumnManagement.ts:34-46 | the matching column takes the name and the order, 0 when none was given |
| BoardColumnManagement.ColumnsAfterDelete | app/hooks/useBoardColumnManagement.ts:59-63 | the filter of the board's columns by another id, in their order; a column is kept exactly when it was there and has another id |
| BoardColumnManagement.ColumnsWithOrder | app/hooks/useBoardColumnManagement.ts:73-76 | a present order, 0 included, is kept; a missing one becomes the position |
| BoardColumnManagement.FilledOrdersAreNotSent | app/hooks/useBoardColumnManagement.ts:73-80 | the filled-in orders do not reach the request |
| BoardColumnManagement.ErrorHandlerAsWritten | app/hooks/useBoardColumnManagement.ts:25-29 | as written the error handler never gets to notify |
| BoardColumnManagement.FailureIsNeverReported | app/hooks/useBoardColumnManagement.ts:25-29 | as written a failed operation rejects and `onError` receives nothing |
| BoardColumnManagement.RejectedAddExample | app/hooks/useBoardColumnManagement.ts:16-31 | a concrete rejected addColumns reports nothing |
| BoardColumnManagement.RunCorrected | app/hooks/useBoardColumnManagement.ts:25-29 | corrected, a success notifies nothing, a failure notifies its message or the fallback once |
| BoardColumnManagement.CorrectedReportsEachFailure | app/hooks/useBoardColumnManagement.ts:25-29 | corrected, no operation rejects, and each reports exactly its failure |
| BoardColumnManagement.ColumnManager.constructor | app/hooks/useBoardColumnManagement.ts:12-14 | the hook's board id, board and boards hook |
| BoardColumnManagement.ColumnManager.Fail | app/hooks/useBoardColumnManagement.ts:25-29 | the intended failure path: error recorded, notified with the message or the fallback, boards unchanged |
| BoardColumnManagement.ColumnManager.AddColumns | app/hooks/useBoardColumnManagement.ts:16-31 | success appends the server's columns to the board's; failure records and reports |
| BoardColumnManagement.ColumnManager.UpdateColumn | app/hooks/useBoardColumnManagement.ts:33-53 | sends the name and the order (0 when none); success renames; failure records and reports |
| BoardColumnManagement.ColumnManager.DeleteColumn | app/hooks/useBoardColumnManagement.ts:55-70 | success drops the matching column; failure records and reports |
| BoardColumnManagement.ColumnManager.ReorderColumns | app/hooks/useBoardColumnManagement.ts:72-92 | sends the ids by position; success replaces the columns by the server's list; failure records and reports |
| ColumnDragAndDrop.RemoveAt | app/components/board/hooks/useDragAndDrop.ts:50 | without the element at the index, the rest in order; unchanged for an index out of range |
| ColumnDragAndDrop.RemoveAtMultiset | app/components/board/hooks/useDragAndDrop.ts:50 | removing loses exactly the removed element |
| ColumnDragAndDrop.MoveElement | app/components/board/hooks/useDragAndDrop.ts:31-34 | same length and elements; the dragged element lands at the drop index; removing it there gives the list without it |
| ColumnDragAndDrop.MoveElementAt | app/components/board/hooks/useDragAndDrop.ts:31-34 | the elements between the two positions shift one step toward the drag position |
| ColumnDragAndDrop.MoveElementRoundTrip | app/components/board/hooks/useDragAndDrop.ts:31-34 | moving back undoes a move |
| ColumnDragAndDrop.Renumber | app/components/board/hooks/useDragAndDrop.ts:36-39 | orders offset, offset + 1, … in list order; ids and names unchanged |
| ColumnDragAndDrop.RenumberConsecutive | app/components/board/hooks/useDragAndDrop.ts:36-39 | renumbering an already consecutive list changes nothing |
| ColumnDragAndDrop.ShiftTowardFront | app/components/board/hooks/useDragAndDrop.ts:33-34 | the slots between the positions take their right neighbour, in place |
| ColumnDragAndDrop.ShiftTowardBack | app/components/board/hooks/useDragAndDrop.ts:33-34 | the slots between the positions take their left neighbour, in place |
| ColumnDragAndDrop.SpliceMove | app/components/board/hooks/useDragAndDrop.ts:31-34 | the in-place splices on a copied array give MoveElement |
| ColumnDragAndDrop.RemoveAndRenumber | app/components/board/hooks/useDragAndDrop.ts:45-55 | orders consecutive from the offset; ids and names those of the list without the element |
| ColumnDragAndDrop.ColumnDragState.constructor | app/components/board/hooks/useDragAndDrop.ts:10 | no index recorded |
| ColumnDragAndDrop.ColumnDragState.HandleDragStart | app/components/board/hooks/useDragAndDrop.ts:12-15 | records the index |
| ColumnDragAndDrop.ColumnDragState.HandleDrop | app/components/board/hooks/useDragAndDrop.ts:22-43 | nothing without an index or on the same index; otherwise the moved list renumbered from the existing count, and the index cleared |
| ColumnManagement.MaxIdOr0 | app/components/board/hooks/useColumnManagement.ts:14-15 | the largest id, attained by some column, and 0 for no columns |
| ColumnManagement.GenerateNextId | app/components/board/hooks/useColumnManagement.ts:13-17 | larger than every id of both lists, one more than the largest (or 1) |
| ColumnManagement.AppendColumn | app/components/board/hooks/useColumnManagement.ts:19-29 | a blank name changes nothing; otherwise one column with the next id, the trimmed name and the next order is appended |
| ColumnManagement.AppendKeepsInvariant | app/components/board/hooks/useColumnManagement.ts:19-29 | adding keeps orders consecutive after the existing columns and ids distinct |
| ColumnManagement.RemoveKeepsInvariant | app/components/board/hooks/useColumnManagement.ts:31-36 | removing keeps orders consecutive after the existing columns and ids distinct |
| ColumnManagement.EditsKeepInvariant | app/components/board/hooks/useColumnManagement.ts:19-36 | any sequence of additions and removals keeps both invariants |
| ColumnManagement.ColumnDraft.constructor | app/components/board/hooks/useColumnManagement.ts:10-11 | empty name, no columns |
| ColumnManagement.ColumnDraft.SetColumnName | app/components/board/hooks/useColumnManagement.ts:10 | sets the name only |
| ColumnManagement.ColumnDraft.AddColumn | app/components/board/hooks/useColumnManagement.ts:19-29 | the list becomes AppendColumn's; the name is cleared exactly when a column was added |
| ColumnManagement.ColumnDraft.RemoveColumn | app/components/board/hooks/useColumnManagement.ts:31-36 | drops the column at the index and renumbers; the name stays |
| ColumnManagement.ColumnDraft.UpdateColumns | app/components/board/hooks/useColumnManagement.ts:38-40 | replaces the list verbatim |
| ColumnManagement.ColumnDraft.Reset | app/components/board/hooks/useColumnManagement.ts:42-45 | empty name, no columns |
| AddColumnModal.FindColumn | app/components/board/AddColumnModal.tsx:107 | `find`: none exactly when no column has the id; otherwise the first column of the list with that id |
| AddColumnModal.Rename | app/components/board/AddColumnModal.tsx:110-112 | same length; the columns with the id take the name, the others stay |
| AddColumnModal.RenameKeepsOrders | app/components/board/AddColumnModal.tsx:110-112 | a rename keeps every id and order, so a consecutively numbered list stays one |
| AddColumnModal.WithoutColumn | app/components/board/AddColumnModal.tsx:127 | the list's filter by another id, so the rest keep their order; no kept column has the id, every other column is kept, nothing is added |
| AddColumnModal.WithoutColumnMultiplicity | app/components/board/AddColumnModal.tsx:127 | each other column is kept as often as it was there; none with the id remains |
| AddColumnModal.ColumnModal.constructor | app/components/board/AddColumnModal.tsx:35-47 | an empty draft, no drag, no edit, and the existing columns as the local copy |
| AddColumnModal.ColumnModal.SyncExisting | app/components/board/AddColumnModal.tsx:49-51 | a new existing-columns prop replaces the local copy; the edit stays |
| AddColumnModal.ColumnModal.HandleSubmit | app/components/board/AddColumnModal.tsx:79-85 | an empty draft submits nothing and stays; otherwise the draft goes to onAddColumns and is reset |
| AddColumnModal.ColumnModal.HandleClose | app/components/board/AddColumnModal.tsx:87-90 | the draft is reset |
| AddColumnModal.ColumnModal.HandleDropWithUpdate | app/components/board/AddColumnModal.tsx:92-94 | the draft's drop: nothing without a drag or on the same slot; otherwise the moved draft numbered after the existing columns, and the drag cleared |
| AddColumnModal.ColumnModal.HandleRemoveWithUpdate | app/components/board/AddColumnModal.tsx:96-98 | the draft loses the column at the index and is renumbered after the existing columns |
| AddColumnModal.ColumnModal.HandleEditExisting | app/components/board/AddColumnModal.tsx:100-103 | editing starts on the column with its name |
| AddColumnModal.ColumnModal.SetEditingName | app/components/board/AddColumnModal.tsx:221 | the edited text changes, nothing else |
| AddColumnModal.ColumnModal.HandleSaveEdit | app/components/board/AddColumnModal.tsx:105-117 | with a non-zero column id, a non-blank name, the callback and the column found: onUpdateColumn gets the trimmed name and the column's order, and the local copy is renamed; otherwise no call and no change; editing always ends |
| AddColumnModal.ColumnModal.HandleCancelEdit | app/components/board/AddColumnModal.tsx:119-122 | editing ends; the local copy stays |
| AddColumnModal.ColumnModal.HandleDeleteExisting | app/components/board/AddColumnModal.tsx:124-129 | with the callback: onDeleteColumn gets the id and the local copy loses the column; without: nothing |
| AddColumnModal.ColumnModal.HandleReorderExisting | app/components/board/AddColumnModal.tsx:131-148 | with a drag from another slot the local copy is moved and numbered 0, 1, …, and passed to onReorderColumns when given; otherwise nothing; the drag is not cleared |
| ColumnList.GetTasksForColumn | app/components/board/ColumnList.tsx:72-76 | exactly the column's tasks, each as often as in the input, sorted by order with a missing order counting as 0 |
| ColumnList.UnorderedFirst | app/components/board/ColumnList.tsx:75 | a task without order is shown before every task with a positive order |
| ColumnList.DropTargets | app/components/board/ColumnList.tsx:94-149 | a drop on a task targets its 1-based position; on the add zone one past the last task; on the column itself the same, unless a handler below already handled the event; never more than one call |
| ColumnList.DropTargetsInRange | app/components/board/ColumnList.tsx:94-149 | every target order lies between 1 and one past the column's task count |
| ColumnList.MinWidth | app/components/board/ColumnList.tsx:82 | 288 pixels per column, and at least 288 |
| AddTaskForm.MaxOrder | app/components/board/AddTaskForm.tsx:46-48 | at least 0, no smaller than any task's `order \|\| 0`, and attained by one when not 0 |
| AddTaskForm.NextOrder | app/components/board/AddTaskForm.tsx:46-49 | at least 1, above every existing order, and one more than some order unless 1 |
| AddTaskForm.TaskErrors | app/components/board/AddTaskForm.tsx:29-38 | only the title carries a message, "Title is required", exactly when it is blank |
| AddTaskForm.TaskValidIff | app/components/board/AddTaskForm.tsx:29-38 | the form is valid exactly when the title has a non-white character |
| AddTaskForm.Payload | app/components/board/AddTaskForm.tsx:51-56 | the trimmed title, the trimmed description or none when it is blank, the column, and the next order |
| AddTaskForm.PayloadIsTrimmed | app/components/board/AddTaskForm.tsx:52-53 | the submitted title and description carry no surrounding white space |
| AddTaskForm.Form.constructor | app/components/board/AddTaskForm.tsx:19-27 | empty fields and no errors |
| AddTaskForm.Form.ValidateForm | app/components/board/AddTaskForm.tsx:29-38 | stores the error object; valid exactly when it is empty; the fields stay |
| AddTaskForm.Form.HandleSubmit | app/components/board/AddTaskForm.tsx:40-57 | an invalid form calls nothing; a valid one hands the payload to onSubmit |
| AddTaskForm.Form.HandleInputChange | app/components/board/AddTaskForm.tsx:59-74 | the field takes the value and only its set message is cleared |
| TaskManagement.UpdatePatch | app/hooks/useTaskManagement.ts:21-27 | the update never changes a task's id or column, and carries the title it was given |
| TaskManagement.UpdateKeepsColumnsAndIds | app/hooks/useTaskManagement.ts:21-27 | the optimistic update keeps every id and column, leaves other tasks alone and applies the given title, order and description |
| TaskManagement.FindTask | app/hooks/useTaskManagement.ts:49 | none exactly when no task has the id; otherwise a task of the list with it |
| TaskManagement.ShouldUpdateIffOrderChanges | app/hooks/useTaskManagement.ts:81-123 | a task is selected exactly when it is the moved one or calculateNewOrder changes its order |
| TaskManagement.ShouldUpdateSamePosition | app/hooks/useTaskManagement.ts:106-123 | with equal positions only the moved task is selected |
| TaskManagement.ShouldUpdateHasNewOrder | app/hooks/useTaskManagement.ts:155-160 | a selected task always has a new order, so none is skipped |
| TaskManagement.UpdatesForSelected | app/hooks/useTaskManagement.ts:155-175 | for selected tasks, one request per task in list order with calculateNewOrder's value |
| TaskManagement.PlannedUpdatesAreSelection | app/hooks/useTaskManagement.ts:150-175 | exactly one request per selected task of the column, in list order, with its new order |
| TaskManagement.FirstFailureIsFirst | app/hooks/useTaskManagement.ts:169-177 | failure exactly when some request fails, and then the message of the first one that does |
| TaskManagement.UpdateDatabase | app/hooks/useTaskManagement.ts:143-178 | issues the planned requests and reports the first failure |
| TaskManagement.CreatedTask | app/hooks/useTaskManagement.ts:225-232 | the record inside `data` or the bare one; id rendered as decimal, description defaulting to "", order defaulting to 1 |
| TaskManagement.DeleteRemovesOnlyId | app/hooks/useTaskManagement.ts:205 | no task with the id is kept; every other task is kept as often as before |
| TaskManagement.TaskManager.constructor | app/hooks/useTaskManagement.ts:12 | no tasks |
| TaskManagement.TaskManager.SetTasks | app/hooks/useTaskManagement.ts:248 | replaces the list |
| TaskManagement.TaskManager.UpdateTask | app/hooks/useTaskManagement.ts:14-40 | success keeps the optimistic update and says so; failure restores the given original list, else the list as it was, and reports the error or the fallback |
| TaskManagement.TaskManager.MoveTask | app/hooks/useTaskManagement.ts:42-79 | an unknown task or one outside the expected column: no request, no change, that message; otherwise a `column_id` request, the task moved on success and the snapshot back on failure |
| TaskManagement.TaskManager.ReorderTask | app/hooks/useTaskManagement.ts:180-200 | issues the planned requests; all succeeding keeps the optimistic reorder; a failure restores the snapshot and reports the first failure |
| TaskManagement.TaskManager.DeleteTask | app/hooks/useTaskManagement.ts:202-218 | success keeps the list without the id and shows the server's message or the fallback; failure restores it |
| TaskManagement.TaskManager.AddTask | app/hooks/useTaskManagement.ts:220-244 | success appends the created task; failure keeps the list, reports and rejects with the error |
| TaskDragAndDrop.DropDecision | app/components/board/hooks/useTaskDragAndDrop.ts:46-62 | no call without a drag; a move exactly when the columns differ; a reorder exactly in the same column with the callback and a target order, from the drag data's order or 1 |
| TaskDragAndDrop.MoveChangesColumn | app/components/board/hooks/useTaskDragAndDrop.ts:53-54 | a move always goes to another column |
| TaskDragAndDrop.ReorderStaysInColumn | app/components/board/hooks/useTaskDragAndDrop.ts:55-57 | a reorder stays in the column the drag started in |
| TaskDragAndDrop.TaskDragSession.constructor | app/components/board/hooks/useTaskDragAndDrop.ts:18-19 | no drag, no hovered column |
| TaskDragAndDrop.TaskDragSession.HandleDragStart | app/components/board/hooks/useTaskDragAndDrop.ts:21-23 | records the task; the hovered column stays |
| TaskDragAndDrop.TaskDragSession.HandleDragEnd | app/components/board/hooks/useTaskDragAndDrop.ts:25-28 | clears both |
| TaskDragAndDrop.TaskDragSession.HandleDragOver | app/components/board/hooks/useTaskDragAndDrop.ts:30-34 | the column becomes the hovered one |
| TaskDragAndDrop.TaskDragSession.HandleDragLeave | app/components/board/hooks/useTaskDragAndDrop.ts:36-44 | clears the hovered column exactly when the pointer is outside the rectangle |
| TaskDragAndDrop.TaskDragSession.HandleDrop | app/components/board/hooks/useTaskDragAndDrop.ts:46-62 | the callback DropDecision chooses; without a drag nothing changes, otherwise both fields are cleared |
| TaskDragAndDrop.TaskDragSession.IsTaskBeingDragged | app/components/board/hooks/useTaskDragAndDrop.ts:64-66 | true exactly when a drag of that task is recorded |
| TaskDragAndDrop.TaskDragSession.IsColumnBeingDraggedOver | app/components/board/hooks/useTaskDragAndDrop.ts:68-70 | true exactly when that column is hovered |
| InlineEditing.SaveCall | app/components/board/hooks/useInlineEditing.ts:32-38 | onSave is called exactly when the trimmed text differs from the initial value, with the trimmed text |
| InlineEditing.SaveUntouched | app/components/board/hooks/useInlineEditing.ts:32-38 | saving the untouched text calls nothing exactly when the initial value is already trimmed |
| InlineEditing.PaddingIsNoChange | app/components/board/hooks/useInlineEditing.ts:33-34 | white space around a trimmed initial value is no change |
| InlineEditing.SavedValueIsTrimmed | app/components/board/hooks/useInlineEditing.ts:33-35 | a saved value carries no surrounding white space |
| InlineEditing.InlineEditor.constructor | app/components/board/hooks/useInlineEditing.ts:14-15 | not editing, text the initial value |
| InlineEditing.InlineEditor.InitialValueChanged | app/components/board/hooks/useInlineEditing.ts:17-19 | the text follows a new initial value; editing stays |
| InlineEditing.InlineEditor.StartEdit | app/components/board/hooks/useInlineEditing.ts:21-26 | unless disabled, editing starts from the initial value; disabled, nothing changes |
| InlineEditing.InlineEditor.HandleValueChange | app/components/board/hooks/useInlineEditing.ts:28-30 | the text changes, nothing else |
| InlineEditing.InlineEditor.Save | app/components/board/hooks/useInlineEditing.ts:32-38 | calls onSave as SaveCall says and ends editing |
| InlineEditing.InlineEditor.Cancel | app/components/board/hooks/useInlineEditing.ts:40-43 | back to the initial value, editing ends |
| InlineEditing.InlineEditor.HandleKeyDown | app/components/board/hooks/useInlineEditing.ts:45-52 | Enter without Shift saves; Escape cancels; any other key changes nothing |
| InlineEditing.InlineEditor.HandleBlur | app/components/board/hooks/useInlineEditing.ts:54-56 | saves |
| Forms.PatternHasShape | app/components/auth/LoginForm.tsx:38 | a text the email pattern accepts has no white space, exactly one '@' not in first place, and a '.' strictly inside the part after it |
| Forms.ShapeMatchesPattern | app/components/auth/LoginForm.tsx:38 | every text of that shape is accepted by the pattern |
| Forms.EmailPatternIffShape | app/components/auth/LoginForm.tsx:38 | the pattern accepts exactly the texts of that shape |
| Forms.LeadingSpaceRejected | app/components/auth/LoginForm.tsx:38 | a text starting with white space is rejected |
| Forms.ExampleAccepted | app/components/auth/LoginForm.tsx:38 | "a@b.co" is accepted |
| Forms.EmailError | app/components/auth/LoginForm.tsx:36-40 | "Email is required" for a blank email, the format message when the text as typed does not match, and no message exactly when it is present and matches |
| Forms.UntrimmedEmailRejected | app/components/auth/ForgotPasswordPage.tsx:20-28 | a valid address typed after a space trims to itself but is refused with the format message |
| Forms.PasswordError | app/components/auth/LoginForm.tsx:42-46 | "Password is required" when empty, the length message under six characters, none exactly from six on |
| Forms.ConfirmationError | app/components/auth/SignupForm.tsx:61-65 | the confirm message when empty, "Passwords do not match" when it differs, none exactly when it repeats the password |
| Forms.Record | app/components/auth/SignupForm.tsx:45-71 | a rule's message, when there is one, is stored under its field; otherwise the object stays |
| Forms.ClearError | app/components/auth/LoginForm.tsx:28-30 | the field's message goes; every other field keeps its own |
| Forms.AfterEdit | app/components/auth/LoginForm.tsx:28-30 | after an edit the field shows no message; an empty message stays as it was; every other field keeps its own |
| Forms.OnlyGeneral | app/components/auth/LoginForm.tsx:74-77 | an error object with only the form-wide message |
| LoginForm.LoginErrors | app/components/auth/LoginForm.tsx:33-50 | the email message under Email and the password message under Password, each exactly when its rule gives one, and nothing else |
| LoginForm.LoginValidIff | app/components/auth/LoginForm.tsx:33-50 | valid exactly when the email is present and matches as typed and the password has six characters |
| LoginForm.SameRulesAsSignup | app/components/auth/LoginForm.tsx:36-46 | the email and password fields get the same messages as on the sign-up form |
| LoginForm.Form.constructor | app/components/auth/LoginForm.tsx:15-24 | empty fields, no errors, not loading |
| LoginForm.Form.HandleInputChange | app/components/auth/LoginForm.tsx:26-31 | the field takes the value and only its set message is cleared |
| LoginForm.Form.ValidateForm | app/components/auth/LoginForm.tsx:33-50 | stores the error object; valid exactly when it is empty |
| LoginForm.Form.HandleSubmit | app/components/auth/LoginForm.tsx:52-81 | an invalid form stops with its messages and no request; otherwise loginUser gets the trimmed email and the password, a success with a token leads to the dashboard, a failure shows its error or the fallback, a throw the unexpected-error message, and loading ends |
| LoginForm.Form.Respond | app/components/auth/LoginForm.tsx:68-80 | the response handling of handleSubmit with its `finally` |
| SignupForm.Collect | app/components/auth/SignupForm.tsx:42-75 | each field's message is present exactly when its rule gave one |
| SignupForm.NameError | app/components/auth/SignupForm.tsx:45-47 | "Name is required" exactly for a blank name |
| SignupForm.OrganizationNameError | app/components/auth/SignupForm.tsx:67-71 | "Organization name is required" exactly when the box is ticked and the name is blank |
| SignupForm.SignupErrors | app/components/auth/SignupForm.tsx:42-75 | every field under its own rule, each message exactly when the rule fails, and no other key |
| SignupForm.SignupValidIff | app/components/auth/SignupForm.tsx:42-75 | valid exactly when the name is present, the email present and matching, the password six characters, the confirmation equal, and an organization name given when asked for |
| SignupForm.OrganizationOptional | app/components/auth/SignupForm.tsx:67-71 | without the box ticked the organization name is never an error |
| SignupForm.Destination | app/components/auth/SignupForm.tsx:116-120 | the invitation's accept page when there is a token, else the dashboard |
| SignupForm.Form.constructor | app/components/auth/SignupForm.tsx:20-40 | the initial email, every other field empty, no organization, no errors |
| SignupForm.Form.ValidateForm | app/components/auth/SignupForm.tsx:42-75 | stores the error object; valid exactly when it is empty; the fields stay |
| SignupForm.Form.HandleSubmit | app/components/auth/SignupForm.tsx:77-134 | an invalid form stops with its messages and no request; otherwise signupUser gets the name and the trimmed email, a complete success creates the named organization when asked, an organization failure or throw shows its message, and otherwise the browser goes to Destination; a failed sign-up shows its error or the fallback, a throw the unexpected-error message |
| SignupForm.Form.Respond | app/components/auth/SignupForm.tsx:93-133 | the response handling of handleSubmit |
| SignupForm.Form.HandleInputChange | app/components/auth/SignupForm.tsx:136-141 | the field takes the value and only its set message is cleared |
| SignupForm.Form.HandleOrganizationChange | app/components/auth/SignupForm.tsx:143-148 | the organization name takes the value and only its set message is cleared |
| SignupForm.Form.SetCreateOrganization | app/components/auth/SignupForm.tsx:172 | the toggle changes, nothing else |
| ResetPassword.ResetErrors | app/components/auth/ResetPasswordPage.tsx:32-49 | the password and confirmation messages, each exactly when its rule gives one, and nothing else |
| ResetPassword.ResetValidIff | app/components/auth/ResetPasswordPage.tsx:32-49 | valid exactly when the password has six characters and the confirmation repeats it |
| ResetPassword.Page.constructor | app/components/auth/ResetPasswordPage.tsx:11-24 | the link's token and email, empty fields, not loading, not done, no errors |
| ResetPassword.Page.HandleInputChange | app/components/auth/ResetPasswordPage.tsx:51-56 | the field takes the value and only its set message is cleared |
| ResetPassword.Page.ValidateForm | app/components/auth/ResetPasswordPage.tsx:32-49 | stores the error object; valid exactly when it is empty |
| ResetPassword.Page.HandleSubmit | app/components/auth/ResetPasswordPage.tsx:58-93 | a missing token or email stops with its message before validation; an invalid form with its messages; otherwise resetPassword gets email, token and both passwords, success marks the page done, a failure or throw shows one message, and loading ends |
| ForgotPassword.Page.constructor | app/components/auth/ForgotPasswordPage.tsx:8-11 | empty email, not loading, not submitted, no error |
| ForgotPassword.Page.SetEmail | app/components/auth/ForgotPasswordPage.tsx:129-132 | the text changes and a shown message is cleared |
| ForgotPassword.Page.HandleSubmit | app/components/auth/ForgotPasswordPage.tsx:17-50 | a blank or non-matching email stops with the same message as the sign-up form and no request; otherwise forgotPassword gets the trimmed email, success marks the page submitted, a failure or throw shows one message, and loading ends |
| ForgotPassword.Page.Respond | app/components/auth/ForgotPasswordPage.tsx:38-49 | the response handling of handleSubmit with its `finally` |
| ForgotPassword.Page.TryDifferentEmail | app/components/auth/ForgotPasswordPage.tsx:85-88 | back to the form with an empty email |
| Invitation.LastPart | app/components/auth/InvitationPage.tsx:27-31 | the last piece of a split: holds no separator, ends the text, follows a separator when there is one, and is the whole text otherwise |
| Invitation.BeforeFirst | app/components/auth/InvitationPage.tsx:34 | the first piece of a split: holds no delimiter, starts the text, and is the whole text without one |
| Invitation.Candidate | app/components/auth/InvitationPage.tsx:24-32 | the text the token is cut from ends the trimmed link |
| Invitation.ExtractTokenFromUrl | app/components/auth/InvitationPage.tsx:22-40 | the steps of extractTokenFromUrl give TokenFromUrl, which is never empty and holds neither '?' nor '#' |
| Invitation.TokenAvoidsDelimiters | app/components/auth/InvitationPage.tsx:34-36 | a token is non-empty, without '?' or '#', and a prefix of the candidate |
| Invitation.MarkerBranch | app/components/auth/InvitationPage.tsx:26-28 | with the marker present, the candidate follows its last occurrence |
| Invitation.SlashBranch | app/components/auth/InvitationPage.tsx:29-32 | otherwise, with a '/', the candidate follows the last '/' and the token holds no '/' |
| Invitation.MarkerHasSlash | app/components/auth/InvitationPage.tsx:26-29 | the marker branch is taken before the '/' branch could be |
| Invitation.TrailingSlashGivesNone | app/components/auth/InvitationPage.tsx:29-36 | a link ending in '/' without the marker has no token |
| Invitation.BareTokenKept | app/components/auth/InvitationPage.tsx:24-36 | a bare token without '/', '?' or '#' comes back trimmed and otherwise unchanged |
| Invitation.MarkerPathToken | app/components/auth/InvitationPage.tsx:26-28 | after the marker the token keeps its '/' characters |
| Invitation.MarkerPathExample | app/components/auth/InvitationPage.tsx:26-28 | "/invitations/accept/a/b" gives "a/b" |
| Invitation.LinkError | app/components/auth/InvitationPage.tsx:45-54 | the blank-link message for a blank link, the format message when no token can be read |
| Invitation.RequestIffToken | app/components/auth/InvitationPage.tsx:45-54 | the checks let a link through exactly when a token can be read |
| Invitation.Page.constructor | app/components/auth/InvitationPage.tsx:12-20 | empty link, nothing loaded, initials "BY" |
| Invitation.Page.SetInvitationUrl | app/components/auth/InvitationPage.tsx:146-149 | the text changes and a shown message is cleared |
| Invitation.Page.HandleSubmitUrl | app/components/auth/InvitationPage.tsx:42-77 | a blank link or one without a token shows its message and makes no request; otherwise the token is kept and requested, success shows the details and their initials, a failure or throw shows one message, and loading ends |
| Invitation.Page.Proceed | app/components/auth/InvitationPage.tsx:50-76 | after the checks: the message, or the request and its handling |
| Invitation.Page.CheckLink | app/components/auth/InvitationPage.tsx:45-54 | the message that stops the request, or the token to request |
| Invitation.Page.Respond | app/components/auth/InvitationPage.tsx:60-76 | the response handling with its `finally` |
| Invitation.Page.HandleReset | app/components/auth/InvitationPage.tsx:114-121 | the link, error, success flag, details, details view and token are cleared; the initials stay |

## Left out

- Network, JSON and the API client. The request layer and the endpoint wrappers are not part of this model. Each call is an input outcome, so the request bodies are modelled only where a handler builds them.
- Browser state. `window.location`, `localStorage`, cookies and `document` are parameters or left out. The redirect helpers of app/lib/tenancy.ts:90-113 and 129-135 only assign `window.location.href`, so they are not modelled.
- Rendering, DOM events and geometry. JSX, CSS classes, the modal's Escape-key listener and its body-overflow toggle (app/components/board/AddColumnModal.tsx:61-77), drag images and pointer positions are presentation.
- Concurrency. React batching, effect timing, stale closures and races between overlapping requests (app/hooks/useTaskManagement.ts:194) are not modelled. Each handler runs to completion against the state it reads.
- Server state. When one update of a reorder fails, the updates that already succeeded are not undone on the server. The model, like the source, only changes local state.
- Promise.all. Its rejection is modelled as the first failing update in list order. In JavaScript it is the first failure to settle in time.
- The task hook app/hooks/useTasks.ts is reduced to accepted or rejected outcomes with their messages.
- Numbers. JavaScript numbers are unbounded integers here. `parseInt` of drag data that is not numeric (NaN) is not modelled: the dragged id is taken as an integer.
- Sorting ties. The order of tied elements under `Array.prototype.sort` depends on the engine. The model sorts by insertion and states only that the result is sorted and a permutation.
- Seqs.SortByComparator: for the comparator of app/lib/taskUtils.ts:20-23, which is not consistent, only the permutation is stated.
- Text. Strings are ASCII: no Unicode case mapping and no UTF-16 length. `toUpperCase` and `toLowerCase` map only a–z and A–Z.
- useBoards exposes no `fetchAllBoards`, `fetchSpecificBoard` or `setError`. Callers that reach for them through `any` are modelled as getting `undefined`, which is the source of the findings below.
- handleAcceptInvitation (app/components/auth/InvitationPage.tsx:79-112) only calls the current-user request and navigates, so it is not modelled.
- The reset page's redirect effect (app/components/auth/ResetPasswordPage.tsx:26-30) only navigates, so it is not modelled.
- Orchestration components that only wire hooks to JSX are not modelled.
- Boards.BoardStore.CreateNewBoard: requires that a successful create returns at least one board. With an empty array, the source appends `undefined` to the list.
- BoardManagement.BoardManager.HandleCreateBoard: the same requirement, inherited from CreateNewBoard.
- ColumnDragAndDrop.ColumnDragState.HandleDrop: requires the recorded and drop indices to lie inside the list when they differ. The source's `splice` with an index out of range would insert `undefined` or append.
- AddColumnModal.ColumnModal.HandleDropWithUpdate: the same requirement, inherited from HandleDrop.
- AddColumnModal.ColumnModal.HandleReorderExisting: the same requirement. The one recorded index is shared between the new list and the existing list, so it can point past the shorter one.
- TaskManagement.UpdatePatch: the patch is modelled with the key exactly as the source declares it (`column_id`), so an update never moves a task to another column. This is what the code does, not a weakening.
- The split used for invitation links follows JavaScript's `split`, which reads left to right without overlaps. Where marker occurrences overlap, the model gives what the code gives, not "the text after the last marker".

## Findings

| source | as written | input that shows it | evidently intended | confidence | as-written member | corrected member |
|---|---|---|---|---|---|---|
| app/hooks/useBoardColumnManagement.ts:25-29 | the error handler calls `(boardsHook as any).setError`, which useBoards does not return, so it throws before `onError` runs; the catch calls the handler again, which throws again, and the operation rejects without notifying | a failed addColumns, the server answering `success: false` with error "Board not found" | the boards hook records the error and `onError` is called once with it or the fallback message | not executed | BoardColumnManagement.FailureIsNeverReported | BoardColumnManagement.CorrectedReportsEachFailure |
| app/hooks/useBoardManagement.ts:33-37 | the failure handler runs `clearError()` and then throws on the missing `setError`, so the board page shows no error (also 56-59, 74-77 and 90-93) | any failed column add, update, delete or reorder, e.g. error "Board not found" | the error is recorded in the boards hook's `error` | not executed | BoardManagement.FailureErasesError | BoardManagement.BoardManager.Fail |
