# To-do list store and header form, in Dafny

This project models the state core of a single-page to-do application.

- **The store** (`TodoContext`) holds the list of items and the view filter. Each item has an id, a title and a completed flag. The filter is All, Active or Completed.
- **The store's operations**: add an item, toggle one item, toggle all items, retitle, delete one item, delete the completed items, set the filter, and read the filtered view.
- **The header form** (`Header`) holds a draft title. On submit it hands a non-blank draft to the store's add operation and then clears the draft.

Files and modules:

- `array_ops.dfy`, module `ArrayOps`: the JavaScript array operations the store is built from (`map`, `filter`, `every`). `filter` gets an independent characterisation. It keeps exactly the elements that pass, as often as they occur, in their original order. It distributes over concatenation, and it splits a list together with its complement.
- `text.dfy`, module `Text`: `String.prototype.trim` over an explicit whitespace predicate (ECMAScript WhiteSpace and LineTerminator). One lemma pins `Trim` down uniquely. If a string is whitespace, then a middle part with no whitespace at either edge, then whitespace, `Trim` returns that middle part. The lemmas that `Trim` is idempotent and that its result is empty exactly for a blank input are proved as well.
- `todo_context.dfy`, module `TodoContext`: the `Todo` and `Filter` datatypes, and one function per operation that computes the new list from the old one. The lemmas cover the properties of each operation. The class `TodoProvider` holds the two state cells and replaces them in its methods. A ghost field `stored` stands for the list written to local storage, and `Valid()` says it always equals the current list.
- `header.dfy`, module `Header`: `Submitted`, the submit handler as a function on the draft and the list, with its lemmas. The class `HeaderForm` holds the draft and a reference to the store, and `HandleSubmit` is proved to perform `Submitted`. `Session` is a client of both classes. It replays an add / complete / blank submit / add / clear-completed sequence for any two non-empty titles with no whitespace at either edge, and any blank draft.

New ids come from the clock in the source. Here they are a parameter of the add operation. Ids are not assumed unique: toggle, retitle and delete act on every item with the given id.

The model follows the code in three places where one might expect otherwise:
- **Blank titles.** The store's add operation appends an item even when the trimmed title is empty (`AddTodoAcceptsBlank`). Only the header form rejects blank drafts.
- **Unique ids.** Nothing enforces unique ids, so the model does not assume them.
- **Corrupt storage.** Stored data that does not parse would make `JSON.parse` throw. The store does not fall back to an empty list. The model starts from an already-parsed optional list.

## Model

| member | source | states |
|---|---|---|
| `ArrayOps.Map` | src/components/context/TodoContext.tsx:92-96 | `Array.prototype.map`: same length, each element is the callback applied to the element at the same index |
| `ArrayOps.Filter` | src/components/context/TodoContext.tsx:112 | `Array.prototype.filter`: no longer than the input; every kept element is in the input and passes; every passing element of the input is kept |
| `ArrayOps.Every` | src/components/context/TodoContext.tsx:52 | `Array.prototype.every`: true exactly when the predicate holds at every index (so true for an empty array) |
| `ArrayOps.FilterIsSubsequence` | src/components/context/TodoContext.tsx:112 | filter keeps the relative order of what it keeps (the result is a subsequence of the input) |
| `ArrayOps.FilterConcat` | src/components/context/TodoContext.tsx:112 | filter distributes over concatenation: filtering `a + b` gives `a`'s kept elements, then `b`'s |
| `ArrayOps.FilterAllPass` | src/components/context/TodoContext.tsx:112 | when every element passes, filter returns its input unchanged |
| `ArrayOps.FilterIdempotent` | src/components/context/TodoContext.tsx:112 | filtering twice by the same predicate equals filtering once |
| `ArrayOps.FilterCongruent` | src/components/context/TodoContext.tsx:69-79 | two predicates that agree on every element give the same filter result |
| `ArrayOps.FilterPartition` | src/components/context/TodoContext.tsx:69-79 | filtering by a predicate and by its complement splits the input: the lengths add up, and the two results together hold each element exactly as often as the input does |
| `Text.LeadingWhitespace` | src/components/context/TodoContext.tsx:84 | the length of the leading whitespace: everything before it is whitespace, and the character at it is not |
| `Text.TrailingWhitespaceStart` | src/components/context/TodoContext.tsx:84 | where the trailing whitespace starts: everything from it on is whitespace, and the character before it is not |
| `Text.Trim` | src/components/context/TodoContext.tsx:84 | `trim` never lengthens a string, and its result neither starts nor ends with whitespace |
| `Text.LeadingWhitespaceOf` | src/components/context/TodoContext.tsx:84 | the leading whitespace of `pre + rest` is exactly `pre` when `pre` is whitespace and `rest` does not start with whitespace |
| `Text.TrailingWhitespaceOf` | src/components/context/TodoContext.tsx:84 | the trailing whitespace of `rest + post` is exactly `post` when `post` is whitespace and `rest` does not end with whitespace |
| `Text.TrimEmptyIffBlank` | src/components/Header/Header.tsx:12 | `trim(s)` is empty if and only if every character of `s` is whitespace |
| `Text.TrimCharacterization` | src/components/context/TodoContext.tsx:84 | `trim(pre + mid + post) == mid` whenever `pre` and `post` are whitespace and `mid` has no whitespace at either edge (the result of trim is unique) |
| `Text.TrimIdempotent` | src/components/context/TodoContext.tsx:106 | trimming an already trimmed string changes nothing |
| `TodoContext.WithTodoAdded` | src/components/context/TodoContext.tsx:81-89 | addTodo appends exactly one item and keeps all earlier items in order; the new item has the given id, the trimmed title, and is not completed |
| `TodoContext.AddTodoAcceptsBlank` | src/components/context/TodoContext.tsx:81-88 | addTodo does no emptiness check: a blank title still appends one item, whose title is empty |
| `TodoContext.WithStatusToggled` | src/components/context/TodoContext.tsx:91-97 | toggleTodoStatus keeps the length, every id and every title; it flips `completed` exactly on the items with the given id and leaves every other item unchanged |
| `TodoContext.ToggleTwiceRestores` | src/components/context/TodoContext.tsx:91-97 | toggling the same id twice gives back the original list |
| `TodoContext.ToggleAbsentIsNoop` | src/components/context/TodoContext.tsx:91-97 | toggling an id that no item has leaves the list unchanged |
| `TodoContext.AreAllCompleted` | src/components/context/TodoContext.tsx:51-53 | true exactly when every item is completed (so true for the empty list) |
| `TodoContext.UpdatedTodos` | src/components/context/TodoContext.tsx:55-59 | toggle-all keeps the length, the ids, the titles and the order; if every item was completed, none is completed afterwards; if some item was active, all are completed afterwards |
| `TodoContext.ToggleAllFlipsAreAllCompleted` | src/components/context/TodoContext.tsx:51-59 | on a non-empty list, toggle-all flips whether all items are completed |
| `TodoContext.ToggleAllThriceIsOnce` | src/components/context/TodoContext.tsx:51-59 | toggle-all settles into a two-step cycle: applying it three times gives the same list as applying it once |
| `TodoContext.WithTitleUpdated` | src/components/context/TodoContext.tsx:103-109 | updateTodoTitle keeps the length, every id and every completed flag; items with the given id get the trimmed new title; every other item is unchanged |
| `TodoContext.RetitleAbsentIsNoop` | src/components/context/TodoContext.tsx:103-109 | retitling an id that no item has leaves the list unchanged |
| `TodoContext.RetitleAcceptsBlank` | src/components/context/TodoContext.tsx:103-109 | updateTodoTitle does not reject a blank new title: the matching items end up with an empty title |
| `TodoContext.RetitleWithTrimmed` | src/components/context/TodoContext.tsx:106 | retitling with an already trimmed title gives the same list as retitling with the raw title |
| `TodoContext.RetitleCanEmptyATitle` | src/components/context/TodoContext.tsx:103-109 | a concrete list whose titles are all non-empty loses that property after a blank retitle, unlike after any submit through the header |
| `TodoContext.WithTodoDeleted` | src/components/context/TodoContext.tsx:111-113 | deleteTodo keeps exactly the items whose id differs from the given one: every kept item is from the list and has another id, and every such item is kept (multiplicities: `DeleteSplitsList`, `DeleteKeepsMultiplicities`) |
| `TodoContext.DeleteKeepsOrder` | src/components/context/TodoContext.tsx:111-113 | deleteTodo keeps the remaining items in their original relative order |
| `TodoContext.DeleteAbsentIsNoop` | src/components/context/TodoContext.tsx:111-113 | deleting an id that no item has leaves the list unchanged |
| `TodoContext.DeleteSplitsList` | src/components/context/TodoContext.tsx:111-113 | deleteTodo splits the list: what remains and the items with the id add up to the list, in length and as multisets |
| `TodoContext.DeleteKeepsMultiplicities` | src/components/context/TodoContext.tsx:111-113 | deleteTodo removes every occurrence of the items with the id and nothing else: any item with another id occurs in the result exactly as often as in the list |
| `TodoContext.DeletePresentShrinks` | src/components/context/TodoContext.tsx:111-113 | deleting an id that some item has makes the list shorter |
| `TodoContext.DeleteIdempotent` | src/components/context/TodoContext.tsx:111-113 | deleting the same id a second time changes nothing |
| `TodoContext.WithCompletedDeleted` | src/components/context/TodoContext.tsx:115-117 | deleteMultipleTodos keeps exactly the items that are not completed, so afterwards no item is completed |
| `TodoContext.ClearCompletedIsActiveView` | src/components/context/TodoContext.tsx:115-117 | the list left by deleteMultipleTodos equals the Active filtered view of the list before, order included |
| `TodoContext.ClearCompletedKeepsOrder` | src/components/context/TodoContext.tsx:115-117 | deleteMultipleTodos keeps the remaining items in their original order |
| `TodoContext.ClearCompletedIdempotent` | src/components/context/TodoContext.tsx:115-117 | a second deleteMultipleTodos changes nothing |
| `TodoContext.FilteredTodos` | src/components/context/TodoContext.tsx:69-79 | the filtered view holds exactly the items the filter shows: under Active those not completed, under Completed those completed, under All every item |
| `TodoContext.FilteredAllIsWholeList` | src/components/context/TodoContext.tsx:69-79 | under the All filter the view is the whole list |
| `TodoContext.FilteredKeepsOrder` | src/components/context/TodoContext.tsx:69-79 | every view keeps the original relative order of its items |
| `TodoContext.ActiveAndCompletedSplit` | src/components/context/TodoContext.tsx:69-79 | the lengths of the Active and Completed views add up to the list length, and the two views together hold each item exactly as often as the list does |
| `TodoContext.FilteredAfterAdd` | src/components/context/TodoContext.tsx:69-89 | after addTodo the view is the old view, followed by the new item exactly when the current filter shows it |
| `TodoContext.TitlesNonEmptyPreserved` | src/components/context/TodoContext.tsx:91-117 | toggling one item, toggling all, deleting one item and deleting the completed items all keep every title non-empty |
| `TodoContext.TodoProvider.constructor` | src/components/context/TodoContext.tsx:42-48 | the list starts as the stored list if there is one and empty otherwise; the filter starts at All; storage reflects the list |
| `TodoContext.TodoProvider.AddTodo` | src/components/context/TodoContext.tsx:81-89 | replaces the list with `WithTodoAdded` of the old list, keeps the filter, and storage reflects the new list |
| `TodoContext.TodoProvider.ToggleTodoStatus` | src/components/context/TodoContext.tsx:91-97 | replaces the list with `WithStatusToggled` of the old list, keeps the filter, and storage reflects the new list |
| `TodoContext.TodoProvider.ToggleMultipleTodosStatus` | src/components/context/TodoContext.tsx:99-101 | replaces the list with `UpdatedTodos` of the old list, keeps the filter, and storage reflects the new list |
| `TodoContext.TodoProvider.UpdateTodoTitle` | src/components/context/TodoContext.tsx:103-109 | replaces the list with `WithTitleUpdated` of the old list, keeps the filter, and storage reflects the new list |
| `TodoContext.TodoProvider.DeleteTodo` | src/components/context/TodoContext.tsx:111-113 | replaces the list with `WithTodoDeleted` of the old list, keeps the filter, and storage reflects the new list |
| `TodoContext.TodoProvider.DeleteMultipleTodos` | src/components/context/TodoContext.tsx:115-117 | replaces the list with `WithCompletedDeleted` of the old list, keeps the filter, and storage reflects the new list |
| `TodoContext.TodoProvider.SetFilter` | src/components/context/TodoContext.tsx:48 | sets the filter and leaves the list (and so storage) untouched |
| `TodoContext.TodoProvider.Filtered` | src/components/context/TodoContext.tsx:69-79 | the current view is `FilteredTodos` of the current list and filter: a subsequence of the list that holds exactly the items the current filter shows |
| `Header.Submitted` | src/components/Header/Header.tsx:9-16 | a blank draft changes neither the draft nor the list; any other draft is passed untrimmed to addTodo, and the draft becomes empty |
| `Header.SubmitLeavesBlankDraft` | src/components/Header/Header.tsx:12-15 | after any submit the trimmed draft is empty |
| `Header.SubmitAddsOneNonEmptyItem` | src/components/Header/Header.tsx:12-14 | a submit grows the list by one exactly when the draft is not blank; that item comes last, earlier items are unchanged, its title is the trimmed draft and is non-empty, and it is not completed |
| `Header.SubmitPreservesTitlesNonEmpty` | src/components/Header/Header.tsx:12-14 | if every title is non-empty before a submit, every title is non-empty after it |
| `Header.HeaderForm.constructor` | src/components/Header/Header.tsx:5-6 | the draft starts empty, and the form is bound to the given store |
| `Header.HeaderForm.SetTodoTitle` | src/components/Header/Header.tsx:36 | typing replaces the draft |
| `Header.HeaderForm.HandleSubmit` | src/components/Header/Header.tsx:9-16 | the new draft and the store's new list are exactly `Submitted` of the old ones; the store's filter is unchanged and storage still reflects the list |

## Left out

- Local storage and JSON (TodoContext.tsx:42-46, 61-62). Serialising and parsing are not modelled. The write after every change of the list is the ghost field `stored`, and `Valid()` says it equals the list. The constructor takes the already-parsed stored list, or none. A `JSON.parse` failure on corrupt data, which throws in the source, is not modelled.
- Focus restoration with `setTimeout` and `headerInputRef` (TodoContext.tsx:49, 64-66; Header.tsx:7, 31). These are UI scheduling and have no effect on the data.
- React plumbing (TodoContext.tsx:13-37, 119-146): the context object, the value object, `useCallback`/`useMemo` memoisation, and the error `useTodoContext` throws outside a provider, which is a usage error. The model computes `updatedTodos` from the list current at the call. The source reads the value memoised at the last render, which is the same list unless two updates happen within one render.
- Id generation from the clock (TodoContext.tsx:83). The id is a parameter of `AddTodo`, `HandleSubmit` and `Submitted`.
- JSX rendering, `event.preventDefault()`, and the toggle-all button in the header (Header.tsx:10, 18-40). The button is not wired to anything, and its `active` class is fixed in the markup. The input's change handler is kept only as `SetTodoTitle`.
- Header.HeaderForm.HandleSubmit: the promise that addTodo is called exactly once, with the untrimmed draft, is stated through its effect on the store's list (one item appended, titled with the trimmed draft). It is not stated as a log of calls.
- Text.IsWhitespace: the space separators are those of Unicode category Zs as listed in the ECMAScript standard. JavaScript strings are UTF-16 code units, while Dafny characters are Unicode scalar values, so unpaired surrogates are not represented. Only `TodoContext.RetitleCanEmptyATitle` depends on which characters the predicate contains: it uses that a space is whitespace, so that retitling to `" "` gives an empty title.
- Integer width: JavaScript numbers are doubles. Ids are taken as unbounded integers, because ids are only compared for equality.
