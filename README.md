# GetItDone `Home` controller, modelled in Dafny

GetItDone is a single-page to-do list. Its only logic is the client-side
controller state of the `Home` React component:

- the todo list;
- the input text;
- the search string;
- the edit-mode marker `updating` (`""` means idle);
- the edit target `id`;
- the colour theme;
- the loading flag.

Four handlers change it: `toggleTheme`, `handleSearch`, `handleChange` and
`handleEdit`. Two expressions are derived from it:

- `filteredTodos`, the case-insensitive search filter;
- the submit button's add/edit dispatch and its caption.

The project has two files:

- `jsstring.dfy` (module `JsString`) models the two JavaScript string
  built-ins the filter uses. `toLowerCase` is modelled on ASCII. `includes`
  is a substring test, proved equal to the "occurs at some offset"
  definition.
- `home.dfy` (module `HomeComponent`) holds the rest:
  - the `Todo` value;
  - the pure `Filter`, `Dispatch`, `Label` and `Toggled` functions with
    their lemmas;
  - a class `Home` whose fields are the seven `useState` cells. Each handler
    is a method whose `modifies` frame names exactly the fields its setters
    write.

The API module (`addTodo`, `editTodo`, `deleteTodo`, `fetchTodos`) is not
part of this model. From this file we only know which setters each call is
handed. `Home.SettleFetch`, `Home.SettleAdd`, `Home.SettleEdit` and
`Home.SettleDelete` take the values those setters receive as parameters. Their frames show what a
resolved call can and cannot touch. For example, no API call changes the
search string, the theme or the edit target `id`.

One edge case follows from JavaScript truthiness. `handleEdit` called with
an empty `_id` leaves `updating` falsy, so the button still adds.
`HandleEdit`'s contract states both cases.

## Model

| member | source | states |
|---|---|---|
| `JsString.Lower` | Frontend/src/components/Home.js:40 | `toLowerCase` keeps the length, maps each character through `LowerChar`, and leaves no ASCII capital behind |
| `JsString.LowerChar` | Frontend/src/components/Home.js:40 | a capital becomes the small letter 32 code points above it; any other character is unchanged; the result is never a capital |
| `JsString.LowerIdempotent` | Frontend/src/components/Home.js:40 | lower-casing twice equals lower-casing once |
| `JsString.ContainsIffOccurs` | Frontend/src/components/Home.js:40 | `includes` holds exactly when the needle occurs at some offset of the text |
| `JsString.Contains` | Frontend/src/components/Home.js:40 | `includes`: a needle that is found is no longer than the text, and the empty needle is found in every string |
| `HomeComponent.Matches` | Frontend/src/components/Home.js:39-40 | the filter callback: a matching search is no longer than the item text, and the empty search matches every item |
| `HomeComponent.Filter` | Frontend/src/components/Home.js:39-41 | the filtered list is no longer than the list, and every item in it comes from the list and matches the search case-insensitively |
| `HomeComponent.FilterIsSubsequence` | Frontend/src/components/Home.js:39-41 | the filtered list is an order-preserving subsequence of `todos`, so it is never longer than `todos` |
| `HomeComponent.FilterCount` | Frontend/src/components/Home.js:39-41 | each item occurs in the result as often as in `todos` when it matches, and not at all when it does not |
| `HomeComponent.FilterMembership` | Frontend/src/components/Home.js:39-41 | an item is shown if and only if it is in `todos` and `Lower(search)` is a substring of `Lower(item.text)` |
| `HomeComponent.FilterKeepsAll` | Frontend/src/components/Home.js:39-41 | a list whose every item matches comes back unchanged |
| `HomeComponent.FilterEmptySearch` | Frontend/src/components/Home.js:39-41 | with an empty search the list is returned unchanged, in order |
| `HomeComponent.FilterIdempotent` | Frontend/src/components/Home.js:39-41 | filtering the filtered list again with the same search changes nothing |
| `HomeComponent.FilterCaseInsensitive` | Frontend/src/components/Home.js:39-41 | two searches equal up to ASCII case show the same items |
| `HomeComponent.FilterLowerSearch` | Frontend/src/components/Home.js:39-41 | searching for the lower-cased string shows the same items as the original search |
| `HomeComponent.Dispatch` | Frontend/src/components/Home.js:74-87 | the click is `Edit(id, text)` exactly when `updating` is non-empty, and `Add(text)` otherwise; the current input text is sent either way |
| `HomeComponent.Label` | Frontend/src/components/Home.js:89 | the caption is "Edit The Todo" exactly when `updating` is non-empty, and "Add New Todo" otherwise |
| `HomeComponent.LabelAgreesWithDispatch` | Frontend/src/components/Home.js:74-90 | the caption always names the action the click performs |
| `HomeComponent.Toggled` | Frontend/src/components/Home.js:22-24 | the new theme is one of the two themes, and it is light exactly when the old one was dark |
| `HomeComponent.ToggleTwice` | Frontend/src/components/Home.js:22-24 | from either theme a toggle changes the theme and a second toggle restores it |
| `HomeComponent.Home.constructor` | Frontend/src/components/Home.js:9-15 | initial state: empty list, empty text, search, updating and id, theme "dark-theme", loading true |
| `HomeComponent.Home.Valid` | Frontend/src/components/Home.js:14 | the theme invariant: the theme is one of the two themes, which holds exactly when two toggles give the theme back |
| `HomeComponent.Home.FilteredTodos` | Frontend/src/components/Home.js:39-41 | the list the component renders holds exactly the items of `todos` that match the current `search` |
| `HomeComponent.Home.ButtonAction` | Frontend/src/components/Home.js:74-90 | the handler wired to the button is `Edit(id, text)` or `Add(text)` for the current state, and the caption `Label(updating)` names that action |
| `HomeComponent.Home.ToggleTheme` | Frontend/src/components/Home.js:22-24 | only the theme changes; it becomes `Toggled` of the old one and stays one of the two themes |
| `HomeComponent.Home.HandleSearch` | Frontend/src/components/Home.js:30 | only `search` changes; it becomes the box's value |
| `HomeComponent.Home.HandleChange` | Frontend/src/components/Home.js:31 | only `text` changes; it becomes the box's value |
| `HomeComponent.Home.HandleEdit` | Frontend/src/components/Home.js:33-37 | `updating` and `id` become the item's id and `text` its text, whatever the input held before; search, theme, list and loading are unchanged; the button then edits that item, or adds when the id is empty |
| `HomeComponent.Home.SettleAdd` | Frontend/src/components/Home.js:86 | a resolved `addTodo` can change only `text` and `todos`, the two setters it is handed |
| `HomeComponent.Home.SettleEdit` | Frontend/src/components/Home.js:77-85 | a resolved `editTodo` can change only `text`, `updating` and `todos`; the edit target `id` stays |
| `HomeComponent.Home.SettleFetch` | Frontend/src/components/Home.js:18 | a resolved `fetchTodos` can change only `todos`, the one setter it is handed |
| `HomeComponent.Home.SettleDelete` | Frontend/src/components/Home.js:100 | a resolved `deleteTodo` can change only `todos` |
| `HomeComponent.EditTwice` | Frontend/src/components/Home.js:33-37 | after two `handleEdit` calls the second target and its text win; the first edit's text is discarded; nothing else changes |
| `HomeComponent.ToggleThemeTwice` | Frontend/src/components/Home.js:22-24 | two clicks on the theme icon restore the theme; the frame keeps every other field unchanged |

## Left out

- Rendering, icons and the styled-components stylesheet (Frontend/src/components/Home.js:43-110 and 112-218): these are presentation only.
- The `Box` child component: `./Box` is not part of this model.
- The bodies of `fetchTodos`, `addTodo`, `editTodo` and `deleteTodo`: `../utils/API` is not part of this model. The values they pass to the setters are parameters of the `Settle*` methods. How they compute the new list, and whether they clear `updating`, cannot be stated.
- The mount effect (Frontend/src/components/Home.js:17-20) starts `fetchTodos` and then clears `loading`. Its order depends on asynchronous timing and React scheduling, so the model has no operation that clears `loading`. The fetch's own outcome is `Home.SettleFetch`.
- The theme effect writes `document.body.className` (Frontend/src/components/Home.js:26-28). This is a global DOM write outside the component state.
- JsString.Contains: a Dafny `string` is a sequence of Unicode scalar values, while a JavaScript string is a sequence of UTF-16 code units. On well-formed text `includes` gives the same answer, but a JavaScript string holding a lone surrogate has no counterpart in the model.
- JsString.Lower: models `toLowerCase` on ASCII capitals only. Full Unicode case mapping is not modelled.
- React's batching of the three setters in `handleEdit` is not modelled. Each method applies its updates at once.
