/** The controller state of the `Home` component: the todo list it holds,
    the search-as-you-type filter over it, the edit-mode marker that decides
    what the submit button does, and the two-valued colour theme. */
module HomeComponent {
  import opened JsString

  /** One todo as the backend returns it: its `_id` and its `text`. */
  datatype Todo = Todo(id: string, text: string)

  // ---------------------------------------------------------------------
  // Filtering (`filteredTodos`)
  // ---------------------------------------------------------------------

  /** The filter's test for one item: the lower-cased search string occurs
      in the lower-cased item text. */
  predicate Matches(t: Todo, search: string): (r: bool)
    ensures r ==> |search| <= |t.text|
    ensures search == "" ==> r
  {
    LowerEmpty();
    Contains(Lower(t.text), Lower(search))
  }

  /** `todos.filter(todo => todo.text.toLowerCase().includes(search.toLowerCase()))`. */
  function Filter(todos: seq<Todo>, search: string): (r: seq<Todo>)
    ensures |r| <= |todos|
    ensures forall i :: 0 <= i < |r| ==> Matches(r[i], search) && r[i] in todos
  {
    if todos == [] then []
    else if Matches(todos[0], search) then [todos[0]] + Filter(todos[1..], search)
    else Filter(todos[1..], search)
  }

  /** `a` is `b` with some elements dropped and the rest kept in order. */
  ghost predicate IsSubsequence<T>(a: seq<T>, b: seq<T>)
    decreases |b|
  {
    if a == [] then true
    else if b == [] then false
    else if a[0] == b[0] then IsSubsequence(a[1..], b[1..])
    else IsSubsequence(a, b[1..])
  }

  lemma {:induction false} SubsequenceLength<T>(a: seq<T>, b: seq<T>)
    requires IsSubsequence(a, b)
    ensures |a| <= |b|
    decreases |b|
  {
    if a != [] && b != [] {
      if a[0] == b[0] {
        SubsequenceLength(a[1..], b[1..]);
      } else {
        SubsequenceLength(a, b[1..]);
      }
    }
  }

  /** The filtered list keeps the order of the list it came from. */
  lemma {:induction false} FilterIsSubsequence(todos: seq<Todo>, search: string)
    ensures IsSubsequence(Filter(todos, search), todos)
    ensures |Filter(todos, search)| <= |todos|
  {
    if todos != [] {
      FilterIsSubsequence(todos[1..], search);
      var rest := Filter(todos[1..], search);
      if Matches(todos[0], search) {
        assert ([todos[0]] + rest)[1..] == rest;
      } else if rest != [] {
        SkipHead(rest, todos);
      }
    }
    SubsequenceLength(Filter(todos, search), todos);
  }

  lemma SkipHead<T>(a: seq<T>, b: seq<T>)
    requires b != [] && IsSubsequence(a, b[1..])
    ensures IsSubsequence(a, b)
    decreases |a| + |b|
  {
    if a != [] && a[0] == b[0] {
      SubsequenceTail(a, b[1..]);
    }
  }

  lemma SubsequenceTail<T>(a: seq<T>, b: seq<T>)
    requires a != [] && IsSubsequence(a, b)
    ensures IsSubsequence(a[1..], b)
    decreases |a| + |b|
  {
    if b != [] {
      if a[0] == b[0] {
        if a[1..] != [] {
          SkipHead(a[1..], b);
        }
      } else {
        SubsequenceTail(a, b[1..]);
        if a[1..] != [] {
          SkipHead(a[1..], b);
        }
      }
    }
  }

  /** Every occurrence of a matching item survives the filter and no
      occurrence of any other item does. */
  lemma {:induction false} FilterCount(todos: seq<Todo>, search: string, x: Todo)
    ensures multiset(Filter(todos, search))[x] ==
              if Matches(x, search) then multiset(todos)[x] else 0
  {
    if todos != [] {
      FilterCount(todos[1..], search, x);
      assert todos == [todos[0]] + todos[1..];
      assert multiset(todos) == multiset{todos[0]} + multiset(todos[1..]);
    }
  }

  /** An item is shown exactly when it is in the list and matches the search. */
  lemma {:induction false} FilterMembership(todos: seq<Todo>, search: string, x: Todo)
    ensures x in Filter(todos, search) <==> x in todos && Matches(x, search)
  {
    FilterCount(todos, search, x);
  }

  /** A list whose every item matches passes the filter unchanged. */
  lemma {:induction false} FilterKeepsAll(todos: seq<Todo>, search: string)
    requires forall i :: 0 <= i < |todos| ==> Matches(todos[i], search)
    ensures Filter(todos, search) == todos
  {
    if todos != [] {
      FilterKeepsAll(todos[1..], search);
      assert todos == [todos[0]] + todos[1..];
    }
  }

  /** With an empty search box the whole list is shown, in order. */
  lemma {:induction false} FilterEmptySearch(todos: seq<Todo>)
    ensures Filter(todos, "") == todos
  {
    FilterKeepsAll(todos, "");
  }

  /** Filtering an already filtered list again with the same search changes nothing. */
  lemma {:induction false} FilterIdempotent(todos: seq<Todo>, search: string)
    ensures Filter(Filter(todos, search), search) == Filter(todos, search)
  {
    FilterKeepsAll(Filter(todos, search), search);
  }

  /** The search string only matters up to ASCII case. */
  lemma {:induction false} FilterCaseInsensitive(todos: seq<Todo>, s1: string, s2: string)
    requires Lower(s1) == Lower(s2)
    ensures Filter(todos, s1) == Filter(todos, s2)
  {
    if todos != [] {
      FilterCaseInsensitive(todos[1..], s1, s2);
    }
  }

  /** Searching for the lower-cased string shows the same items. */
  lemma FilterLowerSearch(todos: seq<Todo>, search: string)
    ensures Filter(todos, Lower(search)) == Filter(todos, search)
  {
    LowerIdempotent(search);
    FilterCaseInsensitive(todos, Lower(search), search);
  }

  // ---------------------------------------------------------------------
  // The submit button
  // ---------------------------------------------------------------------

  /** What a click on the submit button asks of the API. */
  datatype Action = Add(text: string) | Edit(id: string, text: string)

  /** The `onClick` handler the button is given: `updating` is a string,
      so it is truthy exactly when it is not empty. */
  function Dispatch(updating: string, id: string, text: string): (a: Action)
    ensures a.text == text
    ensures a.Edit? <==> updating != ""
    ensures a.Edit? ==> a.id == id
  {
    if updating != "" then Edit(id, text) else Add(text)
  }

  const EditLabel := "Edit The Todo"
  const AddLabel := "Add New Todo"

  /** The caption the same `updating` test puts on the button. */
  function Label(updating: string): (r: string)
    ensures r == EditLabel || r == AddLabel
    ensures r == EditLabel <==> updating != ""
  {
    if updating != "" then EditLabel else AddLabel
  }

  /** The caption that describes an action. */
  function LabelOf(a: Action): string {
    match a
    case Edit(_, _) => EditLabel
    case Add(_) => AddLabel
  }

  /** The caption always announces the action the click performs. */
  lemma LabelAgreesWithDispatch(updating: string, id: string, text: string)
    ensures Label(updating) == LabelOf(Dispatch(updating, id, text))
    ensures Label(updating) == EditLabel <==> Dispatch(updating, id, text).Edit?
  {
    assert EditLabel != AddLabel by { assert EditLabel[0] != AddLabel[0]; }
  }

  // ---------------------------------------------------------------------
  // The theme
  // ---------------------------------------------------------------------

  const DarkTheme := "dark-theme"
  const LightTheme := "light-theme"

  predicate IsTheme(t: string) {
    t == DarkTheme || t == LightTheme
  }

  /** `toggleTheme`'s choice: light after dark, dark after anything else. */
  function Toggled(theme: string): (r: string)
    ensures IsTheme(r)
    ensures r == LightTheme <==> theme == DarkTheme
  {
    assert DarkTheme != LightTheme by { assert DarkTheme[0] != LightTheme[0]; }
    if theme == DarkTheme then LightTheme else DarkTheme
  }

  /** From either theme, two toggles bring it back. */
  lemma ToggleTwice(theme: string)
    requires IsTheme(theme)
    ensures Toggled(Toggled(theme)) == theme
    ensures Toggled(theme) != theme
  {
  }

  // ---------------------------------------------------------------------
  // The component state
  // ---------------------------------------------------------------------

  /** The seven `useState` cells of `Home`; each setter is a field update. */
  class Home {
    var todos: seq<Todo>
    var text: string
    var search: string
    var updating: string
    var id: string
    var theme: string
    var loading: bool

    /** The theme is always one of the two the stylesheet knows. */
    ghost predicate Valid(): (r: bool)
      reads this
      ensures r <==> Toggled(Toggled(theme)) == theme
    {
      IsTheme(theme)
    }

    /** The initial values passed to `useState`. */
    constructor ()
      ensures Valid()
      ensures todos == [] && text == "" && search == "" && updating == "" && id == ""
      ensures theme == DarkTheme && loading
    {
      todos, text, search, updating, id := [], "", "", "", "";
      theme, loading := DarkTheme, true;
    }

    /** The list the component renders. */
    function FilteredTodos(): (r: seq<Todo>)
      reads this
      ensures forall x :: x in r <==> x in todos && Matches(x, search)
    {
      assert forall x :: x in Filter(todos, search) <==> x in todos && Matches(x, search) by {
        forall x ensures x in Filter(todos, search) <==> x in todos && Matches(x, search) {
          FilterMembership(todos, search, x);
        }
      }
      Filter(todos, search)
    }

    /** The handler currently wired to the submit button. */
    function ButtonAction(): (a: Action)
      reads this
      ensures LabelOf(a) == Label(updating)
      ensures a.Edit? ==> a == Edit(id, text)
      ensures a.Add? ==> a == Add(text)
    {
      LabelAgreesWithDispatch(updating, id, text);
      Dispatch(updating, id, text)
    }

    method ToggleTheme()
      requires Valid()
      modifies this`theme
      ensures Valid()
      ensures theme == Toggled(old(theme))
      ensures theme != old(theme)
    {
      theme := Toggled(theme);
    }

    /** `handleSearch`: the search box sets the filter string and nothing else. */
    method HandleSearch(value: string)
      requires Valid()
      modifies this`search
      ensures Valid()
      ensures search == value
    {
      search := value;
    }

    /** `handleChange`: the input box sets the input text and nothing else. */
    method HandleChange(value: string)
      requires Valid()
      modifies this`text
      ensures Valid()
      ensures text == value
    {
      text := value;
    }

    /** `handleEdit`: enter edit mode for `editId`, seeding the input with its
        text.  Whatever the input held before is lost.  An empty `editId`
        leaves `updating` falsy, so the button then still adds. */
    method HandleEdit(editId: string, editText: string)
      requires Valid()
      modifies this`updating, this`id, this`text
      ensures Valid()
      ensures updating == editId && id == editId && text == editText
      ensures editId != "" ==> ButtonAction() == Edit(editId, editText)
      ensures editId == "" ==> ButtonAction() == Add(editText)
    {
      updating := editId;
      id := editId;
      text := editText;
    }

    /** What `addTodo` may do when it resolves: it is handed `setText` and
        `setTodos` only, so the values it sets are parameters here and no
        other field can change. */
    method SettleAdd(newText: string, newTodos: seq<Todo>)
      requires Valid()
      modifies this`text, this`todos
      ensures Valid()
      ensures text == newText && todos == newTodos
    {
      text := newText;
      todos := newTodos;
    }

    /** What `editTodo` may do when it resolves: it is handed `setText`,
        `setUpdating` and `setTodos`; the edit target `id`, the search and
        the theme stay as they were. */
    method SettleEdit(newText: string, newUpdating: string, newTodos: seq<Todo>)
      requires Valid()
      modifies this`text, this`updating, this`todos
      ensures Valid()
      ensures text == newText && updating == newUpdating && todos == newTodos
    {
      text := newText;
      updating := newUpdating;
      todos := newTodos;
    }

    /** What `fetchTodos` may do when it resolves on mount: it is handed
        `setTodos` only. */
    method SettleFetch(newTodos: seq<Todo>)
      requires Valid()
      modifies this`todos
      ensures Valid()
      ensures todos == newTodos
    {
      todos := newTodos;
    }

    /** What `deleteTodo` may do when it resolves: it is handed `setTodos` only. */
    method SettleDelete(newTodos: seq<Todo>)
      requires Valid()
      modifies this`todos
      ensures Valid()
      ensures todos == newTodos
    {
      todos := newTodos;
    }
  }

  /** Two edits in a row: the second target and its text win, and the
      first edit's input is discarded; search, theme and list are untouched. */
  method EditTwice(h: Home, a: string, ta: string, b: string, tb: string)
    requires h.Valid()
    modifies h
    ensures h.Valid()
    ensures h.updating == b && h.id == b && h.text == tb
    ensures h.search == old(h.search) && h.theme == old(h.theme) && h.todos == old(h.todos)
    ensures h.loading == old(h.loading)
  {
    h.HandleEdit(a, ta);
    h.HandleEdit(b, tb);
  }

  /** Two clicks on the theme icon restore the theme. */
  method ToggleThemeTwice(h: Home)
    requires h.Valid()
    modifies h`theme
    ensures h.Valid()
    ensures h.theme == old(h.theme)
  {
    ghost var before := h.theme;
    h.ToggleTheme();
    h.ToggleTheme();
    ToggleTwice(before);
  }
}
