/**
 * The to-do store: a list of items and a view filter. Every operation
 * replaces the whole list with a new value computed from the old one; those
 * new values are the functions below, and the class TodoProvider holds the
 * two state cells and swaps them in.
 */
module TodoContext {
  import A = ArrayOps
  import Text

  /** One to-do item. Ids come from the clock; nothing checks that they are unique. */
  datatype Todo = Todo(id: int, title: string, completed: bool)

  /** Which items the filtered view shows. */
  datatype Filter = All | Active | Completed

  datatype Option<T> = None | Some(value: T)

  predicate IsCompleted(t: Todo) { t.completed }

  predicate IsActive(t: Todo) { !t.completed }

  /** The filtered view's callback: which items the filter lets through. */
  predicate Shows(filter: Filter, t: Todo) {
    match filter
    case Active => !t.completed
    case Completed => t.completed
    case All => true
  }

  function ShownBy(filter: Filter): Todo -> bool { (t: Todo) => Shows(filter, t) }

  function HasId(id: int): Todo -> bool { (t: Todo) => t.id == id }

  function HasOtherId(id: int): Todo -> bool { (t: Todo) => t.id != id }

  function FlipIfId(id: int): Todo -> Todo {
    (t: Todo) => if t.id == id then t.(completed := !t.completed) else t
  }

  function RetitleIfId(id: int, newTitle: string): Todo -> Todo {
    (t: Todo) => if t.id == id then t.(title := Text.Trim(newTitle)) else t
  }

  function SetCompleted(completed: bool): Todo -> Todo {
    (t: Todo) => t.(completed := completed)
  }

  /** Every item has a non-empty title: what the header form's guard maintains. */
  ghost predicate TitlesNonEmpty(todos: seq<Todo>) {
    forall i :: 0 <= i < |todos| ==> todos[i].title != []
  }

  // ---------------------------------------------------------------------------
  // The new list each operation computes

  /** addTodo: one new, not completed item with the trimmed title, after all earlier items. */
  function WithTodoAdded(todos: seq<Todo>, id: int, title: string): (r: seq<Todo>)
    ensures |r| == |todos| + 1 && r[..|todos|] == todos
    ensures r[|todos|].id == id && r[|todos|].title == Text.Trim(title) && !r[|todos|].completed
  {
    todos + [Todo(id, Text.Trim(title), false)]
  }

  /** toggleTodoStatus: flips the flag of every item with the given id and touches nothing else. */
  function WithStatusToggled(todos: seq<Todo>, id: int): (r: seq<Todo>)
    ensures |r| == |todos|
    ensures forall i :: 0 <= i < |todos| ==>
      r[i].id == todos[i].id && r[i].title == todos[i].title &&
      r[i].completed == (todos[i].completed != (todos[i].id == id))
    ensures forall i :: 0 <= i < |todos| && todos[i].id != id ==> r[i] == todos[i]
  {
    A.Map(todos, FlipIfId(id))
  }

  /** areAllCompleted: whether no item is still active (true of the empty list). */
  function AreAllCompleted(todos: seq<Todo>): (r: bool)
    ensures r <==> forall i :: 0 <= i < |todos| ==> todos[i].completed
  {
    A.Every(todos, IsCompleted)
  }

  /**
   * updatedTodos, which toggleMultipleTodosStatus installs: if every item is
   * completed, every item becomes active; otherwise every item becomes completed.
   */
  function UpdatedTodos(todos: seq<Todo>): (r: seq<Todo>)
    ensures |r| == |todos|
    ensures forall i :: 0 <= i < |todos| ==> r[i].id == todos[i].id && r[i].title == todos[i].title
    ensures (forall i :: 0 <= i < |todos| ==> todos[i].completed) ==>
      forall i :: 0 <= i < |r| ==> !r[i].completed
    ensures (exists j :: 0 <= j < |todos| && !todos[j].completed) ==>
      forall i :: 0 <= i < |r| ==> r[i].completed
  {
    A.Map(todos, SetCompleted(!AreAllCompleted(todos)))
  }

  /** updateTodoTitle: gives every item with the given id the trimmed title, even an empty one. */
  function WithTitleUpdated(todos: seq<Todo>, id: int, newTitle: string): (r: seq<Todo>)
    ensures |r| == |todos|
    ensures forall i :: 0 <= i < |todos| ==>
      r[i].id == todos[i].id && r[i].completed == todos[i].completed
    ensures forall i :: 0 <= i < |todos| && todos[i].id == id ==> r[i].title == Text.Trim(newTitle)
    ensures forall i :: 0 <= i < |todos| && todos[i].id != id ==> r[i] == todos[i]
  {
    A.Map(todos, RetitleIfId(id, newTitle))
  }

  /** deleteTodo: exactly the items whose id differs. */
  function WithTodoDeleted(todos: seq<Todo>, id: int): (r: seq<Todo>)
    ensures forall i :: 0 <= i < |r| ==> r[i] in todos && r[i].id != id
    ensures forall i :: 0 <= i < |todos| && todos[i].id != id ==> todos[i] in r
  {
    A.Filter(todos, HasOtherId(id))
  }

  /** deleteMultipleTodos: exactly the items that are not completed. */
  function WithCompletedDeleted(todos: seq<Todo>): (r: seq<Todo>)
    ensures forall i :: 0 <= i < |r| ==> r[i] in todos && !r[i].completed
    ensures forall i :: 0 <= i < |todos| && !todos[i].completed ==> todos[i] in r
  {
    A.Filter(todos, IsActive)
  }

  /** filteredTodos: exactly the items the filter shows. */
  function FilteredTodos(todos: seq<Todo>, filter: Filter): (r: seq<Todo>)
    ensures forall i :: 0 <= i < |r| ==> r[i] in todos && Shows(filter, r[i])
    ensures forall i :: 0 <= i < |todos| && Shows(filter, todos[i]) ==> todos[i] in r
  {
    A.Filter(todos, ShownBy(filter))
  }

  // ---------------------------------------------------------------------------
  // addTodo

  /** addTodo does not reject a blank title: it appends an item whose title is empty. */
  lemma AddTodoAcceptsBlank(todos: seq<Todo>, id: int, title: string)
    requires Text.AllWhitespace(title)
    ensures |WithTodoAdded(todos, id, title)| == |todos| + 1
    ensures WithTodoAdded(todos, id, title)[|todos|].title == []
  {
  }

  // ---------------------------------------------------------------------------
  // toggleTodoStatus

  /** Toggling the same id twice restores the list. */
  lemma ToggleTwiceRestores(todos: seq<Todo>, id: int)
    ensures WithStatusToggled(WithStatusToggled(todos, id), id) == todos
  {
  }

  /** Toggling an id no item has changes nothing. */
  lemma ToggleAbsentIsNoop(todos: seq<Todo>, id: int)
    requires forall i :: 0 <= i < |todos| ==> todos[i].id != id
    ensures WithStatusToggled(todos, id) == todos
  {
  }

  // ---------------------------------------------------------------------------
  // toggleMultipleTodosStatus

  /** On a non-empty list, toggling all flips whether all items are completed. */
  lemma ToggleAllFlipsAreAllCompleted(todos: seq<Todo>)
    requires todos != []
    ensures AreAllCompleted(UpdatedTodos(todos)) == !AreAllCompleted(todos)
  {
  }

  /**
   * Toggling all settles into a cycle of two: a third toggle-all gives what
   * the first gave.
   */
  lemma ToggleAllThriceIsOnce(todos: seq<Todo>)
    ensures UpdatedTodos(UpdatedTodos(UpdatedTodos(todos))) == UpdatedTodos(todos)
  {
  }

  // ---------------------------------------------------------------------------
  // updateTodoTitle

  /** Retitling an id no item has changes nothing. */
  lemma RetitleAbsentIsNoop(todos: seq<Todo>, id: int, newTitle: string)
    requires forall i :: 0 <= i < |todos| ==> todos[i].id != id
    ensures WithTitleUpdated(todos, id, newTitle) == todos
  {
  }

  /** updateTodoTitle does not reject a blank title: the matching items end up with an empty one. */
  lemma RetitleAcceptsBlank(todos: seq<Todo>, id: int, newTitle: string)
    requires Text.AllWhitespace(newTitle)
    ensures forall i :: 0 <= i < |todos| && todos[i].id == id ==>
      WithTitleUpdated(todos, id, newTitle)[i].title == []
  {
  }

  /** Retitling with an already trimmed title is the same as retitling with the raw one. */
  lemma RetitleWithTrimmed(todos: seq<Todo>, id: int, newTitle: string)
    ensures WithTitleUpdated(todos, id, Text.Trim(newTitle)) == WithTitleUpdated(todos, id, newTitle)
  {
    Text.TrimIdempotent(newTitle);
  }

  /** So, unlike the header form, updateTodoTitle can break the non-empty-titles invariant. */
  lemma RetitleCanEmptyATitle()
    ensures TitlesNonEmpty([Todo(1, "a", false)])
    ensures !TitlesNonEmpty(WithTitleUpdated([Todo(1, "a", false)], 1, " "))
  {
  }

  // ---------------------------------------------------------------------------
  // deleteTodo

  /** deleteTodo keeps the remaining items in their original order. */
  lemma DeleteKeepsOrder(todos: seq<Todo>, id: int)
    ensures A.IsSubsequence(WithTodoDeleted(todos, id), todos)
  {
    A.FilterIsSubsequence(todos, HasOtherId(id));
  }

  /** Deleting an id no item has changes nothing. */
  lemma DeleteAbsentIsNoop(todos: seq<Todo>, id: int)
    requires forall i :: 0 <= i < |todos| ==> todos[i].id != id
    ensures WithTodoDeleted(todos, id) == todos
  {
    A.FilterAllPass(todos, HasOtherId(id));
  }

  /** Deleting an id that some item has shortens the list. */
  lemma DeletePresentShrinks(todos: seq<Todo>, id: int, k: nat)
    requires k < |todos| && todos[k].id == id
    ensures |WithTodoDeleted(todos, id)| < |todos|
  {
    A.FilterPartition(todos, HasOtherId(id), HasId(id));
    assert todos[k] in A.Filter(todos, HasId(id));
  }

  /**
   * Deletion splits the list: what remains and the items with the id together
   * make up the list, in length and with each item exactly as often as before.
   */
  lemma DeleteSplitsList(todos: seq<Todo>, id: int)
    ensures |WithTodoDeleted(todos, id)| + |A.Filter(todos, HasId(id))| == |todos|
    ensures multiset(WithTodoDeleted(todos, id)) + multiset(A.Filter(todos, HasId(id))) == multiset(todos)
  {
    A.FilterPartition(todos, HasOtherId(id), HasId(id));
  }

  /**
   * Deletion removes every occurrence of the items with the id and nothing
   * else: an item with another id occurs as often as before.
   */
  lemma DeleteKeepsMultiplicities(todos: seq<Todo>, id: int, t: Todo)
    ensures multiset(WithTodoDeleted(todos, id))[t] == (if t.id == id then 0 else multiset(todos)[t])
  {
    DeleteSplitsList(todos, id);
    if t.id != id {
      assert t !in A.Filter(todos, HasId(id));
    }
  }

  /** Deleting the same id a second time changes nothing. */
  lemma DeleteIdempotent(todos: seq<Todo>, id: int)
    ensures WithTodoDeleted(WithTodoDeleted(todos, id), id) == WithTodoDeleted(todos, id)
  {
    A.FilterIdempotent(todos, HasOtherId(id));
  }

  // ---------------------------------------------------------------------------
  // deleteMultipleTodos

  /** deleteMultipleTodos leaves exactly what the Active view shows, order included. */
  lemma ClearCompletedIsActiveView(todos: seq<Todo>)
    ensures WithCompletedDeleted(todos) == FilteredTodos(todos, Active)
  {
    A.FilterCongruent(todos, IsActive, ShownBy(Active));
  }

  /** deleteMultipleTodos keeps the remaining items in their original order. */
  lemma ClearCompletedKeepsOrder(todos: seq<Todo>)
    ensures A.IsSubsequence(WithCompletedDeleted(todos), todos)
  {
    A.FilterIsSubsequence(todos, IsActive);
  }

  /** A second deleteMultipleTodos changes nothing. */
  lemma ClearCompletedIdempotent(todos: seq<Todo>)
    ensures WithCompletedDeleted(WithCompletedDeleted(todos)) == WithCompletedDeleted(todos)
  {
    A.FilterIdempotent(todos, IsActive);
  }

  // ---------------------------------------------------------------------------
  // filteredTodos

  /** The All view is the whole list. */
  lemma FilteredAllIsWholeList(todos: seq<Todo>)
    ensures FilteredTodos(todos, All) == todos
  {
    A.FilterAllPass(todos, ShownBy(All));
  }

  /** Every view keeps the original order of the items it shows. */
  lemma FilteredKeepsOrder(todos: seq<Todo>, filter: Filter)
    ensures A.IsSubsequence(FilteredTodos(todos, filter), todos)
  {
    A.FilterIsSubsequence(todos, ShownBy(filter));
  }

  /** The Active and Completed views split the list: together they hold each item exactly once. */
  lemma ActiveAndCompletedSplit(todos: seq<Todo>)
    ensures |FilteredTodos(todos, Active)| + |FilteredTodos(todos, Completed)| == |todos|
    ensures multiset(FilteredTodos(todos, Active)) + multiset(FilteredTodos(todos, Completed)) == multiset(todos)
  {
    A.FilterPartition(todos, ShownBy(Active), ShownBy(Completed));
  }

  /**
   * Adding an item leaves the view of the existing items as it was and
   * appends the new item to the view exactly when the filter shows it.
   */
  lemma FilteredAfterAdd(todos: seq<Todo>, id: int, title: string, filter: Filter)
    ensures var added := Todo(id, Text.Trim(title), false);
      FilteredTodos(WithTodoAdded(todos, id, title), filter)
        == FilteredTodos(todos, filter) + (if Shows(filter, added) then [added] else [])
  {
    var added := Todo(id, Text.Trim(title), false);
    A.FilterConcat(todos, [added], ShownBy(filter));
    assert [added][1..] == [];
  }

  // ---------------------------------------------------------------------------
  // The non-empty-titles invariant under the operations that keep titles

  /** Toggling one, toggling all, deleting one and deleting the completed keep every title non-empty. */
  lemma TitlesNonEmptyPreserved(todos: seq<Todo>, id: int)
    requires TitlesNonEmpty(todos)
    ensures TitlesNonEmpty(WithStatusToggled(todos, id))
    ensures TitlesNonEmpty(UpdatedTodos(todos))
    ensures TitlesNonEmpty(WithTodoDeleted(todos, id))
    ensures TitlesNonEmpty(WithCompletedDeleted(todos))
  {
  }

  // ---------------------------------------------------------------------------
  // The provider's state

  /**
   * The state the provider holds: the list and the filter, each replaced
   * wholesale by every operation.
   */
  class TodoProvider {
    var todos: seq<Todo>
    var filter: Filter
    /** What local storage holds under the key "todos"; written after every change of the list. */
    ghost var stored: seq<Todo>

    /** Storage always reflects the current list. */
    ghost predicate Valid()
      reads this
    {
      stored == todos
    }

    /** The list starts as the stored one when storage holds one, empty otherwise; the filter starts at All. */
    constructor (saved: Option<seq<Todo>>)
      ensures Valid()
      ensures todos == (if saved.Some? then saved.value else [])
      ensures filter == All
    {
      todos := if saved.Some? then saved.value else [];
      filter := All;
      stored := todos;
    }

    method AddTodo(id: int, title: string)
      requires Valid()
      modifies this
      ensures Valid()
      ensures todos == WithTodoAdded(old(todos), id, title) && filter == old(filter)
    {
      todos := WithTodoAdded(todos, id, title);
      stored := todos;
    }

    method ToggleTodoStatus(id: int)
      requires Valid()
      modifies this
      ensures Valid()
      ensures todos == WithStatusToggled(old(todos), id) && filter == old(filter)
    {
      todos := WithStatusToggled(todos, id);
      stored := todos;
    }

    method ToggleMultipleTodosStatus()
      requires Valid()
      modifies this
      ensures Valid()
      ensures todos == UpdatedTodos(old(todos)) && filter == old(filter)
    {
      todos := UpdatedTodos(todos);
      stored := todos;
    }

    method UpdateTodoTitle(id: int, newTitle: string)
      requires Valid()
      modifies this
      ensures Valid()
      ensures todos == WithTitleUpdated(old(todos), id, newTitle) && filter == old(filter)
    {
      todos := WithTitleUpdated(todos, id, newTitle);
      stored := todos;
    }

    method DeleteTodo(id: int)
      requires Valid()
      modifies this
      ensures Valid()
      ensures todos == WithTodoDeleted(old(todos), id) && filter == old(filter)
    {
      todos := WithTodoDeleted(todos, id);
      stored := todos;
    }

    method DeleteMultipleTodos()
      requires Valid()
      modifies this
      ensures Valid()
      ensures todos == WithCompletedDeleted(old(todos)) && filter == old(filter)
    {
      todos := WithCompletedDeleted(todos);
      stored := todos;
    }

    /** The filter is not persisted, so changing it writes nothing. */
    method SetFilter(newFilter: Filter)
      requires Valid()
      modifies this`filter
      ensures Valid()
      ensures filter == newFilter && todos == old(todos)
    {
      filter := newFilter;
    }

    /** The filtered view under the current filter: the shown items, in list order. */
    function Filtered(): (r: seq<Todo>)
      reads this
      ensures A.IsSubsequence(r, todos)
      ensures forall i :: 0 <= i < |r| ==> Shows(filter, r[i])
      ensures forall i :: 0 <= i < |todos| && Shows(filter, todos[i]) ==> todos[i] in r
      ensures r == FilteredTodos(todos, filter)
    {
      FilteredKeepsOrder(todos, filter);
      FilteredTodos(todos, filter)
    }
  }
}
