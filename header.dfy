/**
 * The header form: a draft title and a submit handler that hands the draft
 * to the store's addTodo only when the draft is not blank, then clears it.
 * Submitted is the state change as a function; HeaderForm.HandleSubmit
 * performs it on the form and the store.
 */
module Header {
  import Text
  import C = TodoContext

  /** What a submit reads and writes: the draft and the store's list. */
  datatype FormState = FormState(todoTitle: string, todos: seq<C.Todo>)

  /**
   * handleSubmit: a blank draft changes nothing; any other draft is passed,
   * untrimmed, to addTodo, and the draft is cleared.
   */
  function Submitted(s: FormState, id: int): (r: FormState)
    ensures Text.AllWhitespace(s.todoTitle) ==> r == s
    ensures !Text.AllWhitespace(s.todoTitle) ==>
      r.todoTitle == [] && r.todos == C.WithTodoAdded(s.todos, id, s.todoTitle)
  {
    Text.TrimEmptyIffBlank(s.todoTitle);
    if Text.Trim(s.todoTitle) != [] then FormState([], C.WithTodoAdded(s.todos, id, s.todoTitle)) else s
  }

  /** After any submit the draft is blank. */
  lemma SubmitLeavesBlankDraft(s: FormState, id: int)
    ensures Text.Trim(Submitted(s, id).todoTitle) == []
  {
  }

  /**
   * A submit adds at most one item, and it adds one exactly when the draft
   * is not blank; that item comes last, is not completed and has the
   * trimmed draft as its title, which is not empty.
   */
  lemma SubmitAddsOneNonEmptyItem(s: FormState, id: int)
    ensures var r := Submitted(s, id);
      (|r.todos| == |s.todos| + 1 <==> !Text.AllWhitespace(s.todoTitle)) &&
      (|r.todos| == |s.todos| + 1 ==>
        r.todos[..|s.todos|] == s.todos &&
        r.todos[|s.todos|] == C.Todo(id, Text.Trim(s.todoTitle), false) &&
        r.todos[|s.todos|].title != [])
  {
  }

  /** Submitting never breaks the invariant that every title is non-empty. */
  lemma SubmitPreservesTitlesNonEmpty(s: FormState, id: int)
    requires C.TitlesNonEmpty(s.todos)
    ensures C.TitlesNonEmpty(Submitted(s, id).todos)
  {
  }

  /** The header component: its draft and the store it submits to. */
  class HeaderForm {
    var todoTitle: string
    const store: C.TodoProvider

    /** The draft starts empty. */
    constructor (store: C.TodoProvider)
      ensures todoTitle == [] && this.store == store
    {
      todoTitle := [];
      this.store := store;
    }

    /** Typing into the field replaces the draft. */
    method SetTodoTitle(value: string)
      modifies this`todoTitle
      ensures todoTitle == value
    {
      todoTitle := value;
    }

    method HandleSubmit(id: int)
      requires store.Valid()
      modifies this`todoTitle, store
      ensures store.Valid() && store.filter == old(store.filter)
      ensures FormState(todoTitle, store.todos) == Submitted(FormState(old(todoTitle), old(store.todos)), id)
    {
      if Text.Trim(todoTitle) != [] {
        store.AddTodo(id, todoTitle);
        todoTitle := [];
      }
    }
  }

  /**
   * A session: add a first item, complete it, submit a blank draft (which
   * changes nothing), add a second item, clear the completed items. The
   * titles are any trimmed, non-empty strings.
   */
  method Session(first: string, second: string, blank: string)
    requires first != [] && Text.HasNoEdgeWhitespace(first)
    requires second != [] && Text.HasNoEdgeWhitespace(second)
    requires Text.AllWhitespace(blank)
  {
    Text.TrimCharacterization([], first, []);
    assert [] + first + [] == first;
    Text.TrimEmptyIffBlank(first);

    var store := new C.TodoProvider(C.None);
    var form := new HeaderForm(store);

    form.SetTodoTitle(first);
    form.HandleSubmit(1);
    store.ToggleTodoStatus(1);
    assert store.todos == [C.Todo(1, first, true)];

    form.SetTodoTitle(blank);
    form.HandleSubmit(2);
    assert form.todoTitle == blank;

    AddSecondAndClear(form, first, second);
    assert store.todos == [C.Todo(3, second, false)];
  }

  /** The rest of Session: with the first item completed, add a second one and clear the completed. */
  method AddSecondAndClear(form: HeaderForm, first: string, second: string)
    requires second != [] && Text.HasNoEdgeWhitespace(second)
    requires form.store.Valid() && form.store.todos == [C.Todo(1, first, true)]
    modifies form, form.store
    ensures form.store.Valid() && form.store.todos == [C.Todo(3, second, false)]
  {
    Text.TrimCharacterization([], second, []);
    assert [] + second + [] == second;
    Text.TrimEmptyIffBlank(second);

    form.SetTodoTitle(second);
    form.HandleSubmit(3);
    ghost var before := form.store.todos;
    assert before == [C.Todo(1, first, true), C.Todo(3, second, false)];
    assert before[1..] == [C.Todo(3, second, false)] && before[1..][1..] == [];
    assert !C.IsActive(before[0]) && C.IsActive(before[1]);
    form.store.DeleteMultipleTodos();
  }
}
