/** The component's state and its event handlers. Each handler is one atomic
    step: the setters it calls in sequence are applied together. */
module TodoApp {
  import opened Options
  import opened Text
  import opened Todos
  import opened View
  import opened Alarm

  class App {
    /** `todos`: the task list, in insertion order. */
    var todos: seq<Todo>
    /** newTodo, newDueDate, newPriority, newCategory. */
    var draft: Fields
    /** editTodoId: the id of the item being edited, None for null. */
    var editing: Option<Id>
    /** editTodoText, editDueDate, editPriority, editCategory. */
    var working: Fields
    var filter: StatusFilter
    var search: string
    /** currentTime, to the second. */
    var clock: Second
    /** alarmTime, None for ''. */
    var alarm: Option<Minute>

    /** The state after mounting: the stored list loaded, everything else at
        its initial value. */
    constructor (stored: seq<Todo>, now: Second)
      ensures todos == stored && draft == EmptyFields
      ensures editing == None && working == EmptyFields
      ensures filter == All && search == ""
      ensures clock == now && alarm == None
    {
      todos := stored;
      draft := EmptyFields;
      editing := None;
      working := EmptyFields;
      filter := All;
      search := "";
      clock := now;
      alarm := None;
    }

    /** addTodo: a blank title does nothing; otherwise the inputs become a new
        item at the end of the list and the inputs are reset. */
    method AddTodo(id: Id)
      modifies this`todos, this`draft
      ensures IsBlank(old(draft.title)) ==> todos == old(todos) && draft == old(draft)
      ensures !IsBlank(old(draft.title)) ==>
                todos == old(todos) + [NewTodo(id, old(draft))] && draft == EmptyFields
    {
      if IsBlank(draft.title) {
        return;
      }
      todos := todos + [NewTodo(id, draft)];
      draft := EmptyFields;
    }

    /** toggleTodo. */
    method ToggleTodo(id: Id)
      modifies this`todos
      ensures todos == Toggle(old(todos), id)
    {
      todos := Toggle(todos, id);
    }

    /** deleteTodo. */
    method DeleteTodo(id: Id)
      modifies this`todos
      ensures todos == Delete(old(todos), id)
    {
      todos := Delete(todos, id);
    }

    /** startEditing: opens a session on the row's values, replacing any open
        one and its unsaved changes; the list is not touched. */
    method StartEditing(id: Id, title: string, dueDate: string, priority: Priority, category: string)
      modifies this`editing, this`working
      ensures editing == Some(id) && working == Fields(title, dueDate, priority, category)
    {
      editing := Some(id);
      working := Fields(title, dueDate, priority, category);
    }

    /** saveEdit: a blank working title does nothing and keeps the session
        open; otherwise the working fields are written to every item with the
        session's id and the session is closed. */
    method SaveEdit()
      modifies this`todos, this`editing, this`working
      ensures IsBlank(old(working.title)) ==>
                todos == old(todos) && editing == old(editing) && working == old(working)
      ensures !IsBlank(old(working.title)) ==>
                todos == Update(old(todos), old(editing), old(working)) &&
                editing == None && working == EmptyFields
    {
      if IsBlank(working.title) {
        return;
      }
      todos := Update(todos, editing, working);
      editing := None;
      working := EmptyFields;
    }

    /** cancelEdit: closes the session; the list is not touched. */
    method CancelEdit()
      modifies this`editing, this`working
      ensures editing == None && working == EmptyFields
    {
      editing := None;
      working := EmptyFields;
    }

    /** clearCompleted. */
    method ClearCompletedTodos()
      modifies this`todos
      ensures todos == ClearCompleted(old(todos))
    {
      todos := ClearCompleted(todos);
    }

    /** A clock tick, followed by the alarm effect it triggers. */
    method Tick(now: Second) returns (rang: bool)
      modifies this`clock, this`alarm
      ensures clock == now
      ensures rang <==> old(alarm) == Some(MinuteOf(now))
      ensures alarm == if rang then None else old(alarm)
    {
      clock := now;
      var c := CheckAlarm(alarm, clock);
      rang, alarm := c.rang, c.alarm;
    }

    /** A change of the alarm input, followed by the alarm effect it
        triggers at the current clock. */
    method SetAlarm(target: Option<Minute>) returns (rang: bool)
      modifies this`alarm
      ensures rang <==> target == Some(MinuteOf(clock))
      ensures alarm == if rang then None else target
    {
      var c := CheckAlarm(target, clock);
      rang, alarm := c.rang, c.alarm;
    }
  }

  /** The handlers used in sequence, and what a caller can conclude from their
      contracts alone. */
  method Walkthrough(a: Todo)
  {
    var app := new App([a], 0);
    var before := app.todos;

    app.draft := Fields("   ", "", High, "");
    app.AddTodo(7);
    BlankTitles();
    assert app.todos == before;

    app.draft := Fields("Buy milk", "2024-05-01", Medium, "home");
    app.AddTodo(7);
    assert app.todos == before + [Todo(7, "Buy milk", "2024-05-01", Medium, "home", false)];
    assert app.draft == EmptyFields;

  }

  /** Toggling the same item twice. */
  method ToggleWalkthrough(s: seq<Todo>, id: Id)
  {
    var app := new App(s, 0);
    app.ToggleTodo(id);
    app.ToggleTodo(id);
    ToggleTwice(s, id);
    assert app.todos == s;
  }

  /** An edit session abandoned after changing its working copy, and an
      alarm set for the current minute. */
  method EditAndAlarmWalkthrough(a: Todo)
  {
    var app := new App([a], 0);
    var listed := app.todos;
    app.StartEditing(a.id, a.title, a.dueDate, a.priority, a.category);
    app.working := app.working.(title := "Buy oat milk");
    app.CancelEdit();
    assert app.todos == listed && app.editing == None;

    var rang := app.SetAlarm(Some(0));
    assert rang && app.alarm == None;
    rang := app.Tick(30);
    assert !rang;
  }

  lemma BlankTitles()
    ensures IsBlank("   ") && !IsBlank("Buy milk")
  {
    assert AllSpace("   ");
    assert !IsJsSpace("Buy milk"[0]);
  }
}
