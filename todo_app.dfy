/** The stateful side of the client components of src/main.jsx: each `useState` cell is a field,
    each setter call an assignment, and the handlers apply the updaters of `TodoList`. */
module TodoApp {
  import opened Results
  import opened JsString
  import opened TodoList

  /** What the form passes to `onAdd` for the text in its input: nothing for blank text,
      otherwise the trimmed text. */
  function SubmittedText(text: string): (r: Option<string>)
    ensures r.None? <==> AllWhitespace(text)
    ensures r.Some? ==> r.value == Trim(text) && r.value != []
    ensures r.Some? ==> !IsJsWhitespace(r.value[0]) && !IsJsWhitespace(r.value[|r.value| - 1])
  {
    var trimmed := Trim(text);
    if trimmed == [] then None else Some(trimmed)
  }

  /** Submitting a text that has already been trimmed passes it unchanged. */
  lemma SubmitTrimmedPassesUnchanged(text: string)
    requires text != [] && !IsJsWhitespace(text[0]) && !IsJsWhitespace(text[|text| - 1])
    ensures SubmittedText(text) == Some(text)
  {
    TrimStripsPadding([], text, []);
    assert [] + text + [] == text;
  }

  /** The `App` component: the `todos` state cell and its four updaters. */
  class App {
    var todos: seq<Todo>

    /** `useState(initialTodos)`. */
    constructor (initialData: Option<InitialData>)
      ensures todos == InitialTodos(initialData)
    {
      todos := InitialTodos(initialData);
    }

    method AddTodo(text: string)
      modifies this
      ensures todos == TodoList.AddTodo(old(todos), text)
    {
      todos := TodoList.AddTodo(todos, text);
    }

    method ToggleTodo(id: int)
      modifies this
      ensures todos == TodoList.ToggleTodo(old(todos), id)
    {
      todos := TodoList.ToggleTodo(todos, id);
    }

    method EditTodo(id: int, text: string)
      modifies this
      ensures todos == TodoList.EditTodo(old(todos), id, text)
    {
      todos := TodoList.EditTodo(todos, id, text);
    }

    method DeleteTodo(id: int)
      modifies this
      ensures todos == TodoList.DeleteTodo(old(todos), id)
    {
      todos := TodoList.DeleteTodo(todos, id);
    }
  }

  /** The `TodoForm` component: the `text` state cell of its input; `onAdd` is the app's `addTodo`. */
  class TodoForm {
    var text: string

    constructor ()
      ensures text == ""
    {
      text := "";
    }

    /** The input's `onChange`. */
    method OnChange(value: string)
      modifies this
      ensures text == value
    {
      text := value;
    }

    /** `handleSubmit`: blank text adds nothing and leaves the input as it is; otherwise the
        trimmed text is added and the input is cleared. */
    method HandleSubmit(app: App)
      modifies this, app
      ensures AllWhitespace(old(text)) ==> text == old(text) && app.todos == old(app.todos)
      ensures !AllWhitespace(old(text)) ==>
        text == "" && app.todos == TodoList.AddTodo(old(app.todos), Trim(old(text)))
    {
      var submitted := SubmittedText(text);
      if submitted.None? {
        return;
      }
      app.AddTodo(submitted.value);
      text := "";
    }
  }

  /** The `TodoItem` component: its `todo` prop and its `isEditing` and `editText` state cells. */
  class TodoItem {
    const todo: Todo
    var isEditing: bool
    var editText: string

    constructor (todo: Todo)
      ensures this.todo == todo && !isEditing && editText == todo.text
    {
      this.todo := todo;
      isEditing := false;
      editText := todo.text;
    }

    /** The Edit button. */
    method StartEditing()
      modifies this
      ensures isEditing && editText == old(editText)
    {
      isEditing := true;
    }

    /** The edit input's `onChange`. */
    method OnEditChange(value: string)
      modifies this
      ensures editText == value && isEditing == old(isEditing)
    {
      editText := value;
    }

    /** `handleSave`: always leaves edit mode; blank text edits nothing, otherwise the record's
        text becomes the trimmed text. */
    method HandleSave(app: App)
      modifies this, app
      ensures !isEditing && editText == old(editText)
      ensures AllWhitespace(old(editText)) ==> app.todos == old(app.todos)
      ensures !AllWhitespace(old(editText)) ==>
        app.todos == TodoList.EditTodo(old(app.todos), todo.id, Trim(old(editText)))
    {
      var trimmed := Trim(editText);
      if trimmed == [] {
        isEditing := false;
        return;
      }
      app.EditTodo(todo.id, trimmed);
      isEditing := false;
    }

    /** The checkbox's `onChange`. */
    method OnToggle(app: App)
      modifies app
      ensures app.todos == TodoList.ToggleTodo(old(app.todos), todo.id)
    {
      app.ToggleTodo(todo.id);
    }

    /** The Delete button. */
    method OnDelete(app: App)
      modifies app
      ensures app.todos == TodoList.DeleteTodo(old(app.todos), todo.id)
    {
      app.DeleteTodo(todo.id);
    }
  }
}
