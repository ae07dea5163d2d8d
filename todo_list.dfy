/** The todo-list state updaters of the client application (src/main.jsx): pure transformations
    of the list, keyed by id, as passed to `setTodos`. */
module TodoList {
  import opened Results

  /** A todo record `{id, text, completed}`. */
  datatype Todo = Todo(id: int, text: string, completed: bool)

  /** The `initialData` prop `{todos: [...]}`, whose `todos` may be absent. */
  datatype InitialData = InitialData(todos: Option<seq<Todo>>)

  predicate HasId(xs: seq<Todo>, id: int) {
    exists i :: 0 <= i < |xs| && xs[i].id == id
  }

  /** No two records of the list share an id. */
  predicate UniqueIds(xs: seq<Todo>) {
    forall i, j :: 0 <= i < j < |xs| ==> xs[i].id != xs[j].id
  }

  /** `Math.max(...xs.map(t => t.id))` for a non-empty list. */
  function MaxId(xs: seq<Todo>): (m: int)
    requires |xs| > 0
    ensures forall i :: 0 <= i < |xs| ==> xs[i].id <= m
    ensures HasId(xs, m)
  {
    if |xs| == 1 then xs[0].id
    else
      var rest := MaxId(xs[1..]);
      if xs[0].id >= rest then xs[0].id
      else
        var k :| 0 <= k < |xs| - 1 && xs[1..][k].id == rest;
        assert xs[k + 1].id == rest;
        rest
  }

  /** The id given to a new record: 1 for an empty list, otherwise one more than the largest id. */
  function NextId(xs: seq<Todo>): (id: int)
    ensures forall i :: 0 <= i < |xs| ==> xs[i].id < id
    ensures xs == [] ==> id == 1
    ensures xs != [] ==> HasId(xs, id - 1)
  {
    if |xs| > 0 then MaxId(xs) + 1 else 1
  }

  /** `addTodo(text)`: one new, uncompleted record at the end, with an id above all others. */
  function AddTodo(xs: seq<Todo>, text: string): (r: seq<Todo>)
    ensures |r| == |xs| + 1 && r[..|xs|] == xs
    ensures r[|xs|].text == text && !r[|xs|].completed
    ensures forall i :: 0 <= i < |xs| ==> xs[i].id < r[|xs|].id
    ensures xs == [] ==> r[0].id == 1
    ensures xs != [] ==> HasId(xs, r[|xs|].id - 1)
  {
    xs + [Todo(NextId(xs), text, false)]
  }

  /** `xs.map(f)`. */
  function MapTodos(xs: seq<Todo>, f: Todo -> Todo): (r: seq<Todo>)
    ensures |r| == |xs|
    ensures forall i :: 0 <= i < |xs| ==> r[i] == f(xs[i])
  {
    if xs == [] then [] else [f(xs[0])] + MapTodos(xs[1..], f)
  }

  /** `toggleTodo(id)`: flips `completed` exactly on the records with that id; ids, texts, length
      and order are kept. */
  function ToggleTodo(xs: seq<Todo>, id: int): (r: seq<Todo>)
    ensures |r| == |xs|
    ensures forall i :: 0 <= i < |xs| ==> r[i].id == xs[i].id && r[i].text == xs[i].text
    ensures forall i :: 0 <= i < |xs| ==> (r[i].completed != xs[i].completed <==> xs[i].id == id)
  {
    MapTodos(xs, (t: Todo) => if t.id == id then t.(completed := !t.completed) else t)
  }

  /** `editTodo(id, text)`: replaces the text exactly on the records with that id; ids, flags,
      length and order are kept. */
  function EditTodo(xs: seq<Todo>, id: int, text: string): (r: seq<Todo>)
    ensures |r| == |xs|
    ensures forall i :: 0 <= i < |xs| ==> r[i].id == xs[i].id && r[i].completed == xs[i].completed
    ensures forall i :: 0 <= i < |xs| && xs[i].id == id ==> r[i].text == text
    ensures forall i :: 0 <= i < |xs| && xs[i].id != id ==> r[i] == xs[i]
  {
    MapTodos(xs, (t: Todo) => if t.id == id then t.(text := text) else t)
  }

  /** `deleteTodo(id)`, the filter `t.id !== id` written out: no record with that id remains,
      and the list does not grow. */
  function DeleteTodo(xs: seq<Todo>, id: int): (r: seq<Todo>)
    ensures |r| <= |xs|
    ensures !HasId(r, id)
  {
    if xs == [] then []
    else
      var rest := DeleteTodo(xs[1..], id);
      if xs[0].id == id then rest else [xs[0]] + rest
  }

  /** The `initialTodos` memo: an element-wise copy of `initialData.todos`, or an empty list when
      the prop or its `todos` is absent. */
  function InitialTodos(data: Option<InitialData>): (r: seq<Todo>)
    ensures data.None? || data.value.todos.None? ==> r == []
    ensures data.Some? && data.value.todos.Some? ==> r == data.value.todos.value
  {
    var list := if data.Some? && data.value.todos.Some? then data.value.todos.value else [];
    MapTodos(list, (t: Todo) => Todo(t.id, t.text, t.completed))
  }

  // ---------------------------------------------------------------------------------------------
  // Properties relating several updates

  /** Adding keeps ids unique. */
  lemma AddKeepsUniqueIds(xs: seq<Todo>, text: string)
    requires UniqueIds(xs)
    ensures UniqueIds(AddTodo(xs, text))
  {
  }

  /** Toggling the same id twice restores the list. */
  lemma ToggleTwice(xs: seq<Todo>, id: int)
    ensures ToggleTodo(ToggleTodo(xs, id), id) == xs
  {
    var r := ToggleTodo(ToggleTodo(xs, id), id);
    assert forall i :: 0 <= i < |xs| ==> r[i] == xs[i];
  }

  /** Toggling an id no record has changes nothing. */
  lemma ToggleUnknownId(xs: seq<Todo>, id: int)
    requires !HasId(xs, id)
    ensures ToggleTodo(xs, id) == xs
  {
    var r := ToggleTodo(xs, id);
    assert forall i :: 0 <= i < |xs| ==> r[i] == xs[i];
  }

  /** Toggling keeps ids unique. */
  lemma ToggleKeepsUniqueIds(xs: seq<Todo>, id: int)
    requires UniqueIds(xs)
    ensures UniqueIds(ToggleTodo(xs, id))
  {
  }

  /** Editing an id no record has changes nothing. */
  lemma EditUnknownId(xs: seq<Todo>, id: int, text: string)
    requires !HasId(xs, id)
    ensures EditTodo(xs, id, text) == xs
  {
    var r := EditTodo(xs, id, text);
    assert forall i :: 0 <= i < |xs| ==> r[i] == xs[i];
  }

  /** Of two edits of the same id, the last one wins. */
  lemma EditLastWins(xs: seq<Todo>, id: int, first: string, second: string)
    ensures EditTodo(EditTodo(xs, id, first), id, second) == EditTodo(xs, id, second)
  {
    var r := EditTodo(EditTodo(xs, id, first), id, second);
    var s := EditTodo(xs, id, second);
    assert forall i :: 0 <= i < |xs| ==> r[i] == s[i];
  }

  /** Editing keeps ids unique. */
  lemma EditKeepsUniqueIds(xs: seq<Todo>, id: int, text: string)
    requires UniqueIds(xs)
    ensures UniqueIds(EditTodo(xs, id, text))
  {
  }

  /** Deleting unfolds record by record: the survivors keep their relative order. */
  lemma DeleteCons(x: Todo, xs: seq<Todo>, id: int)
    ensures DeleteTodo([x] + xs, id) == if x.id == id then DeleteTodo(xs, id) else [x] + DeleteTodo(xs, id)
  {
    assert ([x] + xs)[1..] == xs;
  }

  /** Deleting from a concatenation deletes from each part: relative order is preserved. */
  lemma {:induction false} DeleteAppend(xs: seq<Todo>, ys: seq<Todo>, id: int)
    ensures DeleteTodo(xs + ys, id) == DeleteTodo(xs, id) + DeleteTodo(ys, id)
  {
    if xs == [] {
      assert xs + ys == ys;
    } else {
      var x, tail := xs[0], xs[1..];
      assert (xs + ys)[0] == x;
      assert (xs + ys)[1..] == tail + ys;
      DeleteAppend(tail, ys, id);
      var front, back := DeleteTodo(tail, id), DeleteTodo(ys, id);
      if x.id != id {
        assert DeleteTodo(xs + ys, id) == [x] + (front + back);
        assert DeleteTodo(xs, id) == [x] + front;
        assert [x] + (front + back) == ([x] + front) + back;
      }
    }
  }

  /** Deleting an id no record has changes nothing. */
  lemma {:induction false} DeleteUnknownId(xs: seq<Todo>, id: int)
    requires !HasId(xs, id)
    ensures DeleteTodo(xs, id) == xs
  {
    if xs != [] {
      assert xs == [xs[0]] + xs[1..];
      assert !HasId(xs[1..], id);
      DeleteUnknownId(xs[1..], id);
      DeleteCons(xs[0], xs[1..], id);
    }
  }

  /** Deleting the same id twice is deleting it once. */
  lemma DeleteIdempotent(xs: seq<Todo>, id: int)
    ensures DeleteTodo(DeleteTodo(xs, id), id) == DeleteTodo(xs, id)
  {
    DeleteUnknownId(DeleteTodo(xs, id), id);
  }

  /** In a list with unique ids, deleting a present id removes exactly one record and keeps ids
      unique. */
  lemma {:induction false} DeleteRemovesOne(xs: seq<Todo>, id: int)
    requires UniqueIds(xs) && HasId(xs, id)
    ensures |DeleteTodo(xs, id)| == |xs| - 1
  {
    assert xs == [xs[0]] + xs[1..];
    DeleteCons(xs[0], xs[1..], id);
    if xs[0].id == id {
      assert !HasId(xs[1..], id);
      DeleteUnknownId(xs[1..], id);
    } else {
      var k :| 0 <= k < |xs| && xs[k].id == id;
      assert xs[1..][k - 1].id == id;
      DeleteRemovesOne(xs[1..], id);
    }
  }

  /** Deleting keeps ids unique. */
  lemma {:induction false} DeleteKeepsUniqueIds(xs: seq<Todo>, id: int)
    requires UniqueIds(xs)
    ensures UniqueIds(DeleteTodo(xs, id))
  {
    if xs != [] {
      assert xs == [xs[0]] + xs[1..];
      DeleteCons(xs[0], xs[1..], id);
      DeleteKeepsUniqueIds(xs[1..], id);
      var rest := DeleteTodo(xs[1..], id);
      forall i | 0 <= i < |rest| ensures rest[i].id != xs[0].id {
        assert rest[i] in multiset(rest);
        assert rest[i].id != id;
        DeleteKeepsMultiplicity(xs[1..], id, rest[i]);
        assert rest[i] in multiset(xs[1..]);
        var k :| 0 <= k < |xs[1..]| && xs[1..][k] == rest[i];
        assert xs[k + 1] == rest[i];
      }
    }
  }

  /** Deleting keeps every other record exactly as often as it occurred. */
  lemma {:induction false} DeleteKeepsMultiplicity(xs: seq<Todo>, id: int, t: Todo)
    requires t.id != id
    ensures multiset(DeleteTodo(xs, id))[t] == multiset(xs)[t]
  {
    if xs != [] {
      assert xs == [xs[0]] + xs[1..];
      DeleteCons(xs[0], xs[1..], id);
      DeleteKeepsMultiplicity(xs[1..], id, t);
    }
  }
}
