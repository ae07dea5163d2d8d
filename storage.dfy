/** The server's in-memory todo store (server/storage.js) and the JavaScript arrays it copies. */
module Storage {
  import opened TodoList

  /** A JavaScript array: a growable list object that every holder of a reference shares. */
  class JsArray<T> {
    var elems: seq<T>

    /** An array literal, or the spread copy `[...other]` when given `other.elems`. */
    constructor (elems: seq<T>)
      ensures this.elems == elems
    {
      this.elems := elems;
    }

    /** `push(x)`. */
    method Push(x: T)
      modifies this
      ensures elems == old(elems) + [x]
    {
      elems := elems + [x];
    }

    /** `splice(start, deleteCount)` with both arguments non-negative: removes up to
        `deleteCount` elements from `start`, both clamped to the length. */
    method Splice(start: nat, deleteCount: nat)
      modifies this
      ensures var lo := if start < |old(elems)| then start else |old(elems)|;
        var hi := if lo + deleteCount < |old(elems)| then lo + deleteCount else |old(elems)|;
        elems == old(elems)[..lo] + old(elems)[hi..]
    {
      var lo := if start < |elems| then start else |elems|;
      var hi := if lo + deleteCount < |elems| then lo + deleteCount else |elems|;
      elems := elems[..lo] + elems[hi..];
    }
  }

  /** `InMemoryTodoStorage`: one field holding the store's own array, never shared with a caller. */
  class InMemoryTodoStorage {
    var todos: JsArray<Todo>

    /** What the store currently holds. */
    function Contents(): seq<Todo>
      reads this, todos
    {
      todos.elems
    }

    /** `new InMemoryTodoStorage(initialTodos = [])`; `null` stands for the omitted argument.
        The store's array is a new one, so the caller's array is not shared. */
    constructor (initialTodos: JsArray?<Todo>)
      ensures fresh(todos)
      ensures Contents() == if initialTodos == null then [] else initialTodos.elems
    {
      var init := if initialTodos == null then [] else initialTodos.elems;
      todos := new JsArray(init);
    }

    /** `getAll()`: a new array with the current contents; the store is not changed. */
    method GetAll() returns (r: JsArray<Todo>)
      ensures fresh(r)
      ensures r.elems == Contents()
    {
      r := new JsArray(todos.elems);
    }

    /** `setAll(newTodos)`: the contents become those of `newTodos`, held in a new array;
        `newTodos` itself is not changed. */
    method SetAll(newTodos: JsArray<Todo>)
      modifies this
      ensures fresh(todos)
      ensures Contents() == newTodos.elems
    {
      todos := new JsArray(newTodos.elems);
    }
  }

  /** A caller that pushes onto the array `getAll` handed out sees its record appended to the
      store's contents, while the store itself, outside this method's (empty) frame, keeps them. */
  method PushOnSnapshot(store: InMemoryTodoStorage, extra: Todo) returns (snapshot: seq<Todo>)
    ensures snapshot == store.Contents() + [extra]
  {
    var copy := store.GetAll();
    copy.Push(extra);
    snapshot := copy.elems;
  }

  /** A caller that empties the array it passed to `setAll` does not empty the store, and
      `getAll` then returns what was set. */
  method SpliceAfterSetAll(store: InMemoryTodoStorage, given: JsArray<Todo>) returns (got: seq<Todo>)
    modifies store, given
    ensures given.elems == []
    ensures got == old(given.elems) && store.Contents() == old(given.elems)
  {
    store.SetAll(given);
    given.Splice(0, |given.elems|);
    var all := store.GetAll();
    got := all.elems;
  }
}
