/** The todo list of todo-app/app.js: a list of items and the current filter,
    both module-level state that the event handlers update in place. Item ids
    come from the clock and a random number generator, so callers pass a fresh
    id in; local storage is the `data` text handed to the constructor. */
module Todos {
  import opened Wrappers
  import opened Text
  import opened Lists

  datatype Todo = Todo(id: string, text: string, completed: bool)

  predicate IsActive(t: Todo) { !t.completed }

  predicate IsDone(t: Todo) { t.completed }

  /** `loadTodos`: the stored list, or the empty list when nothing is stored
      or the stored text does not parse. */
  function LoadTodos(data: Option<string>, parse: string -> Option<seq<Todo>>): (r: seq<Todo>)
    ensures data.None? || data == Some("") ==> r == []
    ensures data.Some? && data.value != "" && parse(data.value).None? ==> r == []
    ensures data.Some? && data.value != "" && parse(data.value).Some? ==> r == parse(data.value).value
  {
    match data
    case Some(text) =>
      if text == "" then []
      else parse(text).GetOr([])
    case None => []
  }

  /** Position of the first item with the id (`todos.find`). */
  function FindIndex(ts: seq<Todo>, id: string): (r: Option<nat>)
    ensures r.Some? ==> r.value < |ts| && ts[r.value].id == id
                        && forall j | 0 <= j < r.value :: ts[j].id != id
    ensures r.None? ==> forall j | 0 <= j < |ts| :: ts[j].id != id
  {
    if ts == [] then None
    else if ts[0].id == id then Some(0)
    else
      match FindIndex(ts[1..], id)
      case None => None
      case Some(k) => Some(k + 1)
  }

  /** Two lists with the same ids position by position find the same index. */
  lemma FindIndexByIds(ts: seq<Todo>, us: seq<Todo>, id: string)
    requires |ts| == |us| && forall j | 0 <= j < |ts| :: ts[j].id == us[j].id
    ensures FindIndex(ts, id) == FindIndex(us, id)
  {
    var a, b := FindIndex(ts, id), FindIndex(us, id);
    if a.Some? && b.Some? {
      assert !(a.value < b.value) && !(b.value < a.value);
    }
  }

  /** The list after `toggleTodo(id)`: the first item with the id has its
      completion flipped. */
  function Toggled(ts: seq<Todo>, id: string): (r: seq<Todo>)
    ensures |r| == |ts|
    ensures forall j | 0 <= j < |ts| :: r[j].id == ts[j].id && r[j].text == ts[j].text
    ensures forall j | 0 <= j < |ts| :: r[j].completed != ts[j].completed <==> FindIndex(ts, id) == Some(j)
  {
    match FindIndex(ts, id)
    case None => ts
    case Some(i) => ts[i := ts[i].(completed := !ts[i].completed)]
  }

  /** An id that no item carries leaves the list as it is. */
  lemma ToggleUnknown(ts: seq<Todo>, id: string)
    requires forall t | t in ts :: t.id != id
    ensures Toggled(ts, id) == ts
  {
  }

  /** Toggling the same id twice restores the list. */
  lemma ToggleTwice(ts: seq<Todo>, id: string)
    ensures Toggled(Toggled(ts, id), id) == ts
  {
    var once := Toggled(ts, id);
    FindIndexByIds(ts, once, id);
    var twice := Toggled(once, id);
    forall j | 0 <= j < |ts|
      ensures twice[j] == ts[j]
    {
      assert twice[j].completed == ts[j].completed;
    }
  }

  /** `t => t.id !== id`, the predicate `deleteTodo` filters by. */
  function OtherId(id: string): Todo -> bool
  {
    (t: Todo) => t.id != id
  }

  /** The list after `deleteTodo(id)`: every item with the id removed. */
  function Without(ts: seq<Todo>, id: string): (r: seq<Todo>)
    ensures forall t | t in r :: t in ts && t.id != id
    ensures forall t | t in ts && t.id != id :: t in r
  {
    Filter(ts, OtherId(id))
  }

  /** Deleting keeps the remaining items in their original order. */
  lemma WithoutAppend(a: seq<Todo>, b: seq<Todo>, id: string)
    ensures Without(a + b, id) == Without(a, id) + Without(b, id)
  {
    FilterAppend(a, b, OtherId(id));
  }

  /** Deleting an id no item carries leaves the list as it is. */
  lemma WithoutUnknown(ts: seq<Todo>, id: string)
    requires forall t | t in ts :: t.id != id
    ensures Without(ts, id) == ts
  {
    FilterKeepsAll(ts, OtherId(id));
  }

  /** `getFilteredTodos`: the unfinished items for "active", the finished
      ones for "completed", and the whole list for any other filter. */
  function FilteredTodos(ts: seq<Todo>, filter: string): (r: seq<Todo>)
    ensures filter == "active" ==> forall t | t in r :: t in ts && !t.completed
    ensures filter == "active" ==> forall t | t in ts && !t.completed :: t in r
    ensures filter == "completed" ==> forall t | t in r :: t in ts && t.completed
    ensures filter == "completed" ==> forall t | t in ts && t.completed :: t in r
    ensures filter != "active" && filter != "completed" ==> r == ts
  {
    if filter == "active" then Filter(ts, IsActive)
    else if filter == "completed" then Filter(ts, IsDone)
    else ts
  }

  /** The two counts shown by `render` add up to the length of the list. */
  lemma CountsPartition(ts: seq<Todo>)
    ensures |Filter(ts, IsActive)| + |Filter(ts, IsDone)| == |ts|
  {
    FilterPartition(ts, IsActive, IsDone);
  }

  /** Clearing completed items a second time changes nothing. */
  lemma ClearCompletedIdempotent(ts: seq<Todo>)
    ensures Filter(Filter(ts, IsActive), IsActive) == Filter(ts, IsActive)
  {
    FilterIdempotent(ts, IsActive);
  }

  class TodoList {
    var todos: seq<Todo>
    var currentFilter: string

    /** Start-up: the stored list and the "all" filter. */
    constructor (data: Option<string>, parse: string -> Option<seq<Todo>>)
      ensures todos == LoadTodos(data, parse)
      ensures currentFilter == "all"
    {
      todos := LoadTodos(data, parse);
      currentFilter := "all";
    }

    /** `addTodo`: appends one unfinished item with the trimmed text, unless
        the text is blank. */
    method AddTodo(text: string, freshId: string)
      modifies this
      ensures Trim(text) == "" ==> todos == old(todos)
      ensures Trim(text) != "" ==> todos == old(todos) + [Todo(freshId, Trim(text), false)]
      ensures currentFilter == old(currentFilter)
    {
      var trimmed := Trim(text);
      if trimmed != "" {
        todos := todos + [Todo(freshId, trimmed, false)];
      }
    }

    /** `toggleTodo`: flips the first item with the id; an unknown id changes nothing. */
    method ToggleTodo(id: string)
      modifies this
      ensures todos == Toggled(old(todos), id)
      ensures currentFilter == old(currentFilter)
    {
      var i := 0;
      while i < |todos| && todos[i].id != id
        invariant 0 <= i <= |todos|
        invariant forall j | 0 <= j < i :: todos[j].id != id
      {
        i := i + 1;
      }
      if i < |todos| {
        todos := todos[i := todos[i].(completed := !todos[i].completed)];
      }
    }

    /** `deleteTodo`: drops every item with the id. */
    method DeleteTodo(id: string)
      modifies this
      ensures todos == Without(old(todos), id)
      ensures currentFilter == old(currentFilter)
    {
      todos := Without(todos, id);
    }

    /** `clearCompleted`: keeps the unfinished items, in order. */
    method ClearCompleted()
      modifies this
      ensures todos == Filter(old(todos), IsActive)
      ensures currentFilter == old(currentFilter)
    {
      todos := Filter(todos, IsActive);
    }

    /** A click on a filter button. */
    method SetFilter(filter: string)
      modifies this
      ensures currentFilter == filter && todos == old(todos)
    {
      currentFilter := filter;
    }

    /** The items `render` lists. */
    function Visible(): (r: seq<Todo>)
      reads this
      ensures currentFilter == "all" ==> r == todos
      ensures forall t | t in r :: t in todos
    {
      FilteredTodos(todos, currentFilter)
    }

    /** The active and completed counts of `render`, which together count every item. */
    function Counts(): (r: (nat, nat))
      reads this
      ensures r.0 + r.1 == |todos|
      ensures r.0 == |Filter(todos, IsActive)|
    {
      CountsPartition(todos);
      (|Filter(todos, IsActive)|, |Filter(todos, IsDone)|)
    }
  }
}
