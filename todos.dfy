/** TodoService: creating a todo tagged with today's weather and reading one back. */
module Todos {
  import opened Common
  import opened Entities
  import opened Repositories

  const ContentsRequired := Error(InvalidRequest, "Contents is required")
  const WeatherRequired := Error(InvalidRequest, "Weather is required")

  /** The response for a stored todo; a todo without a creator has no user. */
  function TodoResponseOf(t: Todo): TodoResponse
  {
    TodoResponse(t.id, t.title, t.contents, t.weather,
                 if t.creator.None? then None else Some(UserResponseOf(t.creator.value)))
  }

  class TodoService {
    const todoRepository: TodoRepository

    constructor (todoRepository: TodoRepository)
      ensures this.todoRepository == todoRepository
    {
      this.todoRepository := todoRepository;
    }

    /** saveTodo. `weather` is what the weather client returned for today.
        Null contents are refused, then a null weather; otherwise one todo
        owned by the caller is stored, and getTodo then returns it. */
    method SaveTodo(authUser: AuthUser, title: string, contents: Option<string>, weather: Option<string>)
      returns (r: Result<TodoSaveResponse>)
      requires todoRepository.Valid()
      modifies todoRepository
      ensures todoRepository.Valid()
      ensures
        if contents.None? then r == Err(ContentsRequired)
        else if weather.None? then r == Err(WeatherRequired)
        else
          var id := old(todoRepository.nextId);
          && todoRepository.todos == old(todoRepository.todos) + [Todo(id, title, contents.value, weather.value, Some(FromAuthUser(authUser)))]
          && r == Ok(TodoSaveResponse(id, title, contents.value, weather.value, UserResponse(authUser.id, authUser.email)))
      ensures r.Err? ==> unchanged(todoRepository)
      ensures r.Ok? ==>
        GetTodo(r.value.id) == Ok(TodoResponse(r.value.id, r.value.title, r.value.contents, r.value.weather, Some(r.value.user)))
    {
      if contents.None? {
        return Err(ContentsRequired);
      }
      if weather.None? {
        return Err(WeatherRequired);
      }
      var user := FromAuthUser(authUser);
      ghost var before := todoRepository.todos;
      var saved := todoRepository.Save(Todo(0, title, contents.value, weather.value, Some(user)));
      r := Ok(TodoSaveResponse(saved.id, saved.title, saved.contents, saved.weather, UserResponse(user.id, user.email)));
      assert todoRepository.todos[|before|] == saved;
      ghost var found := TodoById(todoRepository.todos, saved.id);
      assert found.value !in before;
    }

    /** getTodo: "Todo not found" exactly when no todo has the id; otherwise
        the stored todo's fields, and its creator's id and email when it has one. */
    function GetTodo(todoId: int): (r: Result<TodoResponse>)
      requires todoRepository.Valid()
      reads todoRepository
      ensures (forall t :: t in todoRepository.todos ==> t.id != todoId) <==> r == Err(TodoNotFound)
      ensures forall t :: t in todoRepository.todos && t.id == todoId ==>
        && r.Ok?
        && r.value.id == todoId && r.value.title == t.title
        && r.value.contents == t.contents && r.value.weather == t.weather
        && (r.value.user.None? <==> t.creator.None?)
        && (t.creator.Some? ==> r.value.user == Some(UserResponse(t.creator.value.id, t.creator.value.email)))
    {
      match TodoById(todoRepository.todos, todoId)
      case None => Err(TodoNotFound)
      case Some(todo) => Ok(TodoResponseOf(todo))
    }
  }
}
