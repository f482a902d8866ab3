/** ManagerService: registering, listing and removing the managers of a todo. */
module Managers {
  import opened Common
  import opened Entities
  import opened Repositories
  import Queries

  const UserNotFound := Error(InvalidRequest, "User not found")
  const TodoWithoutCreator := Error(InvalidRequest, "일정에 담당자가 존재하지 않습니다.")
  const NotTodoCreator := Error(InvalidRequest, "담당자를 등록하려고 하는 유저가 일정을 만든 유저가 아닙니다.")
  const ManagerUserNotFound := Error(InvalidRequest, "등록하려고 하는 담당자 유저가 존재하지 않습니다.")
  const CreatorAsManager := Error(InvalidRequest, "일정 작성자는 본인을 담당자로 등록할 수 없습니다.")

  function ManagerResponseOf(m: Manager): ManagerResponse
  {
    ManagerResponse(m.id, UserResponseOf(m.user))
  }

  /** No manager row names the creator of its own todo. saveManager never
      stores such a row, but the store may already hold one, so this is a
      property the operations preserve, not one they require. */
  ghost predicate NoSelfManagers(managers: seq<Manager>, todos: seq<Todo>)
  {
    forall i, j ::
      0 <= i < |managers| && 0 <= j < |todos| && todos[j].id == managers[i].todoId && todos[j].creator.Some? ==>
        todos[j].creator.value.id != managers[i].user.id
  }

  class ManagerService {
    const managerRepository: ManagerRepository
    const userRepository: UserRepository
    const todoRepository: TodoRepository

    constructor (managerRepository: ManagerRepository, userRepository: UserRepository,
                 todoRepository: TodoRepository)
      requires managerRepository.Valid() && todoRepository.Valid()
      ensures Valid()
      ensures this.managerRepository == managerRepository
      ensures this.userRepository == userRepository
      ensures this.todoRepository == todoRepository
    {
      this.managerRepository := managerRepository;
      this.userRepository := userRepository;
      this.todoRepository := todoRepository;
    }

    /** The manager and todo stores hand out increasing ids. */
    ghost predicate Valid()
      reads managerRepository, todoRepository
    {
      managerRepository.Valid() && todoRepository.Valid()
    }

    /** saveManager. The checks run in this order: the todo exists, it has a
        creator, the caller is that creator, the manager user exists, the
        manager user is not the caller. Only when all pass is one manager row
        stored; getManagers then lists it last. */
    method SaveManager(authUser: AuthUser, todoId: int, managerUserId: int) returns (r: Result<ManagerSaveResponse>)
      requires Valid()
      modifies managerRepository
      ensures Valid()
      ensures
        var todo := TodoById(todoRepository.todos, todoId);
        var managerUser := UserById(userRepository.users, managerUserId);
        if todo.None? then r == Err(TodoNotFound)
        else if todo.value.creator.None? then r == Err(TodoWithoutCreator)
        else if todo.value.creator.value.id != authUser.id then r == Err(NotTodoCreator)
        else if managerUser.None? then r == Err(ManagerUserNotFound)
        else if managerUser.value.id == authUser.id then r == Err(CreatorAsManager)
        else
          var id := old(managerRepository.nextId);
          && managerRepository.managers == old(managerRepository.managers) + [Manager(id, managerUser.value, todoId)]
          && r == Ok(ManagerSaveResponse(id, UserResponse(managerUserId, managerUser.value.email)))
      ensures r.Err? ==> unchanged(managerRepository)
      ensures NoSelfManagers(old(managerRepository.managers), todoRepository.todos) ==>
        NoSelfManagers(managerRepository.managers, todoRepository.todos)
      ensures r.Ok? ==>
        && old(GetManagers(todoId)).Ok?
        && GetManagers(todoId) == Ok(old(GetManagers(todoId)).value + [ManagerResponse(r.value.id, r.value.user)])
    {
      var todo := TodoById(todoRepository.todos, todoId);
      if todo.None? {
        return Err(TodoNotFound);
      }
      if todo.value.creator.None? {
        return Err(TodoWithoutCreator);
      }
      if todo.value.creator.value.id != authUser.id {
        return Err(NotTodoCreator);
      }
      var managerUser := UserById(userRepository.users, managerUserId);
      if managerUser.None? {
        return Err(ManagerUserNotFound);
      }
      if managerUser.value.id == authUser.id {
        return Err(CreatorAsManager);
      }
      ghost var before := managerRepository.managers;
      var saved := managerRepository.Save(Manager(0, managerUser.value, todoId));
      r := Ok(ManagerSaveResponse(saved.id, UserResponseOf(managerUser.value)));
      ManagerListedLast(before, saved);
      if NoSelfManagers(before, todoRepository.todos) {
        StillNoSelfManagers(before, todoRepository.todos, saved, todo.value);
      }
    }

    /** getManagers: "Todo not found" exactly when no todo has the id;
        otherwise one response per manager of that todo, in store order,
        carrying the manager's id and its user's id and email. */
    function GetManagers(todoId: int): (r: Result<seq<ManagerResponse>>)
      reads todoRepository, managerRepository
      ensures (forall t :: t in todoRepository.todos ==> t.id != todoId) <==> r == Err(TodoNotFound)
      ensures r.Ok? || r == Err(TodoNotFound)
      ensures r.Ok? ==>
        var ms := ManagersOfTodo(managerRepository.managers, todoId);
        && |r.value| == |ms|
        && forall i :: 0 <= i < |ms| ==>
             r.value[i] == ManagerResponse(ms[i].id, UserResponse(ms[i].user.id, ms[i].user.email))
    {
      if TodoById(todoRepository.todos, todoId).None? then Err(TodoNotFound)
      else Ok(Queries.Map(ManagersOfTodo(managerRepository.managers, todoId), ManagerResponseOf))
    }

    /** deleteManager. The checks run in this order: the caller is a stored
        user, the todo exists, it has a creator. Then every row linking
        `managerUserId` to the todo is removed and no other row. */
    method DeleteManager(authUser: AuthUser, todoId: int, managerUserId: int) returns (r: Result<()>)
      requires Valid()
      modifies managerRepository
      ensures Valid()
      ensures
        var user := UserById(userRepository.users, authUser.id);
        var todo := TodoById(todoRepository.todos, todoId);
        if user.None? then r == Err(UserNotFound)
        else if todo.None? then r == Err(TodoNotFound)
        else if todo.value.creator.None? then r == Err(TodoWithoutCreator)
        else r == Ok(()) && managerRepository.managers == Queries.Filter(old(managerRepository.managers), Spared(todoId, managerUserId))
      ensures r.Err? ==> unchanged(managerRepository)
      ensures r.Ok? ==> forall m :: m in managerRepository.managers <==>
        m in old(managerRepository.managers) && !(m.todoId == todoId && m.user.id == managerUserId)
      ensures NoSelfManagers(old(managerRepository.managers), todoRepository.todos) ==>
        NoSelfManagers(managerRepository.managers, todoRepository.todos)
    {
      var user := UserById(userRepository.users, authUser.id);
      if user.None? {
        return Err(UserNotFound);
      }
      var todo := TodoById(todoRepository.todos, todoId);
      if todo.None? {
        return Err(TodoNotFound);
      }
      if todo.value.creator.None? {
        return Err(TodoWithoutCreator);
      }
      ghost var before := managerRepository.managers;
      managerRepository.DeleteByTodoAndUser(todoId, managerUserId);
      r := Ok(());
      ghost var after := managerRepository.managers;
      forall m | m in before && Spared(todoId, managerUserId)(m) ensures m in after {
        var k :| 0 <= k < |before| && before[k] == m;
      }
      forall i | 0 <= i < |after| ensures exists k :: 0 <= k < |before| && before[k] == after[i] {
        assert after[i] in before;
      }
      if NoSelfManagers(before, todoRepository.todos) {
        NoSelfManagersKept(before, after, todoRepository.todos);
      }
    }
  }

  /** A row stored for a todo is listed after the rows already listed for it. */
  lemma ManagerListedLast(managers: seq<Manager>, m: Manager)
    ensures Queries.Map(ManagersOfTodo(managers + [m], m.todoId), ManagerResponseOf)
         == Queries.Map(ManagersOfTodo(managers, m.todoId), ManagerResponseOf) + [ManagerResponseOf(m)]
  {
    Queries.FilterAppend(managers, m, (x: Manager) => x.todoId == m.todoId);
    var listed := ManagersOfTodo(managers, m.todoId);
    assert ManagersOfTodo(managers + [m], m.todoId) == listed + [m];
    assert Queries.Map(listed + [m], ManagerResponseOf) == Queries.Map(listed, ManagerResponseOf) + [ManagerResponseOf(m)];
  }

  /** Storing a row whose user is not the creator of its todo keeps every
      row clear of its todo's creator, provided todo ids are unique. */
  lemma StillNoSelfManagers(managers: seq<Manager>, todos: seq<Todo>, m: Manager, t: Todo)
    requires NoSelfManagers(managers, todos)
    requires forall i, j :: 0 <= i < j < |todos| ==> todos[i].id < todos[j].id
    requires t in todos && t.id == m.todoId
    requires t.creator.Some? && t.creator.value.id != m.user.id
    ensures NoSelfManagers(managers + [m], todos)
  {
    var k :| 0 <= k < |todos| && todos[k] == t;
    var all := managers + [m];
    forall i, j | 0 <= i < |all| && 0 <= j < |todos| && todos[j].id == all[i].todoId && todos[j].creator.Some?
      ensures todos[j].creator.value.id != all[i].user.id
    {
      if i == |managers| {
        assert j == k;
      } else {
        assert all[i] == managers[i];
      }
    }
  }

  /** Removing rows keeps every remaining row clear of its todo's creator. */
  lemma NoSelfManagersKept(before: seq<Manager>, after: seq<Manager>, todos: seq<Todo>)
    requires NoSelfManagers(before, todos)
    requires forall i :: 0 <= i < |after| ==> after[i] in before
    ensures NoSelfManagers(after, todos)
  {
    forall i, j | 0 <= i < |after| && 0 <= j < |todos| && todos[j].id == after[i].todoId && todos[j].creator.Some?
      ensures todos[j].creator.value.id != after[i].user.id
    {
      var k :| 0 <= k < |before| && before[k] == after[i];
    }
  }
}
