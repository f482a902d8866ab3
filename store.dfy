/** Generic queries over a store kept as a sequence in insertion order. */
module Queries {
  import opened Common

  /** The first element whose key is `k`, or None when there is none
      (a repository's findById / findByEmail). */
  function FindFirst<T, K(==)>(xs: seq<T>, key: T -> K, k: K): (r: Option<T>)
    ensures r.None? <==> forall i :: 0 <= i < |xs| ==> key(xs[i]) != k
    ensures r.Some? ==> exists i ::
      && 0 <= i < |xs| && xs[i] == r.value && key(xs[i]) == k
      && forall j :: 0 <= j < i ==> key(xs[j]) != k
  {
    if xs == [] then None
    else if key(xs[0]) == k then Some(xs[0])
    else FindFirst(xs[1..], key, k)
  }

  /** The elements of `xs` that satisfy `keep`, in the order `xs` holds them
      (a repository's findByTodoIdWithUser). */
  function Filter<T>(xs: seq<T>, keep: T -> bool): (r: seq<T>)
    ensures |r| <= |xs|
    ensures forall i :: 0 <= i < |r| ==> r[i] in xs && keep(r[i])
    ensures forall i :: 0 <= i < |xs| && keep(xs[i]) ==> xs[i] in r
  {
    if xs == [] then []
    else (if keep(xs[0]) then [xs[0]] else []) + Filter(xs[1..], keep)
  }

  /** Appending to the store appends to the query result when the new
      element matches and leaves the result alone otherwise. */
  lemma {:induction false} FilterAppend<T>(xs: seq<T>, x: T, keep: T -> bool)
    ensures Filter(xs + [x], keep) == Filter(xs, keep) + (if keep(x) then [x] else [])
  {
    if xs == [] {
      assert xs + [x] == [x];
    } else {
      assert (xs + [x])[1..] == xs[1..] + [x];
      FilterAppend(xs[1..], x, keep);
    }
  }

  /** Each element mapped through `f`, in order (a DTO conversion loop). */
  function Map<T, U>(xs: seq<T>, f: T -> U): (r: seq<U>)
    ensures |r| == |xs|
    ensures forall i :: 0 <= i < |xs| ==> r[i] == f(xs[i])
  {
    if xs == [] then [] else [f(xs[0])] + Map(xs[1..], f)
  }
}

/** The persistent entities and the response DTOs built from them. */
module Entities {
  import opened Common

  /** A password as PasswordEncoder.encode returns it; never the plaintext. */
  datatype Hash = Encoded(digest: seq<char>)

  /** User: `password` is null for a User built from an AuthUser. */
  datatype User = User(id: int, email: string, password: Option<Hash>, role: UserRole)

  /** The request-scoped identity of the caller, taken from a verified token. */
  datatype AuthUser = AuthUser(id: int, email: string, role: UserRole)

  /** User.fromAuthUser: the caller as a User, without a credential. */
  function FromAuthUser(a: AuthUser): User
  {
    User(a.id, a.email, None, a.role)
  }

  /** Todo: `creator` is the owning user, which a row may lack. */
  datatype Todo = Todo(id: int, title: string, contents: string, weather: string, creator: Option<User>)

  /** Manager: links `user` to the todo with id `todoId`. */
  datatype Manager = Manager(id: int, user: User, todoId: int)

  /** Comment: `contents` written by `user` on the todo with id `todoId`. */
  datatype Comment = Comment(id: int, contents: string, user: User, todoId: int)

  datatype UserResponse = UserResponse(id: int, email: string)

  function UserResponseOf(u: User): UserResponse
  {
    UserResponse(u.id, u.email)
  }

  datatype ManagerResponse = ManagerResponse(id: int, user: UserResponse)
  datatype ManagerSaveResponse = ManagerSaveResponse(id: int, user: UserResponse)
  datatype CommentResponse = CommentResponse(id: int, contents: string, user: UserResponse)
  datatype CommentSaveResponse = CommentSaveResponse(id: int, contents: string, user: UserResponse)
  datatype TodoResponse = TodoResponse(id: int, title: string, contents: string, weather: string, user: Option<UserResponse>)
  datatype TodoSaveResponse = TodoSaveResponse(id: int, title: string, contents: string, weather: string, user: UserResponse)
}

/** The four repositories: each keeps its rows in insertion order and hands
    out ids from a counter, as an identity column does. */
module Repositories {
  import opened Common
  import opened Entities
  import Queries

  /** The message every service throws when a todo id has no row. */
  const TodoNotFound := Error(InvalidRequest, "Todo not found")

  function UserById(users: seq<User>, id: int): Option<User>
  {
    Queries.FindFirst(users, (u: User) => u.id, id)
  }

  function UserByEmail(users: seq<User>, email: string): Option<User>
  {
    Queries.FindFirst(users, (u: User) => u.email, email)
  }

  function TodoById(todos: seq<Todo>, id: int): Option<Todo>
  {
    Queries.FindFirst(todos, (t: Todo) => t.id, id)
  }

  function ManagersOfTodo(managers: seq<Manager>, todoId: int): seq<Manager>
  {
    Queries.Filter(managers, (m: Manager) => m.todoId == todoId)
  }

  function CommentsOfTodo(comments: seq<Comment>, todoId: int): seq<Comment>
  {
    Queries.Filter(comments, (c: Comment) => c.todoId == todoId)
  }

  /** Does deleting the rows linking user `userId` to todo `todoId` spare this row? */
  function Spared(todoId: int, userId: int): Manager -> bool
  {
    (m: Manager) => !(m.todoId == todoId && m.user.id == userId)
  }

  class UserRepository {
    var users: seq<User>
    var nextId: int

    /** Ids are positive, below the counter and increasing in store order;
        emails are unique; every stored user has an encoded password. */
    ghost predicate Valid()
      reads this
    {
      && 0 < nextId
      && (forall i :: 0 <= i < |users| ==> 0 < users[i].id < nextId && users[i].password.Some?)
      && (forall i, j :: 0 <= i < j < |users| ==> users[i].id < users[j].id && users[i].email != users[j].email)
    }

    constructor ()
      ensures Valid() && users == [] && nextId == 1
    {
      users, nextId := [], 1;
    }

    /** save: stores `u` under a fresh id and returns the stored row. */
    method Save(u: User) returns (saved: User)
      requires Valid() && u.password.Some?
      requires UserByEmail(users, u.email).None?
      modifies this
      ensures Valid()
      ensures saved == u.(id := old(nextId))
      ensures users == old(users) + [saved] && nextId == old(nextId) + 1
    {
      saved := u.(id := nextId);
      users, nextId := users + [saved], nextId + 1;
    }
  }

  class TodoRepository {
    var todos: seq<Todo>
    var nextId: int

    ghost predicate Valid()
      reads this
    {
      && 0 < nextId
      && (forall i :: 0 <= i < |todos| ==> 0 < todos[i].id < nextId)
      && (forall i, j :: 0 <= i < j < |todos| ==> todos[i].id < todos[j].id)
    }

    constructor ()
      ensures Valid() && todos == [] && nextId == 1
    {
      todos, nextId := [], 1;
    }

    method Save(t: Todo) returns (saved: Todo)
      requires Valid()
      modifies this
      ensures Valid()
      ensures saved == t.(id := old(nextId))
      ensures todos == old(todos) + [saved] && nextId == old(nextId) + 1
    {
      saved := t.(id := nextId);
      todos, nextId := todos + [saved], nextId + 1;
    }
  }

  class ManagerRepository {
    var managers: seq<Manager>
    var nextId: int

    ghost predicate Valid()
      reads this
    {
      && 0 < nextId
      && (forall i :: 0 <= i < |managers| ==> 0 < managers[i].id < nextId)
      && (forall i, j :: 0 <= i < j < |managers| ==> managers[i].id < managers[j].id)
    }

    constructor ()
      ensures Valid() && managers == [] && nextId == 1
    {
      managers, nextId := [], 1;
    }

    method Save(m: Manager) returns (saved: Manager)
      requires Valid()
      modifies this
      ensures Valid()
      ensures saved == m.(id := old(nextId))
      ensures managers == old(managers) + [saved] && nextId == old(nextId) + 1
    {
      saved := m.(id := nextId);
      managers, nextId := managers + [saved], nextId + 1;
    }

    /** Deletes every row that links user `userId` to todo `todoId`;
        the rest keep their order. */
    method DeleteByTodoAndUser(todoId: int, userId: int)
      requires Valid()
      modifies this
      ensures Valid() && nextId == old(nextId)
      ensures managers == Queries.Filter(old(managers), Spared(todoId, userId))
    {
      managers := Queries.Filter(managers, Spared(todoId, userId));
      FilterKeepsIncreasingIds(old(managers), Spared(todoId, userId));
    }
  }

  /** Deleting rows keeps the remaining ids increasing and below the counter. */
  lemma {:induction false} FilterKeepsIncreasingIds(ms: seq<Manager>, keep: Manager -> bool)
    requires forall i, j :: 0 <= i < j < |ms| ==> ms[i].id < ms[j].id
    ensures forall i, j :: 0 <= i < j < |Queries.Filter(ms, keep)| ==>
      Queries.Filter(ms, keep)[i].id < Queries.Filter(ms, keep)[j].id
  {
    if ms != [] {
      FilterKeepsIncreasingIds(ms[1..], keep);
      var rest := Queries.Filter(ms[1..], keep);
      forall m | m in rest ensures ms[0].id < m.id {
        var k :| 0 <= k < |ms[1..]| && ms[1..][k] == m;
        assert ms[k + 1] == m;
      }
    }
  }

  class CommentRepository {
    var comments: seq<Comment>
    var nextId: int

    ghost predicate Valid()
      reads this
    {
      && 0 < nextId
      && (forall i :: 0 <= i < |comments| ==> 0 < comments[i].id < nextId)
      && (forall i, j :: 0 <= i < j < |comments| ==> comments[i].id < comments[j].id)
    }

    constructor ()
      ensures Valid() && comments == [] && nextId == 1
    {
      comments, nextId := [], 1;
    }

    method Save(c: Comment) returns (saved: Comment)
      requires Valid()
      modifies this
      ensures Valid()
      ensures saved == c.(id := old(nextId))
      ensures comments == old(comments) + [saved] && nextId == old(nextId) + 1
    {
      saved := c.(id := nextId);
      comments, nextId := comments + [saved], nextId + 1;
    }
  }
}
