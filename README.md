# Request validation and authorisation rules of a task-management backend

This Dafny project models the decision logic of a small Spring backend. Users
sign up and sign in. They create todos tagged with the day's weather, comment
on todos, and register other users as managers of their todos. Each service
operation is a short, ordered chain of checks over in-memory stores. The chain
either throws one specific exception or performs one write. The model states
the order of those checks exactly, with the exception class and the message
of each failure.

Layout:

- `common.dfy`: `Common` holds `Option` (Java's null and `Optional`), the
  exception classes (`ErrorKind`), `Error` and `Result`, and `UserRole`.
  `JavaText` holds `String.trim`, which drops leading and trailing chars up to
  U+0020.
- `store.dfy`: `Queries` holds the repository queries as generic functions over
  a store kept in insertion order. `Entities` holds the entities and the
  response DTOs. `Repositories` has one class per JPA repository. Each class
  keeps a `seq` of rows and an id counter. Its `Valid()` says that ids are
  positive, increasing in store order and below the counter. For users it
  also says that emails are unique and every stored user has an encoded
  password.
- `auth.dfy`: `AuthService.signup` and `signin`, and a `PasswordEncoder` class
  with a ghost count of `encode` calls.
- `managers.dfy`, `comments.dfy`, `todos.dfy`: `ManagerService`,
  `CommentService` and `TodoService`. Only the unit tests of these three
  services are available, and the model follows them. MockitoExtension uses
  strict stubs, and a repository method that was not stubbed returns
  `Optional.empty()`. So when a test stubs only the todo lookup but expects an
  error other than "not found", that check must run before any other lookup.

Services are classes holding `const` references to their repositories, as the
Java services hold final fields. State-changing operations are methods whose
`ensures` give the new store contents in terms of the old ones. Read-only
operations are functions over the stores. Each write is tied to a read:

- a successful `Signup` is accepted by `Signin` with the same email and
  password, which returns the same token;
- after `SaveManager` or `SaveComment`, `GetManagers` or `GetComments` lists
  the new row last, after the rows listed before;
- after `SaveTodo`, `GetTodo` returns the saved todo.

Behaviour the code and tests fix:

- Blank email at signup: the code throws `NullPointerException("Email is null
  or empty")`. Role parsing and the duplicate check run after `encode`. The
  duplicate check throws `InvalidRequestException`.
- Wrong password at signin: this throws `AuthException`. An unknown email
  throws `InvalidRequestException`.
- `saveTodo`: the weather client is stubbed in the null-contents test, so under
  strict stubbing it is called even then. The model takes its result as an
  input to every call.
- `saveManager`: a todo without a creator fails with its own message ("일정에
  담당자가 존재하지 않습니다."), before the creator comparison.

## Model

| member | source | states |
|---|---|---|
| JavaText.Trim | src/main/java/org/example/expert/domain/auth/service/AuthService.java:35 | `trim()` is a slice `s[a..b]` of its input such that every char before `a` and from `b` on is at most U+0020, and, when not empty, it starts and ends with a char above U+0020; together these fix the result for every input |
| JavaText.BlankIffAllTrimmable | src/main/java/org/example/expert/domain/auth/service/AuthService.java:35 | `trim().isEmpty()` holds exactly when every char of the string is at most U+0020 (so "", " " and "\t " are blank) |
| JavaText.LeadCount | src/main/java/org/example/expert/domain/auth/service/AuthService.java:35 | the number of leading chars trim drops: all of them at most U+0020, and the next char (if any) above it |
| JavaText.TrailCount | src/main/java/org/example/expert/domain/auth/service/AuthService.java:35 | the number of trailing chars trim drops: all of them at most U+0020, and the char before them (if any) above it |
| Queries.FindFirst | src/main/java/org/example/expert/domain/auth/service/AuthService.java:61-62 | a repository lookup (`findById`, `findByEmail`) is empty exactly when no row has the key; otherwise it is the first stored row with that key |
| Queries.Filter | src/test/java/org/example/expert/domain/manager/service/ManagerServiceTest.java:169 | `findByTodoIdWithUser` keeps exactly the rows of the todo; every kept row is stored and matches, every matching row is kept |
| Queries.FilterAppend | src/test/java/org/example/expert/domain/comment/service/CommentServiceTest.java:91-101 | storing a row appends it to the listing of its todo if it matches and leaves the listing alone otherwise, so listings keep store order |
| Queries.Map | src/test/java/org/example/expert/domain/comment/service/CommentServiceTest.java:95-101 | the DTO conversion yields one response per row, in order, each the image of its row |
| Repositories.UserRepository.Save | src/main/java/org/example/expert/domain/auth/service/AuthService.java:53 | `save` appends the user under the next id and keeps ids increasing and emails unique |
| Repositories.TodoRepository.Save | src/test/java/org/example/expert/domain/manager/service/TodoServiceTest.java:99 | `save` appends the todo under the next id |
| Repositories.ManagerRepository.Save | src/test/java/org/example/expert/domain/manager/service/ManagerServiceTest.java:198 | `save` appends the manager under the next id |
| Repositories.ManagerRepository.DeleteByTodoAndUser | src/test/java/org/example/expert/domain/manager/service/ManagerServiceTest.java:222-223 | removes every row linking the user to the todo; the other rows keep their order and ids stay increasing |
| Repositories.CommentRepository.Save | src/test/java/org/example/expert/domain/comment/service/CommentServiceTest.java:69 | `save` appends the comment under the next id |
| Repositories.FilterKeepsIncreasingIds | src/test/java/org/example/expert/domain/manager/service/ManagerServiceTest.java:222-223 | deleting manager rows keeps the remaining ids increasing |
| Auth.PasswordEncoder.Encode | src/main/java/org/example/expert/domain/auth/service/AuthService.java:40 | the encoding is one that `matches` accepts for the raw password, and the call is counted |
| Auth.AuthService.Signup | src/main/java/org/example/expert/domain/auth/service/AuthService.java:27-58 | null or blank email: `NullPointerException("Email is null or empty")`, with no `encode` call and the store unchanged; otherwise exactly one `encode`, then a failed role parse propagates its error, then an email already registered (compared untrimmed) throws "이미 존재하는 이메일입니다." with the store unchanged; otherwise exactly one user is stored (given email, encoded password, parsed role, next id), and the token carries that id, email and role; signin then returns the same token |
| Auth.AuthService.Signin | src/main/java/org/example/expert/domain/auth/service/AuthService.java:60-72 | `InvalidRequestException("가입되지 않은 유저입니다.")` exactly when no user has the email; for the stored user with that email, a non-matching password gives `AuthException("잘못된 비밀번호입니다.")` and a matching one a token with that user's id, email and role; it is a function, so nothing is written |
| Managers.ManagerService.SaveManager | src/test/java/org/example/expert/domain/manager/service/ManagerServiceTest.java:61-207 | the checks run in this order: "Todo not found", no creator ("일정에 담당자가 존재하지 않습니다."), caller not the creator ("담당자를 등록하려고 하는 유저가 일정을 만든 유저가 아닙니다."), unknown manager user ("등록하려고 하는 담당자 유저가 존재하지 않습니다."), manager user is the caller ("일정 작성자는 본인을 담당자로 등록할 수 없습니다."); each failure leaves the store unchanged; success stores one manager and returns the manager user's id and email; getManagers then lists it last; if no manager row named its todo's creator before the call, none does after it |
| Managers.ManagerService.GetManagers | src/test/java/org/example/expert/domain/manager/service/ManagerServiceTest.java:47-178 | "Todo not found" exactly when no todo has the id; otherwise one response per manager of the todo, in store order, with the manager's id and its user's id and email |
| Managers.ManagerService.DeleteManager | src/test/java/org/example/expert/domain/manager/service/ManagerServiceTest.java:209-260 | the checks run in this order: "User not found" for the caller, "Todo not found", no creator ("일정에 담당자가 존재하지 않습니다."), each leaving the store unchanged; then exactly the rows linking the manager user to the todo are removed; if no manager row named its todo's creator before the call, none does after it |
| Managers.ManagerListedLast | src/test/java/org/example/expert/domain/manager/service/ManagerServiceTest.java:158-207 | a manager stored for a todo is listed after that todo's earlier managers |
| Managers.StillNoSelfManagers | src/test/java/org/example/expert/domain/manager/service/ManagerServiceTest.java:135-154 | storing a manager who is not the todo's creator keeps every manager row clear of its todo's creator |
| Managers.NoSelfManagersKept | src/test/java/org/example/expert/domain/manager/service/ManagerServiceTest.java:209-260 | removing manager rows keeps every remaining row clear of its todo's creator |
| Comments.CommentService.SaveComment | src/test/java/org/example/expert/domain/comment/service/CommentServiceTest.java:40-130 | a null caller gives "user is null" and null contents give "comment Contents is null", whatever the todo store holds; then "Todo not found"; failures leave the store unchanged; otherwise exactly one comment is stored, written by the caller, and getComments lists it last; empty contents are accepted |
| Comments.CommentService.GetComments | src/test/java/org/example/expert/domain/comment/service/CommentServiceTest.java:78-102 | one response per comment of the todo, in store order, with contents and author id and email; only the comment store is read, and a todo with no comments yields the empty list |
| Comments.CommentListedLast | src/test/java/org/example/expert/domain/comment/service/CommentServiceTest.java:59-102 | a comment stored on a todo is listed after that todo's earlier comments |
| Todos.TodoService.SaveTodo | src/test/java/org/example/expert/domain/manager/service/TodoServiceTest.java:53-108 | null contents give "Contents is required", even when the weather client returned a value; a null weather gives "Weather is required"; failures leave the store unchanged; otherwise one todo owned by the caller is stored, and the response carries the title, contents, weather and the caller's id and email; getTodo then returns it |
| Todos.TodoService.GetTodo | src/test/java/org/example/expert/domain/manager/service/TodoServiceTest.java:39-51 | "Todo not found" exactly when no todo has the id; otherwise the stored todo's fields, with the creator's id and email when it has a creator and no user when it has none |

## Left out

- ManagerService, CommentService and TodoService: their Java sources are not part of this model. Their behaviour comes from their unit tests. Where the tests do not fix an order, the model picks one. In `saveComment` a null caller is checked before null contents. In `saveTodo` null contents are checked before a null weather.
- Manager rows naming their todo's creator: `saveManager` never stores one, but a store may hold one (the fixture at ManagerServiceTest.java:165-169 builds one, and `getManagers` lists it), so the model requires nothing about them; it proves only that `saveManager` and `deleteManager` never introduce one.
- Comments.CommentService.SaveComment: only null contents are refused, and empty contents are accepted. No test passes empty contents, so this is the model's choice.
- Managers.ManagerService.DeleteManager: the tests fix only the first three checks. After them the model removes the rows linking the given user to the todo. It does not require the caller to be the todo's creator, and it does not fail when no row matches. Nothing in the tests pins either case down.
- Todos.TodoService.GetTodo: the "Todo not found" message for a missing todo is assumed. No test covers it.
- Auth.AuthService.Signin: a stored user without a password counts as a mismatch. `Valid()` rules such users out, so this never happens in a valid store.
- `UserRole.of`: its source is not part of this model. It is a parameter of `AuthService` that parses a role or returns the error to throw.
- Password hashing internals: `encode` is a parameter one-way function, and salting is not modelled. A null password is not modelled.
- JWT signing: a token is modelled by the claims it carries (id, email, role).
- The weather HTTP client: its result for the day is an input `Option<string>`.
- Todo fields: title, contents and weather are non-null strings in a stored todo. A `new Todo()` with null strings is not represented. Its null creator is.
- Timestamps (`createdAt`, `modifiedAt`) and DTO fields that no test asserts are not modelled.
- JPA mechanics and `@Transactional` semantics are not modelled. A failing request writes nothing in the model.
- Concurrency: requests are sequential, so duplicate manager rows under races are not modelled.
- The admin logging aspect (`AspectAdmin`) writes caller id, time and request URL to a logger in a `finally` block. It does not change the wrapped call's result or exception. It is logging I/O with no decision logic, so it is not modelled.
