/** CommentService: attaching a comment to a todo and listing a todo's comments. */
module Comments {
  import opened Common
  import opened Entities
  import opened Repositories
  import Queries

  const UserIsNull := Error(InvalidRequest, "user is null")
  const ContentsIsNull := Error(InvalidRequest, "comment Contents is null")

  function CommentResponseOf(c: Comment): CommentResponse
  {
    CommentResponse(c.id, c.contents, UserResponseOf(c.user))
  }

  class CommentService {
    const commentRepository: CommentRepository
    const todoRepository: TodoRepository

    constructor (commentRepository: CommentRepository, todoRepository: TodoRepository)
      ensures this.commentRepository == commentRepository
      ensures this.todoRepository == todoRepository
    {
      this.commentRepository := commentRepository;
      this.todoRepository := todoRepository;
    }

    /** saveComment. A null caller, then null contents, are refused whatever
        the todo store holds; empty contents are accepted. Then the todo must
        exist. Only then is one comment stored, written by the caller, and
        getComments then lists it last. */
    method SaveComment(authUser: Option<AuthUser>, todoId: int, contents: Option<string>)
      returns (r: Result<CommentSaveResponse>)
      requires commentRepository.Valid()
      modifies commentRepository
      ensures commentRepository.Valid()
      ensures
        if authUser.None? then r == Err(UserIsNull)
        else if contents.None? then r == Err(ContentsIsNull)
        else if forall t :: t in todoRepository.todos ==> t.id != todoId then r == Err(TodoNotFound)
        else
          var id := old(commentRepository.nextId);
          && commentRepository.comments == old(commentRepository.comments) + [Comment(id, contents.value, FromAuthUser(authUser.value), todoId)]
          && r == Ok(CommentSaveResponse(id, contents.value, UserResponse(authUser.value.id, authUser.value.email)))
      ensures r.Err? ==> unchanged(commentRepository)
      ensures r.Ok? ==>
        GetComments(todoId) == old(GetComments(todoId)) + [CommentResponse(r.value.id, r.value.contents, r.value.user)]
    {
      if authUser.None? {
        return Err(UserIsNull);
      }
      if contents.None? {
        return Err(ContentsIsNull);
      }
      var user := FromAuthUser(authUser.value);
      var todo := TodoById(todoRepository.todos, todoId);
      if todo.None? {
        return Err(TodoNotFound);
      }
      ghost var before := commentRepository.comments;
      var saved := commentRepository.Save(Comment(0, contents.value, user, todo.value.id));
      r := Ok(CommentSaveResponse(saved.id, saved.contents, UserResponse(user.id, user.email)));
      CommentListedLast(before, saved);
    }

    /** getComments: one response per comment on the todo, in store order,
        carrying its id, contents and author's id and email. The todo store is
        not consulted: a todo without comments, known or not, yields []. */
    function GetComments(todoId: int): (r: seq<CommentResponse>)
      reads commentRepository
      ensures
        var cs := CommentsOfTodo(commentRepository.comments, todoId);
        && |r| == |cs|
        && forall i :: 0 <= i < |cs| ==>
             r[i] == CommentResponse(cs[i].id, cs[i].contents, UserResponse(cs[i].user.id, cs[i].user.email))
      ensures (forall c :: c in commentRepository.comments ==> c.todoId != todoId) ==> r == []
    {
      Queries.Map(CommentsOfTodo(commentRepository.comments, todoId), CommentResponseOf)
    }
  }

  /** A comment stored on a todo is listed after the comments already listed for it. */
  lemma CommentListedLast(comments: seq<Comment>, c: Comment)
    ensures Queries.Map(CommentsOfTodo(comments + [c], c.todoId), CommentResponseOf)
         == Queries.Map(CommentsOfTodo(comments, c.todoId), CommentResponseOf) + [CommentResponseOf(c)]
  {
    Queries.FilterAppend(comments, c, (x: Comment) => x.todoId == c.todoId);
    var listed := CommentsOfTodo(comments, c.todoId);
    assert CommentsOfTodo(comments + [c], c.todoId) == listed + [c];
    assert Queries.Map(listed + [c], CommentResponseOf) == Queries.Map(listed, CommentResponseOf) + [CommentResponseOf(c)];
  }
}
