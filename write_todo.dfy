/** The modal that writes a todo: opened on an existing todo it edits it,
    opened without one it creates a new todo in the category it was opened
    from. A submit sends exactly one of the two requests and closes the
    modal. */
module WriteTodo {
  import opened JsText
  import opened TodoTypes

  /** The form state: the title being typed and the category of the todo
      under edit (absent when creating). */
  datatype TodoForm = TodoForm(title: string, categoryIdx: Option<int>)

  /** The body of a create request. `userUid` is absent when nobody is
      signed in; `startDate` is the selected date as converted to UTC. */
  datatype CreateTodoRequest = CreateTodoRequest(title: string, categoryIdx: int,
                                                 userUid: Option<string>, startDate: string)

  /** The one request a submit sends. */
  datatype Mutation = UpdateTodo(todo: Todo) | CreateTodo(request: CreateTodoRequest)

  /** The form as the modal opens: the todo's title and category when
      editing, an empty title and no category otherwise. */
  function InitialTodoForm(todo: Option<Todo>): (f: TodoForm)
    ensures todo.Some? ==> f.title == todo.value.title && f.categoryIdx == todo.value.categoryIdx
    ensures todo.None? ==> f.title == "" && f.categoryIdx == None
  {
    if todo.Some? then TodoForm(todo.value.title, todo.value.categoryIdx) else TodoForm("", None)
  }

  /** `handleChangeText('title', value)`: only the title changes. */
  function SetTitle(form: TodoForm, value: string): (r: TodoForm)
    ensures r.title == value && r.categoryIdx == form.categoryIdx
  {
    form.(title := value)
  }

  /** The request of `handleSubmit`. Editing sends the todo with the form's
      title and category and every other field as it was; creating sends
      the form's title with the category, user and date of the modal, the
      category of the modal overriding the form's. */
  function WritePayload(todo: Option<Todo>, form: TodoForm, categoryIdx: int,
                        userUid: Option<string>, startDate: string): (r: Mutation)
    ensures r.UpdateTodo? <==> todo.Some?
    ensures r.UpdateTodo? ==>
      r.todo.idx == todo.value.idx && r.todo.color == todo.value.color &&
      r.todo.title == form.title && r.todo.categoryIdx == form.categoryIdx
    ensures r.CreateTodo? ==>
      r.request.title == form.title && r.request.categoryIdx == categoryIdx &&
      r.request.userUid == userUid && r.request.startDate == startDate
  {
    if todo.Some? then UpdateTodo(todo.value.(title := form.title, categoryIdx := form.categoryIdx))
    else CreateTodo(CreateTodoRequest(form.title, categoryIdx, userUid, startDate))
  }

  // ----- Properties -----

  /** Submitting an edit without touching the form sends the todo back
      exactly as it was. */
  lemma UneditedUpdateIsIdentity(todo: Todo, categoryIdx: int, userUid: Option<string>,
                                 startDate: string)
    ensures WritePayload(Some(todo), InitialTodoForm(Some(todo)), categoryIdx, userUid, startDate)
      == UpdateTodo(todo)
  {
  }

  /** Editing the title and submitting sends the todo with exactly that
      title changed. */
  lemma EditedTitleUpdate(todo: Todo, value: string, categoryIdx: int,
                          userUid: Option<string>, startDate: string)
    ensures WritePayload(Some(todo), SetTitle(InitialTodoForm(Some(todo)), value),
                         categoryIdx, userUid, startDate)
      == UpdateTodo(todo.(title := value))
  {
  }

  /** When creating, the form's category plays no part. */
  lemma CreateIgnoresFormCategory(form: TodoForm, c: Option<int>, categoryIdx: int,
                                  userUid: Option<string>, startDate: string)
    ensures WritePayload(None, form.(categoryIdx := c), categoryIdx, userUid, startDate)
      == WritePayload(None, form, categoryIdx, userUid, startDate)
  {
  }

  /** When editing, the modal's own category, user and date play no part. */
  lemma UpdateIgnoresModalContext(todo: Todo, form: TodoForm, c1: int, c2: int,
                                  u1: Option<string>, u2: Option<string>, d1: string, d2: string)
    ensures WritePayload(Some(todo), form, c1, u1, d1) == WritePayload(Some(todo), form, c2, u2, d2)
  {
  }

  /** The modal component. The todo under edit, the category it was opened
      from, the signed-in user and the converted date are fixed while it is
      open; `sent` logs the requests it sent. */
  class WriteTodoModal {
    const todo: Option<Todo>
    const categoryIdx: int
    const userUid: Option<string>
    const startDate: string
    var form: TodoForm
    var visible: bool
    var sent: seq<Mutation>

    constructor (todo: Option<Todo>, categoryIdx: int, userUid: Option<string>, startDate: string)
      ensures this.todo == todo && this.categoryIdx == categoryIdx
      ensures this.userUid == userUid && this.startDate == startDate
      ensures form == InitialTodoForm(todo) && visible && sent == []
    {
      this.todo := todo;
      this.categoryIdx := categoryIdx;
      this.userUid := userUid;
      this.startDate := startDate;
      form := InitialTodoForm(todo);
      visible := true;
      sent := [];
    }

    /** `handleChangeText`, as the title input calls it. */
    method HandleChangeText(value: string)
      modifies this`form
      ensures form == SetTitle(old(form), value)
    {
      form := form.(title := value);
    }

    /** `handleSubmit`: one request, then the modal closes. */
    method HandleSubmit()
      modifies this`sent, this`visible
      ensures sent == old(sent) + [WritePayload(todo, form, categoryIdx, userUid, startDate)]
      ensures !visible
    {
      var m;
      if todo.Some? {
        m := UpdateTodo(todo.value.(title := form.title, categoryIdx := form.categoryIdx));
      } else {
        m := CreateTodo(CreateTodoRequest(form.title, categoryIdx, userUid, startDate));
      }
      sent := sent + [m];
      visible := false;
    }
  }
}
