/** The todo records that the two modals read. The application's own type
    definitions are not part of this model; these are the fields the core
    reads or writes. */
module TodoTypes {
  import opened JsText

  /** A todo item (`TodoType`). `categoryIdx` may be absent. */
  datatype Todo = Todo(idx: int, title: string, color: string, categoryIdx: Option<int>)

  /** One category section of the todo list: its colour and its todos. */
  datatype TodoSection = TodoSection(color: string, data: seq<Todo>)
}
