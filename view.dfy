/** The task list of the browser client (public/js/app.js) as a view-model: the rendered
    items in document order, whether the "no tasks" indicator is shown, and the message
    last shown in the modal. Each reply from the server is an input: the parsed JSON, or
    a failure before any JSON was parsed (transport error, body that is not JSON). Each
    handler is a function from the old view to the new one; the class `TaskList` makes
    the same changes in place. */
module TaskView {
  import opened Tasks
  import opened TaskText
  import opened TaskOrder

  const AddError: string := "Error al agregar la tarea"
  const ConnectionError: string := "Error de conexión"
  const DeleteError: string := "Error al eliminar la tarea"
  const CompleteError: string := "Error al completar la tarea"
  const FillAllFields: string := "Por favor, completa todos los campos."

  /** One rendered `li.task-item`, keyed by its `data-id`. `completed` is its `completed`
      class; the two flags are the `disabled` state of its two buttons. */
  datatype Item = Item(
    id: int,
    name: string,
    dueLabel: string,
    priority: string,
    description: string,
    completed: bool,
    completeDisabled: bool,
    deleteDisabled: bool)

  datatype View = View(items: seq<Item>, emptyVisible: bool, modal: Option<string>)

  /** Reply to `POST /api/tareas`: the parsed body with its `id` field if it has one. */
  datatype SaveReply = SaveJson(id: Option<int>) | SaveFailed

  /** Reply to `GET /api/tareas`: an array of tasks; a JSON value with a positive `length`
      but no `filter` method (a non-empty string, or an object with a positive numeric
      `length` field); a JSON value without a positive `length` (such as the `{error}`
      object of a 500, null, a number or the empty string); or a failure. */
  datatype LoadReply = LoadArray(tasks: seq<Task>) | LoadLengthOnly | LoadOther | LoadFailed

  /** Reply to DELETE or PUT: any parsed JSON (a 500 body included), or a failure. */
  datatype ActionReply = ActionJson | ActionFailed

  /** The item `addTask` builds. */
  function NewItem(taskText: string, isCompleted: bool, taskId: int, prioridad: string,
                   descripcion: string, fechaVencimiento: string): Item
  {
    Item(taskId, taskText, DueLabel(fechaVencimiento), prioridad, descripcion,
         isCompleted, isCompleted, isCompleted)
  }

  /** The item `loadTasks` renders for a fetched task (`task.completada` taken as truthy). */
  function Render(t: Task): Item {
    NewItem(t.nombre, t.completada != 0, t.id, t.prioridad, t.descripcion, t.fechaVencimiento)
  }

  function RenderAll(ts: seq<Task>): seq<Item> {
    seq(|ts|, i requires 0 <= i < |ts| => Render(ts[i]))
  }

  lemma RenderAllAppend(a: seq<Task>, b: seq<Task>)
    ensures RenderAll(a + b) == RenderAll(a) + RenderAll(b)
  {
  }

  lemma MultisetRemoveAt<T>(b: seq<T>, k: nat)
    requires k < |b|
    ensures multiset(b[..k] + b[k + 1..]) == multiset(b) - multiset{b[k]}
  {
    assert b == b[..k] + [b[k]] + b[k + 1..];
  }

  lemma RenderAllRemoveAt(b: seq<Task>, k: nat)
    requires k < |b|
    ensures multiset(RenderAll(b)) == multiset(RenderAll(b[..k] + b[k + 1..])) + multiset{Render(b[k])}
  {
    assert b == b[..k] + [b[k]] + b[k + 1..];
    RenderAllAppend(b[..k] + [b[k]], b[k + 1..]);
    RenderAllAppend(b[..k], [b[k]]);
    RenderAllAppend(b[..k], b[k + 1..]);
  }

  /** Rendering a permutation of the tasks gives a permutation of the items. */
  lemma {:induction false} RenderAllPermutes(a: seq<Task>, b: seq<Task>)
    requires multiset(a) == multiset(b)
    ensures multiset(RenderAll(a)) == multiset(RenderAll(b))
    decreases |a|
  {
    if a != [] {
      var x := a[|a| - 1];
      var a' := a[..|a| - 1];
      assert a == a' + [x];
      assert x in multiset(b);
      var k :| 0 <= k < |b| && b[k] == x;
      MultisetRemoveAt(a, |a| - 1);
      MultisetRemoveAt(b, k);
      assert a[..|a| - 1] + a[|a|..] == a';
      RenderAllPermutes(a', b[..k] + b[k + 1..]);
      RenderAllRemoveAt(a, |a| - 1);
      RenderAllRemoveAt(b, k);
    }
  }

  /** `document.querySelector('[data-id="id"]')`: the position of the first item with
      that id, if any. */
  function IndexOfId(items: seq<Item>, id: int): (r: Option<nat>)
    ensures r.Some? ==> r.value < |items| && items[r.value].id == id
    ensures r.Some? ==> forall j :: 0 <= j < r.value ==> items[j].id != id
    ensures r.None? ==> forall j :: 0 <= j < |items| ==> items[j].id != id
  {
    if items == [] then None
    else if items[0].id == id then Some(0)
    else match IndexOfId(items[1..], id)
      case None => None
      case Some(k) => Some(k + 1)
  }

  /** The lookup depends on the ids alone. */
  lemma {:induction false} IndexOfIdSameIds(a: seq<Item>, b: seq<Item>, id: int)
    requires |a| == |b|
    requires forall i :: 0 <= i < |a| ==> a[i].id == b[i].id
    ensures IndexOfId(a, id) == IndexOfId(b, id)
  {
    if a != [] {
      IndexOfIdSameIds(a[1..], b[1..], id);
    }
  }

  predicate UniqueIds(items: seq<Item>) {
    forall i, j :: 0 <= i < j < |items| ==> items[i].id != items[j].id
  }

  /** `addTask`: append the item and hide the indicator. */
  function AfterAdd(v: View, item: Item): View {
    View(v.items + [item], false, v.modal)
  }

  /** `saveTask`: on a reply whose `id` is truthy, append an uncompleted item with that id;
      otherwise show an error and leave the list alone. */
  function AfterSave(v: View, taskText: string, descripcion: string, fechaVencimiento: string,
                     prioridad: string, reply: SaveReply): View
  {
    match reply
    case SaveJson(id) =>
      if id.Some? && id.value != 0 then
        AfterAdd(v, NewItem(taskText, false, id.value, prioridad, descripcion, fechaVencimiento))
      else v.(modal := Some(AddError))
    case SaveFailed => v.(modal := Some(ConnectionError))
  }

  /** `loadTasks`: a non-empty array replaces the list by the tasks in load order; a value
      with a positive `length` but no `filter` clears the list, and the call to `filter`
      then throws into the `catch`, which only logs; an empty array or any other JSON value
      only shows the indicator; a failure changes nothing. */
  function AfterLoad(v: View, reply: LoadReply): View {
    match reply
    case LoadArray(data) =>
      if |data| > 0 then View(RenderAll(LoadOrder(data)), false, v.modal)
      else v.(emptyVisible := true)
    case LoadLengthOnly => v.(items := [])
    case LoadOther => v.(emptyVisible := true)
    case LoadFailed => v
  }

  /** `deleteTask`: once any JSON is parsed, remove the first item with that id and show the
      indicator if the list is now empty. When no item has the id, `removeChild(null)`
      throws and the error is shown, as on a failure. */
  function AfterDelete(v: View, id: int, reply: ActionReply): View {
    match reply
    case ActionFailed => v.(modal := Some(DeleteError))
    case ActionJson =>
      match IndexOfId(v.items, id)
      case None => v.(modal := Some(DeleteError))
      case Some(k) =>
        var rest := v.items[..k] + v.items[k + 1..];
        v.(items := rest, emptyVisible := rest == [] || v.emptyVisible)
  }

  /** The item after `completeTask` has marked it: completed class, both buttons disabled. */
  function MarkedCompleted(item: Item): Item {
    item.(completed := true, completeDisabled := true, deleteDisabled := true)
  }

  /** `completeTask`: once any JSON is parsed, mark the first item with that id. When no
      item has the id, `taskItem.classList` throws and the error is shown. */
  function AfterComplete(v: View, id: int, reply: ActionReply): View {
    match reply
    case ActionFailed => v.(modal := Some(CompleteError))
    case ActionJson =>
      match IndexOfId(v.items, id)
      case None => v.(modal := Some(CompleteError))
      case Some(k) => v.(items := v.items[k := MarkedCompleted(v.items[k])])
  }

  /** The submit handler's test: name and description trimmed, all four non-empty. */
  predicate ShouldSave(nombre: string, descripcion: string, fechaVencimiento: string, prioridad: string) {
    Trim(nombre) != [] && Trim(descripcion) != [] && fechaVencimiento != [] && prioridad != []
  }

  /** The submit handler: save the trimmed values, or show the validation message. */
  function AfterSubmit(v: View, nombre: string, descripcion: string, fechaVencimiento: string,
                       prioridad: string, reply: SaveReply): View
  {
    if ShouldSave(nombre, descripcion, fechaVencimiento, prioridad) then
      AfterSave(v, Trim(nombre), Trim(descripcion), fechaVencimiento, prioridad, reply)
    else v.(modal := Some(FillAllFields))
  }

  predicate HasVisibleChar(s: string) {
    exists k :: 0 <= k < |s| && !IsJsWhitespace(s[k])
  }

  /** A request is sent exactly when the name and the description each hold a character
      that is not whitespace and the due date and the priority are non-empty; otherwise
      the list is untouched and the validation message is shown. */
  lemma SubmitValidation(v: View, nombre: string, descripcion: string, fechaVencimiento: string,
                         prioridad: string, reply: SaveReply)
    ensures ShouldSave(nombre, descripcion, fechaVencimiento, prioridad) <==>
      HasVisibleChar(nombre) && HasVisibleChar(descripcion) && fechaVencimiento != [] && prioridad != []
    ensures !ShouldSave(nombre, descripcion, fechaVencimiento, prioridad) ==>
      var v' := AfterSubmit(v, nombre, descripcion, fechaVencimiento, prioridad, reply);
      v'.items == v.items && v'.emptyVisible == v.emptyVisible && v'.modal == Some(FillAllFields)
  {
    TrimEmptyIff(nombre);
    TrimEmptyIff(descripcion);
  }

  /** A save whose reply carries a truthy id appends one uncompleted, enabled item with that
      id after the unchanged earlier items and hides the indicator; any other reply leaves
      list and indicator alone and shows an error. */
  lemma SaveAppends(v: View, taskText: string, descripcion: string, fechaVencimiento: string,
                    prioridad: string, reply: SaveReply)
    ensures var v' := AfterSave(v, taskText, descripcion, fechaVencimiento, prioridad, reply);
      if reply.SaveJson? && reply.id.Some? && reply.id.value != 0 then
        && |v'.items| == |v.items| + 1
        && v'.items[..|v.items|] == v.items
        && v'.items[|v.items|].id == reply.id.value
        && v'.items[|v.items|].name == taskText
        && !v'.items[|v.items|].completed
        && !v'.items[|v.items|].completeDisabled && !v'.items[|v.items|].deleteDisabled
        && !v'.emptyVisible
        && v'.modal == v.modal
      else
        && v'.items == v.items
        && v'.emptyVisible == v.emptyVisible
        && v'.modal == Some(if reply.SaveFailed? then ConnectionError else AddError)
  {
  }

  /** `addTask` renders an item completed exactly when asked to, and then its buttons are
      disabled exactly when it is completed. */
  lemma AddRendersState(v: View, taskText: string, isCompleted: bool, taskId: int, prioridad: string,
                        descripcion: string, fechaVencimiento: string)
    ensures var v' := AfterAdd(v, NewItem(taskText, isCompleted, taskId, prioridad, descripcion, fechaVencimiento));
      && v'.items[..|v.items|] == v.items
      && |v'.items| == |v.items| + 1
      && var it := v'.items[|v.items|];
         && it.id == taskId
         && it.completed == isCompleted
         && it.completeDisabled == isCompleted && it.deleteDisabled == isCompleted
         && !v'.emptyVisible
  {
  }

  /** After a load with a non-empty array the list is a permutation of the rendered data:
      every not-completed item comes before every completed one, the not-completed block
      is in due-date order (the items are the rendering of `LoadOrder(data)`, whose blocks
      `LoadOrderSpec` describes), each item's buttons are disabled exactly when it is
      completed, and the indicator is hidden. */
  lemma LoadRendersData(v: View, data: seq<Task>)
    requires |data| > 0
    ensures var v' := AfterLoad(v, LoadArray(data)); var n := |Pending(data)|;
      && v'.items == RenderAll(LoadOrder(data))
      && multiset(v'.items) == multiset(RenderAll(data))
      && (forall i, j :: 0 <= i < j < |v'.items| && !v'.items[j].completed ==> !v'.items[i].completed)
      && n <= |v'.items|
      && (forall i :: 0 <= i < |v'.items| ==> (!v'.items[i].completed <==> i < n))
      && (forall i :: 0 <= i < |v'.items| ==>
            v'.items[i].completeDisabled == v'.items[i].completed == v'.items[i].deleteDisabled)
      && !v'.emptyVisible
      && v'.modal == v.modal
  {
    var r := LoadOrder(data);
    LoadOrderBlocks(data);
    SortByDueSorted(Pending(data));
    SplitIsPermutation(data);
    assert multiset(r) == multiset(data);
    RenderAllPermutes(r, data);
  }

  /** A load with an empty array, or with JSON that has no positive `length`, renders
      nothing new and shows the indicator; a failed load changes nothing. */
  lemma LoadEmptyShowsIndicator(v: View, reply: LoadReply)
    requires reply.LoadOther? || (reply.LoadArray? && |reply.tasks| == 0) || reply.LoadFailed?
    ensures var v' := AfterLoad(v, reply);
      && v'.items == v.items
      && v'.modal == v.modal
      && v'.emptyVisible == (reply.LoadFailed? ==> v.emptyVisible)
  {
  }

  /** A load whose JSON has a positive `length` but no `filter` empties the list before
      throwing: no item is left, and neither the indicator nor the modal changes. */
  lemma LoadLengthOnlyClears(v: View)
    ensures var v' := AfterLoad(v, LoadLengthOnly);
      && v'.items == []
      && v'.emptyVisible == v.emptyVisible
      && v'.modal == v.modal
  {
  }

  /** Delete, once a JSON reply is parsed, removes exactly the first item with that id and
      keeps the others in their order; with unique ids no item with that id remains. The
      indicator is then shown if the list is empty and otherwise left as it was. A failure,
      or an id not on the list, leaves the list as it was and shows the error. */
  lemma DeleteRemovesOne(v: View, id: int, reply: ActionReply)
    ensures var v' := AfterDelete(v, id, reply);
      if reply.ActionJson? && IndexOfId(v.items, id).Some? then
        var k := IndexOfId(v.items, id).value;
        && v.items[k].id == id
        && |v'.items| == |v.items| - 1
        && (forall j :: 0 <= j < k ==> v'.items[j] == v.items[j])
        && (forall j :: k <= j < |v'.items| ==> v'.items[j] == v.items[j + 1])
        && multiset(v'.items) + multiset{v.items[k]} == multiset(v.items)
        && (UniqueIds(v.items) ==> UniqueIds(v'.items) && forall j :: 0 <= j < |v'.items| ==> v'.items[j].id != id)
        && (v'.items == [] ==> v'.emptyVisible)
        && (v'.items != [] ==> v'.emptyVisible == v.emptyVisible)
        && v'.modal == v.modal
      else
        v' == v.(modal := Some(DeleteError))
  {
    if reply.ActionJson? && IndexOfId(v.items, id).Some? {
      var k := IndexOfId(v.items, id).value;
      assert v.items == v.items[..k] + [v.items[k]] + v.items[k + 1..];
    }
  }

  /** Complete, once a JSON reply is parsed, marks the first item with that id completed and
      disables both of its buttons, changes no other item, and doing it again changes
      nothing. A failure, or an id not on the list, shows the error and changes no item. */
  lemma CompleteMarksOne(v: View, id: int, reply: ActionReply)
    ensures var v' := AfterComplete(v, id, reply);
      if reply.ActionJson? && IndexOfId(v.items, id).Some? then
        var k := IndexOfId(v.items, id).value;
        && |v'.items| == |v.items|
        && v'.items[k].id == id
        && v'.items[k].completed && v'.items[k].completeDisabled && v'.items[k].deleteDisabled
        && v'.items[k] == v.items[k].(completed := true, completeDisabled := true, deleteDisabled := true)
        && (forall j :: 0 <= j < |v.items| && j != k ==> v'.items[j] == v.items[j])
        && v'.emptyVisible == v.emptyVisible && v'.modal == v.modal
        && AfterComplete(v', id, reply) == v'
      else
        v' == v.(modal := Some(CompleteError))
  {
    if reply.ActionJson? && IndexOfId(v.items, id).Some? {
      var k := IndexOfId(v.items, id).value;
      var v' := AfterComplete(v, id, reply);
      IndexOfIdSameIds(v.items, v'.items, id);
      assert v'.items[k := MarkedCompleted(v'.items[k])] == v'.items;
    }
  }

  /** A user action, with the reply it meets. */
  datatype Event =
    | SubmitEvent(nombre: string, descripcion: string, fechaVencimiento: string, prioridad: string, saveReply: SaveReply)
    | LoadEvent(loadReply: LoadReply)
    | DeleteEvent(deleteId: int, deleteReply: ActionReply)
    | CompleteEvent(completeId: int, completeReply: ActionReply)

  function Apply(v: View, e: Event): View {
    match e
    case SubmitEvent(n, d, f, p, r) => AfterSubmit(v, n, d, f, p, r)
    case LoadEvent(r) => AfterLoad(v, r)
    case DeleteEvent(id, r) => AfterDelete(v, id, r)
    case CompleteEvent(id, r) => AfterComplete(v, id, r)
  }

  /** The indicator is shown exactly when no item is rendered. */
  predicate IndicatorMatches(v: View) {
    v.emptyVisible <==> v.items == []
  }

  /** Every action keeps the indicator in step with the list, provided a load that renders
      nothing happens on an empty list (the page loads its tasks once, before anything is
      rendered). */
  lemma IndicatorKept(v: View, e: Event)
    requires IndicatorMatches(v)
    requires e.LoadEvent? && !(e.loadReply.LoadArray? && |e.loadReply.tasks| > 0) ==> v.items == []
    ensures IndicatorMatches(Apply(v, e))
  {
    match e {
      case SubmitEvent(n, d, f, p, r) =>
        if ShouldSave(n, d, f, p) {
          assert Apply(v, e) == AfterSave(v, Trim(n), Trim(d), f, p, r);
        }
      case LoadEvent(r) =>
        if r.LoadArray? && |r.tasks| > 0 {
          LoadOrderBlocks(r.tasks);
          assert Apply(v, e).items == RenderAll(LoadOrder(r.tasks));
        }
      case DeleteEvent(id, r) =>
      case CompleteEvent(id, r) =>
    }
  }

  /** The rendered list, updated in place by the page's handlers. */
  class TaskList {
    var items: seq<Item>
    var emptyVisible: bool
    var modal: Option<string>

    function Snapshot(): View
      reads this
    {
      View(items, emptyVisible, modal)
    }

    /** The page before any task is rendered; the indicator's initial display comes from
        the page's markup. */
    constructor (indicatorShown: bool)
      ensures Snapshot() == View([], indicatorShown, None)
    {
      items := [];
      emptyVisible := indicatorShown;
      modal := None;
    }

    method AddTask(taskText: string, isCompleted: bool, taskId: int, prioridad: string,
                   descripcion: string, fechaVencimiento: string)
      modifies this
      ensures Snapshot() == AfterAdd(old(Snapshot()),
                                     NewItem(taskText, isCompleted, taskId, prioridad, descripcion, fechaVencimiento))
    {
      var item := Item(taskId, taskText, DueLabel(fechaVencimiento), prioridad, descripcion, false, false, false);
      if isCompleted {
        item := item.(completed := true, completeDisabled := true, deleteDisabled := true);
      }
      items := items + [item];
      emptyVisible := false;
    }

    method SaveTask(taskText: string, descripcion: string, fechaVencimiento: string, prioridad: string,
                    reply: SaveReply)
      modifies this
      ensures Snapshot() == AfterSave(old(Snapshot()), taskText, descripcion, fechaVencimiento, prioridad, reply)
    {
      match reply {
        case SaveJson(id) =>
          if id.Some? && id.value != 0 {
            AddTask(taskText, false, id.value, prioridad, descripcion, fechaVencimiento);
          } else {
            modal := Some(AddError);
          }
        case SaveFailed =>
          modal := Some(ConnectionError);
      }
    }

    /** `tasks.forEach(task => addTask(...))`. */
    method RenderEach(tasks: seq<Task>)
      modifies this
      ensures items == old(items) + RenderAll(tasks)
      ensures emptyVisible == (if tasks == [] then old(emptyVisible) else false)
      ensures modal == old(modal)
    {
      var i := 0;
      while i < |tasks|
        invariant 0 <= i <= |tasks|
        invariant items == old(items) + RenderAll(tasks[..i])
        invariant emptyVisible == (if i == 0 then old(emptyVisible) else false)
        invariant modal == old(modal)
      {
        var t := tasks[i];
        AddTask(t.nombre, t.completada != 0, t.id, t.prioridad, t.descripcion, t.fechaVencimiento);
        assert tasks[..i + 1][..i] == tasks[..i];
        i := i + 1;
      }
      assert tasks[..i] == tasks;
    }

    method LoadTasks(reply: LoadReply)
      modifies this
      ensures Snapshot() == AfterLoad(old(Snapshot()), reply)
    {
      match reply {
        case LoadFailed =>
        case LoadLengthOnly =>
          items := [];
        case LoadOther =>
          emptyVisible := true;
        case LoadArray(data) =>
          if |data| > 0 {
            items := [];
            var pending := SortByDue(Pending(data));
            var finished := Finished(data);
            RenderEach(pending);
            RenderEach(finished);
            LoadOrderBlocks(data);
            RenderAllAppend(pending, finished);
          } else {
            emptyVisible := true;
          }
      }
    }

    method DeleteTask(taskId: int, reply: ActionReply)
      modifies this
      ensures Snapshot() == AfterDelete(old(Snapshot()), taskId, reply)
    {
      match reply {
        case ActionFailed =>
          modal := Some(DeleteError);
        case ActionJson =>
          var k := IndexOfId(items, taskId);
          if k.None? {
            modal := Some(DeleteError);
          } else {
            items := items[..k.value] + items[k.value + 1..];
            if |items| == 0 {
              emptyVisible := true;
            }
          }
      }
    }

    method CompleteTask(taskId: int, reply: ActionReply)
      modifies this
      ensures Snapshot() == AfterComplete(old(Snapshot()), taskId, reply)
    {
      match reply {
        case ActionFailed =>
          modal := Some(CompleteError);
        case ActionJson =>
          var k := IndexOfId(items, taskId);
          if k.None? {
            modal := Some(CompleteError);
          } else {
            var item := items[k.value].(completed := true);
            item := item.(completeDisabled := true, deleteDisabled := true);
            items := items[k.value := item];
          }
      }
    }

    /** The form's submit handler; `sent` tells whether a save request went out. */
    method Submit(nombre: string, descripcion: string, fechaVencimiento: string, prioridad: string,
                  reply: SaveReply) returns (sent: bool)
      modifies this
      ensures sent <==> HasVisibleChar(nombre) && HasVisibleChar(descripcion)
                        && fechaVencimiento != [] && prioridad != []
      ensures Snapshot() == AfterSubmit(old(Snapshot()), nombre, descripcion, fechaVencimiento, prioridad, reply)
    {
      var taskText := Trim(nombre);
      var desc := Trim(descripcion);
      SubmitValidation(Snapshot(), nombre, descripcion, fechaVencimiento, prioridad, reply);
      if taskText != [] && desc != [] && fechaVencimiento != [] && prioridad != [] {
        SaveTask(taskText, desc, fechaVencimiento, prioridad, reply);
        sent := true;
      } else {
        modal := Some(FillAllFields);
        sent := false;
      }
    }
  }
}
