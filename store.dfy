/** The `tareas` table behind the REST routes of server.js.

    The table is a map from row id to the stored columns, plus the AUTOINCREMENT
    counter (the table's entry in `sqlite_sequence`: the largest id ever handed out).
    Each route is a step function from the table to a new table and one HTTP reply;
    the class `Store` performs the same steps by updating its fields in place. A
    storage-engine failure is an input (`fault`), carrying the error text the engine
    would report. */
module TaskStore {
  import opened Tasks

  /** Largest rowid SQLite can assign (a signed 64-bit integer). */
  const MaxRowId: int := 0x7FFF_FFFF_FFFF_FFFF

  const DeletedMessage: string := "Tarea eliminada"
  const CompletedMessage: string := "Tarea marcada como completada"
  const FullError: string := "SQLITE_FULL: database or disk is full"

  /** The stored columns of one row. */
  datatype Row = Row(
    nombre: string,
    descripcion: string,
    fechaVencimiento: string,
    prioridad: string,
    completada: int)

  /** The JSON body of `POST /api/tareas`; a field the client did not send is `None`
      (JavaScript `undefined`, bound as SQL NULL). */
  datatype Body = Body(
    nombre: Option<string>,
    descripcion: Option<string>,
    fechaVencimiento: Option<string>,
    prioridad: Option<string>)

  datatype Table = Table(rows: map<int, Row>, lastId: int)

  datatype Json =
    | IdJson(id: int)
    | MessageJson(message: string)
    | ErrorJson(error: string)
    | RowsJson(tasks: seq<Task>)

  datatype Reply = Reply(status: int, json: Json)

  datatype Request =
    | ListRequest
    | CreateRequest(body: Body)
    | DeleteRequest(id: int)
    | CompleteRequest(id: int)

  /** One HTTP request together with the storage failure (if any) it meets. */
  datatype Call = Call(request: Request, fault: Option<string>)

  /** What every reachable table satisfies: ids lie in 1..lastId, the counter is within
      the rowid range, and `completada` is 0 or 1. */
  predicate WellFormed(t: Table) {
    && 0 <= t.lastId <= MaxRowId
    && forall id :: id in t.rows ==>
         1 <= id <= t.lastId && (t.rows[id].completada == 0 || t.rows[id].completada == 1)
  }

  /** Row `r` under id `id`, as a JSON task. */
  function AsTask(id: int, r: Row): Task {
    Task(id, r.nombre, r.descripcion, r.fechaVencimiento, r.prioridad, r.completada)
  }

  /** The rows whose ids lie in 1..k, highest id first. */
  function Listing(rows: map<int, Row>, k: int): (r: seq<Task>)
    decreases k
    ensures forall i, j :: 0 <= i < j < |r| ==> r[i].id > r[j].id
    ensures forall i :: 0 <= i < |r| ==>
              1 <= r[i].id <= k && r[i].id in rows && r[i] == AsTask(r[i].id, rows[r[i].id])
  {
    if k <= 0 then []
    else if k in rows then [AsTask(k, rows[k])] + Listing(rows, k - 1)
    else Listing(rows, k - 1)
  }

  lemma {:induction false} ListingComplete(rows: map<int, Row>, k: int, id: int)
    requires id in rows && 1 <= id <= k
    ensures exists i :: 0 <= i < |Listing(rows, k)| && Listing(rows, k)[i].id == id
    decreases k
  {
    if id == k {
      assert Listing(rows, k)[0].id == id;
    } else {
      ListingComplete(rows, k - 1, id);
      var i :| 0 <= i < |Listing(rows, k - 1)| && Listing(rows, k - 1)[i].id == id;
      if k in rows {
        assert Listing(rows, k) == [AsTask(k, rows[k])] + Listing(rows, k - 1);
        assert Listing(rows, k)[i + 1].id == id;
      } else {
        assert Listing(rows, k) == Listing(rows, k - 1);
      }
    }
  }

  /** `SELECT * FROM tareas ORDER BY id DESC`. */
  function ListAll(t: Table): seq<Task> {
    Listing(t.rows, t.lastId)
  }

  /** The listing holds every row of the table exactly once, as stored, in strictly
      descending id order. */
  lemma ListAllExact(t: Table)
    requires WellFormed(t)
    ensures var r := ListAll(t);
      && (forall i, j :: 0 <= i < j < |r| ==> r[i].id > r[j].id)
      && (forall i :: 0 <= i < |r| ==> r[i].id in t.rows && r[i] == AsTask(r[i].id, t.rows[r[i].id]))
      && (forall id :: id in t.rows ==> exists i :: 0 <= i < |r| && r[i].id == id)
  {
    forall id | id in t.rows
      ensures exists i :: 0 <= i < |ListAll(t)| && ListAll(t)[i].id == id
    {
      ListingComplete(t.rows, t.lastId, id);
      assert ListAll(t) == Listing(t.rows, t.lastId);
    }
  }

  /** The first NOT NULL column, in schema order, that the body leaves out. */
  function MissingColumn(b: Body): Option<string> {
    if b.nombre.None? then Some("nombre")
    else if b.descripcion.None? then Some("descripcion")
    else if b.fechaVencimiento.None? then Some("fecha_vencimiento")
    else if b.prioridad.None? then Some("prioridad")
    else None
  }

  function NotNullError(column: string): string {
    "SQLITE_CONSTRAINT: NOT NULL constraint failed: tareas." + column
  }

  /** GET /api/tareas. */
  function ListStep(t: Table, fault: Option<string>): (Table, Reply) {
    if fault.Some? then (t, Reply(500, ErrorJson(fault.value)))
    else (t, Reply(200, RowsJson(ListAll(t))))
  }

  /** POST /api/tareas: INSERT of the four columns, `completada` taking its default 0.
      The AUTOINCREMENT rowid is allocated before the NOT NULL constraints are checked,
      so a used-up rowid range is reported ahead of a missing column. */
  function CreateStep(t: Table, b: Body, fault: Option<string>): (Table, Reply) {
    if fault.Some? then (t, Reply(500, ErrorJson(fault.value)))
    else if t.lastId >= MaxRowId then (t, Reply(500, ErrorJson(FullError)))
    else if MissingColumn(b).Some? then (t, Reply(500, ErrorJson(NotNullError(MissingColumn(b).value))))
    else
      var id := t.lastId + 1;
      var row := Row(b.nombre.value, b.descripcion.value, b.fechaVencimiento.value, b.prioridad.value, 0);
      (Table(t.rows[id := row], id), Reply(201, IdJson(id)))
  }

  /** DELETE /api/tareas/:id: success whether or not a row matched. */
  function DeleteStep(t: Table, id: int, fault: Option<string>): (Table, Reply) {
    if fault.Some? then (t, Reply(500, ErrorJson(fault.value)))
    else (Table(t.rows - {id}, t.lastId), Reply(200, MessageJson(DeletedMessage)))
  }

  /** PUT /api/tareas/completar/:id: `UPDATE ... SET completada = 1 WHERE id = ?`. */
  function CompleteStep(t: Table, id: int, fault: Option<string>): (Table, Reply) {
    if fault.Some? then (t, Reply(500, ErrorJson(fault.value)))
    else
      var rows := if id in t.rows then t.rows[id := t.rows[id].(completada := 1)] else t.rows;
      (Table(rows, t.lastId), Reply(200, MessageJson(CompletedMessage)))
  }

  function Handle(t: Table, c: Call): (Table, Reply) {
    match c.request
    case ListRequest => ListStep(t, c.fault)
    case CreateRequest(b) => CreateStep(t, b, c.fault)
    case DeleteRequest(id) => DeleteStep(t, id, c.fault)
    case CompleteRequest(id) => CompleteStep(t, id, c.fault)
  }

  /** The table after the calls, one after another, and the reply to each. */
  function Run(t: Table, calls: seq<Call>): (Table, seq<Reply>)
    decreases |calls|
  {
    if calls == [] then (t, [])
    else
      var (t1, r1) := Handle(t, calls[0]);
      var (tn, rs) := Run(t1, calls[1..]);
      (tn, [r1] + rs)
  }

  /** The ids of the 201 replies, in order. */
  function CreatedIds(replies: seq<Reply>): seq<int> {
    if replies == [] then []
    else if replies[0].status == 201 && replies[0].json.IdJson? then [replies[0].json.id] + CreatedIds(replies[1..])
    else CreatedIds(replies[1..])
  }

  /** How a table may evolve: the counter never goes back, and a row with an id the
      old counter had covered existed before, kept its four text columns and did not
      go from completed back to not completed. */
  predicate Evolves(t: Table, t': Table) {
    && t.lastId <= t'.lastId
    && forall id :: id in t'.rows && id <= t.lastId ==>
         && id in t.rows
         && t'.rows[id].nombre == t.rows[id].nombre
         && t'.rows[id].descripcion == t.rows[id].descripcion
         && t'.rows[id].fechaVencimiento == t.rows[id].fechaVencimiento
         && t'.rows[id].prioridad == t.rows[id].prioridad
         && t.rows[id].completada <= t'.rows[id].completada
  }

  /** A successful create returns 201 with a fresh id above every id ever handed out,
      and stores the four values verbatim with `completada = 0`; it succeeds exactly
      when there is no storage failure, no field is absent and the rowid range is not
      used up. Empty strings are accepted. */
  lemma CreateSucceeds(t: Table, b: Body, fault: Option<string>)
    requires WellFormed(t)
    ensures var (t', reply) := CreateStep(t, b, fault);
      && (reply.status == 201 <==> fault.None? && b.nombre.Some? && b.descripcion.Some?
                                   && b.fechaVencimiento.Some? && b.prioridad.Some? && t.lastId < MaxRowId)
      && (reply.status == 201 ==>
            && reply.json == IdJson(t.lastId + 1)
            && reply.json.id !in t.rows
            && (forall id :: id in t.rows ==> id < reply.json.id)
            && t'.lastId == reply.json.id
            && t'.rows == t.rows[reply.json.id := Row(b.nombre.value, b.descripcion.value,
                                                    b.fechaVencimiento.value, b.prioridad.value, 0)])
  {
  }

  /** A create with an absent field is a 500 and the table is unchanged. The error names
      the first missing column, unless the rowid range is used up, in which case the
      rowid allocation fails first. */
  lemma CreateRejectsMissing(t: Table, b: Body)
    requires MissingColumn(b).Some?
    ensures var (t', reply) := CreateStep(t, b, None);
      && t' == t
      && reply.status == 500
      && (t.lastId < MaxRowId ==> reply.json == ErrorJson(NotNullError(MissingColumn(b).value)))
      && (t.lastId >= MaxRowId ==> reply.json == ErrorJson(FullError))
  {
  }

  /** Delete removes that id and nothing else, always answers 200, and a second delete
      of the same id changes nothing. */
  lemma DeleteOnly(t: Table, id: int)
    ensures var (t', reply) := DeleteStep(t, id, None);
      && reply == Reply(200, MessageJson(DeletedMessage))
      && id !in t'.rows
      && t'.lastId == t.lastId
      && (forall k :: k in t'.rows <==> k in t.rows && k != id)
      && (forall k :: k in t'.rows ==> t'.rows[k] == t.rows[k])
      && DeleteStep(t', id, None) == (t', reply)
  {
    var t' := DeleteStep(t, id, None).0;
    assert t'.rows - {id} == t'.rows;
  }

  /** Complete sets `completada = 1` on that row only, leaving its text columns and all
      other rows as they were; on an absent id it changes nothing; repeating it changes
      nothing further. */
  lemma CompleteOnly(t: Table, id: int)
    ensures var (t', reply) := CompleteStep(t, id, None);
      && reply == Reply(200, MessageJson(CompletedMessage))
      && t'.lastId == t.lastId
      && t'.rows.Keys == t.rows.Keys
      && (forall k :: k in t.rows && k != id ==> t'.rows[k] == t.rows[k])
      && (id in t.rows ==> t'.rows[id] == t.rows[id].(completada := 1))
      && (id !in t.rows ==> t' == t)
      && CompleteStep(t', id, None) == (t', reply)
  {
    var t' := CompleteStep(t, id, None).0;
    if id in t.rows {
      assert t'.rows[id := t'.rows[id].(completada := 1)] == t'.rows;
    }
  }

  /** A failing storage statement answers 500 with the engine's message and changes nothing. */
  lemma FaultChangesNothing(t: Table, c: Call)
    requires c.fault.Some?
    ensures Handle(t, c) == (t, Reply(500, ErrorJson(c.fault.value)))
  {
  }

  /** Every route keeps the table well formed and evolves it. */
  lemma HandleEvolves(t: Table, c: Call)
    requires WellFormed(t)
    ensures WellFormed(Handle(t, c).0)
    ensures Evolves(t, Handle(t, c).0)
  {
  }

  lemma EvolvesTransitive(t1: Table, t2: Table, t3: Table)
    requires WellFormed(t1)
    requires Evolves(t1, t2) && Evolves(t2, t3)
    ensures Evolves(t1, t3)
  {
  }

  /** Over any sequence of requests: the table stays well formed and evolves (no text
      column ever changes, `completada` never returns to 0, a deleted id never comes
      back), and the ids of successful creates are strictly increasing and above the
      counter of the starting table, so no id is handed out twice. */
  lemma {:induction false} RunEvolves(t: Table, calls: seq<Call>)
    requires WellFormed(t)
    ensures var (t', replies) := Run(t, calls);
      && WellFormed(t')
      && Evolves(t, t')
      && (forall i :: 0 <= i < |CreatedIds(replies)| ==> t.lastId < CreatedIds(replies)[i] <= t'.lastId)
      && (forall i, j :: 0 <= i < j < |CreatedIds(replies)| ==> CreatedIds(replies)[i] < CreatedIds(replies)[j])
    decreases |calls|
  {
    if calls != [] {
      var (t1, r1) := Handle(t, calls[0]);
      HandleEvolves(t, calls[0]);
      RunEvolves(t1, calls[1..]);
      var (tn, rs) := Run(t1, calls[1..]);
      EvolvesTransitive(t, t1, tn);
      assert ([r1] + rs)[1..] == rs;
      if r1.status == 201 && r1.json.IdJson? {
        assert r1.json.id == t1.lastId == t.lastId + 1 by {
          CreatedIdIsNext(t, calls[0]);
        }
      } else {
        assert t1.lastId >= t.lastId;
      }
    }
  }

  /** A 201 reply carries the id just past the old counter, which becomes the new counter. */
  lemma CreatedIdIsNext(t: Table, c: Call)
    requires WellFormed(t)
    requires Handle(t, c).1.status == 201 && Handle(t, c).1.json.IdJson?
    ensures Handle(t, c).1.json.id == t.lastId + 1 == Handle(t, c).0.lastId
  {
  }

  /** The task table with its AUTOINCREMENT counter, updated in place by the routes. */
  class Store {
    var rows: map<int, Row>
    var lastId: int
    /** Every id ever handed out, including those of rows since deleted. */
    ghost var issued: set<int>

    ghost predicate Valid()
      reads this
    {
      && WellFormed(Table(rows, lastId))
      && rows.Keys <= issued
      && forall a :: a in issued ==> 1 <= a <= lastId
    }

    function State(): Table
      reads this
    {
      Table(rows, lastId)
    }

    /** The table as the schema creates it: no rows, counter at 0. */
    constructor ()
      ensures Valid()
      ensures rows == map[] && lastId == 0 && issued == {}
    {
      rows := map[];
      lastId := 0;
      issued := {};
    }

    /** GET /api/tareas. */
    method List(fault: Option<string>) returns (reply: Reply)
      requires Valid()
      ensures (State(), reply) == ListStep(State(), fault)
      ensures reply.status == 200 ==> reply.json == RowsJson(ListAll(State()))
    {
      if fault.Some? {
        reply := Reply(500, ErrorJson(fault.value));
        return;
      }
      reply := Reply(200, RowsJson(Listing(rows, lastId)));
    }

    /** POST /api/tareas. */
    method Create(b: Body, fault: Option<string>) returns (reply: Reply)
      requires Valid()
      modifies this
      ensures Valid()
      ensures (State(), reply) == CreateStep(old(State()), b, fault)
      ensures reply.status == 201 ==>
        && reply.json.IdJson?
        && reply.json.id !in old(issued)
        && (forall a :: a in old(issued) ==> a < reply.json.id)
        && issued == old(issued) + {reply.json.id}
      ensures reply.status != 201 ==> issued == old(issued)
    {
      if fault.Some? {
        reply := Reply(500, ErrorJson(fault.value));
        return;
      }
      if lastId >= MaxRowId {
        reply := Reply(500, ErrorJson(FullError));
        return;
      }
      var missing := MissingColumn(b);
      if missing.Some? {
        reply := Reply(500, ErrorJson(NotNullError(missing.value)));
        return;
      }
      var id := lastId + 1;
      rows := rows[id := Row(b.nombre.value, b.descripcion.value, b.fechaVencimiento.value, b.prioridad.value, 0)];
      lastId := id;
      issued := issued + {id};
      reply := Reply(201, IdJson(id));
    }

    /** DELETE /api/tareas/:id. */
    method Delete(id: int, fault: Option<string>) returns (reply: Reply)
      requires Valid()
      modifies this
      ensures Valid() && issued == old(issued)
      ensures (State(), reply) == DeleteStep(old(State()), id, fault)
    {
      if fault.Some? {
        reply := Reply(500, ErrorJson(fault.value));
        return;
      }
      rows := rows - {id};
      reply := Reply(200, MessageJson(DeletedMessage));
    }

    /** PUT /api/tareas/completar/:id. */
    method Complete(id: int, fault: Option<string>) returns (reply: Reply)
      requires Valid()
      modifies this
      ensures Valid() && issued == old(issued)
      ensures (State(), reply) == CompleteStep(old(State()), id, fault)
    {
      if fault.Some? {
        reply := Reply(500, ErrorJson(fault.value));
        return;
      }
      if id in rows {
        rows := rows[id := rows[id].(completada := 1)];
      }
      reply := Reply(200, MessageJson(CompletedMessage));
    }
  }
}
