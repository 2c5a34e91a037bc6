/** Values shared by the server and the browser client of the to-do application. */
module Tasks {

  /** A value that may be absent (a JSON field that was not sent, a lookup that found nothing). */
  datatype Option<+T> = None | Some(value: T)

  /** One row of the `tareas` table as `GET /api/tareas` sends it: the five stored
      columns plus the id. `completada` is the SQLite INTEGER column (0 or 1). */
  datatype Task = Task(
    id: int,
    nombre: string,
    descripcion: string,
    fechaVencimiento: string,
    prioridad: string,
    completada: int)
}
