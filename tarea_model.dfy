/** The `Tarea` schema: a task a teacher sets for one of their groups. */
module TareaModel {
  import opened Base

  datatype Tarea = Tarea(
    titulo: string,
    descripcion: Option<string>,
    grupo: Id,
    creador: Id,
    puntuacionMaxima: real,
    fechaEntrega: int,
    archivoUrl: Option<string>)

  /** The validators that saving runs: a non-empty title (a `required` string) and a
      maximum score of at least 1. The three references and the deadline are present by
      construction. */
  predicate Validates(t: Tarea)
  {
    t.titulo != "" && t.puntuacionMaxima >= 1.0
  }

  predicate AllValidate(tareas: map<Id, Tarea>)
  {
    forall k {:trigger Validates(tareas[k])} :: k in tareas ==> Validates(tareas[k])
  }

  /** An update body: every path it names is overwritten, every other one is kept. */
  datatype Patch = Patch(
    titulo: Option<string>,
    descripcion: Option<string>,
    grupo: Option<Id>,
    creador: Option<Id>,
    puntuacionMaxima: Option<real>,
    fechaEntrega: Option<int>,
    archivoUrl: Option<string>)

  function Pick<T>(given: Option<T>, current: T): T
  {
    if given.Some? then given.value else current
  }

  function PickOption<T>(given: Option<T>, current: Option<T>): Option<T>
  {
    if given.Some? then given else current
  }

  function Apply(t: Tarea, p: Patch): Tarea
  {
    Tarea(Pick(p.titulo, t.titulo), PickOption(p.descripcion, t.descripcion), Pick(p.grupo, t.grupo),
          Pick(p.creador, t.creador), Pick(p.puntuacionMaxima, t.puntuacionMaxima),
          Pick(p.fechaEntrega, t.fechaEntrega), PickOption(p.archivoUrl, t.archivoUrl))
  }

  /** The update validators check only the paths that the body names: on a document
      that already validates, that is the same as validating the updated document. */
  lemma PatchedPathsDecide(t: Tarea, p: Patch)
    requires Validates(t)
    ensures Validates(Apply(t, p))
            <==> (p.titulo.Some? ==> p.titulo.value != "")
                 && (p.puntuacionMaxima.Some? ==> p.puntuacionMaxima.value >= 1.0)
  {
  }

  /** A body without a `grupo` path leaves the task in its group. */
  lemma PatchKeepsGrupo(t: Tarea, p: Patch)
    requires p.grupo.None?
    ensures Apply(t, p).grupo == t.grupo
  {
  }
}
