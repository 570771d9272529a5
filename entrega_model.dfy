/** The `Entrega` schema: one student's delivery for one task, its state and its grade. */
module EntregaModel {
  import opened Base

  /** The values the `estado` path admits. */
  datatype Estado = Pendiente | Entregado | Calificado | Tarde

  datatype Entrega = Entrega(
    tarea: Id,
    estudiante: Id,
    archivoUrl: Option<string>,
    comentariosEstudiante: Option<string>,
    fechaEntrega: int,
    calificacion: Option<real>,
    comentariosDocente: Option<string>,
    estado: Estado)

  /** A new document with nothing but its two required references given: every other
      path takes its schema default (no file, delivered at `now`, no grade, Entregado). */
  function Defaults(tarea: Id, estudiante: Id, now: int): (e: Entrega)
    ensures e.tarea == tarea && e.estudiante == estudiante
  {
    Entrega(tarea, estudiante, None, None, now, None, None, Entregado)
  }

  /** The schema validator run on save: a grade, once set, is at least 0. */
  predicate Validates(e: Entrega)
  {
    e.calificacion.Some? ==> e.calificacion.value >= 0.0
  }

  predicate AllValidate(entregas: map<Id, Entrega>)
  {
    forall k {:trigger Validates(entregas[k])} :: k in entregas ==> Validates(entregas[k])
  }

  predicate SamePair(e: Entrega, tarea: Id, estudiante: Id)
  {
    e.tarea == tarea && e.estudiante == estudiante
  }

  /** The unique compound index on (tarea, estudiante). */
  predicate UniquePairs(entregas: map<Id, Entrega>)
  {
    forall j, k ::
      j in entregas && k in entregas && SamePair(entregas[j], entregas[k].tarea, entregas[k].estudiante)
      ==> j == k
  }

  /** The ids of the deliveries of one student for one task. */
  function WithPair(entregas: map<Id, Entrega>, tarea: Id, estudiante: Id): set<Id>
  {
    set k | k in entregas && SamePair(entregas[k], tarea, estudiante)
  }

  /** Under the index, a student has at most one delivery per task. */
  lemma AtMostOnePerPair(entregas: map<Id, Entrega>, tarea: Id, estudiante: Id)
    requires UniquePairs(entregas)
    ensures |WithPair(entregas, tarea, estudiante)| <= 1
  {
    var s := WithPair(entregas, tarea, estudiante);
    if s != {} {
      var j :| j in s;
      assert s == {j};
    }
  }

  /** Overwriting a delivery with one for the same pair keeps the index satisfied. */
  lemma ReplaceKeepsUnique(entregas: map<Id, Entrega>, k: Id, e: Entrega)
    requires UniquePairs(entregas) && k in entregas
    requires SamePair(e, entregas[k].tarea, entregas[k].estudiante)
    ensures UniquePairs(entregas[k := e])
  {
  }

  /** Inserting a delivery for a pair that has none keeps the index satisfied. */
  lemma InsertKeepsUnique(entregas: map<Id, Entrega>, k: Id, e: Entrega)
    requires UniquePairs(entregas) && k !in entregas
    requires WithPair(entregas, e.tarea, e.estudiante) == {}
    ensures UniquePairs(entregas[k := e])
  {
    forall j | j in entregas ensures !SamePair(entregas[j], e.tarea, e.estudiante) {
      assert j !in WithPair(entregas, e.tarea, e.estudiante);
    }
  }
}
