/** The deliveries controller: a student submits (or resubmits) the file for a task; the
    teacher who created the task lists its deliveries and grades them. */
module Entregas {
  import opened Base
  import opened Store
  import opened EntregaModel
  import T = TareaModel
  import U = UsuarioModel

  // The messages the controller answers with.
  const SOLO_ESTUDIANTES: string := "Acceso denegado. Solo los estudiantes pueden realizar entregas."
  const FALTAN_CAMPOS: string := "Faltan campos obligatorios: ID de la tarea y URL del archivo."
  const TAREA_NO_EXISTE: string := "La tarea especificada no existe."
  const SOLO_DOCENTES_VER: string := "Acceso denegado. Solo docentes pueden ver las entregas."
  const TAREA_AJENA: string := "Tarea no encontrada o no pertenece a este docente."
  const SOLO_DOCENTES_CALIFICAR: string := "Acceso denegado. Solo docentes pueden calificar."
  const FALTA_CALIFICACION: string := "La calificación es obligatoria."
  const ENTREGA_NO_ENCONTRADA: string := "Entrega no encontrada."
  const NO_AUTORIZADO: string := "No está autorizado para calificar esta entrega (la tarea no es suya)."
  const CALIFICACION_NEGATIVA: string :=
    "Validation failed: calificacion: Path `calificacion` is less than minimum allowed value (0)."

  /** The state the controller gives a submission made at `now`: late strictly after the
      task's deadline, delivered otherwise. */
  function EstadoAt(now: int, deadline: int): (e: Estado)
    ensures e == Tarde <==> now > deadline
    ensures e != Calificado && e != Pendiente
  {
    if now > deadline then Tarde else Entregado
  }

  /** The checks of `crearEntrega`, in order: the caller's role (403), the two required
      fields (400), the task (404). A caller with no stored user fails on the first
      read of its role (500). */
  function CrearEntregaCheck(us: map<Id, U.Usuario>, ts: map<Id, T.Tarea>, caller: Id,
                             tareaId: Option<Id>, archivoUrl: Option<string>): (c: Check)
    ensures c.Is(500) <==> caller !in us
    ensures c.Is(403) <==> caller in us && us[caller].rol != ESTUDIANTE
    ensures c.Is(400) <==> HasRol(us, caller, ESTUDIANTE) && (tareaId.None? || !Present(archivoUrl))
    ensures c.Is(404) <==> HasRol(us, caller, ESTUDIANTE) && tareaId.Some? && Present(archivoUrl)
                           && tareaId.value !in ts
    ensures c == Pass <==> HasRol(us, caller, ESTUDIANTE) && tareaId.Some? && Present(archivoUrl)
                           && tareaId.value in ts
  {
    if caller !in us then Refuse(500, NullRead("rol"))
    else if us[caller].rol != ESTUDIANTE then Refuse(403, SOLO_ESTUDIANTES)
    else if tareaId.None? || !Present(archivoUrl) then Refuse(400, FALTAN_CAMPOS)
    else if tareaId.value !in ts then Refuse(404, TAREA_NO_EXISTE)
    else Pass
  }

  /** `crearEntrega`: once the checks pass, a student's first submission for a task
      creates a delivery (201) with no grade; a later one overwrites the file, the
      comment, the date and the state of that same delivery (200) and keeps its grade
      and the teacher's comment, whatever state it was in. */
  method CrearEntrega(db: Db, caller: Id, now: int, tareaId: Option<Id>, archivoUrl: Option<string>,
                      comentarios: Option<string>)
    returns (r: Outcome<Doc<Entrega>>)
    requires db.Valid()
    modifies db`entregas, db`nextId
    ensures db.Valid()
    ensures var c := CrearEntregaCheck(db.usuarios, db.tareas, caller, tareaId, archivoUrl);
            c.Refuse? ==> r == Fail(c.status, c.message) && db.entregas == old(db.entregas)
    ensures CrearEntregaCheck(db.usuarios, db.tareas, caller, tareaId, archivoUrl) == Pass ==>
              r.Ok? && tareaId.Some? && tareaId.value in db.tareas
              && var e := r.value.doc;
              db.entregas == old(db.entregas)[r.value.id := e]
              && SamePair(e, tareaId.value, caller)
              && e.archivoUrl == archivoUrl && e.comentariosEstudiante == comentarios && e.fechaEntrega == now
              && e.estado == EstadoAt(now, db.tareas[tareaId.value].fechaEntrega)
              && (r.status == 200 <==> WithPair(old(db.entregas), tareaId.value, caller) != {})
    ensures r.Ok? && r.status == 200 ==>
              r.value.id in old(db.entregas)
              && r.value.doc.calificacion == old(db.entregas)[r.value.id].calificacion
              && r.value.doc.comentariosDocente == old(db.entregas)[r.value.id].comentariosDocente
    ensures r.Ok? && r.status != 200 ==>
              r.status == 201 && r.value.id !in old(db.entregas)
              && r.value.doc.calificacion.None? && r.value.doc.comentariosDocente.None?
  {
    var c := CrearEntregaCheck(db.usuarios, db.tareas, caller, tareaId, archivoUrl);
    if c.Refuse? {
      return Fail(c.status, c.message);
    }
    var tid := tareaId.value;
    var estado := EstadoAt(now, db.tareas[tid].fechaEntrega);
    if exists k :: k in db.entregas && SamePair(db.entregas[k], tid, caller) {
      var k :| k in db.entregas && SamePair(db.entregas[k], tid, caller);
      assert Validates(db.entregas[k]);
      var e := db.entregas[k].(archivoUrl := archivoUrl, comentariosEstudiante := comentarios,
                               fechaEntrega := now, estado := estado);
      ReplaceKeepsUnique(db.entregas, k, e);
      db.entregas := db.entregas[k := e];
      assert k in WithPair(old(db.entregas), tid, caller);
      r := Ok(200, Doc(k, e));
    } else {
      var id := db.NewId();
      var e := Defaults(tid, caller, now).(archivoUrl := archivoUrl, comentariosEstudiante := comentarios,
                                           estado := estado);
      assert WithPair(db.entregas, tid, caller) == {};
      InsertKeepsUnique(db.entregas, id, e);
      db.entregas := db.entregas[id := e];
      r := Ok(201, Doc(id, e));
    }
  }

  /** The checks of `obtenerEntregasPorTarea`: the caller's role (403), then a task that
      exists and was created by the caller (404 otherwise). */
  function ObtenerEntregasCheck(us: map<Id, U.Usuario>, ts: map<Id, T.Tarea>, caller: Id, tareaId: Id): (c: Check)
    ensures c.Is(500) <==> caller !in us
    ensures c.Is(403) <==> caller in us && us[caller].rol != DOCENTE
    ensures c.Is(404) <==> HasRol(us, caller, DOCENTE) && (tareaId !in ts || ts[tareaId].creador != caller)
    ensures c == Pass <==> HasRol(us, caller, DOCENTE) && tareaId in ts && ts[tareaId].creador == caller
  {
    if caller !in us then Refuse(500, NullRead("rol"))
    else if us[caller].rol != DOCENTE then Refuse(403, SOLO_DOCENTES_VER)
    else if tareaId !in ts || ts[tareaId].creador != caller then Refuse(404, TAREA_AJENA)
    else Pass
  }

  /** `obtenerEntregasPorTarea`: the task's creator gets all of its deliveries, each
      with its id. */
  method ObtenerEntregasPorTarea(db: Db, caller: Id, tareaId: Id) returns (r: Outcome<set<Doc<Entrega>>>)
    requires db.Valid()
    ensures var c := ObtenerEntregasCheck(db.usuarios, db.tareas, caller, tareaId);
            c.Refuse? ==> r == Fail(c.status, c.message)
    ensures ObtenerEntregasCheck(db.usuarios, db.tareas, caller, tareaId) == Pass ==>
              r.Ok? && r.status == 200
              && forall d :: d in r.value <==> (d.id in db.entregas && db.entregas[d.id] == d.doc
                                                && d.doc.tarea == tareaId)
  {
    var c := ObtenerEntregasCheck(db.usuarios, db.tareas, caller, tareaId);
    if c.Refuse? {
      return Fail(c.status, c.message);
    }
    r := Ok(200, set k | k in db.entregas && db.entregas[k].tarea == tareaId :: Doc(k, db.entregas[k]));
  }

  /** The checks of `calificarEntrega`: the caller's role (403), a grade in the body
      (400), the delivery (404), a task that exists and was created by the caller (401);
      and then the schema's minimum, which a negative grade fails on save (500). */
  function CalificarCheck(us: map<Id, U.Usuario>, ts: map<Id, T.Tarea>, es: map<Id, Entrega>, caller: Id,
                          entregaId: Id, calificacion: Option<real>): (c: Check)
    ensures c.Is(403) <==> caller in us && us[caller].rol != DOCENTE
    ensures c.Is(400) <==> HasRol(us, caller, DOCENTE) && calificacion.None?
    ensures c.Is(404) <==> HasRol(us, caller, DOCENTE) && calificacion.Some? && entregaId !in es
    ensures c.Is(401) <==> HasRol(us, caller, DOCENTE) && calificacion.Some? && entregaId in es
                           && !(es[entregaId].tarea in ts && ts[es[entregaId].tarea].creador == caller)
    ensures c.Is(500) <==> caller !in us
                           || (HasRol(us, caller, DOCENTE) && calificacion.Some? && entregaId in es
                               && es[entregaId].tarea in ts && ts[es[entregaId].tarea].creador == caller
                               && calificacion.value < 0.0)
    ensures c == Pass <==> HasRol(us, caller, DOCENTE) && calificacion.Some? && entregaId in es
                           && es[entregaId].tarea in ts && ts[es[entregaId].tarea].creador == caller
                           && calificacion.value >= 0.0
  {
    if caller !in us then Refuse(500, NullRead("rol"))
    else if us[caller].rol != DOCENTE then Refuse(403, SOLO_DOCENTES_CALIFICAR)
    else if calificacion.None? then Refuse(400, FALTA_CALIFICACION)
    else if entregaId !in es then Refuse(404, ENTREGA_NO_ENCONTRADA)
    else if es[entregaId].tarea !in ts || ts[es[entregaId].tarea].creador != caller then Refuse(401, NO_AUTORIZADO)
    else if calificacion.value < 0.0 then Refuse(500, CALIFICACION_NEGATIVA)
    else Pass
  }

  /** `calificarEntrega`: once the checks pass, the grade and the teacher's comment are
      overwritten (an absent comment clears it) and the state becomes graded; nothing
      else of the delivery changes. No bound relates the grade to the task's maximum
      score, and grading again overwrites the previous grade. */
  method CalificarEntrega(db: Db, caller: Id, entregaId: Id, calificacion: Option<real>,
                          comentariosDocente: Option<string>)
    returns (r: Outcome<Doc<Entrega>>)
    requires db.Valid()
    modifies db`entregas
    ensures db.Valid()
    ensures var c := CalificarCheck(db.usuarios, db.tareas, old(db.entregas), caller, entregaId, calificacion);
            c.Refuse? ==> r == Fail(c.status, c.message) && db.entregas == old(db.entregas)
    ensures CalificarCheck(db.usuarios, db.tareas, old(db.entregas), caller, entregaId, calificacion) == Pass ==>
              entregaId in old(db.entregas)
              && r == Ok(200, Doc(entregaId, old(db.entregas)[entregaId].(calificacion := calificacion,
                                                                          comentariosDocente := comentariosDocente,
                                                                          estado := Calificado)))
              && db.entregas == old(db.entregas)[entregaId := r.value.doc]
  {
    var c := CalificarCheck(db.usuarios, db.tareas, db.entregas, caller, entregaId, calificacion);
    if c.Refuse? {
      return Fail(c.status, c.message);
    }
    var e := db.entregas[entregaId].(calificacion := calificacion, comentariosDocente := comentariosDocente,
                                     estado := Calificado);
    ReplaceKeepsUnique(db.entregas, entregaId, e);
    db.entregas := db.entregas[entregaId := e];
    r := Ok(200, Doc(entregaId, e));
  }
}
