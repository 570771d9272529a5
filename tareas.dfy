/** The tasks controller: teachers create, update and delete the tasks of their own
    groups; every user lists the tasks that concern them. */
module Tareas {
  import opened Base
  import opened Store
  import opened TareaModel
  import G = GrupoModel
  import U = UsuarioModel

  // The messages the controller answers with.
  const ROL_NO_RECONOCIDO: string := "Rol no reconocido."
  const SOLO_DOCENTES_CREAR: string := "Acceso denegado. Solo docentes pueden crear tareas."
  const FALTAN_CAMPOS: string := "Faltan campos obligatorios: título, grupo, puntuación y fecha de entrega."
  const GRUPO_AJENO: string := "El grupo no existe o no pertenece a este docente."
  const VALIDACION: string := "Tarea validation failed"
  const GRUPO_INVALIDO: string := "Grupo validation failed"
  const SOLO_DOCENTES_ACTUALIZAR: string := "Acceso denegado. Solo docentes pueden actualizar tareas."
  const SOLO_DOCENTES_ELIMINAR: string := "Acceso denegado. Solo docentes pueden eliminar tareas."
  const TAREA_NO_ENCONTRADA: string := "Tarea no encontrada."
  const TAREA_AJENA: string := "Usuario no autorizado. Esta tarea no fue creada por usted."

  /** JavaScript truthiness of an optional number: present and not zero. */
  predicate Truthy(x: Option<real>)
  {
    x.Some? && x.value != 0.0
  }

  /** `obtenerTareas`: a teacher gets the tasks they created; a student gets the tasks of
      the groups their own document lists (none when it lists no group); any other role
      is refused with 403, which a stored user, whose role the schema restricts to the
      two values, never reaches. */
  method ObtenerTareas(db: Db, caller: Id) returns (r: Outcome<set<Doc<Tarea>>>)
    requires db.Valid()
    ensures r.IsFail(500) <==> caller !in db.usuarios
    ensures r.IsFail(403) <==> caller in db.usuarios && !U.RolValido(db.usuarios[caller].rol)
    ensures r.Ok? <==> caller in db.usuarios && U.RolValido(db.usuarios[caller].rol)
    ensures r.Ok? ==> r.status == 200
    ensures r.Ok? && db.usuarios[caller].rol == DOCENTE ==>
              forall d :: d in r.value <==> (d.id in db.tareas && db.tareas[d.id] == d.doc && d.doc.creador == caller)
    ensures r.Ok? && db.usuarios[caller].rol == ESTUDIANTE ==>
              forall d :: d in r.value <==> (d.id in db.tareas && db.tareas[d.id] == d.doc
                                             && d.doc.grupo in db.usuarios[caller].grupos)
  {
    if caller !in db.usuarios {
      return Fail(500, NullRead("rol"));
    }
    var usuario := db.usuarios[caller];
    if usuario.rol == DOCENTE {
      r := Ok(200, set k | k in db.tareas && db.tareas[k].creador == caller :: Doc(k, db.tareas[k]));
    } else if usuario.rol == ESTUDIANTE {
      if |usuario.grupos| == 0 {
        return Ok(200, {});
      }
      r := Ok(200, set k | k in db.tareas && db.tareas[k].grupo in usuario.grupos :: Doc(k, db.tareas[k]));
    } else {
      r := Fail(403, ROL_NO_RECONOCIDO);
    }
  }

  /** The checks of `crearTarea`, in order: the caller's role (403), the four required
      fields by truthiness (400, so a maximum score of 0 counts as missing), a group that
      exists and belongs to the caller (404); then the schema, which refuses a maximum
      score below 1 when the task is created (500). */
  function CrearTareaCheck(us: map<Id, U.Usuario>, gs: map<Id, G.Grupo>, caller: Id, titulo: Option<string>,
                           grupo: Option<Id>, puntuacionMaxima: Option<real>, fechaEntrega: Option<int>): (c: Check)
    ensures c.Is(403) <==> caller in us && us[caller].rol != DOCENTE
    ensures c.Is(400) <==> HasRol(us, caller, DOCENTE)
                           && (!Present(titulo) || grupo.None? || !Truthy(puntuacionMaxima) || fechaEntrega.None?)
    ensures c.Is(404) <==> HasRol(us, caller, DOCENTE)
                           && Present(titulo) && grupo.Some? && Truthy(puntuacionMaxima) && fechaEntrega.Some?
                           && !(grupo.value in gs && gs[grupo.value].docente == caller)
    ensures c.Is(500) <==> caller !in us
                           || (HasRol(us, caller, DOCENTE)
                               && Present(titulo) && grupo.Some? && Truthy(puntuacionMaxima) && fechaEntrega.Some?
                               && grupo.value in gs && gs[grupo.value].docente == caller
                               && puntuacionMaxima.value < 1.0)
    ensures c == Pass <==> HasRol(us, caller, DOCENTE)
                           && Present(titulo) && grupo.Some? && puntuacionMaxima.Some? && fechaEntrega.Some?
                           && grupo.value in gs && gs[grupo.value].docente == caller
                           && Validates(Tarea(titulo.value, None, grupo.value, caller, puntuacionMaxima.value,
                                              fechaEntrega.value, None))
  {
    if caller !in us then Refuse(500, NullRead("rol"))
    else if us[caller].rol != DOCENTE then Refuse(403, SOLO_DOCENTES_CREAR)
    else if !Present(titulo) || grupo.None? || !Truthy(puntuacionMaxima) || fechaEntrega.None?
    then Refuse(400, FALTAN_CAMPOS)
    else if !(grupo.value in gs && gs[grupo.value].docente == caller) then Refuse(404, GRUPO_AJENO)
    else if puntuacionMaxima.value < 1.0 then Refuse(500, VALIDACION)
    else Pass
  }

  /** `crearTarea`: once the checks pass, the task is created under a fresh id, with no
      attached file, and its id is pushed onto its group's list (201). When the group
      itself no longer passes its validators (an update can store one that does not),
      that save fails (500) after the task was already stored. */
  method CrearTarea(db: Db, caller: Id, titulo: Option<string>, grupo: Option<Id>,
                    puntuacionMaxima: Option<real>, fechaEntrega: Option<int>, descripcion: Option<string>)
    returns (r: Outcome<Doc<Tarea>>)
    requires db.Valid()
    modifies db`tareas, db`grupos, db`nextId
    ensures db.Valid()
    ensures var c := CrearTareaCheck(db.usuarios, old(db.grupos), caller, titulo, grupo, puntuacionMaxima, fechaEntrega);
            c.Refuse? ==> r == Fail(c.status, c.message) && db.tareas == old(db.tareas) && db.grupos == old(db.grupos)
    ensures CrearTareaCheck(db.usuarios, old(db.grupos), caller, titulo, grupo, puntuacionMaxima, fechaEntrega) == Pass ==>
              titulo.Some? && grupo.Some? && puntuacionMaxima.Some? && fechaEntrega.Some?
              && grupo.value in old(db.grupos)
              && var id := old(db.nextId);
              var t := Tarea(titulo.value, descripcion, grupo.value, caller, puntuacionMaxima.value,
                             fechaEntrega.value, None);
              var g := old(db.grupos)[grupo.value];
              id !in old(db.tareas) && db.tareas == old(db.tareas)[id := t]
              && if G.Validates(g)
                 then r == Ok(201, Doc(id, t)) && db.grupos == old(db.grupos)[grupo.value := g.(tareas := g.tareas + [id])]
                 else r == Fail(500, GRUPO_INVALIDO) && db.grupos == old(db.grupos)
    ensures old(db.Linked()) && (r.Ok? || db.tareas == old(db.tareas)) ==> db.Linked()
  {
    var c := CrearTareaCheck(db.usuarios, db.grupos, caller, titulo, grupo, puntuacionMaxima, fechaEntrega);
    if c.Refuse? {
      return Fail(c.status, c.message);
    }
    var gid := grupo.value;
    var t := Tarea(titulo.value, descripcion, gid, caller, puntuacionMaxima.value, fechaEntrega.value, None);
    var id := InsertTarea(db, t);
    var g := db.grupos[gid].(tareas := db.grupos[gid].tareas + [id]);
    if !G.Validates(g) {
      return Fail(500, GRUPO_INVALIDO);
    }
    if old(db.Linked()) {
      NewTareaKeepsLinked(db.grupos, old(db.tareas), id, t);
    }
    db.WriteGrupo(gid, g);
    r := Ok(201, Doc(id, t));
  }

  /** `Tarea.create`: a task that passes the schema, stored under a fresh id that no
      group lists yet. */
  method InsertTarea(db: Db, t: Tarea) returns (id: Id)
    requires db.Valid() && Validates(t) && t.grupo in db.grupos
    modifies db`tareas, db`nextId
    ensures db.Valid()
    ensures id == old(db.nextId) && db.nextId == id + 1
    ensures id !in old(db.tareas) && db.tareas == old(db.tareas)[id := t]
    ensures forall g :: g in db.grupos ==> id !in db.grupos[g].tareas
  {
    id := db.NewId();
    TareasOkWrite(db.tareas, db.nextId, id, t);
    db.tareas := db.tareas[id := t];
  }

  /** The checks that `actualizarTarea` and `eliminarTarea` share, in order: the
      caller's role (403, answered with `denied`), the task (404), the task's creator
      (401). */
  function OwnTareaCheck(us: map<Id, U.Usuario>, ts: map<Id, Tarea>, caller: Id, id: Id, denied: string): (c: Check)
    ensures c.Is(500) <==> caller !in us
    ensures c.Is(403) <==> caller in us && us[caller].rol != DOCENTE
    ensures c.Is(404) <==> HasRol(us, caller, DOCENTE) && id !in ts
    ensures c.Is(401) <==> HasRol(us, caller, DOCENTE) && id in ts && ts[id].creador != caller
    ensures c == Pass <==> HasRol(us, caller, DOCENTE) && id in ts && ts[id].creador == caller
  {
    if caller !in us then Refuse(500, NullRead("rol"))
    else if us[caller].rol != DOCENTE then Refuse(403, denied)
    else if id !in ts then Refuse(404, TAREA_NO_ENCONTRADA)
    else if ts[id].creador != caller then Refuse(401, TAREA_AJENA)
    else Pass
  }

  /** The checks of `actualizarTarea`: the shared ones, then the update validators on
      the paths the body names (500). */
  function ActualizarTareaCheck(us: map<Id, U.Usuario>, ts: map<Id, Tarea>, caller: Id, id: Id, p: Patch): (c: Check)
    ensures c.Is(403) <==> caller in us && us[caller].rol != DOCENTE
    ensures c.Is(404) <==> HasRol(us, caller, DOCENTE) && id !in ts
    ensures c.Is(401) <==> HasRol(us, caller, DOCENTE) && id in ts && ts[id].creador != caller
    ensures c.Is(500) <==> caller !in us
                           || (HasRol(us, caller, DOCENTE) && id in ts && ts[id].creador == caller
                               && !Validates(Apply(ts[id], p)))
    ensures c == Pass <==> HasRol(us, caller, DOCENTE) && id in ts && ts[id].creador == caller
                           && Validates(Apply(ts[id], p))
  {
    var own := OwnTareaCheck(us, ts, caller, id, SOLO_DOCENTES_ACTUALIZAR);
    if own.Refuse? then own
    else if !Validates(Apply(ts[id], p)) then Refuse(500, VALIDACION)
    else Pass
  }

  /** `actualizarTarea`: once the checks pass, the body is applied to the task (200). A
      body that moves the task to another group leaves both groups' task lists as they
      were. */
  method ActualizarTarea(db: Db, caller: Id, id: Id, p: Patch) returns (r: Outcome<Doc<Tarea>>)
    requires db.Valid()
    modifies db`tareas, db`nextId
    ensures db.Valid()
    ensures var c := ActualizarTareaCheck(db.usuarios, old(db.tareas), caller, id, p);
            c.Refuse? ==> r == Fail(c.status, c.message) && db.tareas == old(db.tareas)
    ensures ActualizarTareaCheck(db.usuarios, old(db.tareas), caller, id, p) == Pass ==>
              id in old(db.tareas)
              && r == Ok(200, Doc(id, Apply(old(db.tareas)[id], p)))
              && db.tareas == old(db.tareas)[id := r.value.doc]
    ensures old(db.Linked()) && p.grupo.None? ==> db.Linked()
  {
    var c := ActualizarTareaCheck(db.usuarios, db.tareas, caller, id, p);
    if c.Refuse? {
      return Fail(c.status, c.message);
    }
    var t := Apply(db.tareas[id], p);
    if p.grupo.Some? {
      db.Reserve([p.grupo.value]);
      assert p.grupo.value in [p.grupo.value];
    } else {
      PatchKeepsGrupo(db.tareas[id], p);
      assert db.tareas[id].grupo < db.nextId;
    }
    assert id < db.nextId;
    TareasOkWrite(db.tareas, db.nextId, id, t);
    db.tareas := db.tareas[id := t];
    r := Ok(200, Doc(id, t));
  }

  /** `eliminarTarea`: once the checks pass, the task is pulled from its group's list
      (every occurrence) and deleted (200). Its deliveries stay stored. */
  method EliminarTarea(db: Db, caller: Id, id: Id) returns (r: Outcome<Id>)
    requires db.Valid()
    modifies db`tareas, db`grupos
    ensures db.Valid()
    ensures var c := OwnTareaCheck(db.usuarios, old(db.tareas), caller, id, SOLO_DOCENTES_ELIMINAR);
            c.Refuse? ==> r == Fail(c.status, c.message) && db.tareas == old(db.tareas) && db.grupos == old(db.grupos)
    ensures OwnTareaCheck(db.usuarios, old(db.tareas), caller, id, SOLO_DOCENTES_ELIMINAR) == Pass ==>
              id in old(db.tareas) && r == Ok(200, id)
              && var g := old(db.tareas)[id].grupo;
              db.tareas == old(db.tareas) - {id}
              && db.grupos == if g in old(db.grupos)
                              then old(db.grupos)[g := old(db.grupos)[g].(tareas := G.Without(old(db.grupos)[g].tareas, id))]
                              else old(db.grupos)
    ensures old(db.Linked()) ==> db.Linked()
  {
    var c := OwnTareaCheck(db.usuarios, db.tareas, caller, id, SOLO_DOCENTES_ELIMINAR);
    if c.Refuse? {
      return Fail(c.status, c.message);
    }
    var gid := db.tareas[id].grupo;
    if db.Linked() {
      RemoveTareaKeepsLinked(db.grupos, db.tareas, id);
    }
    if gid in db.grupos {
      db.WriteGrupo(gid, db.grupos[gid].(tareas := G.Without(db.grupos[gid].tareas, id)));
    }
    db.tareas := db.tareas - {id};
    r := Ok(200, id);
  }
}
