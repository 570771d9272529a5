/** The groups controller: teachers create, update and delete their groups and enrol an
    existing user by email; every user lists the groups that concern them. */
module Grupos {
  import opened Base
  import opened Store
  import opened GrupoModel
  import U = UsuarioModel

  // The messages the controller answers with.
  const ROL_NO_RECONOCIDO: string := "Rol no reconocido."
  const SOLO_DOCENTES_CREAR: string := "Acceso denegado. Solo docentes pueden crear grupos."
  const FALTAN_NOMBRE_CLAVE: string := "El nombre y la clave del grupo son obligatorios"
  const DUPLICADO: string := "E11000 duplicate key error collection: grupos"
  const GRUPO_NO_ENCONTRADO: string := "Grupo no encontrado"
  const NO_AUTORIZADO_ACTUALIZAR: string := "Usuario no autorizado para actualizar este grupo"
  const NO_AUTORIZADO_ELIMINAR: string := "Usuario no autorizado para eliminar este grupo"
  const FALTAN_EMAIL_GRUPO: string := "El email del alumno y el grupo son obligatorios."
  const SIN_USUARIO: string := "No se encontró ningún usuario con ese correo."
  const GRUPO_NO_ENCONTRADO_PUNTO: string := "Grupo no encontrado."
  const SIN_PERMISO: string := "No tienes permiso para modificar este grupo."
  const YA_INSCRITO: string := "El alumno ya está inscrito en este grupo."
  const GRUPO_INVALIDO: string := "Grupo validation failed"

  /** The part of the enrolled account that `agregarAlumnoExistente` answers with. */
  datatype Inscrito = Inscrito(id: Id, nombre: string, email: string)

  /** `obtenerGrupos`: a teacher gets the groups they own; a student gets the stored
      groups that their own document lists (none when it lists no group); any other
      role is refused with 403, which a stored user never reaches. */
  method ObtenerGrupos(db: Db, caller: Id) returns (r: Outcome<set<Doc<Grupo>>>)
    requires db.Valid()
    ensures r.IsFail(500) <==> caller !in db.usuarios
    ensures r.IsFail(403) <==> caller in db.usuarios && !U.RolValido(db.usuarios[caller].rol)
    ensures r.Ok? <==> caller in db.usuarios && U.RolValido(db.usuarios[caller].rol)
    ensures r.Ok? ==> r.status == 200
    ensures r.Ok? && db.usuarios[caller].rol == DOCENTE ==>
              forall d :: d in r.value <==> (d.id in db.grupos && db.grupos[d.id] == d.doc && d.doc.docente == caller)
    ensures r.Ok? && db.usuarios[caller].rol == ESTUDIANTE ==>
              forall d :: d in r.value <==> (d.id in db.grupos && db.grupos[d.id] == d.doc
                                             && d.id in db.usuarios[caller].grupos)
  {
    if caller !in db.usuarios {
      return Fail(500, NullRead("rol"));
    }
    var usuario := db.usuarios[caller];
    if usuario.rol == DOCENTE {
      r := Ok(200, set k | k in db.grupos && db.grupos[k].docente == caller :: Doc(k, db.grupos[k]));
    } else if usuario.rol == ESTUDIANTE {
      if |usuario.grupos| == 0 {
        return Ok(200, {});
      }
      r := Ok(200, set k | k in db.grupos && k in usuario.grupos :: Doc(k, db.grupos[k]));
    } else {
      r := Fail(403, ROL_NO_RECONOCIDO);
    }
  }

  /** The group `crearGrupo` creates for `caller`: no description unless given, and
      both lists empty. */
  function NuevoGrupo(nombre: string, clave: string, descripcion: Option<string>, caller: Id): (g: Grupo)
    ensures g.docente == caller && g.estudiantes == [] && g.tareas == []
    ensures Validates(g) <==> nombre != "" && clave != ""
  {
    Grupo(nombre, clave, descripcion, caller, [], [])
  }

  /** The checks of `crearGrupo`, in order: the caller's role (403), the name and the
      key by truthiness (400); then the unique indexes, which refuse a name or a key
      that another group already has when the group is created (500). */
  function CrearGrupoCheck(us: map<Id, U.Usuario>, gs: map<Id, Grupo>, caller: Id,
                           nombre: Option<string>, clave: Option<string>): (c: Check)
    ensures c.Is(403) <==> caller in us && us[caller].rol != DOCENTE
    ensures c.Is(400) <==> HasRol(us, caller, DOCENTE) && (!Present(nombre) || !Present(clave))
    ensures c.Is(500) <==> caller !in us
                           || (HasRol(us, caller, DOCENTE) && Present(nombre) && Present(clave)
                               && Clashes(gs, NuevoGrupo(nombre.value, clave.value, None, caller)))
    ensures c == Pass <==> HasRol(us, caller, DOCENTE) && Present(nombre) && Present(clave)
                           && !Clashes(gs, NuevoGrupo(nombre.value, clave.value, None, caller))
  {
    if caller !in us then Refuse(500, NullRead("rol"))
    else if us[caller].rol != DOCENTE then Refuse(403, SOLO_DOCENTES_CREAR)
    else if !Present(nombre) || !Present(clave) then Refuse(400, FALTAN_NOMBRE_CLAVE)
    else if Clashes(gs, NuevoGrupo(nombre.value, clave.value, None, caller)) then Refuse(500, DUPLICADO)
    else Pass
  }

  /** Only the name and the key decide whether a group clashes. */
  lemma ClashesOnKeysOnly(gs: map<Id, Grupo>, g: Grupo, h: Grupo)
    requires g.nombre == h.nombre && g.clave == h.clave
    ensures Clashes(gs, g) <==> Clashes(gs, h)
  {
    if Clashes(gs, g) {
      var k :| k in gs && (gs[k].nombre == g.nombre || gs[k].clave == g.clave);
      assert k in gs && (gs[k].nombre == h.nombre || gs[k].clave == h.clave);
    }
    if Clashes(gs, h) {
      var k :| k in gs && (gs[k].nombre == h.nombre || gs[k].clave == h.clave);
      assert k in gs && (gs[k].nombre == g.nombre || gs[k].clave == g.clave);
    }
  }

  /** `crearGrupo`: once the checks pass, the group is stored under a fresh id, owned by
      the caller, with empty lists (201). */
  method CrearGrupo(db: Db, caller: Id, nombre: Option<string>, clave: Option<string>, descripcion: Option<string>)
    returns (r: Outcome<Doc<Grupo>>)
    requires db.Valid()
    modifies db`grupos, db`nextId
    ensures db.Valid()
    ensures var c := CrearGrupoCheck(db.usuarios, old(db.grupos), caller, nombre, clave);
            c.Refuse? ==> r == Fail(c.status, c.message) && db.grupos == old(db.grupos)
    ensures CrearGrupoCheck(db.usuarios, old(db.grupos), caller, nombre, clave) == Pass ==>
              nombre.Some? && clave.Some? && old(db.nextId) !in old(db.grupos)
              && r == Ok(201, Doc(old(db.nextId), NuevoGrupo(nombre.value, clave.value, descripcion, caller)))
              && db.grupos == old(db.grupos)[r.value.id := r.value.doc]
    ensures old(db.Linked()) ==> db.Linked()
  {
    var c := CrearGrupoCheck(db.usuarios, db.grupos, caller, nombre, clave);
    if c.Refuse? {
      return Fail(c.status, c.message);
    }
    var g := NuevoGrupo(nombre.value, clave.value, descripcion, caller);
    ClashesOnKeysOnly(db.grupos, g, NuevoGrupo(nombre.value, clave.value, None, caller));
    var id := db.NewId();
    assert db.grupos - {id} == db.grupos;
    WriteKeepsUnique(db.grupos, id, g);
    GruposOkWrite(db.grupos, db.nextId, id, g);
    if old(db.Linked()) {
      NewGrupoKeepsLinked(db.grupos, db.usuarios, db.tareas, id, g);
    }
    db.grupos := db.grupos[id := g];
    r := Ok(201, Doc(id, g));
  }

  /** The checks that `actualizarGrupo` and `eliminarGrupo` share, in order: the group
      (400), then its owner (401, answered with `denied`). There is no role check; a
      caller with no stored user fails when the ownership test reads its id (500). */
  function OwnGrupoCheck(us: map<Id, U.Usuario>, gs: map<Id, Grupo>, caller: Id, id: Id, denied: string): (c: Check)
    ensures c.Is(400) <==> id !in gs
    ensures c.Is(500) <==> id in gs && caller !in us
    ensures c.Is(401) <==> id in gs && caller in us && gs[id].docente != caller
    ensures c == Pass <==> id in gs && caller in us && gs[id].docente == caller
  {
    if id !in gs then Refuse(400, GRUPO_NO_ENCONTRADO)
    else if caller !in us then Refuse(500, NullRead("id"))
    else if gs[id].docente != caller then Refuse(401, denied)
    else Pass
  }

  /** The checks of `actualizarGrupo`: the shared ones, then the unique indexes, which
      refuse a name or a key that another group has (500). No validator runs. */
  function ActualizarGrupoCheck(us: map<Id, U.Usuario>, gs: map<Id, Grupo>, caller: Id, id: Id, p: Patch): (c: Check)
    ensures c.Is(400) <==> id !in gs
    ensures c.Is(401) <==> id in gs && caller in us && gs[id].docente != caller
    ensures c.Is(500) <==> id in gs && (caller !in us
                                        || (gs[id].docente == caller && Clashes(gs - {id}, Apply(gs[id], p))))
    ensures c == Pass <==> id in gs && caller in us && gs[id].docente == caller
                           && !Clashes(gs - {id}, Apply(gs[id], p))
  {
    var own := OwnGrupoCheck(us, gs, caller, id, NO_AUTORIZADO_ACTUALIZAR);
    if own.Refuse? then own
    else if Clashes(gs - {id}, Apply(gs[id], p)) then Refuse(500, DUPLICADO)
    else Pass
  }

  /** `actualizarGrupo`: once the checks pass, the body is applied wholesale (200): it
      can empty the name or the key, hand the group to another owner, and replace
      either list. */
  method ActualizarGrupo(db: Db, caller: Id, id: Id, p: Patch) returns (r: Outcome<Doc<Grupo>>)
    requires db.Valid()
    modifies db`grupos, db`nextId
    ensures db.Valid()
    ensures var c := ActualizarGrupoCheck(db.usuarios, old(db.grupos), caller, id, p);
            c.Refuse? ==> r == Fail(c.status, c.message) && db.grupos == old(db.grupos)
    ensures ActualizarGrupoCheck(db.usuarios, old(db.grupos), caller, id, p) == Pass ==>
              id in old(db.grupos)
              && r == Ok(200, Doc(id, Apply(old(db.grupos)[id], p)))
              && db.grupos == old(db.grupos)[id := r.value.doc]
    ensures old(db.Linked()) && p.estudiantes.None? && p.tareas.None? ==> db.Linked()
  {
    var c := ActualizarGrupoCheck(db.usuarios, db.grupos, caller, id, p);
    if c.Refuse? {
      return Fail(c.status, c.message);
    }
    var g := Apply(db.grupos[id], p);
    db.Reserve(PatchIds(p));
    ApplyIntroducesOnlyPatchIds(db.grupos[id], p);
    WriteKeepsUnique(db.grupos, id, g);
    GruposOkWrite(db.grupos, db.nextId, id, g);
    db.grupos := db.grupos[id := g];
    r := Ok(200, Doc(id, g));
  }

  /** Every id on an updated list was on the old list or comes from the body. */
  lemma ApplyIntroducesOnlyPatchIds(g: Grupo, p: Patch)
    ensures forall x :: x in Apply(g, p).estudiantes ==> x in g.estudiantes || x in PatchIds(p)
    ensures forall x :: x in Apply(g, p).tareas ==> x in g.tareas || x in PatchIds(p)
  {
  }

  /** A body that replaces the student list can break the agreement between the lists:
      a listed user who does not list the group back. */
  lemma StudentListPatchUnlinks(gs: map<Id, Grupo>, us: map<Id, U.Usuario>, id: Id, p: Patch, u: Id)
    requires id in gs && u in us && p.estudiantes.Some? && u in p.estudiantes.value && id !in us[u].grupos
    ensures !MembershipLinked(gs[id := Apply(gs[id], p)], us)
  {
    assert u in gs[id := Apply(gs[id], p)][id].estudiantes;
  }

  /** `eliminarGrupo`: once the checks pass, the group is deleted (200). The users that
      list it and the tasks that name it are left as they are. */
  method EliminarGrupo(db: Db, caller: Id, id: Id) returns (r: Outcome<Id>)
    requires db.Valid()
    modifies db`grupos
    ensures db.Valid()
    ensures var c := OwnGrupoCheck(db.usuarios, old(db.grupos), caller, id, NO_AUTORIZADO_ELIMINAR);
            c.Refuse? ==> r == Fail(c.status, c.message) && db.grupos == old(db.grupos)
    ensures OwnGrupoCheck(db.usuarios, old(db.grupos), caller, id, NO_AUTORIZADO_ELIMINAR) == Pass ==>
              r == Ok(200, id) && db.grupos == old(db.grupos) - {id}
    ensures old(db.Linked()) ==> db.Linked()
  {
    var c := OwnGrupoCheck(db.usuarios, db.grupos, caller, id, NO_AUTORIZADO_ELIMINAR);
    if c.Refuse? {
      return Fail(c.status, c.message);
    }
    db.grupos := db.grupos - {id};
    r := Ok(200, id);
  }

  /** The checks of `agregarAlumnoExistente`, given the account `alumno` that the email
      query found: both fields by truthiness (400), the account (404), the group (404),
      the group's owner (401; there is no role check, and a caller with no stored user
      fails on reading its id, 500), an account already on the list (400); then the
      group's validators on save (500). The account may have either role. */
  function AgregarAlumnoExistenteCheck(us: map<Id, U.Usuario>, gs: map<Id, Grupo>, caller: Id,
                                       email: Option<string>, grupoId: Option<Id>, alumno: Option<Id>): (c: Check)
    ensures c.Is(400) <==> !Present(email) || grupoId.None?
                           || (alumno.Some? && grupoId.value in gs && caller in us && gs[grupoId.value].docente == caller
                               && alumno.value in gs[grupoId.value].estudiantes)
    ensures c.Is(404) <==> Present(email) && grupoId.Some? && (alumno.None? || grupoId.value !in gs)
    ensures c.Is(401) <==> Present(email) && grupoId.Some? && alumno.Some? && grupoId.value in gs
                           && caller in us && gs[grupoId.value].docente != caller
    ensures c.Is(500) <==> Present(email) && grupoId.Some? && alumno.Some? && grupoId.value in gs
                           && (caller !in us
                               || (gs[grupoId.value].docente == caller && alumno.value !in gs[grupoId.value].estudiantes
                                   && !Validates(gs[grupoId.value])))
    ensures c == Pass <==> Present(email) && grupoId.Some? && alumno.Some? && grupoId.value in gs
                           && caller in us && gs[grupoId.value].docente == caller
                           && alumno.value !in gs[grupoId.value].estudiantes && Validates(gs[grupoId.value])
  {
    if !Present(email) || grupoId.None? then Refuse(400, FALTAN_EMAIL_GRUPO)
    else if alumno.None? then Refuse(404, SIN_USUARIO)
    else if grupoId.value !in gs then Refuse(404, GRUPO_NO_ENCONTRADO_PUNTO)
    else if caller !in us then Refuse(500, NullRead("id"))
    else if gs[grupoId.value].docente != caller then Refuse(401, SIN_PERMISO)
    else if alumno.value in gs[grupoId.value].estudiantes then Refuse(400, YA_INSCRITO)
    else if !Validates(gs[grupoId.value]) then Refuse(500, GRUPO_INVALIDO)
    else Pass
  }

  /** `agregarAlumnoExistente`: once the checks pass, the account is pushed onto the
      group's student list and, unless it already lists the group, the group onto the
      account's list (200, answering with the account's id, name and email). */
  method AgregarAlumnoExistente(db: Db, caller: Id, email: Option<string>, grupoId: Option<Id>)
    returns (r: Outcome<Inscrito>)
    requires db.Valid()
    modifies db`grupos, db`usuarios
    ensures db.Valid()
    ensures var c := AgregarAlumnoExistenteCheck(old(db.usuarios), old(db.grupos), caller, email, grupoId,
                                                 Holder(old(db.usuarios), email));
            c.Refuse? ==> r == Fail(c.status, c.message) && db.grupos == old(db.grupos) && db.usuarios == old(db.usuarios)
    ensures AgregarAlumnoExistenteCheck(old(db.usuarios), old(db.grupos), caller, email, grupoId,
                                        Holder(old(db.usuarios), email)) == Pass ==>
              var a := Holder(old(db.usuarios), email).value;
              var g := grupoId.value;
              a in old(db.usuarios) && g in old(db.grupos)
              && var u := old(db.usuarios)[a];
              r == Ok(200, Inscrito(a, u.nombre, u.email))
              && db.grupos == old(db.grupos)[g := old(db.grupos)[g].(estudiantes := old(db.grupos)[g].estudiantes + [a])]
              && db.usuarios == old(db.usuarios)[a := u.(grupos := if g in u.grupos then u.grupos else u.grupos + [g])]
    ensures old(db.Linked()) ==> db.Linked()
  {
    var alumno := db.FindByEmail(email);
    var c := AgregarAlumnoExistenteCheck(db.usuarios, db.grupos, caller, email, grupoId, alumno);
    if c.Refuse? {
      return Fail(c.status, c.message);
    }
    var a := alumno.value;
    var u := db.usuarios[a];
    Enrol(db, grupoId.value, a);
    r := Ok(200, Inscrito(a, u.nombre, u.email));
  }

  /** The two pushes of an enrolment: the account onto the group's student list, and
      the group onto the account's list unless it is already there. */
  method Enrol(db: Db, gid: Id, a: Id)
    requires db.Valid() && gid in db.grupos && a in db.usuarios
    modifies db`grupos, db`usuarios
    ensures db.Valid()
    ensures db.grupos == old(db.grupos)[gid := old(db.grupos)[gid].(estudiantes := old(db.grupos)[gid].estudiantes + [a])]
    ensures var u := old(db.usuarios)[a];
            db.usuarios == old(db.usuarios)[a := u.(grupos := if gid in u.grupos then u.grupos else u.grupos + [gid])]
    ensures old(db.Linked()) ==> db.Linked()
  {
    if db.Linked() {
      EnrolKeepsLinked(db.grupos, db.usuarios, gid, a);
    }
    var u := db.usuarios[a];
    db.WriteGrupo(gid, db.grupos[gid].(estudiantes := db.grupos[gid].estudiantes + [a]));
    db.WriteGruposDeUsuario(a, if gid in u.grupos then u.grupos else u.grupos + [gid]);
  }
}
