/** The students controller: the owner of a group lists its students, enrols a student
    by email and withdraws one. */
module Alumnos {
  import opened Base
  import opened Store
  import G = GrupoModel
  import U = UsuarioModel

  // The messages the controller answers with.
  const SOLO_DOCENTES: string := "Acceso denegado. Solo docentes."
  const SOLO_DOCENTES_MATRICULAR: string := "Acceso denegado. Solo docentes pueden matricular alumnos."
  const SOLO_DOCENTES_DESMATRICULAR: string := "Acceso denegado. Solo docentes pueden desmatricular alumnos."
  const GRUPO_AJENO: string := "Grupo no encontrado o no pertenece al docente."
  const SIN_ESTUDIANTE: string := "No se encontró un estudiante con ese email."
  const YA_MATRICULADO: string := "El estudiante ya está matriculado en este grupo."
  const GRUPO_INVALIDO: string := "Grupo validation failed"

  /** A student as `populate('estudiantes', 'nombre email rol')` shows it. */
  datatype Perfil = Perfil(id: Id, nombre: string, email: string, rol: string)

  function PerfilOf(id: Id, u: U.Usuario): Perfil
  {
    Perfil(id, u.nombre, u.email, u.rol)
  }

  /** `populate` of a list of ids: each id with a stored account becomes that account's
      profile, in list order (repeats included); an id with no account is dropped. */
  function Populate(ids: seq<Id>, us: map<Id, U.Usuario>): (r: seq<Perfil>)
    ensures |r| <= |ids|
    ensures forall p :: p in r <==> p.id in ids && p.id in us && p == PerfilOf(p.id, us[p.id])
    ensures (forall x :: x in ids ==> x in us) ==> |r| == |ids|
    ensures (forall x :: x in ids ==> x in us) ==> forall i :: 0 <= i < |ids| ==> r[i] == PerfilOf(ids[i], us[ids[i]])
  {
    if ids == [] then []
    else if ids[0] in us then [PerfilOf(ids[0], us[ids[0]])] + Populate(ids[1..], us)
    else Populate(ids[1..], us)
  }

  /** The group exists and `caller` owns it: what `Grupo.findOne({ _id, docente })`
      finds. */
  predicate Owns(gs: map<Id, G.Grupo>, caller: Id, gid: Id)
  {
    gid in gs && gs[gid].docente == caller
  }

  /** The checks that all three handlers start with: the caller's role (403, answered
      with `denied`), then a group that exists and that the caller owns (404). */
  function OwnGroupCheck(us: map<Id, U.Usuario>, gs: map<Id, G.Grupo>, caller: Id, gid: Id, denied: string): (c: Check)
    ensures c.Is(500) <==> caller !in us
    ensures c.Is(403) <==> caller in us && us[caller].rol != DOCENTE
    ensures c.Is(404) <==> HasRol(us, caller, DOCENTE) && !Owns(gs, caller, gid)
    ensures c == Pass <==> HasRol(us, caller, DOCENTE) && Owns(gs, caller, gid)
  {
    if caller !in us then Refuse(500, NullRead("rol"))
    else if us[caller].rol != DOCENTE then Refuse(403, denied)
    else if !Owns(gs, caller, gid) then Refuse(404, GRUPO_AJENO)
    else Pass
  }

  /** `obtenerAlumnosPorGrupo`: once the checks pass, the group's student list,
      populated (200). */
  method ObtenerAlumnosPorGrupo(db: Db, caller: Id, gid: Id) returns (r: Outcome<seq<Perfil>>)
    requires db.Valid()
    ensures var c := OwnGroupCheck(db.usuarios, db.grupos, caller, gid, SOLO_DOCENTES);
            c.Refuse? ==> r == Fail(c.status, c.message)
    ensures OwnGroupCheck(db.usuarios, db.grupos, caller, gid, SOLO_DOCENTES) == Pass ==>
              gid in db.grupos && r == Ok(200, Populate(db.grupos[gid].estudiantes, db.usuarios))
  {
    var c := OwnGroupCheck(db.usuarios, db.grupos, caller, gid, SOLO_DOCENTES);
    if c.Refuse? {
      return Fail(c.status, c.message);
    }
    r := Ok(200, Populate(db.grupos[gid].estudiantes, db.usuarios));
  }

  /** What `Usuario.findOne({ email, rol: 'estudiante' })` finds: the account holding
      the email, when its role is student. */
  ghost function StudentHolder(us: map<Id, U.Usuario>, email: Option<string>): (k: Option<Id>)
    ensures k.Some? ==> k.value in us && us[k.value].rol == ESTUDIANTE && k == Holder(us, email)
    ensures k.None? ==> Holder(us, email).None? || us[Holder(us, email).value].rol != ESTUDIANTE
  {
    var h := Holder(us, email);
    if h.Some? && us[h.value].rol == ESTUDIANTE then h else None
  }

  /** The checks of `agregarAlumnoAGrupo`, given the student account `alumno` that the
      email query found: the shared ones, then the account (404), an account already on
      the list (400), and the group's validators on save (500). */
  function AgregarCheck(us: map<Id, U.Usuario>, gs: map<Id, G.Grupo>, caller: Id, gid: Id, alumno: Option<Id>): (c: Check)
    ensures c.Is(403) <==> caller in us && us[caller].rol != DOCENTE
    ensures c.Is(404) <==> HasRol(us, caller, DOCENTE) && (!Owns(gs, caller, gid) || alumno.None?)
    ensures c.Is(400) <==> HasRol(us, caller, DOCENTE) && Owns(gs, caller, gid) && alumno.Some?
                           && alumno.value in gs[gid].estudiantes
    ensures c.Is(500) <==> caller !in us
                           || (HasRol(us, caller, DOCENTE) && Owns(gs, caller, gid) && alumno.Some?
                               && alumno.value !in gs[gid].estudiantes && !G.Validates(gs[gid]))
    ensures c == Pass <==> HasRol(us, caller, DOCENTE) && Owns(gs, caller, gid) && alumno.Some?
                           && alumno.value !in gs[gid].estudiantes && G.Validates(gs[gid])
  {
    var own := OwnGroupCheck(us, gs, caller, gid, SOLO_DOCENTES_MATRICULAR);
    if own.Refuse? then own
    else if alumno.None? then Refuse(404, SIN_ESTUDIANTE)
    else if alumno.value in gs[gid].estudiantes then Refuse(400, YA_MATRICULADO)
    else if !G.Validates(gs[gid]) then Refuse(500, GRUPO_INVALIDO)
    else Pass
  }

  /** `agregarAlumnoAGrupo`: once the checks pass, the student is pushed onto the group's
      list and the group onto the student's list, without looking at what that list
      already holds (200, answering with the student's id). */
  method AgregarAlumnoAGrupo(db: Db, caller: Id, gid: Id, emailEstudiante: Option<string>) returns (r: Outcome<Id>)
    requires db.Valid()
    modifies db`grupos, db`usuarios
    ensures db.Valid()
    ensures var c := AgregarCheck(old(db.usuarios), old(db.grupos), caller, gid,
                                  StudentHolder(old(db.usuarios), emailEstudiante));
            c.Refuse? ==> r == Fail(c.status, c.message) && db.grupos == old(db.grupos) && db.usuarios == old(db.usuarios)
    ensures AgregarCheck(old(db.usuarios), old(db.grupos), caller, gid,
                         StudentHolder(old(db.usuarios), emailEstudiante)) == Pass ==>
              var a := StudentHolder(old(db.usuarios), emailEstudiante).value;
              a in old(db.usuarios) && gid in old(db.grupos)
              && r == Ok(200, a)
              && db.grupos == old(db.grupos)[gid := old(db.grupos)[gid].(estudiantes := old(db.grupos)[gid].estudiantes + [a])]
              && db.usuarios == old(db.usuarios)[a := old(db.usuarios)[a].(grupos := old(db.usuarios)[a].grupos + [gid])]
    ensures old(db.Linked()) ==> db.Linked()
  {
    var found := db.FindByEmail(emailEstudiante);
    var alumno := if found.Some? && db.usuarios[found.value].rol == ESTUDIANTE then found else None;
    var c := AgregarCheck(db.usuarios, db.grupos, caller, gid, alumno);
    if c.Refuse? {
      return Fail(c.status, c.message);
    }
    Matricular(db, gid, alumno.value);
    r := Ok(200, alumno.value);
  }

  /** The two unconditional pushes of `agregarAlumnoAGrupo`. When the lists agree, a
      student missing from the group's list does not list the group either, so the
      second push adds no repeat. */
  method Matricular(db: Db, gid: Id, a: Id)
    requires db.Valid() && gid in db.grupos && a in db.usuarios && a !in db.grupos[gid].estudiantes
    modifies db`grupos, db`usuarios
    ensures db.Valid()
    ensures db.grupos == old(db.grupos)[gid := old(db.grupos)[gid].(estudiantes := old(db.grupos)[gid].estudiantes + [a])]
    ensures db.usuarios == old(db.usuarios)[a := old(db.usuarios)[a].(grupos := old(db.usuarios)[a].grupos + [gid])]
    ensures old(db.Linked()) ==> db.Linked()
  {
    if db.Linked() {
      assert gid !in db.usuarios[a].grupos;
      EnrolKeepsLinked(db.grupos, db.usuarios, gid, a);
    }
    db.WriteGrupo(gid, db.grupos[gid].(estudiantes := db.grupos[gid].estudiantes + [a]));
    db.WriteGruposDeUsuario(a, db.usuarios[a].grupos + [gid]);
  }

  /** `eliminarAlumnoDeGrupo`: once the checks pass, every occurrence of the student is
      pulled from the group's list, and every occurrence of the group from the
      student's list when that account exists (200). */
  method EliminarAlumnoDeGrupo(db: Db, caller: Id, gid: Id, estudianteId: Id) returns (r: Outcome<Id>)
    requires db.Valid()
    modifies db`grupos, db`usuarios
    ensures db.Valid()
    ensures var c := OwnGroupCheck(old(db.usuarios), old(db.grupos), caller, gid, SOLO_DOCENTES_DESMATRICULAR);
            c.Refuse? ==> r == Fail(c.status, c.message) && db.grupos == old(db.grupos) && db.usuarios == old(db.usuarios)
    ensures OwnGroupCheck(old(db.usuarios), old(db.grupos), caller, gid, SOLO_DOCENTES_DESMATRICULAR) == Pass ==>
              gid in old(db.grupos) && r == Ok(200, estudianteId)
              && db.grupos == old(db.grupos)[gid := old(db.grupos)[gid].(estudiantes := G.Without(old(db.grupos)[gid].estudiantes, estudianteId))]
              && db.usuarios == if estudianteId in old(db.usuarios)
                                then old(db.usuarios)[estudianteId := old(db.usuarios)[estudianteId].(grupos := G.Without(old(db.usuarios)[estudianteId].grupos, gid))]
                                else old(db.usuarios)
    ensures old(db.Linked()) ==> db.Linked()
  {
    var c := OwnGroupCheck(db.usuarios, db.grupos, caller, gid, SOLO_DOCENTES_DESMATRICULAR);
    if c.Refuse? {
      return Fail(c.status, c.message);
    }
    Desmatricular(db, gid, estudianteId);
    r := Ok(200, estudianteId);
  }

  /** The two `$pull`s of a withdrawal. */
  method Desmatricular(db: Db, gid: Id, a: Id)
    requires db.Valid() && gid in db.grupos
    modifies db`grupos, db`usuarios
    ensures db.Valid()
    ensures db.grupos == old(db.grupos)[gid := old(db.grupos)[gid].(estudiantes := G.Without(old(db.grupos)[gid].estudiantes, a))]
    ensures db.usuarios == if a in old(db.usuarios)
                           then old(db.usuarios)[a := old(db.usuarios)[a].(grupos := G.Without(old(db.usuarios)[a].grupos, gid))]
                           else old(db.usuarios)
    ensures old(db.Linked()) ==> db.Linked()
  {
    if db.Linked() {
      UnenrolKeepsLinked(db.grupos, db.usuarios, gid, a);
    }
    db.WriteGrupo(gid, db.grupos[gid].(estudiantes := G.Without(db.grupos[gid].estudiantes, a)));
    if a in db.usuarios {
      db.WriteGruposDeUsuario(a, G.Without(db.usuarios[a].grupos, gid));
    }
  }

  /** Withdrawing the same student a second time changes neither list: after the first
      `$pull` there is nothing left to pull. */
  lemma WithdrawTwiceIsOnce(g: G.Grupo, u: U.Usuario, gid: Id, a: Id)
    ensures var g1 := g.(estudiantes := G.Without(g.estudiantes, a));
            g1.(estudiantes := G.Without(g1.estudiantes, a)) == g1
    ensures var u1 := u.(grupos := G.Without(u.grupos, gid));
            u1.(grupos := G.Without(u1.grupos, gid)) == u1
  {
    G.WithoutAbsent(G.Without(g.estudiantes, a), a);
    G.WithoutAbsent(G.Without(u.grupos, gid), gid);
  }
}
