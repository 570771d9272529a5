/** The database the controllers share: one collection per model, held by a class whose
    fields the request handlers update in place, and the source of fresh ObjectIds.

    Two kinds of facts are kept apart. `Valid` is what the schemas and indexes enforce
    on every write, so every handler preserves it. `Linked` says that the references
    kept on both sides of a relation agree (a group's student list and each student's
    group list; a group's task list and each task's group); nothing in the database
    enforces it, and it is preserved only by the handlers written to maintain it. */
module Store {
  import opened Base
  import opened Text
  import U = UsuarioModel
  import G = GrupoModel
  import T = TareaModel
  import E = EntregaModel
  import M = MensajeModel

  predicate KeysBelow<V>(m: map<Id, V>, n: nat)
  {
    forall k :: k in m ==> k < n
  }

  predicate UsuariosOk(us: map<Id, U.Usuario>, n: nat)
  {
    KeysBelow(us, n) && U.AllStored(us) && U.UniqueEmails(us)
    && (forall k, x :: k in us && x in us[k].grupos ==> x < n)
  }

  predicate GruposOk(gs: map<Id, G.Grupo>, n: nat)
  {
    KeysBelow(gs, n) && G.UniqueKeys(gs)
    && (forall k, x :: k in gs && x in gs[k].estudiantes ==> x < n)
    && (forall k, x :: k in gs && x in gs[k].tareas ==> x < n)
  }

  predicate TareasOk(ts: map<Id, T.Tarea>, n: nat)
  {
    KeysBelow(ts, n) && T.AllValidate(ts) && forall k :: k in ts ==> ts[k].grupo < n
  }

  predicate EntregasOk(es: map<Id, E.Entrega>, n: nat)
  {
    KeysBelow(es, n) && E.AllValidate(es) && E.UniquePairs(es)
  }

  predicate MensajesOk(ms: seq<M.Mensaje>, n: nat)
  {
    forall i :: 0 <= i < |ms| ==> ms[i].id < n && M.Validates(ms[i])
  }

  /** The user `id` exists and has role `rol`. */
  predicate HasRol(us: map<Id, U.Usuario>, id: Id, rol: string)
  {
    id in us && us[id].rol == rol
  }

  /** A group lists a user as a student exactly when that user lists the group. */
  predicate MembershipLinked(gs: map<Id, G.Grupo>, us: map<Id, U.Usuario>)
  {
    forall g, u :: g in gs && u in us ==> (u in gs[g].estudiantes <==> g in us[u].grupos)
  }

  /** A group lists a task exactly when the task names that group. */
  predicate TareasLinked(gs: map<Id, G.Grupo>, ts: map<Id, T.Tarea>)
  {
    forall g, t :: g in gs && t in ts ==> (t in gs[g].tareas <==> ts[t].grupo == g)
  }

  /** The account an email query finds, if any. A missing email (`undefined` in the
      filter) matches no stored document, since every account has one. */
  ghost function Holder(us: map<Id, U.Usuario>, email: Option<string>): (k: Option<Id>)
    ensures k.Some? ==> email.Some? && k.value in us && U.EmailMatches(us[k.value], email.value)
    ensures k.None? ==> email.None? || forall j :: j in us ==> !U.EmailMatches(us[j], email.value)
  {
    if email.Some? && exists j :: j in us && U.EmailMatches(us[j], email.value)
    then Some(var j :| j in us && U.EmailMatches(us[j], email.value); j)
    else None
  }

  class Db {
    var usuarios: map<Id, U.Usuario>
    var grupos: map<Id, G.Grupo>
    var tareas: map<Id, T.Tarea>
    var entregas: map<Id, E.Entrega>
    /** The messages in insertion order. */
    var mensajes: seq<M.Mensaje>
    /** Every id allocated so far or named in a stored reference list is below it. */
    var nextId: nat

    ghost predicate Valid()
      reads this
    {
      UsuariosOk(usuarios, nextId) && GruposOk(grupos, nextId) && TareasOk(tareas, nextId)
      && EntregasOk(entregas, nextId) && MensajesOk(mensajes, nextId)
    }

    ghost predicate Linked()
      reads this`grupos, this`usuarios, this`tareas
    {
      MembershipLinked(grupos, usuarios) && TareasLinked(grupos, tareas)
    }

    constructor ()
      ensures Valid() && Linked()
      ensures usuarios == map[] && grupos == map[] && tareas == map[] && entregas == map[]
      ensures mensajes == []
    {
      usuarios := map[];
      grupos := map[];
      tareas := map[];
      entregas := map[];
      mensajes := [];
      nextId := 0;
    }

    /** A fresh ObjectId: no stored document has it and no stored reference names it. */
    method NewId() returns (id: Id)
      requires Valid()
      modifies this`nextId
      ensures Valid()
      ensures id == old(nextId) && nextId == id + 1
    {
      id := nextId;
      nextId := nextId + 1;
    }

    /** Ids that a request body writes into a reference list are kept away from later
        allocations. */
    method Reserve(ids: seq<Id>)
      requires Valid()
      modifies this`nextId
      ensures Valid()
      ensures old(nextId) <= nextId && forall x :: x in ids ==> x < nextId
    {
      var i := 0;
      while i < |ids|
        invariant 0 <= i <= |ids|
        invariant old(nextId) <= nextId && Valid()
        invariant forall j :: 0 <= j < i ==> ids[j] < nextId
      {
        if nextId <= ids[i] {
          nextId := ids[i] + 1;
        }
        i := i + 1;
      }
    }

    /** Saving a group with its name and its key untouched and lists that name only
        known ids. */
    method WriteGrupo(k: Id, g: G.Grupo)
      requires Valid() && k in grupos
      requires g.nombre == grupos[k].nombre && g.clave == grupos[k].clave
      requires forall x :: x in g.estudiantes ==> x < nextId
      requires forall x :: x in g.tareas ==> x < nextId
      modifies this`grupos
      ensures Valid()
      ensures grupos == old(grupos)[k := g]
    {
      G.SameKeysKeepUnique(grupos, k, g);
      GruposOkWrite(grupos, nextId, k, g);
      grupos := grupos[k := g];
    }

    /** `Usuario.create` of an account in stored form, with no groups and an email
        that no other account has, under a fresh id. */
    method InsertUsuario(u: U.Usuario) returns (id: Id)
      requires Valid() && U.Stored(u) && u.grupos == []
      requires forall j :: j in usuarios ==> usuarios[j].email != u.email
      modifies this`usuarios, this`nextId
      ensures Valid()
      ensures id == old(nextId) && id !in old(usuarios) && usuarios == old(usuarios)[id := u]
      ensures old(Linked()) ==> Linked()
    {
      id := NewId();
      if old(Linked()) {
        NewUsuarioKeepsLinked(grupos, usuarios, id, u);
      }
      UsuariosOkWrite(usuarios, nextId, id, u);
      usuarios := usuarios[id := u];
    }

    /** Saving a user that still validates, under the same email and with the same
        group list. */
    method WriteUsuario(k: Id, u: U.Usuario)
      requires Valid() && k in usuarios
      requires U.Validates(u) && u.email == usuarios[k].email && u.grupos == usuarios[k].grupos
      modifies this`usuarios
      ensures Valid()
      ensures usuarios == old(usuarios)[k := u]
      ensures Linked() == old(Linked())
    {
      assert U.Stored(usuarios[k]);
      UsuariosOkWrite(usuarios, nextId, k, u);
      SameGroupsKeepLinked(grupos, usuarios, k, u);
      usuarios := usuarios[k := u];
    }

    /** Saving a user with a new group list that names only known ids. */
    method WriteGruposDeUsuario(k: Id, gs: seq<Id>)
      requires Valid() && k in usuarios
      requires forall x :: x in gs ==> x < nextId
      modifies this`usuarios
      ensures Valid()
      ensures usuarios == old(usuarios)[k := old(usuarios)[k].(grupos := gs)]
    {
      var u := usuarios[k].(grupos := gs);
      assert U.Stored(usuarios[k]);
      UsuariosOkWrite(usuarios, nextId, k, u);
      usuarios := usuarios[k := u];
    }

    /** `Usuario.findOne({ email })`: the filter goes through the email setters, and
        the unique index leaves at most one account to find. */
    method FindByEmail(email: Option<string>) returns (k: Option<Id>)
      requires Valid()
      ensures k == Holder(usuarios, email)
    {
      if email.Some? && exists j :: j in usuarios && U.EmailMatches(usuarios[j], email.value) {
        var j :| j in usuarios && U.EmailMatches(usuarios[j], email.value);
        U.OneAccountPerEmail(usuarios, email.value, j, Holder(usuarios, email).value);
        k := Some(j);
      } else {
        k := None;
      }
    }
  }

  /** Writing a task that validates and names a known group keeps the collection valid. */
  lemma TareasOkWrite(ts: map<Id, T.Tarea>, n: nat, k: Id, t: T.Tarea)
    requires TareasOk(ts, n) && k < n && T.Validates(t) && t.grupo < n
    ensures TareasOk(ts[k := t], n)
  {
  }

  /** Writing a group that the unique indexes admit and that lists only known ids keeps
      the collection valid. */
  lemma GruposOkWrite(gs: map<Id, G.Grupo>, n: nat, k: Id, g: G.Grupo)
    requires GruposOk(gs, n) && k < n && G.UniqueKeys(gs[k := g])
    requires forall x :: x in g.estudiantes ==> x < n
    requires forall x :: x in g.tareas ==> x < n
    ensures GruposOk(gs[k := g], n)
  {
  }

  /** Writing a user that is stored in normal form, whose email no other user has and
      whose group list names only known ids, keeps the collection valid. */
  lemma UsuariosOkWrite(us: map<Id, U.Usuario>, n: nat, k: Id, u: U.Usuario)
    requires UsuariosOk(us, n) && k < n && U.Stored(u)
    requires forall j :: j in us && j != k ==> us[j].email != u.email
    requires forall x :: x in u.grupos ==> x < n
    ensures UsuariosOk(us[k := u], n)
  {
  }

  /** Enrolling a user in a group on both sides keeps the membership lists in agreement. */
  lemma EnrolKeepsLinked(gs: map<Id, G.Grupo>, us: map<Id, U.Usuario>, g: Id, u: Id)
    requires MembershipLinked(gs, us) && g in gs && u in us
    ensures MembershipLinked(
              gs[g := gs[g].(estudiantes := gs[g].estudiantes + [u])],
              us[u := us[u].(grupos := if g in us[u].grupos then us[u].grupos else us[u].grupos + [g])])
  {
  }

  /** Pulling a user out of a group and the group out of the user's list keeps the
      membership lists in agreement, whether or not that user exists. */
  lemma UnenrolKeepsLinked(gs: map<Id, G.Grupo>, us: map<Id, U.Usuario>, g: Id, u: Id)
    requires MembershipLinked(gs, us) && g in gs
    ensures MembershipLinked(
              gs[g := gs[g].(estudiantes := G.Without(gs[g].estudiantes, u))],
              if u in us then us[u := us[u].(grupos := G.Without(us[u].grupos, g))] else us)
  {
  }

  /** Rewriting a user without touching its group list changes nothing about the
      agreement between the lists. */
  lemma SameGroupsKeepLinked(gs: map<Id, G.Grupo>, us: map<Id, U.Usuario>, k: Id, u: U.Usuario)
    requires k in us && u.grupos == us[k].grupos
    ensures MembershipLinked(gs, us[k := u]) == MembershipLinked(gs, us)
  {
    if MembershipLinked(gs, us) {
      forall g, v | g in gs && v in us[k := u]
        ensures v in gs[g].estudiantes <==> g in us[k := u][v].grupos
      {
        assert us[k := u][v].grupos == us[v].grupos;
      }
    }
    if MembershipLinked(gs, us[k := u]) {
      forall g, v | g in gs && v in us
        ensures v in gs[g].estudiantes <==> g in us[v].grupos
      {
        assert us[k := u][v].grupos == us[v].grupos;
      }
    }
  }

  /** A new group with empty lists, under an id that nothing refers to, is linked. */
  lemma NewGrupoKeepsLinked(gs: map<Id, G.Grupo>, us: map<Id, U.Usuario>, ts: map<Id, T.Tarea>,
                            g: Id, grupo: G.Grupo)
    requires MembershipLinked(gs, us) && TareasLinked(gs, ts)
    requires grupo.estudiantes == [] && grupo.tareas == []
    requires forall u :: u in us ==> g !in us[u].grupos
    requires forall t :: t in ts ==> ts[t].grupo != g
    ensures MembershipLinked(gs[g := grupo], us) && TareasLinked(gs[g := grupo], ts)
  {
  }

  /** A new user with no groups, under an id that no group lists, is linked. */
  lemma NewUsuarioKeepsLinked(gs: map<Id, G.Grupo>, us: map<Id, U.Usuario>, u: Id, usuario: U.Usuario)
    requires MembershipLinked(gs, us)
    requires usuario.grupos == []
    requires forall g :: g in gs ==> u !in gs[g].estudiantes
    ensures MembershipLinked(gs, us[u := usuario])
  {
  }

  /** A new task under an id that no group lists, pushed onto its own group's list, is
      linked. */
  lemma NewTareaKeepsLinked(gs: map<Id, G.Grupo>, ts: map<Id, T.Tarea>, t: Id, tarea: T.Tarea)
    requires TareasLinked(gs, ts) && tarea.grupo in gs
    requires forall g :: g in gs ==> t !in gs[g].tareas
    ensures TareasLinked(gs[tarea.grupo := gs[tarea.grupo].(tareas := gs[tarea.grupo].tareas + [t])],
                         ts[t := tarea])
  {
  }

  /** Deleting a task after pulling it from its group's list keeps the lists linked. */
  lemma RemoveTareaKeepsLinked(gs: map<Id, G.Grupo>, ts: map<Id, T.Tarea>, t: Id)
    requires TareasLinked(gs, ts) && t in ts
    ensures var g := ts[t].grupo;
            TareasLinked(if g in gs then gs[g := gs[g].(tareas := G.Without(gs[g].tareas, t))] else gs,
                         ts - {t})
  {
  }
}
