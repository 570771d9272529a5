/** The `Usuario` schema: an account with a role, a unique email (stored lower-cased and
    trimmed) and the groups it belongs to. The schema is strict: it declares no other
    path, so a value assigned to any other property of a document is never stored. */
module UsuarioModel {
  import opened Base
  import opened Text

  datatype Usuario = Usuario(
    nombre: string,
    email: string,
    password: string,
    rol: string,
    grupos: seq<Id>,
    activo: bool)

  /** The paths a `Usuario` document can hold: the declared ones, the id, the version
      key and the two timestamps. */
  const PATHS: set<string> := {"_id", "__v", "nombre", "email", "password", "rol", "grupos", "activo", "createdAt", "updatedAt"}

  predicate RolValido(rol: string)
  {
    rol == DOCENTE || rol == ESTUDIANTE
  }

  /** The validators run on save: the three required strings are non-empty and the
      role is one of the enumeration's two values. */
  predicate Validates(u: Usuario)
  {
    u.nombre != "" && u.email != "" && u.password != "" && RolValido(u.rol)
  }

  /** What a stored document satisfies: it validates, and its email went through the
      `lowercase` and `trim` setters. */
  predicate Stored(u: Usuario)
  {
    Validates(u) && Normalize(u.email) == u.email
  }

  predicate AllStored(usuarios: map<Id, Usuario>)
  {
    forall k {:trigger Stored(usuarios[k])} :: k in usuarios ==> Stored(usuarios[k])
  }

  /** The unique index on `email`. */
  predicate UniqueEmails(usuarios: map<Id, Usuario>)
  {
    forall j, k :: j in usuarios && k in usuarios && j != k ==> usuarios[j].email != usuarios[k].email
  }

  /** `Usuario.create`: the setters run on the email, the defaults fill in an empty
      group list and `activo`, and the validators decide. */
  function Create(nombre: string, email: string, password: string, rol: string): (r: Option<Usuario>)
    ensures r.Some? <==> nombre != "" && Normalize(email) != "" && password != "" && RolValido(rol)
    ensures r.Some? ==> Stored(r.value) && r.value.email == Normalize(email)
                        && r.value.nombre == nombre && r.value.password == password && r.value.rol == rol
    ensures r.Some? ==> r.value.grupos == [] && r.value.activo
  {
    NormalizeIdempotent(email);
    var u := Usuario(nombre, Normalize(email), password, rol, [], true);
    if Validates(u) then Some(u) else None
  }

  /** A query `{ email: e }` is cast through the same setters, so it finds the user whose
      stored email is `Normalize(e)`: different spellings of one address find the same
      account. */
  predicate EmailMatches(u: Usuario, e: string)
  {
    u.email == Normalize(e)
  }

  lemma SpellingsMatchAlike(u: Usuario, e1: string, e2: string)
    requires Normalize(e1) == Normalize(e2)
    ensures EmailMatches(u, e1) <==> EmailMatches(u, e2)
  {
  }

  /** Under the index, at most one account matches an email query. */
  lemma OneAccountPerEmail(usuarios: map<Id, Usuario>, e: string, j: Id, k: Id)
    requires UniqueEmails(usuarios)
    requires j in usuarios && k in usuarios
    requires EmailMatches(usuarios[j], e) && EmailMatches(usuarios[k], e)
    ensures j == k
  {
  }
}
