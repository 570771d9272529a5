/** The users controller: registration, login, and the profile of the authenticated
    user. */
module Usuarios {
  import opened Base
  import opened Store
  import opened UsuarioModel
  import opened Text

  // The messages the controller answers with.
  const FALTAN_CAMPOS: string := "Por favor, ingresa todos los campos requeridos"
  const YA_EXISTE: string := "El usuario ya existe en el sistema"
  const VALIDACION: string := "Usuario validation failed"
  const CREDENCIALES: string := "Credenciales inválidas (email o contraseña incorrectos)"
  const ARGUMENTOS: string := "Illegal arguments: undefined, string"

  /** What registration and login answer with: the account and a signed session token. */
  datatype Sesion = Sesion(id: Id, nombre: string, email: string, rol: string, token: string)

  /** The account as the authentication middleware attaches it: without its password. */
  datatype Perfil = Perfil(id: Id, nombre: string, email: string, rol: string, grupos: seq<Id>, activo: bool)

  /** `generarTokenJWT`'s answer for account `id`. */
  function SesionOf(crypto: Crypto, id: Id, u: Usuario): (s: Sesion)
    ensures s.id == id && s.email == u.email && s.rol == u.rol && s.token == crypto.signJwt(id)
  {
    Sesion(id, u.nombre, u.email, u.rol, crypto.signJwt(id))
  }

  /** Some account holds the address that `email` normalises to. */
  predicate Registered(us: map<Id, Usuario>, email: string)
  {
    exists k :: k in us && EmailMatches(us[k], email)
  }

  /** `rol || 'estudiante'`. */
  function RolOrDefault(rol: Option<string>): (r: string)
    ensures Present(rol) ==> r == rol.value
    ensures !Present(rol) ==> r == ESTUDIANTE
  {
    if Present(rol) then rol.value else ESTUDIANTE
  }

  /** The account `registro` asks to create, with the password hashed under `salt`. */
  function Solicitud(crypto: Crypto, salt: string, nombre: string, email: string, password: string,
                     rol: Option<string>): (r: Option<Usuario>)
    ensures r.Some? <==> Normalize(email) != "" && crypto.bcryptHash(password, salt) != "" && nombre != ""
                         && RolValido(RolOrDefault(rol))
    ensures r.Some? ==> Stored(r.value) && r.value.email == Normalize(email)
                        && r.value.password == crypto.bcryptHash(password, salt) && r.value.grupos == []
  {
    Create(nombre, email, crypto.bcryptHash(password, salt), RolOrDefault(rol))
  }

  /** The checks of `registro`, in order: the three required fields by truthiness
      (400), an account already holding the address (400); then the schema, which
      refuses an address that trims to nothing or a role outside the enumeration when
      the account is created (500). */
  function RegistroCheck(us: map<Id, Usuario>, crypto: Crypto, salt: string, nombre: Option<string>,
                         email: Option<string>, password: Option<string>, rol: Option<string>): (c: Check)
    ensures c.Is(400) <==> !Present(nombre) || !Present(email) || !Present(password) || Registered(us, email.value)
    ensures c.Is(500) <==> Present(nombre) && Present(email) && Present(password) && !Registered(us, email.value)
                           && Solicitud(crypto, salt, nombre.value, email.value, password.value, rol).None?
    ensures c == Pass <==> Present(nombre) && Present(email) && Present(password) && !Registered(us, email.value)
                           && Solicitud(crypto, salt, nombre.value, email.value, password.value, rol).Some?
  {
    if !Present(nombre) || !Present(email) || !Present(password) then Refuse(400, FALTAN_CAMPOS)
    else if Registered(us, email.value) then Refuse(400, YA_EXISTE)
    else if Solicitud(crypto, salt, nombre.value, email.value, password.value, rol).None? then Refuse(500, VALIDACION)
    else Pass
  }

  /** `registro`: once the checks pass, the account is stored under a fresh id with the
      password hashed, the address normalised, no groups, and the role given or
      `estudiante` (201, answering with a session for it). */
  method Registro(db: Db, crypto: Crypto, salt: string, nombre: Option<string>, email: Option<string>,
                  password: Option<string>, rol: Option<string>)
    returns (r: Outcome<Sesion>)
    requires db.Valid()
    modifies db`usuarios, db`nextId
    ensures db.Valid()
    ensures var c := RegistroCheck(old(db.usuarios), crypto, salt, nombre, email, password, rol);
            c.Refuse? ==> r == Fail(c.status, c.message) && db.usuarios == old(db.usuarios)
    ensures RegistroCheck(old(db.usuarios), crypto, salt, nombre, email, password, rol) == Pass ==>
              nombre.Some? && email.Some? && password.Some?
              && var u := Solicitud(crypto, salt, nombre.value, email.value, password.value, rol).value;
              old(db.nextId) !in old(db.usuarios)
              && db.usuarios == old(db.usuarios)[old(db.nextId) := u]
              && r == Ok(201, SesionOf(crypto, old(db.nextId), u))
    ensures old(db.Linked()) ==> db.Linked()
  {
    var c := RegistroCheck(db.usuarios, crypto, salt, nombre, email, password, rol);
    if c.Refuse? {
      return Fail(c.status, c.message);
    }
    var u := Solicitud(crypto, salt, nombre.value, email.value, password.value, rol).value;
    assert forall j :: j in db.usuarios ==> !EmailMatches(db.usuarios[j], email.value);
    var id := db.InsertUsuario(u);
    r := Ok(201, SesionOf(crypto, id, u));
  }

  /** `login`: the account the address finds, when `bcrypt.compare` accepts the password
      against its stored hash (200, with a session); no account or a rejected password
      answers 400; an absent password makes `compare` throw (500). */
  method Login(db: Db, crypto: Crypto, email: Option<string>, password: Option<string>) returns (r: Outcome<Sesion>)
    requires db.Valid()
    ensures var h := Holder(db.usuarios, email);
            h.None? ==> r == Fail(400, CREDENCIALES)
    ensures var h := Holder(db.usuarios, email);
            h.Some? && password.None? ==> r == Fail(500, ARGUMENTOS)
    ensures var h := Holder(db.usuarios, email);
            h.Some? && password.Some? ==>
              if crypto.bcryptCompare(password.value, db.usuarios[h.value].password)
              then r == Ok(200, SesionOf(crypto, h.value, db.usuarios[h.value]))
              else r == Fail(400, CREDENCIALES)
  {
    var found := db.FindByEmail(email);
    if found.None? {
      return Fail(400, CREDENCIALES);
    }
    var u := db.usuarios[found.value];
    if password.None? {
      return Fail(500, ARGUMENTOS);
    }
    if crypto.bcryptCompare(password.value, u.password) {
      r := Ok(200, SesionOf(crypto, found.value, u));
    } else {
      r := Fail(400, CREDENCIALES);
    }
  }

  /** `obtenerUsuarioActual`: the caller's account without its password; when the
      token names no stored account the middleware attached `null`, and `null` is what
      is answered, still with 200. */
  method ObtenerUsuarioActual(db: Db, caller: Id) returns (r: Outcome<Option<Perfil>>)
    ensures r.Ok? && r.status == 200
    ensures r.value.Some? <==> caller in db.usuarios
    ensures r.value.Some? ==>
              var u := db.usuarios[caller];
              r.value.value == Perfil(caller, u.nombre, u.email, u.rol, u.grupos, u.activo)
  {
    if caller !in db.usuarios {
      return Ok(200, None);
    }
    var u := db.usuarios[caller];
    r := Ok(200, Some(Perfil(caller, u.nombre, u.email, u.rol, u.grupos, u.activo)));
  }

  /** A registered address cannot be registered again under any of its spellings. */
  lemma NoSecondRegistration(us: map<Id, Usuario>, crypto: Crypto, salt: string, nombre: Option<string>,
                             e1: string, e2: string, password: Option<string>, rol: Option<string>, k: Id)
    requires k in us && EmailMatches(us[k], e1) && Normalize(e1) == Normalize(e2) && e2 != ""
    ensures RegistroCheck(us, crypto, salt, nombre, Some(e2), password, rol).Is(400)
  {
    assert EmailMatches(us[k], e2);
  }
}
