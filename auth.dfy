/** The password-recovery controller: `forgotPassword` assigns a hashed random token and
    a one-hour expiry to the account and mails the raw token; `resetPassword` looks for
    an account holding the hash of a token with an expiry ahead of now and sets a new
    password on it. The `Usuario` schema declares neither reset path, and its schema is
    strict: the assignments of `forgotPassword` are never stored, and the filter of
    `resetPassword` either matches no account or is stripped down to nothing, depending
    on the `strictQuery` setting of the Mongoose version in use. Neither handler is
    wrapped by `asyncHandler`: an exception escaping one of them is an unhandled
    rejection. */
module Auth {
  import opened Base
  import opened Store
  import opened UsuarioModel

  const NO_REGISTRADO: string := "El correo no está registrado"
  const CORREO_ENVIADO: string := "Correo enviado correctamente"
  const ERROR_SERVIDOR: string := "Error en el servidor"
  const TOKEN_INVALIDO: string := "Token inválido o expirado"
  const PASSWORD_OBLIGATORIA: string := "Usuario validation failed: password: La contraseña es obligatoria."
  const NO_DEFINIDO: string := "forgotPassword is not defined"

  /** The two paths the reset controller reads and writes. */
  const TOKEN_PATH: string := "resetPasswordToken"
  const EXPIRES_PATH: string := "resetPasswordExpires"

  /** A condition of the `resetPassword` query: the stored token hash equals `hashed`,
      or the stored expiry is strictly after `instant` (`$gt`). */
  datatype Condition = TokenIs(hashed: string) | ExpiresAfter(instant: int)

  function PathOf(c: Condition): string
  {
    match c
    case TokenIs(_) => TOKEN_PATH
    case ExpiresAfter(_) => EXPIRES_PATH
  }

  /** The filter `resetPassword` sends: the hash of the token from the URL, and an
      expiry after `now`. */
  function ResetFilter(hashed: string, now: int): seq<Condition>
  {
    [TokenIs(hashed), ExpiresAfter(now)]
  }

  /** Neither path of the reset filter is declared by the schema. */
  lemma ResetPathsUndeclared(hashed: string, now: int)
    ensures forall i :: 0 <= i < |ResetFilter(hashed, now)| ==> PathOf(ResetFilter(hashed, now)[i]) !in PATHS
  {
  }

  /** Casting a filter against the schema: with `strictQuery` on, every condition on a
      path the schema does not declare is removed; with it off, the filter reaches the
      database as written. */
  function CastFilter(f: seq<Condition>, strictQuery: bool): (r: seq<Condition>)
    ensures forall c :: c in r <==> c in f && (!strictQuery || PathOf(c) in PATHS)
    ensures !strictQuery ==> r == f
  {
    if f == [] then []
    else (if !strictQuery || PathOf(f[0]) in PATHS then [f[0]] else []) + CastFilter(f[1..], strictQuery)
  }

  /** The value a stored account holds under the token path, and under the expiry
      path: none, since strict mode stores only the paths the schema declares. */
  function StoredToken(u: Usuario): Option<string>
  {
    None
  }

  function StoredExpiry(u: Usuario): Option<int>
  {
    None
  }

  /** A stored account meets a condition: a missing value equals no string and is
      after no instant. */
  predicate Satisfies(u: Usuario, c: Condition)
  {
    match c
    case TokenIs(h) => StoredToken(u) == Some(h)
    case ExpiresAfter(t) => StoredExpiry(u).Some? && StoredExpiry(u).value > t
  }

  /** `findOne(filter)` can return `u`: it meets every condition left in the filter. */
  predicate MatchesAll(u: Usuario, f: seq<Condition>)
  {
    forall i :: 0 <= i < |f| ==> Satisfies(u, f[i])
  }

  /** The `findOne` of `resetPassword` finds nothing. With `strictQuery` off that is
      every call, because no stored account holds either reset path; with it on only an
      empty collection, because the stripped filter is empty and matches every account. */
  function ResetRefused(us: map<Id, Usuario>, hashed: string, now: int, strictQuery: bool): (refused: bool)
    ensures refused <==> !strictQuery || us.Keys == {}
  {
    ResetRefusedCases(us, hashed, now, strictQuery);
    forall j :: j in us ==> !MatchesAll(us[j], CastFilter(ResetFilter(hashed, now), strictQuery))
  }

  lemma ResetRefusedCases(us: map<Id, Usuario>, hashed: string, now: int, strictQuery: bool)
    ensures (forall j :: j in us ==> !MatchesAll(us[j], CastFilter(ResetFilter(hashed, now), strictQuery)))
            <==> !strictQuery || us.Keys == {}
  {
    if strictQuery {
      if j :| j in us {
        EveryAccountMatchesStrippedFilter(us[j], hashed, now);
      }
    } else {
      forall j | j in us
        ensures !MatchesAll(us[j], CastFilter(ResetFilter(hashed, now), false))
      {
        NoAccountMatchesResetFilter(us[j], hashed, now);
      }
    }
  }

  /** With `strictQuery` on, the reset filter loses both of its conditions. */
  lemma StrippedFilterEmpty(hashed: string, now: int)
    ensures CastFilter(ResetFilter(hashed, now), true) == []
  {
    var f := ResetFilter(hashed, now);
    ResetPathsUndeclared(hashed, now);
    assert f[1..][1..] == [];
    assert CastFilter(f[1..], true) == [];
  }

  /** With `strictQuery` off, no stored account matches the reset filter, whatever the
      token and the time. */
  lemma NoAccountMatchesResetFilter(u: Usuario, hashed: string, now: int)
    ensures !MatchesAll(u, CastFilter(ResetFilter(hashed, now), false))
  {
    assert !Satisfies(u, CastFilter(ResetFilter(hashed, now), false)[0]);
  }

  /** With `strictQuery` on, every stored account matches the stripped reset filter,
      whatever the token and the time. */
  lemma EveryAccountMatchesStrippedFilter(u: Usuario, hashed: string, now: int)
    ensures MatchesAll(u, CastFilter(ResetFilter(hashed, now), true))
  {
    StrippedFilterEmpty(hashed, now);
  }

  /** `forgotPassword`: an address that finds no account answers 404. Otherwise the
      token hash and the expiry are assigned to paths the schema does not declare, so
      the `save` stores nothing, and the mail with the raw token is sent: 200 when
      sending succeeds, 500 when it fails. The accounts never change. */
  method ForgotPassword(db: Db, mailSent: bool, email: Option<string>) returns (r: Outcome<string>)
    requires db.Valid()
    ensures r == Fail(404, NO_REGISTRADO) <==> Holder(db.usuarios, email).None?
    ensures r == Ok(200, CORREO_ENVIADO) <==> Holder(db.usuarios, email).Some? && mailSent
    ensures r == Fail(500, ERROR_SERVIDOR) <==> Holder(db.usuarios, email).Some? && !mailSent
  {
    var found := db.FindByEmail(email);
    if found.None? {
      return Fail(404, NO_REGISTRADO);
    }
    if mailSent {
      r := Ok(200, CORREO_ENVIADO);
    } else {
      r := Fail(500, ERROR_SERVIDOR);
    }
  }

  /** `resetPassword`: when `findOne` finds no account, 400 and nothing changes; with
      `strictQuery` off that is every call, with it on only an empty collection. Otherwise
      the account `findOne` returns (the first in storage order, whichever token was
      given) gets the new password exactly as given, not hashed; the assignments to the
      reset paths are dropped. An empty or absent password fails the schema and changes
      nothing. Either way the handler then throws (the save's validation error, or the
      `ReferenceError` of the export statement after the save) and no response is sent. */
  method ResetPassword(db: Db, crypto: Crypto, now: int, token: string, password: Option<string>, strictQuery: bool)
    returns (r: Outcome<string>)
    requires db.Valid()
    modifies db`usuarios
    ensures db.Valid()
    ensures r == Fail(400, TOKEN_INVALIDO) <==> ResetRefused(old(db.usuarios), crypto.sha256Hex(token), now, strictQuery)
    ensures r == Fail(400, TOKEN_INVALIDO) || r == Unhandled(if Present(password) then NO_DEFINIDO else PASSWORD_OBLIGATORIA)
    ensures r.Fail? || !Present(password) ==> db.usuarios == old(db.usuarios)
    ensures r.Unhandled? && Present(password) ==>
              exists k :: k in old(db.usuarios) && db.usuarios == old(db.usuarios)[k := old(db.usuarios)[k].(password := password.value)]
    ensures db.Linked() == old(db.Linked())
  {
    var f := CastFilter(ResetFilter(crypto.sha256Hex(token), now), strictQuery);
    if forall j :: j in db.usuarios ==> !MatchesAll(db.usuarios[j], f) {
      return Fail(400, TOKEN_INVALIDO);
    }
    var k :| k in db.usuarios && MatchesAll(db.usuarios[k], f);
    if !Present(password) {
      return Unhandled(PASSWORD_OBLIGATORIA);
    }
    assert Stored(db.usuarios[k]);
    db.WriteUsuario(k, db.usuarios[k].(password := password.value));
    r := Unhandled(NO_DEFINIDO);
  }
}
