/** The messages controller: the conversation between the caller and another user, and
    sending a message. */
module Mensajes {
  import opened Base
  import opened Store
  import opened MensajeModel

  const FALTAN_CAMPOS: string := "El destinatario y el contenido del mensaje son obligatorios."
  const DESTINATARIO_NO_EXISTE: string := "El destinatario no existe."

  /** `obtenerMensajes`: the messages between the caller and `otro`, in both directions,
      oldest first, as they were before the call (200); then every unread message that
      `otro` sent to the caller is marked read. The handler first reads the caller's id,
      which fails (500) when the token names no stored user. */
  method ObtenerMensajes(db: Db, caller: Id, otro: Id) returns (r: Outcome<seq<Mensaje>>)
    requires db.Valid()
    modifies db`mensajes
    ensures db.Valid()
    ensures caller !in db.usuarios ==> r == Fail(500, NullRead("id")) && db.mensajes == old(db.mensajes)
    ensures caller in db.usuarios ==>
              r.Ok? && r.status == 200
              && Chronological(r.value)
              && multiset(r.value) == multiset(Conversation(old(db.mensajes), caller, otro))
              && (forall m :: m in r.value <==> m in old(db.mensajes) && Between(m, caller, otro))
              && db.mensajes == MarkRead(old(db.mensajes), otro, caller)
  {
    if caller !in db.usuarios {
      return Fail(500, NullRead("id"));
    }
    var conversacion := SortByCreatedAt(Conversation(db.mensajes, caller, otro));
    assert forall m :: m in conversacion <==> m in multiset(conversacion);
    var marcados := MarkRead(db.mensajes, otro, caller);
    assert forall i :: 0 <= i < |marcados| ==> marcados[i].(leido := db.mensajes[i].leido) == db.mensajes[i];
    db.mensajes := marcados;
    r := Ok(200, conversacion);
  }

  /** The checks of `enviarMensaje`, in order: the caller's id is read first (500 when
      the token names no stored user), then both fields by truthiness (400), then the
      recipient (404). */
  function EnviarCheck(us: set<Id>, caller: Id, destinatario: Option<Id>, contenido: Option<string>): (c: Check)
    ensures c.Is(500) <==> caller !in us
    ensures c.Is(400) <==> caller in us && (destinatario.None? || !Present(contenido))
    ensures c.Is(404) <==> caller in us && destinatario.Some? && Present(contenido) && destinatario.value !in us
    ensures c == Pass <==> caller in us && destinatario.Some? && Present(contenido) && destinatario.value in us
  {
    if caller !in us then Refuse(500, NullRead("id"))
    else if destinatario.None? || !Present(contenido) then Refuse(400, FALTAN_CAMPOS)
    else if destinatario.value !in us then Refuse(404, DESTINATARIO_NO_EXISTE)
    else Pass
  }

  /** `enviarMensaje`: once the checks pass, an unread message from the caller,
      timestamped `now`, is stored under a fresh id (201). */
  method EnviarMensaje(db: Db, caller: Id, now: int, destinatario: Option<Id>, contenido: Option<string>)
    returns (r: Outcome<Mensaje>)
    requires db.Valid()
    modifies db`mensajes, db`nextId
    ensures db.Valid()
    ensures var c := EnviarCheck(db.usuarios.Keys, caller, destinatario, contenido);
            c.Refuse? ==> r == Fail(c.status, c.message) && db.mensajes == old(db.mensajes)
    ensures EnviarCheck(db.usuarios.Keys, caller, destinatario, contenido) == Pass ==>
              destinatario.Some? && contenido.Some?
              && r == Ok(201, Mensaje(old(db.nextId), caller, destinatario.value, contenido.value, false, now))
              && db.mensajes == old(db.mensajes) + [r.value]
  {
    var c := EnviarCheck(db.usuarios.Keys, caller, destinatario, contenido);
    if c.Refuse? {
      return Fail(c.status, c.message);
    }
    var id := db.NewId();
    var m := Mensaje(id, caller, destinatario.value, contenido.value, false, now);
    db.mensajes := db.mensajes + [m];
    r := Ok(201, m);
  }

  /** Fetching the same conversation twice marks nothing more the second time. */
  lemma MarkReadIdempotent(s: seq<Mensaje>, from: Id, to: Id)
    ensures MarkRead(MarkRead(s, from, to), from, to) == MarkRead(s, from, to)
  {
    var once := MarkRead(s, from, to);
    var twice := MarkRead(once, from, to);
    forall i | 0 <= i < |s|
      ensures twice[i] == once[i]
    {
      assert once[i].(leido := s[i].leido) == s[i];
    }
  }

  /** Marking commutes with selecting a conversation: the next fetch of any
      conversation shows the same messages as before, with the marking applied. */
  lemma {:induction false} MarkReadKeepsConversations(s: seq<Mensaje>, from: Id, to: Id, a: Id, b: Id)
    ensures Conversation(MarkRead(s, from, to), a, b) == MarkRead(Conversation(s, a, b), from, to)
  {
    if s != [] {
      var t := MarkRead(s, from, to);
      assert t[1..] == MarkRead(s[1..], from, to);
      assert t[0].(leido := s[0].leido) == s[0];
      assert Between(t[0], a, b) == Between(s[0], a, b);
      MarkReadKeepsConversations(s[1..], from, to, a, b);
      if Between(s[0], a, b) {
        assert MarkRead(Conversation(s, a, b), from, to)
               == [t[0]] + MarkRead(Conversation(s[1..], a, b), from, to);
      }
    }
  }
}
