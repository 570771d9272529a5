/** The `Mensaje` schema: a direct message between two users, with a read flag and the
    creation timestamp that conversations are ordered by. */
module MensajeModel {
  import opened Base

  datatype Mensaje = Mensaje(
    id: Id,
    remitente: Id,
    destinatario: Id,
    contenido: string,
    leido: bool,
    createdAt: int)

  /** The `required` validator on `contenido`. */
  predicate Validates(m: Mensaje)
  {
    m.contenido != ""
  }

  /** The two directions of the conversation between `a` and `b`. */
  predicate Between(m: Mensaje, a: Id, b: Id)
  {
    (m.remitente == a && m.destinatario == b) || (m.remitente == b && m.destinatario == a)
  }

  /** Sorted by `createdAt`, oldest first. */
  predicate Chronological(s: seq<Mensaje>)
  {
    forall i, j :: 0 <= i < j < |s| ==> s[i].createdAt <= s[j].createdAt
  }

  /** A message no later than the first of a chronological list can go in front of it. */
  lemma ConsChronological(m: Mensaje, s: seq<Mensaje>)
    requires Chronological(s) && (s == [] || m.createdAt <= s[0].createdAt)
    ensures Chronological([m] + s)
  {
    var r := [m] + s;
    forall i, j | 0 <= i < j < |r| ensures r[i].createdAt <= r[j].createdAt {
      if i == 0 {
        assert r[j] == s[j - 1];
        assert s[0].createdAt <= s[j - 1].createdAt;
      } else {
        assert r[i] == s[i - 1] && r[j] == s[j - 1];
      }
    }
  }

  /** The rest of a chronological list is chronological, and starts no earlier than its head. */
  lemma TailChronological(s: seq<Mensaje>)
    requires Chronological(s) && s != []
    ensures Chronological(s[1..])
    ensures |s| > 1 ==> s[0].createdAt <= s[1..][0].createdAt
  {
    var t := s[1..];
    forall i, j | 0 <= i < j < |t| ensures t[i].createdAt <= t[j].createdAt {
      assert t[i] == s[i + 1] && t[j] == s[j + 1];
    }
    if |s| > 1 {
      assert t[0] == s[1];
    }
  }

  /** Inserts `m` before the first message created after it. */
  function Insert(m: Mensaje, s: seq<Mensaje>): (r: seq<Mensaje>)
    requires Chronological(s)
    ensures Chronological(r)
    ensures multiset(r) == multiset(s) + multiset{m}
    ensures r[0] == m || (s != [] && r[0] == s[0])
  {
    if s == [] || m.createdAt <= s[0].createdAt then
      ConsChronological(m, s);
      [m] + s
    else
      TailChronological(s);
      var rest := Insert(m, s[1..]);
      ConsChronological(s[0], rest);
      assert s == [s[0]] + s[1..];
      [s[0]] + rest
  }

  /** `.sort({ createdAt: 1 })`, as a stable insertion sort. */
  function SortByCreatedAt(s: seq<Mensaje>): (r: seq<Mensaje>)
    ensures Chronological(r)
    ensures multiset(r) == multiset(s)
  {
    if s == [] then []
    else
      assert s == [s[0]] + s[1..];
      Insert(s[0], SortByCreatedAt(s[1..]))
  }

  /** The messages of `s` that belong to the conversation between `a` and `b`, in order. */
  function Conversation(s: seq<Mensaje>, a: Id, b: Id): (r: seq<Mensaje>)
    ensures forall m :: m in r <==> m in s && Between(m, a, b)
  {
    if s == [] then []
    else if Between(s[0], a, b) then [s[0]] + Conversation(s[1..], a, b)
    else Conversation(s[1..], a, b)
  }

  /** The `updateMany` of the conversation: every unread message from `from` to `to` is
      marked read; nothing else changes. */
  function MarkRead(s: seq<Mensaje>, from: Id, to: Id): (r: seq<Mensaje>)
    ensures |r| == |s|
    ensures forall i :: 0 <= i < |s| ==> r[i].(leido := s[i].leido) == s[i]
    ensures forall i :: 0 <= i < |s| ==>
              r[i].leido == (s[i].leido || (s[i].remitente == from && s[i].destinatario == to))
  {
    seq(|s|, i requires 0 <= i < |s| =>
      if s[i].remitente == from && s[i].destinatario == to then s[i].(leido := true) else s[i])
  }
}
