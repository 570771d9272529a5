/** The `Grupo` schema: a class with a unique name and a unique key, owned by one
    teacher, listing its students and its tasks. */
module GrupoModel {
  import opened Base

  datatype Grupo = Grupo(
    nombre: string,
    clave: string,
    descripcion: Option<string>,
    docente: Id,
    estudiantes: seq<Id>,
    tareas: seq<Id>)

  /** The validators a save runs: the two `required` strings are non-empty (the owner is
      present by construction). An update without validators can store a document
      that fails them; saving that document later is refused. */
  predicate Validates(g: Grupo)
  {
    g.nombre != "" && g.clave != ""
  }

  /** A document that the unique indexes on `nombre` and on `clave` refuse next to
      `others`: one of them already holds the same name or the same key. */
  predicate Clashes(others: map<Id, Grupo>, g: Grupo)
  {
    exists k :: k in others && (others[k].nombre == g.nombre || others[k].clave == g.clave)
  }

  predicate UniqueKeys(grupos: map<Id, Grupo>)
  {
    forall j, k :: j in grupos && k in grupos && j != k
      ==> grupos[j].nombre != grupos[k].nombre && grupos[j].clave != grupos[k].clave
  }

  /** Writing a document that does not clash with the other documents keeps both
      indexes satisfied. */
  lemma WriteKeepsUnique(grupos: map<Id, Grupo>, k: Id, g: Grupo)
    requires UniqueKeys(grupos)
    requires !Clashes(grupos - {k}, g)
    ensures UniqueKeys(grupos[k := g])
  {
    forall j | j in grupos && j != k
      ensures grupos[j].nombre != g.nombre && grupos[j].clave != g.clave
    {
      assert j in grupos - {k};
    }
  }

  /** Rewriting a document without touching its name or its key keeps both indexes
      satisfied. */
  lemma SameKeysKeepUnique(grupos: map<Id, Grupo>, k: Id, g: Grupo)
    requires UniqueKeys(grupos) && k in grupos
    requires g.nombre == grupos[k].nombre && g.clave == grupos[k].clave
    ensures UniqueKeys(grupos[k := g])
  {
    assert !Clashes(grupos - {k}, g);
    WriteKeepsUnique(grupos, k, g);
  }

  /** An update body, applied wholesale: every path it names is overwritten, including
      the owner and both lists. */
  datatype Patch = Patch(
    nombre: Option<string>,
    clave: Option<string>,
    descripcion: Option<string>,
    docente: Option<Id>,
    estudiantes: Option<seq<Id>>,
    tareas: Option<seq<Id>>)

  function Apply(g: Grupo, p: Patch): Grupo
  {
    Grupo(if p.nombre.Some? then p.nombre.value else g.nombre,
          if p.clave.Some? then p.clave.value else g.clave,
          if p.descripcion.Some? then p.descripcion else g.descripcion,
          if p.docente.Some? then p.docente.value else g.docente,
          if p.estudiantes.Some? then p.estudiantes.value else g.estudiantes,
          if p.tareas.Some? then p.tareas.value else g.tareas)
  }

  /** The ids a body introduces into the two lists. */
  function PatchIds(p: Patch): seq<Id>
  {
    (if p.estudiantes.Some? then p.estudiantes.value else [])
    + (if p.tareas.Some? then p.tareas.value else [])
  }

  /** `seq.filter(x != v)`: the `$pull` of one value, which removes every occurrence. */
  function Without(s: seq<Id>, v: Id): (r: seq<Id>)
    ensures forall x :: x in r <==> x in s && x != v
    ensures |r| <= |s|
    ensures multiset(r) == multiset(s)[v := 0]
  {
    if s == [] then []
    else
      assert s == [s[0]] + s[1..];
      if s[0] == v then Without(s[1..], v)
      else [s[0]] + Without(s[1..], v)
  }

  lemma WithoutAbsent(s: seq<Id>, v: Id)
    requires v !in s
    ensures Without(s, v) == s
  {
  }
}
