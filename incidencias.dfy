/**
 * The incident store of `SistemaIncidencias`: an ordered list of incident
 * records, appended to on save, closed by id with a linear scan that stops
 * at the first match, and filtered for the dashboard's active table.
 */
module Incidencias {
  import opened Wrappers
  import opened Texto

  /** One entry of `trenes_afectados`: a train number and a delay in minutes. */
  datatype Tren = Tren(tren: string, retraso: nat)

  /**
   * An incident record, the dictionary the form saves. Keys the source may
   * leave out are `Option`s: `id` and `fecha_creacion` until the record is
   * added, `hora_final` until it is closed, and the type-dependent
   * `dependencia` and `numero_tren`.
   */
  datatype Incidencia = Incidencia(
    id: Option<string>,
    tipo: string,
    fechaInicio: string,
    horaInicio: string,
    repercusion: string,
    linea: string,
    estacionA: string,
    estacionB: string,
    descripcion: string,
    prevision: string,
    estado: Option<string>,
    gifo: seq<string>,
    sitra: string,
    trenesAfectados: seq<Tren>,
    dependencia: Option<string>,
    numeroTren: Option<string>,
    fechaCreacion: Option<string>,
    horaFinal: Option<string>)

  const CERRADA := "Cerrada"
  const ACTIVA := "Activa"

  /** `tipos_incidencia`: the incident types the form offers, in order. */
  const TIPOS: seq<string> := [
    "Avería Infraestructura",
    "Avería Tren",
    "Meteorología adversa",
    "Orden público/Fuerza mayor",
    "Trabajos programados",
    "Operaciones"]

  /** `inc.get('estado') != 'Cerrada'`: a record with no state counts as active. */
  predicate Activa(inc: Incidencia)
  {
    inc.estado != Some(CERRADA)
  }

  /**
   * `generar_id_incidencia`: "INC" followed by the first three characters of
   * the text of a fresh UUID, upper-cased. The UUID text is a parameter.
   */
  function GenerarId(uuidTexto: string): (r: string)
    ensures |r| == 3 + (if |uuidTexto| < 3 then |uuidTexto| else 3)
    ensures r[..3] == "INC"
    ensures forall k :: 3 <= k < |r| ==> r[k] == UpperChar(uuidTexto[k - 3])
  {
    "INC" + Upper(uuidTexto[..if |uuidTexto| < 3 then |uuidTexto| else 3])
  }

  predicate HexMinuscula(c: char)
  {
    '0' <= c <= '9' || 'a' <= c <= 'f'
  }

  predicate HexMayuscula(c: char)
  {
    '0' <= c <= '9' || 'A' <= c <= 'F'
  }

  /**
   * For the canonical text of a UUID (lower-case hex first), the id has six
   * characters: "INC" and three upper-case hex digits. Two UUIDs that share
   * their first three characters give the same id, so ids are not unique.
   */
  lemma GenerarIdForma(u: string, v: string)
    requires |u| >= 3 && forall k :: 0 <= k < 3 ==> HexMinuscula(u[k])
    ensures |GenerarId(u)| == 6 && GenerarId(u)[..3] == "INC"
    ensures forall k :: 3 <= k < 6 ==> HexMayuscula(GenerarId(u)[k])
    ensures |v| >= 3 && v[..3] == u[..3] ==> GenerarId(v) == GenerarId(u)
  {
  }

  /** The record as `agregar_incidencia` stores it: id and creation stamp
      set, every other field (so also its state) as it came. */
  function Registrada(inc: Incidencia, id: string, ahora: string): (r: Incidencia)
    ensures r.id == Some(id) && r.fechaCreacion == Some(ahora)
    ensures r.(id := inc.id, fechaCreacion := inc.fechaCreacion) == inc
    ensures Activa(r) <==> Activa(inc)
  {
    inc.(id := Some(id), fechaCreacion := Some(ahora))
  }

  /** The record after `cerrar_incidencia` wrote its end time and state. */
  function CerrarRegistro(inc: Incidencia, hora: string): (r: Incidencia)
    ensures !Activa(r) && r.horaFinal == Some(hora)
    ensures r.(estado := inc.estado, horaFinal := inc.horaFinal) == inc
  {
    inc.(horaFinal := Some(hora), estado := Some(CERRADA))
  }

  /** Position of the first record whose id is `x`, if any. */
  function PrimerIndice(s: seq<Incidencia>, x: string): (r: Option<nat>)
    ensures r.Some? ==> r.value < |s| && s[r.value].id == Some(x) &&
                        forall j :: 0 <= j < r.value ==> s[j].id != Some(x)
    ensures r.None? ==> forall j :: 0 <= j < |s| ==> s[j].id != Some(x)
  {
    if s == [] then None
    else if s[0].id == Some(x) then Some(0)
    else match PrimerIndice(s[1..], x)
      case None => None
      case Some(k) => Some(k + 1)
  }

  /**
   * The list after closing `x`: the first record with that id is closed,
   * every other record is unchanged, and without a match nothing changes.
   */
  function Cerrar(s: seq<Incidencia>, x: string, hora: string): (r: seq<Incidencia>)
    ensures |r| == |s|
    ensures PrimerIndice(s, x).None? ==> r == s
    ensures PrimerIndice(s, x).Some? ==>
              var k := PrimerIndice(s, x).value; r == s[k := CerrarRegistro(s[k], hora)]
  {
    if s == [] then []
    else if s[0].id == Some(x) then [CerrarRegistro(s[0], hora)] + s[1..]
    else [s[0]] + Cerrar(s[1..], x, hora)
  }

  /**
   * `obtener_incidencias_activas`: the records that are not closed, in list
   * order.
   */
  function Activas(s: seq<Incidencia>): (r: seq<Incidencia>)
    ensures |r| <= |s|
    ensures forall inc :: inc in r <==> inc in s && Activa(inc)
  {
    if s == [] then []
    else if Activa(s[0]) then [s[0]] + Activas(s[1..])
    else Activas(s[1..])
  }

  /** The filter distributes over concatenation, so it keeps the list order. */
  lemma {:induction false} ActivasConcat(a: seq<Incidencia>, b: seq<Incidencia>)
    ensures Activas(a + b) == Activas(a) + Activas(b)
  {
    if a == [] {
      assert a + b == b;
    } else {
      assert (a + b)[1..] == a[1..] + b;
      ActivasConcat(a[1..], b);
    }
  }

  /** Adding a record puts it at the end of the active list when it is active. */
  lemma AgregarActivas(s: seq<Incidencia>, inc: Incidencia)
    ensures Activas(s + [inc]) == Activas(s) + (if Activa(inc) then [inc] else [])
  {
    ActivasConcat(s, [inc]);
    assert [inc][1..] == [];
  }

  /** The active list of a list split around one record. */
  lemma ActivasPartida(a: seq<Incidencia>, y: Incidencia, b: seq<Incidencia>)
    ensures Activas(a + [y] + b) == Activas(a) + (if Activa(y) then [y] else []) + Activas(b)
  {
    ActivasConcat(a + [y], b);
    AgregarActivas(a, y);
  }

  /** The active list around position `k`, with record `y` standing at `k`. */
  lemma ActivasEn(s: seq<Incidencia>, k: nat, y: Incidencia)
    requires k < |s|
    ensures Activas(s[k := y]) == Activas(s[..k]) + (if Activa(y) then [y] else []) + Activas(s[k + 1..])
  {
    Partir(s, k, y);
    ActivasPartida(s[..k], y, s[k + 1..]);
  }

  /**
   * Closing an id that exists removes exactly that record from the active
   * list; it was there unless the record was already closed.
   */
  lemma CerrarQuitaDeActivas(s: seq<Incidencia>, x: string, hora: string, k: nat)
    requires PrimerIndice(s, x) == Some(k)
    ensures Activas(Cerrar(s, x, hora)) == Activas(s[..k]) + Activas(s[k + 1..])
    ensures Activas(s) == Activas(s[..k]) + (if Activa(s[k]) then [s[k]] else []) + Activas(s[k + 1..])
  {
    ActivasEn(s, k, CerrarRegistro(s[k], hora));
    ActivasAlrededor(s, k);
  }

  /** The active list around position `k`. */
  lemma ActivasAlrededor(s: seq<Incidencia>, k: nat)
    requires k < |s|
    ensures Activas(s) == Activas(s[..k]) + (if Activa(s[k]) then [s[k]] else []) + Activas(s[k + 1..])
  {
    Partir(s, k, s[k]);
    ActivasPartida(s[..k], s[k], s[k + 1..]);
  }

  /** Closing an unknown id leaves the list, hence the active list, unchanged. */
  lemma CerrarSinCoincidencia(s: seq<Incidencia>, x: string, hora: string)
    requires PrimerIndice(s, x).None?
    ensures Activas(Cerrar(s, x, hora)) == Activas(s)
  {
  }

  /** A list seen as the part before position `k`, the record there, and the rest. */
  lemma Partir<T>(s: seq<T>, k: nat, v: T)
    requires k < |s|
    ensures s == s[..k] + [s[k]] + s[k + 1..]
    ensures s[k := v] == s[..k] + [v] + s[k + 1..]
  {
  }

  /** Closing twice silently overwrites: the result is that of the last close. */
  lemma {:induction false} CerrarDosVeces(s: seq<Incidencia>, x: string, h1: string, h2: string)
    ensures Cerrar(Cerrar(s, x, h1), x, h2) == Cerrar(s, x, h2)
  {
    if s != [] && s[0].id != Some(x) {
      CerrarDosVeces(s[1..], x, h1, h2);
      assert Cerrar(s, x, h1)[1..] == Cerrar(s[1..], x, h1);
    }
  }

  /** Every stored record went through `agregar_incidencia`, so has an id and
      a creation stamp. This is what keeps the lookup `incidencia['id']` in
      `cerrar_incidencia` from raising `KeyError`. */
  predicate Registradas(s: seq<Incidencia>)
  {
    forall i :: 0 <= i < |s| ==> s[i].id.Some? && s[i].fechaCreacion.Some?
  }

  /** The in-memory incident list of one session. */
  class SistemaIncidencias {
    var incidencias: seq<Incidencia>

    ghost predicate Valid()
      reads this
    {
      Registradas(incidencias)
    }

    constructor ()
      ensures Valid() && incidencias == []
    {
      incidencias := [];
    }

    /**
     * `agregar_incidencia`: gives the record a generated id and a creation
     * stamp, appends it, and returns the id.
     */
    method AgregarIncidencia(inc: Incidencia, uuidTexto: string, ahora: string) returns (id: string)
      requires Valid()
      modifies this
      ensures Valid()
      ensures id == GenerarId(uuidTexto)
      ensures incidencias == old(incidencias) + [Registrada(inc, id, ahora)]
      ensures incidencias[|incidencias| - 1].id == Some(id)
    {
      id := GenerarId(uuidTexto);
      incidencias := incidencias + [Registrada(inc, id, ahora)];
    }

    /**
     * `cerrar_incidencia`: scans the list and closes the first record whose
     * id is `x`, stamping `hora`; an unknown id changes nothing.
     */
    method CerrarIncidencia(x: string, hora: string)
      requires Valid()
      modifies this
      ensures Valid()
      ensures incidencias == Cerrar(old(incidencias), x, hora)
    {
      var i := 0;
      while i < |incidencias|
        invariant 0 <= i <= |incidencias|
        invariant incidencias == old(incidencias)
        invariant forall j :: 0 <= j < i ==> incidencias[j].id != Some(x)
      {
        assert incidencias[i].id.Some?;  // `incidencia['id']` exists
        if incidencias[i].id == Some(x) {
          incidencias := incidencias[i := CerrarRegistro(incidencias[i], hora)];
          return;
        }
        i := i + 1;
      }
    }
  }
}
