/**
 * The rules the form and the dashboard embed: the colour band of the
 * impact level in the active table, the check made before saving, the record
 * the save builds from the form, the affected-trains draft list, and the
 * save itself.
 */
module Formulario {
  import opened Wrappers
  import opened Texto
  import opened Incidencias
  import SistemaIA

  const ESTILO_ALTO := "background-color: #f8d7da"
  const ESTILO_MEDIO := "background-color: #fff3cd"
  const ESTILO_BAJO := "background-color: #d4edda"

  /**
   * `color_por_repercusion`: substring tests in priority order; "grave" or
   * "total" gives the red band, otherwise "leve" or "parcial" the yellow
   * band, otherwise green.
   */
  function ColorPorRepercusion(val: string): (r: string)
    ensures Contains(val, "grave") || Contains(val, "total") ==> r == ESTILO_ALTO
    ensures (!Contains(val, "grave") && !Contains(val, "total") &&
             (Contains(val, "leve") || Contains(val, "parcial"))) ==> r == ESTILO_MEDIO
    ensures (!Contains(val, "grave") && !Contains(val, "total") &&
             !Contains(val, "leve") && !Contains(val, "parcial")) ==> r == ESTILO_BAJO
  {
    if Contains(val, "grave") || Contains(val, "total") then ESTILO_ALTO
    else if Contains(val, "leve") || Contains(val, "parcial") then ESTILO_MEDIO
    else ESTILO_BAJO
  }

  /** A string in which the first two characters of `t` are never adjacent
      does not contain `t`. */
  lemma NoContiene(s: string, t: string)
    requires |t| >= 2
    requires forall i :: 0 <= i < |s| - 1 ==> !(s[i] == t[0] && s[i + 1] == t[1])
    ensures !Contains(s, t)
  {
    forall i | 0 <= i <= |s| - |t| ensures !OccursAt(s, t, i) {
      assert !(s[i] == t[0] && s[i + 1] == t[1]);
    }
    ContainsAt(s, t);
  }

  /** A string whose characters from position `i` on spell `t` contains `t`. */
  lemma ContieneEn(s: string, t: string, i: nat)
    requires i + |t| <= |s|
    requires forall j :: 0 <= j < |t| ==> s[i + j] == t[j]
    ensures Contains(s, t)
  {
    assert s[i..i + |t|] == t;
    assert OccursAt(s, t, i);
    ContainsAt(s, t);
  }

  // The words each impact level contains or lacks, one fact per lemma: each
  // fact about a string literal is a separate small proof.

  lemma PuntualSinGrave()
    ensures !Contains("Afectación tren puntual", "grave")
  {
    NoContiene("Afectación tren puntual", "grave");
  }

  lemma PuntualSinTotal()
    ensures !Contains("Afectación tren puntual", "total")
  {
    var v := "Afectación tren puntual";
    forall i | 0 <= i < |v| - 1 ensures !(v[i] == 't' && v[i + 1] == 'o') {
      if v[i] == 't' {
        assert i == 4 || i == 11 || i == 19;
      }
    }
    NoContiene(v, "total");
  }

  lemma PuntualSinLeve()
    ensures !Contains("Afectación tren puntual", "leve")
  {
    NoContiene("Afectación tren puntual", "leve");
  }

  lemma PuntualSinParcial()
    ensures !Contains("Afectación tren puntual", "parcial")
  {
    NoContiene("Afectación tren puntual", "parcial");
  }

  lemma LevesSinGrave()
    ensures !Contains("Demoras leves en la línea", "grave")
  {
    NoContiene("Demoras leves en la línea", "grave");
  }

  lemma LevesSinTotal()
    ensures !Contains("Demoras leves en la línea", "total")
  {
    NoContiene("Demoras leves en la línea", "total");
  }

  lemma LevesConLeve()
    ensures Contains("Demoras leves en la línea", "leve")
  {
    ContieneEn("Demoras leves en la línea", "leve", 8);
  }

  lemma ParcialSinGrave()
    ensures !Contains("Interrupción parcial del Servicio en la línea", "grave")
  {
    NoContiene("Interrupción parcial del Servicio en la línea", "grave");
  }

  lemma ParcialSinTotal()
    ensures !Contains("Interrupción parcial del Servicio en la línea", "total")
  {
    var v := "Interrupción parcial del Servicio en la línea";
    forall i | 0 <= i < |v| - 1 ensures !(v[i] == 't' && v[i + 1] == 'o') {
    }
    NoContiene(v, "total");
  }

  lemma ParcialConParcial()
    ensures Contains("Interrupción parcial del Servicio en la línea", "parcial")
  {
    ContieneEn("Interrupción parcial del Servicio en la línea", "parcial", 13);
  }

  lemma ColorNivel0()
    ensures ColorPorRepercusion(SistemaIA.REPERCUSIONES[0]) == ESTILO_BAJO
  {
    PuntualSinGrave();
    PuntualSinTotal();
    PuntualSinLeve();
    PuntualSinParcial();
  }

  lemma ColorNivel1()
    ensures ColorPorRepercusion(SistemaIA.REPERCUSIONES[1]) == ESTILO_MEDIO
  {
    assert SistemaIA.REPERCUSIONES[1] == "Demoras leves en la línea";
    LevesSinGrave();
    LevesSinTotal();
    LevesConLeve();
  }

  lemma ColorNivel2()
    ensures ColorPorRepercusion(SistemaIA.REPERCUSIONES[2]) == ESTILO_ALTO
  {
    ContieneEn("Demoras graves en la línea", "grave", 8);
  }

  lemma ColorNivel3()
    ensures ColorPorRepercusion(SistemaIA.REPERCUSIONES[3]) == ESTILO_MEDIO
  {
    ParcialSinGrave();
    ParcialSinTotal();
    ParcialConParcial();
  }

  lemma ColorNivel4()
    ensures ColorPorRepercusion(SistemaIA.REPERCUSIONES[4]) == ESTILO_ALTO
  {
    ContieneEn("Interrupción total del Servicio en la línea", "total", 13);
  }

  /**
   * The bands of the five impact levels the form offers: green, yellow, red,
   * yellow, red. They are not monotone in severity: a partial interruption is
   * yellow while severe delays are red.
   */
  lemma ColorDeLosNiveles()
    ensures ColorPorRepercusion(SistemaIA.REPERCUSIONES[0]) == ESTILO_BAJO
    ensures ColorPorRepercusion(SistemaIA.REPERCUSIONES[1]) == ESTILO_MEDIO
    ensures ColorPorRepercusion(SistemaIA.REPERCUSIONES[2]) == ESTILO_ALTO
    ensures ColorPorRepercusion(SistemaIA.REPERCUSIONES[3]) == ESTILO_MEDIO
    ensures ColorPorRepercusion(SistemaIA.REPERCUSIONES[4]) == ESTILO_ALTO
  {
    ColorNivel0();
    ColorNivel1();
    ColorNivel2();
    ColorNivel3();
    ColorNivel4();
  }

  const CAMPOS_OBLIGATORIOS := "Por favor, complete todos los campos obligatorios (*)"

  /**
   * What the creation form holds when "Guardar Incidencia" is pressed. Dates
   * and times are already formatted. `dependencia` and `numeroTren` are the
   * values of whichever type-specific widgets the form showed (mandatory or
   * optional); an empty selection is "".
   */
  datatype DatosFormulario = DatosFormulario(
    tipo: string,
    fechaInicio: string,
    horaInicio: string,
    repercusion: string,
    linea: string,
    estacionA: string,
    estacionB: string,
    descripcion: string,
    prevision: string,
    gifo: seq<string>,
    sitra: string,
    dependencia: string,
    numeroTren: string)

  /**
   * The check made before saving: the long description and the resolution
   * forecast must both be non-empty; otherwise the form reports the error and
   * saves nothing.
   */
  function ValidarGuardado(f: DatosFormulario): (r: Option<string>)
    ensures r.None? <==> f.descripcion != "" && f.prevision != ""
    ensures r.Some? ==> r.value == CAMPOS_OBLIGATORIOS
  {
    if f.descripcion == "" || f.prevision == "" then Some(CAMPOS_OBLIGATORIOS) else None
  }

  /** The types whose train number and dependency are both optional. */
  predicate TipoConOpcionales(tipo: string)
  {
    tipo == TIPOS[3] || tipo == TIPOS[5]
  }

  /**
   * The record the save builds: every form field copied, the state "Activa",
   * the draft trains copied, and the type-specific keys added only for the
   * types that have them.
   */
  function NuevaIncidencia(f: DatosFormulario, trenes: seq<Tren>): (r: Incidencia)
    ensures Activa(r) && r.estado == Some(ACTIVA)
    ensures r.id.None? && r.fechaCreacion.None? && r.horaFinal.None?
    ensures r.tipo == f.tipo && r.fechaInicio == f.fechaInicio && r.horaInicio == f.horaInicio
    ensures r.repercusion == f.repercusion && r.linea == f.linea
    ensures r.estacionA == f.estacionA && r.estacionB == f.estacionB
    ensures r.descripcion == f.descripcion && r.prevision == f.prevision
    ensures r.gifo == f.gifo && r.sitra == f.sitra && r.trenesAfectados == trenes
    ensures f.tipo == TIPOS[0] ==>
              r.dependencia == Some(f.dependencia) && r.numeroTren.None?
    ensures f.tipo == TIPOS[1] ==>
              r.numeroTren == Some(f.numeroTren) && r.dependencia.None?
    ensures TipoConOpcionales(f.tipo) ==>
              (r.numeroTren.Some? <==> f.numeroTren != "") &&
              (r.dependencia.Some? <==> f.dependencia != "") &&
              (r.numeroTren.Some? ==> r.numeroTren.value == f.numeroTren) &&
              (r.dependencia.Some? ==> r.dependencia.value == f.dependencia)
    ensures (f.tipo != TIPOS[0] && f.tipo != TIPOS[1] &&
             !TipoConOpcionales(f.tipo)) ==> r.dependencia.None? && r.numeroTren.None?
  {
    var base := Incidencia(None, f.tipo, f.fechaInicio, f.horaInicio, f.repercusion,
                           f.linea, f.estacionA, f.estacionB, f.descripcion, f.prevision,
                           Some(ACTIVA), f.gifo, f.sitra, trenes, None, None, None, None);
    if f.tipo == TIPOS[0] then base.(dependencia := Some(f.dependencia))
    else if f.tipo == TIPOS[1] then base.(numeroTren := Some(f.numeroTren))
    else if TipoConOpcionales(f.tipo) then
      base.(numeroTren := if f.numeroTren != "" then Some(f.numeroTren) else None,
            dependencia := if f.dependencia != "" then Some(f.dependencia) else None)
    else base
  }

  /** The draft list after "Añadir": a train is appended only when its number is non-empty. */
  function ConTren(s: seq<Tren>, tren: string, retraso: nat): (r: seq<Tren>)
    ensures tren == "" ==> r == s
    ensures tren != "" ==> |r| == |s| + 1 && r[..|s|] == s && r[|s|] == Tren(tren, retraso)
  {
    if tren != "" then s + [Tren(tren, retraso)] else s
  }

  /** The draft list after the bin button of row `i`: that row is gone, the others keep their order. */
  function SinPosicion(s: seq<Tren>, i: nat): (r: seq<Tren>)
    requires i < |s|
    ensures |r| == |s| - 1
    ensures forall j :: 0 <= j < i ==> r[j] == s[j]
    ensures forall j :: i <= j < |r| ==> r[j] == s[j + 1]
  {
    s[..i] + s[i + 1..]
  }

  /** Removing a row loses exactly that train. */
  lemma SinPosicionPermutacion(s: seq<Tren>, i: nat)
    requires i < |s|
    ensures multiset(SinPosicion(s, i)) + multiset{s[i]} == multiset(s)
  {
    assert s == s[..i] + [s[i]] + s[i + 1..];
  }

  /** Adding a train and then removing the last row gives back the list. */
  lemma AnadirYEliminar(s: seq<Tren>, tren: string, retraso: nat)
    requires tren != ""
    ensures |ConTren(s, tren, retraso)| == |s| + 1
    ensures SinPosicion(ConTren(s, tren, retraso), |s|) == s
  {
    var t := ConTren(s, tren, retraso);
    assert t[..|s|] == s;
  }

  /** `st.session_state.trenes_afectados`: the trains listed in the form before saving. */
  class BorradorTrenes {
    var trenes: seq<Tren>

    constructor ()
      ensures trenes == []
    {
      trenes := [];
    }

    /** The "Añadir" button of the separate trains form. */
    method Anadir(tren: string, retraso: nat)
      modifies this
      ensures trenes == ConTren(old(trenes), tren, retraso)
    {
      if tren != "" {
        trenes := trenes + [Tren(tren, retraso)];
      }
    }

    /** The bin button of row `i`: `pop(i)`. */
    method Eliminar(i: nat)
      requires i < |trenes|
      modifies this
      ensures trenes == SinPosicion(old(trenes), i)
    {
      trenes := trenes[..i] + trenes[i + 1..];
    }
  }

  /**
   * "Guardar Incidencia": when the mandatory texts are missing, reports the
   * error and changes nothing; otherwise builds the record from the form and
   * a copy of the draft trains, adds it to the store, clears the draft and
   * returns the new id.
   */
  method Guardar(sistema: SistemaIncidencias, borrador: BorradorTrenes, f: DatosFormulario,
                 uuidTexto: string, ahora: string) returns (r: Result<string>)
    requires sistema.Valid()
    modifies sistema, borrador
    ensures sistema.Valid()
    ensures ValidarGuardado(f).Some? ==>
              r == Failure(CAMPOS_OBLIGATORIOS) &&
              sistema.incidencias == old(sistema.incidencias) &&
              borrador.trenes == old(borrador.trenes)
    ensures ValidarGuardado(f).None? ==>
              r == Success(GenerarId(uuidTexto)) &&
              sistema.incidencias == old(sistema.incidencias) +
                [Registrada(NuevaIncidencia(f, old(borrador.trenes)), r.value, ahora)] &&
              borrador.trenes == []
  {
    var error := ValidarGuardado(f);
    if error.Some? {
      return Failure(error.value);
    }
    var nueva := NuevaIncidencia(f, borrador.trenes);
    var id := sistema.AgregarIncidencia(nueva, uuidTexto, ahora);
    borrador.trenes := [];
    return Success(id);
  }

  /** A saved record joins the end of the active table. */
  lemma GuardadaEsActiva(s: seq<Incidencia>, f: DatosFormulario, trenes: seq<Tren>, id: string, ahora: string)
    ensures var inc := Registrada(NuevaIncidencia(f, trenes), id, ahora);
            Activas(s + [inc]) == Activas(s) + [inc]
  {
    AgregarActivas(s, Registrada(NuevaIncidencia(f, trenes), id, ahora));
  }

  /**
   * Closing the id just saved takes the record off the active table, provided
   * no older record carries the same id; ids are only three hexadecimal
   * digits, so that proviso is a real one.
   */
  lemma GuardarYCerrar(s: seq<Incidencia>, inc: Incidencia, id: string, ahora: string, hora: string)
    requires PrimerIndice(s, id).None?
    ensures Activas(Cerrar(s + [Registrada(inc, id, ahora)], id, hora)) == Activas(s)
  {
    var t := s + [Registrada(inc, id, ahora)];
    assert t[|s|].id == Some(id);
    assert forall j :: 0 <= j < |s| ==> t[j] == s[j];
    assert PrimerIndice(t, id) == Some(|s|);
    CerrarQuitaDeActivas(t, id, hora, |s|);
    assert t[..|s|] == s;
    assert t[|s| + 1..] == [];
  }

  /**
   * When an older record already has the id, closing closes that one and the
   * record just saved stays on the active table.
   */
  lemma CerrarConIdRepetido(s: seq<Incidencia>, inc: Incidencia, id: string, ahora: string, hora: string)
    requires PrimerIndice(s, id).Some?
    requires Activa(inc)
    ensures var t := Cerrar(s + [Registrada(inc, id, ahora)], id, hora);
            t[|s|] == Registrada(inc, id, ahora) && Activa(t[|s|])
  {
    var t := s + [Registrada(inc, id, ahora)];
    var k := PrimerIndice(s, id).value;
    assert t[k] == s[k];
    assert forall j :: 0 <= j < |s| ==> t[j] == s[j];
    assert PrimerIndice(t, id) == Some(k);
  }
}
