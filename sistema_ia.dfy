/**
 * `SistemaIA`: the text generators behind the "Generar IA" buttons. They are
 * string templates over the incident's type, impact level, line and stations;
 * the only choice is the commercial action, picked at random from four
 * fixed sentences (here the pick is the parameter `eleccion`).
 */
module SistemaIA {
  import opened Texto
  import opened Incidencias

  /** The operations bulletin ("Copernico"). */
  datatype Copernico = Copernico(descripcion: string, consecuencias: string, accionComercial: string)

  /** One value per language: Catalan, Spanish, English. */
  datatype Idiomas<T> = Idiomas(cat: T, cast: T, eng: T)

  /** Messages for the station displays of the transit authority ("SIA Barcelona"). */
  datatype MensajesSia = MensajesSia(monitor: string, teleindicador: string, megafonia: string)

  /** Messages for the onboard platform. */
  datatype MensajesPlataforma = MensajesPlataforma(
    balizaInicio: string, balizaInterior: string, trenesDetenidos: string, trenesSuprimidos: string)

  /** The impact levels the form offers (`self.repercusiones`). */
  const REPERCUSIONES: seq<string> := [
    "Afectación tren puntual",
    "Demoras leves en la línea",
    "Demoras graves en la línea",
    "Interrupción parcial del Servicio en la línea",
    "Interrupción total del Servicio en la línea"]

  /** The consequence table of `generar_copernico`, keyed by impact level. */
  const CONSECUENCIAS: map<string, string> := map[
    "Afectación tren puntual" := "Afecta a un tren específico con retrasos moderados",
    "Demoras leves en la línea" := "Retrasos generalizados de 5-15 minutos en la línea",
    "Demoras graves en la línea" := "Retrasos significativos de 15-30 minutos afectando múltiples trenes",
    "Interrupción parcial del Servicio" := "Servicio reducido en parte del trayecto",
    "Interrupción total del Servicio" := "Suspensión completa del servicio en la línea afectada"]

  const POR_DETERMINAR := "Consecuencias por determinar"

  /** The four commercial actions `random.choice` picks from. */
  const ACCIONES_COMERCIALES: seq<string> := [
    "Se aplicarán bonificaciones a los usuarios afectados según la normativa vigente",
    "Se habilita transporte alternativo por autobús para los trayectos afectados",
    "Los abonos temporales se extenderán por el tiempo de afectación",
    "Se recomienda consultar canales oficiales para actualizaciones en tiempo real"]

  const HASHTAGS := "#Rodalies #Incident #Transport"

  /** `consecuencias_map.get(repercusion, "Consecuencias por determinar")`: never fails. */
  function Consecuencias(repercusion: string): (r: string)
    ensures repercusion in CONSECUENCIAS ==> r == CONSECUENCIAS[repercusion]
    ensures repercusion !in CONSECUENCIAS ==> r == POR_DETERMINAR
    ensures r in CONSECUENCIAS.Values || r == POR_DETERMINAR
  {
    if repercusion in CONSECUENCIAS then CONSECUENCIAS[repercusion] else POR_DETERMINAR
  }

  /**
   * Of the five levels the form offers, the first three have their own text;
   * the partial and total interruptions end in "en la línea", which the
   * table's keys do not, so they get the placeholder.
   */
  lemma ConsecuenciasDeLosNiveles()
    ensures Consecuencias(REPERCUSIONES[0]) == "Afecta a un tren específico con retrasos moderados"
    ensures Consecuencias(REPERCUSIONES[1]) == "Retrasos generalizados de 5-15 minutos en la línea"
    ensures Consecuencias(REPERCUSIONES[2]) == "Retrasos significativos de 15-30 minutos afectando múltiples trenes"
    ensures Consecuencias(REPERCUSIONES[3]) == POR_DETERMINAR
    ensures Consecuencias(REPERCUSIONES[4]) == POR_DETERMINAR
  {
    assert REPERCUSIONES[3] !in CONSECUENCIAS by {
      assert |REPERCUSIONES[3]| != |"Interrupción parcial del Servicio"|;
      assert |REPERCUSIONES[3]| != |"Interrupción total del Servicio"|;
    }
    assert REPERCUSIONES[4] !in CONSECUENCIAS by {
      assert |REPERCUSIONES[4]| != |"Interrupción parcial del Servicio"|;
      assert |REPERCUSIONES[4]| != |"Interrupción total del Servicio"|;
    }
  }

  /** The description's fixed part, before any segment. */
  function DescripcionBase(tipo: string, linea: string): string
  {
    "Incidente de " + Lower(tipo) + " en la línea " + linea
  }

  /**
   * `generar_copernico`. The description names the lower-cased type and the
   * line, and gains " entre A y B" exactly when both stations are non-empty;
   * the consequences come from the table; the action is one of the four.
   */
  function GenerarCopernico(inc: Incidencia, eleccion: nat): (r: Copernico)
    requires eleccion < |ACCIONES_COMERCIALES|
    ensures var p := DescripcionBase(inc.tipo, inc.linea);
            && |p| <= |r.descripcion| && r.descripcion[..|p|] == p
            && (|r.descripcion| > |p| <==> inc.estacionA != "" && inc.estacionB != "")
            && (|r.descripcion| > |p| ==> r.descripcion[|p|..] == " entre " + inc.estacionA + " y " + inc.estacionB)
    ensures r.consecuencias == Consecuencias(inc.repercusion)
    ensures r.accionComercial in ACCIONES_COMERCIALES
  {
    var p := DescripcionBase(inc.tipo, inc.linea);
    var descripcion :=
      if inc.estacionA != "" && inc.estacionB != ""
      then p + " entre " + inc.estacionA + " y " + inc.estacionB
      else p;
    Copernico(descripcion, Consecuencias(inc.repercusion), ACCIONES_COMERCIALES[eleccion])
  }

  /** When both stations are given the description names them; when one is
      missing the description does not depend on the other. */
  lemma DescripcionTramo(inc: Incidencia, eleccion: nat, otra: string)
    requires eleccion < |ACCIONES_COMERCIALES|
    ensures inc.estacionA != "" && inc.estacionB != "" ==>
              && Contains(GenerarCopernico(inc, eleccion).descripcion, inc.estacionA)
              && Contains(GenerarCopernico(inc, eleccion).descripcion, inc.estacionB)
    ensures inc.estacionA == "" ==>
              GenerarCopernico(inc.(estacionB := otra), eleccion).descripcion ==
              GenerarCopernico(inc, eleccion).descripcion
    ensures inc.estacionB == "" ==>
              GenerarCopernico(inc.(estacionA := otra), eleccion).descripcion ==
              GenerarCopernico(inc, eleccion).descripcion
  {
    var a, b := inc.estacionA, inc.estacionB;
    if a != "" && b != "" {
      var p := DescripcionBase(inc.tipo, inc.linea);
      var d := GenerarCopernico(inc, eleccion).descripcion;
      assert d == (p + " entre ") + a + (" y " + b);
      ContainsInfix(p + " entre ", a, " y " + b);
      assert d == (p + " entre " + a + " y ") + b + "";
      ContainsInfix(p + " entre " + a + " y ", b, "");
    }
  }

  /** Message `a + x + b`, which contains `x`. */
  function Rodear(a: string, x: string, b: string): (r: string)
    ensures Contains(r, x)
  {
    ContainsInfix(a, x, b);
    a + x + b
  }

  /** The display messages name the type (upper-cased on the board) and the
      line; the announcement names the line. */
  predicate MencionaSia(m: MensajesSia, tipo: string, linea: string)
  {
    && Contains(m.monitor, tipo) && Contains(m.monitor, linea)
    && Contains(m.teleindicador, Upper(tipo)) && Contains(m.teleindicador, linea)
    && Contains(m.megafonia, linea)
  }

  /** A message built as `a + x + b + y + c` mentions both `x` and `y`. */
  lemma DosHuecos(a: string, x: string, b: string, y: string, c: string)
    ensures Contains(a + x + b + y + c, x) && Contains(a + x + b + y + c, y)
  {
    assert a + x + b + y + c == a + x + (b + y + c);
    ContainsInfix(a, x, b + y + c);
    ContainsInfix(a + x + b, y, c);
  }

  lemma DosHuecosAlFinal(a: string, x: string, b: string, y: string)
    ensures Contains(a + x + b + y, x) && Contains(a + x + b + y, y)
  {
    DosHuecos(a, x, b, y, "");
    assert a + x + b + y + "" == a + x + b + y;
  }

  lemma DosHuecosAlPrincipio(x: string, b: string, y: string, c: string)
    ensures Contains(x + b + y + c, x) && Contains(x + b + y + c, y)
  {
    DosHuecos("", x, b, y, c);
    assert "" + x + b + y + c == x + b + y + c;
  }

  function SiaCat(tipo: string, linea: string): (m: MensajesSia)
    ensures MencionaSia(m, tipo, linea)
  {
    DosHuecos("Incident ", tipo, " línia ", linea, ". Retards previstos.");
    DosHuecosAlFinal("INCIDENT ", Upper(tipo), " - LÍNIA ", linea);
    MensajesSia(
      "Incident " + tipo + " línia " + linea + ". Retards previstos.",
      "INCIDENT " + Upper(tipo) + " - LÍNIA " + linea,
      Rodear("Atenció viatgers. Incident a la línia ", linea, ". Consulteu informacions."))
  }

  function SiaCast(tipo: string, linea: string): (m: MensajesSia)
    ensures MencionaSia(m, tipo, linea)
  {
    DosHuecos("Incidente ", tipo, " línea ", linea, ". Retrasos previstos.");
    DosHuecosAlFinal("INCIDENTE ", Upper(tipo), " - LÍNEA ", linea);
    MensajesSia(
      "Incidente " + tipo + " línea " + linea + ". Retrasos previstos.",
      "INCIDENTE " + Upper(tipo) + " - LÍNEA " + linea,
      Rodear("Atención viajeros. Incidente en la línea ", linea, ". Consulten informaciones."))
  }

  function SiaEng(tipo: string, linea: string): (m: MensajesSia)
    ensures MencionaSia(m, tipo, linea)
  {
    DosHuecosAlPrincipio(tipo, " incident line ", linea, ". Expected delays.");
    DosHuecosAlFinal("INCIDENT ", Upper(tipo), " - LINE ", linea);
    MensajesSia(
      tipo + " incident line " + linea + ". Expected delays.",
      "INCIDENT " + Upper(tipo) + " - LINE " + linea,
      Rodear("Attention passengers. Incident on line ", linea, ". Please check information displays."))
  }

  /** `generar_sia_barcelona`: in every language the messages name the type
      and the line. */
  function GenerarSiaBarcelona(inc: Incidencia): (r: Idiomas<MensajesSia>)
    ensures MencionaSia(r.cat, inc.tipo, inc.linea)
    ensures MencionaSia(r.cast, inc.tipo, inc.linea)
    ensures MencionaSia(r.eng, inc.tipo, inc.linea)
  {
    Idiomas(SiaCat(inc.tipo, inc.linea), SiaCast(inc.tipo, inc.linea), SiaEng(inc.tipo, inc.linea))
  }

  /** The onboard messages name the line; the interior beacon also the type. */
  predicate MencionaPlataforma(m: MensajesPlataforma, tipo: string, linea: string)
  {
    Contains(m.balizaInicio, linea) && Contains(m.balizaInterior, linea) && Contains(m.balizaInterior, tipo)
  }

  function PlataformaCat(tipo: string, linea: string): (m: MensajesPlataforma)
    ensures MencionaPlataforma(m, tipo, linea)
  {
    DosHuecosAlFinal("Línia ", linea, " afectada per ", tipo);
    MensajesPlataforma(
      Rodear("Incident línia ", linea, " - Retards"),
      "Línia " + linea + " afectada per " + tipo,
      "Trens amb parades prolongades - Disculpin les molèsties",
      "Alguns trens podrien ser suprimits - Consultin alternatives")
  }

  function PlataformaCast(tipo: string, linea: string): (m: MensajesPlataforma)
    ensures MencionaPlataforma(m, tipo, linea)
  {
    DosHuecosAlFinal("Línea ", linea, " afectada por ", tipo);
    MensajesPlataforma(
      Rodear("Incidente línea ", linea, " - Retrasos"),
      "Línea " + linea + " afectada por " + tipo,
      "Trenes con paradas prolongadas - Disculpen las molestias",
      "Algunos trenes podrían ser suprimidos - Consulten alternativas")
  }

  function PlataformaEng(tipo: string, linea: string): (m: MensajesPlataforma)
    ensures MencionaPlataforma(m, tipo, linea)
  {
    DosHuecosAlFinal("Line ", linea, " affected by ", tipo);
    MensajesPlataforma(
      Rodear("Incident line ", linea, " - Delays"),
      "Line " + linea + " affected by " + tipo,
      "Trains with extended stops - Sorry for the inconvenience",
      "Some trains may be cancelled - Check alternatives")
  }

  /** `generar_plataforma_embarcada`: the beacons name the line (and the
      interior one the type); the stopped and cancelled trains notices are
      fixed per language. */
  function GenerarPlataformaEmbarcada(inc: Incidencia): (r: Idiomas<MensajesPlataforma>)
    ensures MencionaPlataforma(r.cat, inc.tipo, inc.linea)
    ensures MencionaPlataforma(r.cast, inc.tipo, inc.linea)
    ensures MencionaPlataforma(r.eng, inc.tipo, inc.linea)
  {
    Idiomas(PlataformaCat(inc.tipo, inc.linea), PlataformaCast(inc.tipo, inc.linea),
            PlataformaEng(inc.tipo, inc.linea))
  }

  /** The stopped-trains and cancelled-trains notices are the same for every
      incident, in each of the three languages. */
  lemma AvisosFijos(a: Incidencia, b: Incidencia)
    ensures GenerarPlataformaEmbarcada(a).cat.trenesDetenidos == GenerarPlataformaEmbarcada(b).cat.trenesDetenidos
    ensures GenerarPlataformaEmbarcada(a).cat.trenesSuprimidos == GenerarPlataformaEmbarcada(b).cat.trenesSuprimidos
    ensures GenerarPlataformaEmbarcada(a).cast.trenesDetenidos == GenerarPlataformaEmbarcada(b).cast.trenesDetenidos
    ensures GenerarPlataformaEmbarcada(a).cast.trenesSuprimidos == GenerarPlataformaEmbarcada(b).cast.trenesSuprimidos
    ensures GenerarPlataformaEmbarcada(a).eng.trenesDetenidos == GenerarPlataformaEmbarcada(b).eng.trenesDetenidos
    ensures GenerarPlataformaEmbarcada(a).eng.trenesSuprimidos == GenerarPlataformaEmbarcada(b).eng.trenesSuprimidos
  {
  }

  /** The generated messages depend only on the type and the line: the
      stations, the impact level and everything else are not read. */
  lemma SiaYPlataformaSoloTipoYLinea(a: Incidencia, b: Incidencia)
    requires a.tipo == b.tipo && a.linea == b.linea
    ensures GenerarSiaBarcelona(a) == GenerarSiaBarcelona(b)
    ensures GenerarPlataformaEmbarcada(a) == GenerarPlataformaEmbarcada(b)
  {
  }

  /** A social media post ends with ". " and the hashtags and names the type,
      the line and the impact level. */
  predicate PublicacionValida(m: string, tipo: string, linea: string, repercusion: string)
  {
    EndsWith(m, ". " + HASHTAGS) && Contains(m, tipo) && Contains(m, linea) && Contains(m, repercusion)
  }

  /** A post `a + tipo + b + linea + ". " + repercusion + ". " + HASHTAGS`. */
  function Publicacion(a: string, tipo: string, b: string, linea: string, repercusion: string): (m: string)
    ensures PublicacionValida(m, tipo, linea, repercusion)
  {
    var inicio, fin := a + tipo + b + linea + ". ", ". " + HASHTAGS;
    DosHuecos(a, tipo, b, linea, ". ");
    ContainsExtend(inicio, repercusion + fin, tipo);
    ContainsExtend(inicio, repercusion + fin, linea);
    ContainsInfix(inicio, repercusion, fin);
    assert inicio + (repercusion + fin) == inicio + repercusion + fin;
    inicio + repercusion + fin
  }

  /** `generar_redes_sociales`. */
  function GenerarRedesSociales(inc: Incidencia): (r: Idiomas<string>)
    ensures PublicacionValida(r.cat, inc.tipo, inc.linea, inc.repercusion)
    ensures PublicacionValida(r.cast, inc.tipo, inc.linea, inc.repercusion)
    ensures PublicacionValida(r.eng, inc.tipo, inc.linea, inc.repercusion)
  {
    Idiomas(
      Publicacion("\U{26a0}\U{fe0f} Incident ", inc.tipo, " línia ", inc.linea, inc.repercusion),
      Publicacion("\U{26a0}\U{fe0f} Incidente ", inc.tipo, " línea ", inc.linea, inc.repercusion),
      Publicacion("\U{26a0}\U{fe0f} ", inc.tipo, " incident line ", inc.linea, inc.repercusion))
  }
}
