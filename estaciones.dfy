/**
 * The station catalog of `SistemaIncidencias`: the loader that turns the
 * columns of the semicolon-separated file (header = line, cells = stations)
 * into `(estacion, linea)` rows sorted by station name, its hard-coded
 * fallback, and the two queries the form uses.
 */
module Estaciones {
  import opened Wrappers
  import opened Texto

  /** One column of the file as pandas read it: the header (a line) and its
      cells, `None` where the cell was empty and pandas stored NaN. */
  datatype Columna = Columna(linea: string, celdas: seq<Option<string>>)

  /** One row of the catalog. */
  datatype Estacion = Estacion(estacion: string, linea: string)

  /** The pair `(estaciones_df, lineas)` returned by the loader. */
  datatype Catalogo = Catalogo(estaciones: seq<Estacion>, lineas: seq<string>)

  /** `estacion and estacion.strip()` after `dropna()`: present, non-empty and
      not only whitespace. */
  predicate CeldaValida(c: Option<string>)
  {
    c.Some? && c.value != "" && Strip(c.value) != ""
  }

  /** A station name as the catalog stores it: stripped and non-empty. */
  predicate NombreLimpio(n: string)
  {
    n != "" && Strip(n) == n
  }

  /** The column headers, `df.columns.tolist()`. */
  function Lineas(cols: seq<Columna>): (r: seq<string>)
    ensures |r| == |cols|
    ensures forall k :: 0 <= k < |cols| ==> r[k] == cols[k].linea
  {
    seq(|cols|, k requires 0 <= k < |cols| => cols[k].linea)
  }

  /** The cell `c` is usable and strips to `n`. */
  predicate DaNombre(c: Option<string>, n: string)
  {
    CeldaValida(c) && Strip(c.value) == n
  }

  /** Some usable cell of `cs` strips to `n`. */
  predicate Aporta(cs: seq<Option<string>>, n: string)
  {
    exists i :: 0 <= i < |cs| && DaNombre(cs[i], n)
  }

  /** Some element of `s` satisfies `p` exactly when one of its first
      elements or its last one does. */
  lemma ExisteUltimo<T>(s: seq<T>, init: seq<T>, p: T -> bool)
    requires s != [] && init == s[..|s| - 1]
    ensures (exists i :: 0 <= i < |s| && p(s[i])) <==>
            (exists i :: 0 <= i < |init| && p(init[i])) || p(s[|s| - 1])
  {
    assert forall i :: 0 <= i < |init| ==> init[i] == s[i];
  }

  /** A usable cell of a column is one of its first cells or its last one. */
  lemma AportaUltima(cs: seq<Option<string>>, n: string)
    requires cs != []
    ensures Aporta(cs, n) <==> Aporta(cs[..|cs| - 1], n) || DaNombre(cs[|cs| - 1], n)
  {
    ExisteUltimo(cs, cs[..|cs| - 1], c => DaNombre(c, n));
  }

  /** The stripped valid cells of one column, in file order: a name is kept
      exactly when some usable cell strips to it. */
  function CeldasLimpias(cs: seq<Option<string>>): (r: seq<string>)
    ensures forall n :: n in r ==> NombreLimpio(n)
    ensures forall n :: n in r <==> Aporta(cs, n)
  {
    if cs == [] then []
    else
      var c := cs[|cs| - 1];
      assert forall n :: Aporta(cs, n) <==> Aporta(cs[..|cs| - 1], n) || DaNombre(c, n) by {
        forall n { AportaUltima(cs, n); }
      }
      if CeldaValida(c) then
        StripIdempotent(c.value);
        CeldasLimpias(cs[..|cs| - 1]) + [Strip(c.value)]
      else CeldasLimpias(cs[..|cs| - 1])
  }

  /** The rows one column contributes, in file order: what the inner loop of
      the loader appends for it. */
  function EntradasCeldas(cs: seq<Option<string>>, linea: string): (r: seq<Estacion>)
    ensures |r| <= |cs|
    ensures forall e :: e in r ==> e.linea == linea
  {
    if cs == [] then []
    else
      var c := cs[|cs| - 1];
      EntradasCeldas(cs[..|cs| - 1], linea) +
      (if CeldaValida(c) then [Estacion(Strip(c.value), linea)] else [])
  }

  /** The rows all columns contribute, column after column, before sorting. */
  function Entradas(cols: seq<Columna>): (r: seq<Estacion>)
    ensures forall e :: e in r ==> exists k :: 0 <= k < |cols| && cols[k].linea == e.linea
  {
    if cols == [] then []
    else Entradas(cols[..|cols| - 1]) + EntradasCeldas(cols[|cols| - 1].celdas, cols[|cols| - 1].linea)
  }

  /** Every row a column contributes carries that column's header and one of
      its stripped cells, in the same order. */
  lemma {:induction false} EntradasCeldasNombres(cs: seq<Option<string>>, linea: string)
    ensures |EntradasCeldas(cs, linea)| == |CeldasLimpias(cs)|
    ensures forall i :: 0 <= i < |CeldasLimpias(cs)| ==>
              EntradasCeldas(cs, linea)[i] == Estacion(CeldasLimpias(cs)[i], linea)
  {
    if cs != [] {
      EntradasCeldasNombres(cs[..|cs| - 1], linea);
    }
  }

  /** Every collected row has a clean name and is tagged with one of the headers. */
  lemma {:induction false} EntradasBienFormadas(cols: seq<Columna>)
    ensures forall e :: e in Entradas(cols) ==> NombreLimpio(e.estacion) && e.linea in Lineas(cols)
  {
    if cols != [] {
      var init, last := cols[..|cols| - 1], cols[|cols| - 1];
      EntradasBienFormadas(init);
      EntradasCeldasNombres(last.celdas, last.linea);
      forall e | e in Entradas(cols)
        ensures NombreLimpio(e.estacion) && e.linea in Lineas(cols)
      {
        if e in Entradas(init) {
          var k :| 0 <= k < |init| && Lineas(init)[k] == e.linea;
          assert Lineas(cols)[k] == e.linea;
        } else {
          var i :| 0 <= i < |EntradasCeldas(last.celdas, last.linea)| && EntradasCeldas(last.celdas, last.linea)[i] == e;
          assert CeldasLimpias(last.celdas)[i] in CeldasLimpias(last.celdas);
          assert Lineas(cols)[|cols| - 1] == e.linea;
        }
      }
    }
  }

  // ----- sorting by station name (`sort_values('estacion')`) -----

  /** Rows in non-decreasing order of station name. */
  predicate Ordenada(s: seq<Estacion>)
  {
    forall i, j :: 0 <= i < j < |s| ==> StrLe(s[i].estacion, s[j].estacion)
  }

  function Insertar(x: Estacion, s: seq<Estacion>): seq<Estacion>
  {
    if s == [] then [x]
    else if StrLe(x.estacion, s[0].estacion) then [x] + s
    else [s[0]] + Insertar(x, s[1..])
  }

  /** Insertion sort on the station name; it keeps rows with equal names in
      their input order. */
  function OrdenarPorNombre(s: seq<Estacion>): (r: seq<Estacion>)
    ensures Ordenada(r)
    ensures multiset(r) == multiset(s)
  {
    if s == [] then []
    else
      InsertarCorrecta(s[0], OrdenarPorNombre(s[1..]));
      assert s == [s[0]] + s[1..];
      Insertar(s[0], OrdenarPorNombre(s[1..]))
  }

  lemma {:induction false} InsertarCorrecta(x: Estacion, s: seq<Estacion>)
    requires Ordenada(s)
    ensures Ordenada(Insertar(x, s))
    ensures multiset(Insertar(x, s)) == multiset(s) + multiset{x}
  {
    if s == [] {
    } else if StrLe(x.estacion, s[0].estacion) {
      var r := [x] + s;
      forall i, j | 0 <= i < j < |r| ensures StrLe(r[i].estacion, r[j].estacion) {
        if i == 0 && j > 1 { StrLeTrans(x.estacion, s[0].estacion, s[j - 1].estacion); }
      }
    } else {
      StrLeTotal(x.estacion, s[0].estacion);
      InsertarCorrecta(x, s[1..]);
      var t := Insertar(x, s[1..]);
      var r := [s[0]] + t;
      assert s == [s[0]] + s[1..];
      forall i, j | 0 <= i < j < |r| ensures StrLe(r[i].estacion, r[j].estacion) {
        if i == 0 {
          var y := r[j];
          assert y in multiset(t);
          if y == x {
          } else {
            assert y in s[1..];
            var k :| 0 <= k < |s[1..]| && s[1..][k] == y;
            assert s[k + 1] == y;
          }
        }
      }
    }
  }

  // ----- the loader -----

  /** The catalog used when the file is missing: five sample rows, in this
      order (this branch does not sort), and four lines. */
  function Respaldo(): (r: Catalogo)
    ensures |r.estaciones| == 5 && |r.lineas| == 4
    ensures forall e :: e in r.estaciones ==> e.linea in r.lineas
  {
    Catalogo([Estacion("Barcelona-Sants", "R1"),
              Estacion("Barcelona-Passeig de Gràcia", "R2"),
              Estacion("L’Hospitalet de Llobregat", "R1"),
              Estacion("Mataró", "R1"),
              Estacion("Granollers Centre", "R3")],
             ["R1", "R2", "R3", "R4"])
  }

  /**
   * `cargar_estaciones`: `fuente` is the file as columns, or `None` when it is
   * not found. The nested loops collect one row per valid cell, column after
   * column; the rows are then sorted by name. When no cell is valid the
   * DataFrame has no `estacion` column and sorting it raises `KeyError`.
   */
  method CargarEstaciones(fuente: Option<seq<Columna>>) returns (r: Result<Catalogo>)
    ensures fuente.None? ==> r == Success(Respaldo())
    ensures fuente.Some? ==> (r.Failure? <==> Entradas(fuente.value) == [])
    ensures fuente.Some? && r.Success? ==>
              r.value == Catalogo(OrdenarPorNombre(Entradas(fuente.value)), Lineas(fuente.value))
    ensures fuente.Some? && r.Success? ==>
              && Ordenada(r.value.estaciones)
              && multiset(r.value.estaciones) == multiset(Entradas(fuente.value))
              && (forall e :: e in r.value.estaciones ==> NombreLimpio(e.estacion) && e.linea in r.value.lineas)
  {
    if fuente.None? {
      return Success(Respaldo());
    }
    var cols := fuente.value;
    var lineas := Lineas(cols);
    var data: seq<Estacion> := [];
    var i := 0;
    while i < |cols|
      invariant 0 <= i <= |cols|
      invariant data == Entradas(cols[..i])
    {
      data := AnadirColumna(data, cols[i].celdas, cols[i].linea);
      assert cols[..i + 1][..i] == cols[..i];
      i := i + 1;
    }
    assert cols[..i] == cols;
    if data == [] {
      return Failure("KeyError: 'estacion'");
    }
    CatalogoBienFormado(cols);
    r := Success(Catalogo(OrdenarPorNombre(data), lineas));
  }

  /** The inner loop of the loader: appends a row for every valid cell of one
      column, stripped and tagged with the column's line. */
  method AnadirColumna(data: seq<Estacion>, celdas: seq<Option<string>>, linea: string)
    returns (r: seq<Estacion>)
    ensures r == data + EntradasCeldas(celdas, linea)
  {
    r := data;
    var j := 0;
    while j < |celdas|
      invariant 0 <= j <= |celdas|
      invariant r == data + EntradasCeldas(celdas[..j], linea)
    {
      var c := celdas[j];
      EntradasCeldasPaso(celdas, j, linea);
      if CeldaValida(c) {
        var fila := Estacion(Strip(c.value), linea);
        assert (data + EntradasCeldas(celdas[..j], linea)) + [fila] == data + (EntradasCeldas(celdas[..j], linea) + [fila]);
        r := r + [fila];
      }
      j := j + 1;
    }
    assert celdas[..j] == celdas;
  }

  /** One more cell extends the rows of a column prefix by that cell's row, if any. */
  lemma EntradasCeldasPaso(celdas: seq<Option<string>>, j: int, linea: string)
    requires 0 <= j < |celdas|
    ensures EntradasCeldas(celdas[..j + 1], linea) ==
            EntradasCeldas(celdas[..j], linea) +
            (if CeldaValida(celdas[j]) then [Estacion(Strip(celdas[j].value), linea)] else [])
  {
    assert celdas[..j + 1][..j] == celdas[..j];
  }

  /** The sorted rows keep the clean names and header lines of the collected ones. */
  lemma CatalogoBienFormado(cols: seq<Columna>)
    ensures forall e :: e in OrdenarPorNombre(Entradas(cols)) ==>
              NombreLimpio(e.estacion) && e.linea in Lineas(cols)
  {
    var data := Entradas(cols);
    EntradasBienFormadas(cols);
    forall e | e in OrdenarPorNombre(data) ensures e in data {
      assert e in multiset(OrdenarPorNombre(data));
    }
  }

  // ----- the queries -----

  /** Names of the rows tagged with `linea`, in catalog order. */
  function Nombres(s: seq<Estacion>, linea: string): (r: seq<string>)
    ensures |r| <= |s|
    ensures forall n :: n in r <==> Estacion(n, linea) in s
  {
    if s == [] then []
    else if s[0].linea == linea then [s[0].estacion] + Nombres(s[1..], linea)
    else Nombres(s[1..], linea)
  }

  /**
   * `obtener_estaciones_por_linea`: nothing for an empty line name or an empty
   * catalog, otherwise exactly the names tagged with `linea`.
   */
  function EstacionesPorLinea(cat: seq<Estacion>, linea: string): (r: seq<string>)
    ensures linea == "" || cat == [] ==> r == []
    ensures forall n :: n in r <==> linea != "" && Estacion(n, linea) in cat
  {
    if linea != "" && |cat| > 0 then Nombres(cat, linea) else []
  }

  /** Filtering distributes over concatenation, so it keeps catalog order. */
  lemma {:induction false} NombresConcat(a: seq<Estacion>, b: seq<Estacion>, linea: string)
    ensures Nombres(a + b, linea) == Nombres(a, linea) + Nombres(b, linea)
  {
    if a == [] {
      assert a + b == b;
    } else {
      assert (a + b)[1..] == a[1..] + b;
      NombresConcat(a[1..], b, linea);
    }
  }

  /** Each name occurs in the filtered list as often as its row with `linea`
      occurs in the catalog. */
  lemma {:induction false} NombresCuenta(s: seq<Estacion>, linea: string, n: string)
    ensures multiset(Nombres(s, linea))[n] == multiset(s)[Estacion(n, linea)]
  {
    if s != [] {
      NombresCuenta(s[1..], linea, n);
      assert s == [s[0]] + s[1..];
      assert multiset(s) == multiset{s[0]} + multiset(s[1..]);
      if s[0].linea == linea {
        assert multiset(Nombres(s, linea)) == multiset{s[0].estacion} + multiset(Nombres(s[1..], linea));
      }
    }
  }

  /** Permuting the catalog permutes each line's names. */
  lemma NombresPermutacion(s: seq<Estacion>, t: seq<Estacion>, linea: string)
    requires multiset(s) == multiset(t)
    ensures multiset(Nombres(s, linea)) == multiset(Nombres(t, linea))
  {
    forall n ensures multiset(Nombres(s, linea))[n] == multiset(Nombres(t, linea))[n] {
      NombresCuenta(s, linea, n);
      NombresCuenta(t, linea, n);
    }
  }

  /** The names of one line of a sorted catalog are themselves sorted. */
  lemma {:induction false} NombresOrdenados(s: seq<Estacion>, linea: string)
    requires Ordenada(s)
    ensures forall i, j :: 0 <= i < j < |Nombres(s, linea)| ==> StrLe(Nombres(s, linea)[i], Nombres(s, linea)[j])
  {
    if s != [] {
      NombresOrdenados(s[1..], linea);
      if s[0].linea == linea {
        var t := Nombres(s[1..], linea);
        forall j | 0 <= j < |t| ensures StrLe(s[0].estacion, t[j]) {
          assert Estacion(t[j], linea) in s[1..];
          var k :| 0 <= k < |s[1..]| && s[1..][k] == Estacion(t[j], linea);
          assert s[k + 1].estacion == t[j];
        }
      }
    }
  }

  /** Filtering the rows of one column by its own header gives its clean cells. */
  lemma {:induction false} NombresDeColumna(cs: seq<Option<string>>, linea: string)
    ensures Nombres(EntradasCeldas(cs, linea), linea) == CeldasLimpias(cs)
  {
    if cs != [] {
      var c := cs[|cs| - 1];
      NombresDeColumna(cs[..|cs| - 1], linea);
      NombresConcat(EntradasCeldas(cs[..|cs| - 1], linea),
                    if CeldaValida(c) then [Estacion(Strip(c.value), linea)] else [], linea);
    }
  }

  /** A column whose header differs from `linea` contributes nothing to it. */
  lemma {:induction false} NombresOtraColumna(cs: seq<Option<string>>, otra: string, linea: string)
    requires otra != linea
    ensures Nombres(EntradasCeldas(cs, otra), linea) == []
  {
    if cs != [] {
      var c := cs[|cs| - 1];
      NombresOtraColumna(cs[..|cs| - 1], otra, linea);
      NombresConcat(EntradasCeldas(cs[..|cs| - 1], otra),
                    if CeldaValida(c) then [Estacion(Strip(c.value), otra)] else [], linea);
    }
  }

  /** When headers are distinct, filtering the collected rows by the header of
      column `k` gives exactly that column's clean cells in file order. */
  lemma {:induction false} NombresDeEntradas(cols: seq<Columna>, k: nat)
    requires k < |cols|
    requires forall a, b :: 0 <= a < b < |cols| ==> cols[a].linea != cols[b].linea
    ensures Nombres(Entradas(cols), cols[k].linea) == CeldasLimpias(cols[k].celdas)
  {
    var init, last := cols[..|cols| - 1], cols[|cols| - 1];
    var linea := cols[k].linea;
    NombresConcat(Entradas(init), EntradasCeldas(last.celdas, last.linea), linea);
    if k == |cols| - 1 {
      NombresDeColumna(last.celdas, linea);
      NombresAusentes(init, linea);
    } else {
      NombresDeEntradas(init, k);
      NombresOtraColumna(last.celdas, last.linea, linea);
    }
  }

  /** A line that heads no column has no rows. */
  lemma {:induction false} NombresAusentes(cols: seq<Columna>, linea: string)
    requires forall a :: 0 <= a < |cols| ==> cols[a].linea != linea
    ensures Nombres(Entradas(cols), linea) == []
  {
    if cols != [] {
      var init, last := cols[..|cols| - 1], cols[|cols| - 1];
      NombresAusentes(init, linea);
      NombresOtraColumna(last.celdas, last.linea, linea);
      NombresConcat(Entradas(init), EntradasCeldas(last.celdas, last.linea), linea);
    }
  }

  /**
   * For a catalog loaded from a file with distinct headers, the stations of
   * the line heading column `k` are that column's stripped non-empty cells,
   * each as often as in the file, but in name order rather than file order.
   */
  lemma EstacionesPorLineaDeArchivo(cols: seq<Columna>, k: nat)
    requires k < |cols| && cols[k].linea != ""
    requires forall a, b :: 0 <= a < b < |cols| ==> cols[a].linea != cols[b].linea
    requires Entradas(cols) != []
    ensures var r := EstacionesPorLinea(OrdenarPorNombre(Entradas(cols)), cols[k].linea);
            && multiset(r) == multiset(CeldasLimpias(cols[k].celdas))
            && forall i, j :: 0 <= i < j < |r| ==> StrLe(r[i], r[j])
  {
    var data := Entradas(cols);
    assert OrdenarPorNombre(data) != [] by {
      assert data[0] in multiset(OrdenarPorNombre(data));
    }
    NombresPermutacion(OrdenarPorNombre(data), data, cols[k].linea);
    NombresDeEntradas(cols, k);
    NombresOrdenados(OrdenarPorNombre(data), cols[k].linea);
  }

  /** A line that heads no column of the file has no stations. */
  lemma EstacionesPorLineaDesconocida(cols: seq<Columna>, linea: string)
    requires linea !in Lineas(cols)
    ensures EstacionesPorLinea(OrdenarPorNombre(Entradas(cols)), linea) == []
  {
    var data := Entradas(cols);
    EntradasBienFormadas(cols);
    assert forall e :: e in data ==> e.linea != linea;
    var ordenadas := OrdenarPorNombre(data);
    forall e | e in ordenadas ensures e.linea != linea {
      assert e in multiset(data);
    }
    NombresSinLinea(ordenadas, linea);
  }

  /** No row tagged with `linea`, no names for it. */
  lemma {:induction false} NombresSinLinea(s: seq<Estacion>, linea: string)
    requires forall e :: e in s ==> e.linea != linea
    ensures Nombres(s, linea) == []
  {
    if s != [] {
      NombresSinLinea(s[1..], linea);
    }
  }

  /** In the fallback catalog the per-line query follows the insertion order. */
  lemma RespaldoPorLinea()
    ensures EstacionesPorLinea(Respaldo().estaciones, "R1") ==
            ["Barcelona-Sants", "L’Hospitalet de Llobregat", "Mataró"]
    ensures EstacionesPorLinea(Respaldo().estaciones, "R4") == []
  {
    RespaldoR1();
    RespaldoR4();
  }

  lemma RespaldoR1()
    ensures Nombres(Respaldo().estaciones, "R1") ==
            ["Barcelona-Sants", "L’Hospitalet de Llobregat", "Mataró"]
  {
    var s := Respaldo().estaciones;
    assert Nombres(s[4..], "R1") == [];
    assert Nombres(s[3..], "R1") == ["Mataró"];
    assert Nombres(s[2..], "R1") == ["L’Hospitalet de Llobregat", "Mataró"];
    assert Nombres(s[1..], "R1") == ["L’Hospitalet de Llobregat", "Mataró"];
  }

  lemma RespaldoR4()
    ensures Nombres(Respaldo().estaciones, "R4") == []
  {
    var s := Respaldo().estaciones;
    forall e | e in s ensures e.linea != "R4" {
      var i :| 0 <= i < |s| && s[i] == e;
    }
    NombresSinLinea(s, "R4");
  }

  /** Comparing two strings with a common prefix compares what follows it. */
  lemma {:induction false} StrLePrefijo(p: string, a: string, b: string)
    ensures StrLe(p + a, p + b) <==> StrLe(a, b)
  {
    if p != [] {
      assert (p + a)[1..] == p[1..] + a;
      assert (p + b)[1..] == p[1..] + b;
      StrLePrefijo(p[1..], a, b);
    } else {
      assert p + a == a && p + b == b;
    }
  }

  /** The fallback branch does not sort: its first two rows are out of order. */
  lemma RespaldoNoOrdenado()
    ensures !Ordenada(Respaldo().estaciones)
  {
    var s := Respaldo().estaciones;
    assert s[0].estacion == "Barcelona-" + "Sants";
    assert s[1].estacion == "Barcelona-" + "Passeig de Gràcia";
    StrLePrefijo("Barcelona-", "Sants", "Passeig de Gràcia");
    assert !StrLe("Sants", "Passeig de Gràcia");
  }

  /** Python's `sorted(set)` result: strictly increasing, hence duplicate-free. */
  predicate EstrictamenteOrdenada(s: seq<string>)
  {
    forall i, j :: 0 <= i < j < |s| ==> StrLt(s[i], s[j])
  }

  function InsertarUnico(n: string, s: seq<string>): seq<string>
  {
    if s == [] then [n]
    else if n == s[0] then s
    else if StrLe(n, s[0]) then [n] + s
    else [s[0]] + InsertarUnico(n, s[1..])
  }

  lemma {:induction false} InsertarUnicoCorrecta(n: string, s: seq<string>)
    requires EstrictamenteOrdenada(s)
    ensures EstrictamenteOrdenada(InsertarUnico(n, s))
    ensures forall m :: m in InsertarUnico(n, s) <==> m == n || m in s
  {
    if s == [] {
    } else if n == s[0] {
    } else if StrLe(n, s[0]) {
      var r := [n] + s;
      forall i, j | 0 <= i < j < |r| ensures StrLt(r[i], r[j]) {
        if i == 0 && j > 1 { StrLtTrans(n, s[0], s[j - 1]); }
      }
    } else {
      StrLeTotal(n, s[0]);
      InsertarUnicoCorrecta(n, s[1..]);
      var t := InsertarUnico(n, s[1..]);
      var r := [s[0]] + t;
      forall i, j | 0 <= i < j < |r| ensures StrLt(r[i], r[j]) {
        if i == 0 {
          var y := r[j];
          assert y in t;
          if y == n {
          } else {
            assert y in s[1..];
            var k :| 0 <= k < |s[1..]| && s[1..][k] == y;
            assert s[k + 1] == y;
          }
        }
      }
      assert s == [s[0]] + s[1..];
    }
  }

  /** `sorted(...unique())`: the distinct names, strictly increasing. */
  function OrdenarUnicos(ns: seq<string>): (r: seq<string>)
    ensures EstrictamenteOrdenada(r)
    ensures forall m :: m in r <==> m in ns
  {
    if ns == [] then []
    else
      InsertarUnicoCorrecta(ns[0], OrdenarUnicos(ns[1..]));
      assert ns == [ns[0]] + ns[1..];
      InsertarUnico(ns[0], OrdenarUnicos(ns[1..]))
  }

  /**
   * `obtener_todas_estaciones`: the station names of the catalog, each once,
   * in increasing order; empty for an empty catalog.
   */
  function TodasEstaciones(cat: seq<Estacion>): (r: seq<string>)
    ensures EstrictamenteOrdenada(r)
    ensures forall i, j :: 0 <= i < j < |r| ==> r[i] != r[j]
    ensures forall n :: n in r <==> exists e :: e in cat && e.estacion == n
  {
    if |cat| > 0 then
      var ns := seq(|cat|, i requires 0 <= i < |cat| => cat[i].estacion);
      assert forall n :: n in ns <==> exists e :: e in cat && e.estacion == n by {
        forall n ensures n in ns <==> exists e :: e in cat && e.estacion == n {
          if exists e :: e in cat && e.estacion == n {
            var e :| e in cat && e.estacion == n;
            var i :| 0 <= i < |cat| && cat[i] == e;
            assert ns[i] == n;
          }
        }
      }
      OrdenarUnicos(ns)
    else []
  }
}
