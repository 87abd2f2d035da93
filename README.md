# Rodalies incident manager — a Dafny model of its core

The application is a Streamlit dashboard titled "Gestión de Incidencias -
Rodalies Catalunya", used to open, list and close service incidents. This project
models the logic inside `app.py`. The user interface is not part of the model.

- **Station catalog** (`estaciones.dfy`, module `Estaciones`). The loader
  reads the semicolon-separated station file column by column. Each header is
  a line. Each non-empty cell, stripped of whitespace, becomes one row
  `(estacion, linea)`. The rows are sorted by station name. When the file is
  missing, a fixed five-row fallback is used. When the file has no usable
  cell, sorting the empty table raises `KeyError`. Two queries read the
  catalog: the stations of one line, and all distinct stations in sorted
  order.
- **Incident store** (`incidencias.dfy`, class
  `Incidencias.SistemaIncidencias`). Adding a record gives it a
  `"INC" + three upper-cased UUID characters` id and a creation stamp, then
  appends it. Closing scans the list and closes the first record with the
  given id. The active list keeps, in order, every record that is not closed.
- **Text generators** (`sistema_ia.dfy`, module `SistemaIA`). These are
  templates for:
  - the Copernico bulletin, with its consequence table and a commercial
    action picked at random;
  - the station displays;
  - the onboard platform;
  - the social media posts.
- **Form and dashboard rules** (`formulario.dfy`, module `Formulario`):
  - the colour band of an impact level in the active table;
  - the check that runs before saving;
  - the record the save builds, including the keys that depend on the type;
  - the affected-trains draft list (append and remove a row);
  - the save itself.
- **String semantics** (`texto.dfy`, module `Texto`). This module models the
  Python behaviour the code relies on: `str.strip`, `lower`/`upper`, substring
  `in`, and code-point string ordering.

Closing an id is not guaranteed to close the record that was just saved. Ids
have only three hexadecimal characters. If an older record has the same id,
the older one is closed and the new one stays active
(`Formulario.CerrarConIdRepetido`).

`obtener_estaciones_por_linea` filters the catalog that app.py:253 sorted by
name, so a line's stations come out in name order, not in file order
(`Estaciones.EstacionesPorLineaDeArchivo`).
The fallback catalog is not sorted (`Estaciones.RespaldoNoOrdenado`).

The consequence table is keyed by `"Interrupción parcial del Servicio"` and
`"Interrupción total del Servicio"`. The form offers those two levels with the
suffix `" en la línea"`, so the lookup for both falls back to "Consecuencias
por determinar". The model keeps this behaviour
(`SistemaIA.ConsecuenciasDeLosNiveles`).

## Model

| member | source | states |
|---|---|---|
| Texto.Strip | app.py:244-246 | `strip()` returns the empty string exactly when the cell is all whitespace. Otherwise the result starts and ends with non-whitespace. It is the slice of the input with only whitespace on either side. |
| Texto.StripIdempotent | app.py:244-246 | Stripping a stored name again does not change it. |
| Texto.ContainsAt | app.py:342-345 | Python's `t in s` holds exactly when `t` occurs at some position of `s`. |
| Texto.Lower | app.py:86 | `tipo.lower()` keeps the length and maps each character by `LowerChar`. No upper-case Latin-1 letter is left. |
| Texto.Upper | app.py:128 | `tipo.upper()` keeps the length and maps each character by `UpperChar`. No lower-case Latin-1 letter with a one-character upper case is left. |
| Texto.LowerIdempotent | app.py:86 | Lower-casing an already lower-cased type changes nothing. |
| Texto.UpperIdempotent | app.py:128 | Upper-casing an already upper-cased type changes nothing. |
| Texto.StrLeTotal | app.py:253 | Any two names are comparable in the string order that sorting uses. |
| Texto.StrLeTrans | app.py:253 | The string order is transitive. |
| Texto.StrLeAntisym | app.py:253 | Two names that are each `<=` the other are equal. |
| Estaciones.Lineas | app.py:234 | The lines are the column headers, one per column, in file order. |
| Estaciones.CeldasLimpias | app.py:241-248 | A name is kept exactly when some present, non-blank cell of the column strips to it. Every kept name is non-empty and already stripped. |
| Estaciones.EntradasCeldas | app.py:243-248 | The inner loop adds at most one row per cell, and every row it adds carries the column's line. |
| Estaciones.AnadirColumna | app.py:243-248 | The inner loop leaves the collected rows extended by exactly that column's rows (`EntradasCeldas`). |
| Estaciones.Entradas | app.py:239-248 | The outer loop collects rows whose line is the header of some column. |
| Estaciones.EntradasCeldasNombres | app.py:243-248 | A column yields one row per cell that is present and not blank. The row holds the stripped cell and is tagged with the column's line. |
| Estaciones.EntradasBienFormadas | app.py:239-248 | Every collected row has a clean name, and its line is one of the headers. |
| Estaciones.InsertarCorrecta | app.py:253 | Inserting a row into a name-sorted list keeps it sorted, and the result holds the same rows plus the new one. |
| Estaciones.OrdenarPorNombre | app.py:253 | `sort_values('estacion')` yields a name-sorted permutation of the rows. |
| Estaciones.Respaldo | app.py:257-268 | The fallback has five rows and four lines, and every row's line is one of those lines. |
| Estaciones.CargarEstaciones | app.py:225-269 | A missing file gives the fallback catalog. Otherwise the loader fails with `KeyError` exactly when no cell is usable. On success it returns the collected rows sorted by name (the same rows, each with a clean name and a line among the headers) together with the header list. |
| Estaciones.Nombres | app.py:274 | Filtering the catalog by line gives the names of exactly the rows tagged with that line. |
| Estaciones.EstacionesPorLinea | app.py:271-275 | An empty line or an empty catalog gives `[]`. Otherwise a name is listed exactly when the catalog has a row for it on that line. |
| Estaciones.NombresConcat | app.py:274 | The per-line filter distributes over concatenation. |
| Estaciones.NombresCuenta | app.py:274 | Each name appears in the filtered list as many times as its row appears in the catalog. |
| Estaciones.NombresPermutacion | app.py:274 | Reordering the catalog only reorders the per-line list. |
| Estaciones.NombresOrdenados | app.py:274 | The per-line list of a name-sorted catalog is in name order. |
| Estaciones.NombresDeColumna | app.py:243-248 | Filtering a column's rows by its own line gives back that column's cleaned cells. |
| Estaciones.NombresOtraColumna | app.py:243-248 | A column's rows contribute nothing to the list of any other line. |
| Estaciones.NombresDeEntradas | app.py:239-248 | With distinct headers, the file-order list of line k is column k's cleaned cells. |
| Estaciones.NombresAusentes | app.py:239-248 | A line that heads no column has no rows. |
| Estaciones.EstacionesPorLineaDeArchivo | app.py:225-275 | After loading, the stations of a file line are that column's cleaned cells with the same multiplicities, in name order. |
| Estaciones.EstacionesPorLineaDesconocida | app.py:271-275 | A line that is not a header has no stations. |
| Estaciones.RespaldoPorLinea | app.py:257-275 | With the fallback catalog, R1 lists Barcelona-Sants, L’Hospitalet de Llobregat and Mataró in that order. R4 lists nothing. |
| Estaciones.RespaldoNoOrdenado | app.py:257-269 | The fallback catalog is not sorted by name. |
| Estaciones.InsertarUnicoCorrecta | app.py:280 | Inserting a name into a strictly sorted list keeps it strictly sorted, and adds exactly that name. |
| Estaciones.OrdenarUnicos | app.py:280 | `sorted(unique())` is strictly increasing and holds exactly the input names. |
| Estaciones.TodasEstaciones | app.py:277-281 | All stations: strictly sorted, with no duplicates. A name is listed exactly when some row has it. |
| Incidencias.GenerarId | app.py:283-285 | The id is "INC" followed by the first three characters of the UUID text (fewer if it is shorter), each upper-cased. |
| Incidencias.Registrada | app.py:289-290 | The stored record carries the new id and the creation stamp. All other fields are unchanged, so it is active exactly when the input was. |
| Incidencias.GenerarIdForma | app.py:283-285 | From a lower-case hexadecimal UUID, the id is six characters: `INC` followed by three upper-case hexadecimal digits. Two UUIDs that share their first three characters give the same id. |
| Incidencias.CerrarRegistro | app.py:298-299 | A closed record is not active and carries the end time. Every other field is unchanged. |
| Incidencias.PrimerIndice | app.py:296-297 | Finds the first record with the id, or reports that no record has it. |
| Incidencias.Cerrar | app.py:294-300 | Only the first record with the id is closed. Without a match the list is unchanged. The length never changes. |
| Incidencias.Activas | app.py:302-304 | The active list holds exactly the stored records whose state is not "Cerrada", and is no longer than the store. |
| Incidencias.ActivasConcat | app.py:304 | The filter distributes over concatenation, so list order is kept. |
| Incidencias.AgregarActivas | app.py:287-304 | Appending a record appends it to the active list when it is active, and otherwise leaves the list unchanged. |
| Incidencias.CerrarQuitaDeActivas | app.py:294-304 | Closing an existing id removes exactly the first matching record from the active list. The records before and after it stay, in order. |
| Incidencias.CerrarSinCoincidencia | app.py:294-304 | Closing an unknown id leaves the active list unchanged. |
| Incidencias.CerrarDosVeces | app.py:294-300 | Closing the same id twice equals closing it once with the later time. |
| Incidencias.SistemaIncidencias.constructor | app.py:205-206 | A new store is empty. |
| Incidencias.SistemaIncidencias.AgregarIncidencia | app.py:287-292 | Returns the generated id. The store becomes the old store followed by the record, stamped with that id and the creation time. Every stored record keeps an id and a stamp. |
| Incidencias.SistemaIncidencias.CerrarIncidencia | app.py:294-300 | The loop, with its early exit, leaves the store equal to `Cerrar` of the old store. |
| SistemaIA.Consecuencias | app.py:91-99 | A key in the table gives its entry. Any other key gives "Consecuencias por determinar". |
| SistemaIA.ConsecuenciasDeLosNiveles | app.py:91-99 | The first three impact levels get their table entries. The two interruption levels fall through to "Consecuencias por determinar". |
| SistemaIA.GenerarCopernico | app.py:77-115 | The description starts with the lower-cased type and the line. It gains " entre A y B" exactly when both stations are non-empty. The consequences come from the table. The action is one of the four sentences. |
| SistemaIA.DescripcionTramo | app.py:86-88 | With both stations set, the description names both. With one missing, the other does not affect the description. |
| SistemaIA.SiaCat | app.py:125-130 | The Catalan monitor text names the type and the line, the board text the upper-cased type and the line, and the announcement the line. |
| SistemaIA.SiaCast | app.py:132-137 | The same holds for the Spanish messages. |
| SistemaIA.SiaEng | app.py:139-144 | The same holds for the English messages. |
| SistemaIA.GenerarSiaBarcelona | app.py:118-150 | In all three languages, the messages name the type and the line. |
| SistemaIA.PlataformaCat | app.py:159-164 | Both Catalan beacons name the line, and the interior one names the type. |
| SistemaIA.PlataformaCast | app.py:165-170 | The same holds for the Spanish beacons. |
| SistemaIA.PlataformaEng | app.py:171-176 | The same holds for the English beacons. |
| SistemaIA.GenerarPlataformaEmbarcada | app.py:153-179 | In all three languages, the beacons name the line and the interior one names the type. |
| SistemaIA.AvisosFijos | app.py:159-176 | The stopped-trains and cancelled-trains notices are the same for every incident, in each language. |
| SistemaIA.SiaYPlataformaSoloTipoYLinea | app.py:118-179 | The display and onboard messages depend only on the type and the line. |
| SistemaIA.Publicacion | app.py:190-200 | A post ends with ". #Rodalies #Incident #Transport" and names the type, the line and the impact level. |
| SistemaIA.GenerarRedesSociales | app.py:182-202 | All three posts end with the hashtags and name the type, the line and the impact level. |
| Formulario.ColorPorRepercusion | app.py:341-347 | "grave" or "total" gives red. Otherwise "leve" or "parcial" gives yellow. Otherwise green. |
| Formulario.ColorNivel0 | app.py:341-347 | "Afectación tren puntual" is green. |
| Formulario.ColorNivel1 | app.py:341-347 | "Demoras leves en la línea" is yellow. |
| Formulario.ColorNivel2 | app.py:341-347 | "Demoras graves en la línea" is red. |
| Formulario.ColorNivel3 | app.py:341-347 | "Interrupción parcial del Servicio en la línea" is yellow. |
| Formulario.ColorNivel4 | app.py:341-347 | "Interrupción total del Servicio en la línea" is red. |
| Formulario.ColorDeLosNiveles | app.py:341-347 | The five levels map to green, yellow, red, yellow, red. |
| Formulario.ValidarGuardado | app.py:642-643 | Saving is refused, with the "campos obligatorios" message, exactly when the description or the forecast is empty. |
| Formulario.NuevaIncidencia | app.py:646-671 | The new record copies every form field and the draft trains, and is "Activa" with no id yet. Infrastructure faults get the dependency. Train faults get the train number. Public order and operations get each optional value only when it is non-empty. Other types get neither. |
| Formulario.ConTren | app.py:704-708 | A train with a non-empty number is appended at the end. An empty number changes nothing. |
| Formulario.SinPosicion | app.py:617-619 | `pop(i)` drops row i. Earlier rows keep their positions and later rows move up by one. |
| Formulario.SinPosicionPermutacion | app.py:617-619 | Removing a row loses exactly that train. |
| Formulario.AnadirYEliminar | app.py:704-708 | Adding a train and then removing the last row gives back the original list. |
| Formulario.BorradorTrenes.constructor | app.py:535-536 | The draft starts empty. |
| Formulario.BorradorTrenes.Anadir | app.py:704-708 | The draft becomes `ConTren` of the old draft. |
| Formulario.BorradorTrenes.Eliminar | app.py:617-619 | The draft becomes `SinPosicion` of the old draft. |
| Formulario.Guardar | app.py:641-678 | An invalid form fails with the message and changes nothing. A valid one returns the new id, appends the record built from the form and the old draft, and empties the draft. |
| Formulario.GuardadaEsActiva | app.py:674 | A saved record joins the end of the active list. |
| Formulario.GuardarYCerrar | app.py:287-304 | Closing the id just saved removes the record from the active list, provided no older record has that id. |
| Formulario.CerrarConIdRepetido | app.py:287-300 | When an older record has the id, closing it leaves the new record active. |

## Left out

- The user interface is not modelled: Streamlit widgets, session-state
  flags, reruns, the detail view and the AI-section buttons.
- Generated texts are not cached in session state. The model treats each
  generator as a pure function of the incident.
- Reading the CSV is not modelled. pandas' parsing, its NA strings and
  numeric cells are left out. The file is given as columns of optional
  strings, and a missing file is `None`.
- Randomness and time come from outside the model:
  - the UUID text is the `uuidTexto` parameter;
  - `datetime.now()` is the `ahora` and `hora` parameters;
  - `random.choice` is the `eleccion` index.
- Estaciones.OrdenarPorNombre: pandas' default sort is not stable, so rows
  with equal names may come out in a different order. The model uses a
  stable insertion sort. Only the order of rows with equal names can differ.
- Texto.Lower, Texto.Upper, Texto.LowerChar, Texto.UpperChar: case mapping
  covers Latin-1 only, plus "ÿ" to "Ÿ" and "µ" to "Μ". "ß" is left as it is,
  although Python upper-cases it to "SS". Characters outside Latin-1 are left
  unchanged, although Python maps them with the full Unicode tables.
- Aliasing: `agregar_incidencia` mutates the dictionary it receives. The
  model stores a copy, which is the same as long as the caller drops the
  dictionary, as the form does.
- Missing keys: the record always has every key. A `.get` default or a
  `KeyError` on an absent key is not modelled, apart from the optional keys
  held as `Option`.
- An empty selectbox returns `None`. The model uses "" instead. Every test in
  the code treats the two alike.
- Id uniqueness is not enforced, because the source does not enforce it.
