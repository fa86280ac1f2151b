# Livestock registry rules, modelled in Dafny

This project models the checks and record-keeping rules of a provincial
livestock-brand registry written in Django, and proves properties of them.
The registry records producers (`Productor`), their parcels (`Campo`), their
registered brands and ear marks (`MarcaSenal`) and the requests filed for
them (`Solicitud`). The project covers:

- the field validators (DNI, CUIT, name, phone, e-mail, password, order
  number);
- the entities' derived values and defaults, the declared unique columns,
  and what deleting a row does to the rows that refer to it;
- the request handlers' rules: changing a request's state, registration,
  role tests, list filters and ordering, dashboard windows, and GeoJSON and
  map points;
- the sign-up form's field cleaners;
- the two data-migration management commands;
- the browser-side field and form validation.

Layout, one module per file:

| file | module | models |
|---|---|---|
| `wrappers.dfy` | `Wrappers` | `Option`, `Result` |
| `text.dfy` | `Text` | character classes (ASCII digits and letters, plus áéíóúÁÉÍÓÚñÑ), Python `str.strip`, `str.lower`, `str.title`, `", ".join`, substring and case-insensitive search, code-point order |
| `sequences.dfy` | `Sequences` | query sets as sequences: `Filter`, a map, an insertion sort, "first n by an order", distinctness |
| `validators.dfy` | `Validators` | app_registros/validators.py |
| `models.dfy` | `Models` | app_registros/models.py: entities as datatypes, derived properties, defaults |
| `registry.dfy` | `Registry` | the tables as the mutable class `Database`, with inserts that enforce the declared unique and foreign-key constraints (column widths are not modelled) and deletes that follow the declared `on_delete` rules |
| `views.dfy` | `Views` | app_sigrams/views.py |
| `signup_form.dfy` | `SignUpForm` | app_sigrams/forms.py |
| `commands.dfy` | `Commands` | the `migrar_campos` and `cargar_datos_iniciales` management commands |
| `client_validation.dfy` | `ClientValidation` | static/js/validation.js |

Modelling conventions:

- **Validators.** A validator has three outcomes, modelled as
  `Check<T> = Skipped | Valid(value) | Invalid(code)`:
  - `Skipped`: it returns `None` for a falsy value;
  - `Valid`: it returns a possibly normalised value;
  - `Invalid`: it raises `ValidationError` with that code.

  (Django ignores what a field validator returns. The returned value is
  modelled because the validators compute it.)
- **Regular expressions** over fixed patterns are written as character
  predicates.
- **The password validator** builds its list of unmet requirements with
  appends. The method `ValidatePassword` does the same, and is proved equal
  to the function `Password`.
- **Tables** are maps from primary key to row. One counter hands out keys.
- **Query sets** are sequences of `Row(id, rec)` in the database's order.
- **Numbers.** Decimal columns are integers in the column's smallest unit.
  Dates are day numbers and date-times are second counts.
- **Management commands.** Each is a loop over the tables, proved against a
  ghost invariant (`Migrated`, `Seeded`) and then stated table-wide.
- **Browser validation.** The regex engine, `parseFloat` ordering and
  `new URL` are parameters (the `Engine` datatype). JavaScript's `trim` and
  `parseInt` are modelled exactly, over code points.

## Rules the code does not enforce

The model follows what the code does, including where a reader might expect
a stricter rule:

- **Request states are not terminal.** `cambiar_estado_solicitud` sets
  APROBADO or RECHAZADO whatever the current state, so an approved request
  can be rejected and the reverse (`Views.EstadoNotTerminal`).
- **No cross-field rules.** The code enforces none of these, so none is
  modelled as its behaviour:
  - a positive livestock total;
  - expiry strictly after issue;
  - a minimum description length;
  - a coordinate bounding box;
  - a mark's parcel owned by the mark's producer.
- **The parcel (`Campo`) lookups create nothing.** `get_campos_por_productor`
  and `cargar_campos` only list a producer's parcels. Default parcels come only
  from the `migrar_campos` command.
- **Error codes are per check.** Each validator raises its own code
  (`invalid_dni`, `invalid_dni_length`, `too_short`, `too_long`, and so on),
  not a shared error taxonomy.
- **Validators stop at their first failure.** The exception is the password
  validator, which collects every unmet requirement.
- **Name length is measured twice.** The 2-character minimum counts the
  stripped value and the 50-character maximum counts the raw value. The
  result is `title()` followed by `strip()`.
- **The CUIT `11 → 1` special case can never be reached**
  (`Validators.CheckDigitNeverEleven`). Of the example pair,
  "20-12345678-6" is accepted and "20-12345678-9" rejected.
- **The dashboard windows.** The code's windows are:
  - the 10 latest requests;
  - producers registered in the last 7 days (at most 5);
  - VIGENTE marks expiring within 30 days (at most 5).

  Its counts are listed under "Left out".

## Model

| member | source | states |
|---|---|---|
| `Validators.CleanDni` | app_registros/validators.py:14 | removing '.', ' ' and '-' leaves no separator and never lengthens the value |
| `Validators.DniKeepsOtherChars` | app_registros/validators.py:14 | a character is in the cleaned DNI iff it is in the input and is not a separator |
| `Validators.Dni` | app_registros/validators.py:9-30 | empty input is skipped; it fails with `invalid_dni` iff the cleaned value is not a non-empty digit string, and with `invalid_dni_length` iff it is digits but not 7–8 long; otherwise it returns exactly the cleaned value |
| `Validators.DniNormalForm` | app_registros/validators.py:24-30 | an accepted DNI is 7 or 8 digits and validates again to itself |
| `Validators.DniOnlySeparators` | app_registros/validators.py:17-21 | ".." cleans to the empty string and fails the digit test (`invalid_dni`), not the length test |
| `Validators.CheckDigit` | app_registros/validators.py:56-62 | the computed check digit lies in 0..9; unless the sum is 1 mod 11 it completes the sum to a multiple of 11, and a remainder of 1 gives 9 |
| `Validators.WeightedSumClosedForm` | app_registros/validators.py:52-55 | the sum is the ten digits weighted 5, 4, 3, 2, 7, 6, 5, 4, 3, 2 in order |
| `Validators.CheckDigitNeverEleven` | app_registros/validators.py:61-62 | the `== 11` branch is unreachable: `11 - r` for a non-zero remainder is never 11 |
| `Validators.CuitDigits` | app_registros/validators.py:51 | a CUIT in `NN-NNNNNNNN-N` form has eleven digits once its dashes are removed |
| `Validators.CuitCleanIsDigits` | app_registros/validators.py:51 | `replace('-', '')` on a formatted CUIT yields exactly those eleven digits |
| `Validators.Cuit` | app_registros/validators.py:36-75 | empty input is skipped; it fails with `invalid_cuit_format` iff the value does not match the pattern; a matching value is returned unchanged iff its last digit equals the check digit of the first ten, and fails with `invalid_cuit_dv` otherwise |
| `Validators.CuitAccepted` | app_registros/validators.py:52-64 | "20-12345678-6" (weighted sum 148) is accepted unchanged |
| `Validators.CuitRejected` | app_registros/validators.py:64-68 | "20-12345678-9" fails with `invalid_cuit_dv` |
| `Validators.Name` | app_registros/validators.py:81-106 | empty input is skipped; the errors are, in order: `invalid_chars` iff a character is outside the letter/accent/ñ/whitespace class, `too_short` iff the stripped value is under 2 characters, `too_long` iff the raw value exceeds 50; a non-empty value of the class whose stripped length is at least 2 and raw length at most 50 is accepted, as the title-cased value with its whitespace stripped |
| `Validators.NameNormalForm` | app_registros/validators.py:106 | an accepted name is 2–50 characters of the class, has no surrounding whitespace, is title-cased, and equals the stripped input up to case |
| `Validators.NormalNameFixed` | app_registros/validators.py:86-106 | a stripped, title-cased name of accepted length and class is accepted unchanged |
| `Validators.NameIdempotent` | app_registros/validators.py:81-106 | validating an accepted name again returns the same name |
| `Validators.NameExample` | app_registros/validators.py:106 | "juan pérez" is returned as "Juan Pérez" |
| `Validators.Phone` | app_registros/validators.py:112-135 | empty input is skipped; the value is accepted iff its stripped form matches one of the six layouts, and the stripped form is returned; otherwise it fails with `invalid_phone` |
| `Validators.PhoneIdempotent` | app_registros/validators.py:126-135 | an accepted number validates again to itself |
| `Validators.PhoneTenDigits` | app_registros/validators.py:118 | "3511234567" is accepted |
| `Validators.PhoneParenthesised` | app_registros/validators.py:122 | "(351) 123-4567" is accepted |
| `Validators.PhoneStripped` | app_registros/validators.py:126 | example: " 12345678 " is accepted as "12345678" (the general rule is in `Validators.Phone`) |
| `Validators.PhoneInternationalExampleRejected` | app_registros/validators.py:120 | the example "+54 351 1234567" shown beside the third layout and in the error message is rejected by every layout |
| `Validators.PhoneDashedExampleRejected` | app_registros/validators.py:123 | the example "351-1234567" beside the last layout is rejected |
| `Validators.NormalizeEmail` | app_registros/validators.py:145 | the address compared and returned is lower-case, has no surrounding whitespace, and equals the stripped input up to case |
| `Validators.Email` | app_registros/validators.py:141-162 | empty input is skipped; the address is normalised first; it fails with `invalid_email` iff the normalised address fails the syntax check, then with `invalid_domain` iff it ends in none of the seven suffixes; a non-empty value whose normalised address has valid syntax and an allowed suffix is accepted, as the normalised address |
| `Validators.AllowedDomainSimplified` | app_registros/validators.py:155-156 | the seven suffixes together accept exactly the addresses ending in .com, .ar, .org or .net |
| `Validators.EmailIdempotent` | app_registros/validators.py:145-162 | an accepted address has no upper-case letter and validates again to itself |
| `Validators.EmailExample` | app_registros/validators.py:145-162 | "Ana@Campo.COM.AR" is returned as "ana@campo.com.ar" |
| `Validators.EmailAccepted` | app_registros/validators.py:148-156 | "ana@campo.com.ar" passes both the syntax and the domain check |
| `Validators.UnmetRequirementsSpec` | app_registros/validators.py:184-202 | the error list holds exactly the unmet requirements, each once, in test order (length, upper, lower, digit, special) |
| `Validators.UnmetRequirementsUnique` | app_registros/validators.py:182-202 | any rank-ordered list of exactly the unmet requirements is that error list, so no other order or repetition is possible |
| `Validators.Password` | app_registros/validators.py:174-212 | the function form of `PasswordValidator.__call__`: it never skips; an empty value fails with `password_empty`; an accepted value is one meeting every requirement and is returned unchanged; any other value fails with `weak_password` carrying the unmet list |
| `Validators.ValidatePassword` | app_registros/validators.py:174-212 | the step-by-step version that appends to `errors` computes exactly `Password` |
| `Validators.DefaultPolicyAccepts` | app_registros/validators.py:168-202 | under the default arguments a password is accepted iff it has at least 8 characters, an upper-case, a lower-case, a digit and a special character |
| `Validators.NumeroOrden` | app_registros/validators.py:222-246 | 0 is skipped; it fails with `duplicate_number` iff another record, apart from the one being edited, has the number; checked next, a negative number fails with `invalid_number`; a positive number held by no other record is accepted and returned unchanged |
| `Validators.NumeroOrdenEditing` | app_registros/validators.py:229-237 | re-saving a record with its own number passes, the same number without the instance is a duplicate, and another record's number is a duplicate |
| `Text.LowerStr` | app_registros/validators.py:145 | `lower()` keeps the length and lowers each character in place |
| `Text.Title` | app_registros/validators.py:106 | `title()` keeps the length and the letter positions, changes only case, and gives a title-cased string: a letter is upper-case iff it starts a run of letters |
| `Text.TitleUnique` | app_registros/validators.py:106 | `title()` is the only title-cased string equal to its input up to case |
| `Text.TitleIdempotent` | app_sigrams/forms.py:93 | title-casing a title-cased string changes nothing |
| `Text.Strip` | app_registros/validators.py:126 | `strip()` is the contiguous slice left after removing the leading and trailing whitespace, and has no whitespace at either end |
| `Text.StripTitle` | app_registros/validators.py:106 | `value.title().strip()` has the length of the stripped value, is title-cased, and equals the stripped value up to case |
| `Models.TotalGanado` | app_registros/models.py:194-199 | `total_ganado` is at least each of the six species counts, and is 0 iff every count is 0 |
| `Models.NombreCompleto` | app_registros/models.py:50-52 | `nombre_completo` is the surname, ", ", then the name |
| `Models.NombreCompletoInjective` | app_registros/models.py:50-52 | when surnames contain no comma, the full name determines both surname and name |
| `Models.Str` | app_registros/models.py:47-48 | `__str__` is exactly the full name, " (", the DNI and ")": it starts with the first two, ends with the last two, and has nothing between them |
| `Models.StrSeparatesDni` | app_registros/models.py:47-48 | two producers with the same full name but different DNIs print differently |
| `Models.TextOf` | app_registros/models.py:57-64 | a nullable text column is truthy iff it is set and non-empty |
| `Models.DireccionCompleta` | app_registros/models.py:55-67 | appending the truthy parts one at a time gives `Direccion`, the ", " join of the truthy components in the order calle, localidad, municipio, departamento, provincia |
| `Models.AddressPartsSpec` | app_registros/models.py:56-66 | the joined parts are exactly the non-empty components, and none of them is empty |
| `Models.DireccionEmpty` | app_registros/models.py:55-67 | the address is empty iff all five components are falsy |
| `Models.DireccionOnlyProvincia` | app_registros/models.py:65-67 | with only the province set, the address is the province |
| `Models.DireccionAllPresent` | app_registros/models.py:55-67 | with all five components present they are joined in order with ", " |
| `Models.NewProductor` | app_registros/models.py:28-38 | a new producer is PENDIENTE (a declared choice), in the province "Catamarca", whose address is therefore "Catamarca", with no coordinates or area |
| `Models.NewMarca` | app_registros/models.py:151-175 | a new mark is a NUEVA request in state EN_TRAMITE (both declared choices), with all livestock counts 0 and no type or predefined image |
| `Models.NewSolicitud` | app_registros/models.py:223 | a new request is PENDIENTE |
| `Models.EsAdministrador` | app_registros/models.py:251-253 | true exactly for the first declared role, "admin", and for neither of the other two |
| `Models.NewUserProfile` | app_registros/models.py:244-253 | a new profile has role "empleado" and is not an administrator |
| `Models.NewImagen` | app_registros/models.py:121-123 | a new predefined image is of type FLANCO and active |
| `Registry.NullTipoSenal` | app_registros/models.py:161 | SET_NULL on `tipo_senal`: every mark survives, none refers to the deleted type, and marks that did not refer to it are untouched |
| `Registry.NullImagen` | app_registros/models.py:163 | SET_NULL on `imagen_predefinida`, with the same guarantees |
| `Registry.Database.InsertProductor` | app_registros/models.py:19 | saving a producer fails with an integrity error iff its DNI is taken; otherwise exactly one row is added under a fresh key |
| `Registry.Database.InsertCampo` | app_registros/models.py:74 | a parcel is refused iff its producer does not exist |
| `Registry.Database.InsertTipoSenal` | app_registros/models.py:95-97 | an ear-mark type is added under a fresh key and nothing else changes |
| `Registry.Database.InsertImagen` | app_registros/models.py:119-123 | a predefined image is added under a fresh key and nothing else changes |
| `Registry.Database.InsertMarca` | app_registros/models.py:149-163 | a mark is refused iff one of its foreign keys dangles or its `numero_orden` is taken |
| `Registry.Database.InsertSolicitud` | app_registros/models.py:220-228 | a request is refused iff its producer, or its mark when given, does not exist |
| `Registry.Database.SaveSolicitud` | app_sigrams/views.py:643 | re-saving a request replaces only that row |
| `Registry.Database.InsertUser` | app_sigrams/views.py:180-186 | a user is refused iff the username is taken; the new key has no profile yet |
| `Registry.Database.InsertProfile` | app_registros/models.py:243 | a profile is refused iff its user does not exist or already has one (one-to-one) |
| `Registry.Database.AbsentProductorCascadesNothing` | app_registros/models.py:74 | with integrity, a key with no producer has no parcels, marks or requests to cascade to |
| `Registry.Database.DeleteProductor` | app_registros/models.py:149-150 | deleting a producer removes exactly its parcels (line 74), the marks of the producer or of those parcels, and the requests of the producer or of those marks (lines 220, 228); nothing else changes, and integrity is kept |
| `Registry.Database.DeleteCampo` | app_registros/models.py:150 | deleting a parcel removes exactly its marks and their requests |
| `Registry.Database.DeleteMarca` | app_registros/models.py:228 | deleting a mark removes exactly the requests referring to it |
| `Registry.Database.DeleteTipoSenal` | app_registros/models.py:161 | deleting a type removes no mark and clears the references to it |
| `Registry.Database.DeleteImagen` | app_registros/models.py:163 | deleting a predefined image removes no mark and clears the references to it |
| `Registry.Database.DeleteUser` | app_registros/models.py:243 | deleting a user also removes their profile (CASCADE) |
| `Views.EstadoTras` | app_sigrams/views.py:641-642 | only the state can change; APROBADO and RECHAZADO are set; any change is to one of them |
| `Views.EstadoNotTerminal` | app_sigrams/views.py:641 | the current state is not consulted: APROBADO→RECHAZADO and RECHAZADO→APROBADO are both allowed, and PENDIENTE is ignored |
| `Views.EstadoTrasIdempotent` | app_sigrams/views.py:641-643 | repeating the same change changes nothing more |
| `Views.CambiarEstadoSolicitud` | app_sigrams/views.py:637-650 | a missing request is a 404 and changes nothing; otherwise the request is saved as `EstadoTras` gives it, and no other row changes |
| `Views.RegisterCheck` | app_sigrams/views.py:167-177 | the checks run in order: password mismatch, then an existing username, then an existing e-mail; each error is reported iff every earlier check passed and it fails |
| `Views.RegisterView` | app_sigrams/views.py:158-195 | a failed check creates nothing; when the three checks pass but the username is empty, `create_user` raises `ValueError` (`UsernameNotSet`) and nothing is created; otherwise exactly one user is added under a fresh key, with the e-mail normalised as `create_user` stores it, and its profile with role "inspector"; no other table changes |
| `Views.LastAt` | app_sigrams/views.py:180-186 | the split point of `rsplit("@", 1)` inside `create_user`: none iff the address has no '@', otherwise an '@' with none after it |
| `Views.NormalizeUserEmail` | app_sigrams/views.py:180-186 | `create_user` keeps an address without '@' as given; otherwise it stores the stripped address with the same split point and the same local part, equal to it up to case and lower-case from the '@' on |
| `Views.NormalizeUserEmailIdempotent` | app_sigrams/views.py:180-186 | a stored address normalises to itself |
| `Views.NormalizeUserEmailExample` | app_sigrams/views.py:180-186 | example: "ana@Campo.com" is stored as "ana@campo.com" |
| `Views.RegisterSeesNormalisedEmail` | app_sigrams/views.py:175-186 | the e-mail test compares the submitted address with the stored, normalised ones, so after "ana@Campo.com" registers, "ana@campo.com" fails with the e-mail error |
| `Views.EsEmpleadoOMas` | app_sigrams/views.py:200-203 | `get` raises for a user without a profile; the test passes iff the role is admin or empleado |
| `Views.PuedeEliminarProductor` | app_sigrams/views.py:399-401 | the delete view admits exactly the administrators (`es_administrador`) |
| `Views.DeletersAreEmployees` | app_sigrams/views.py:399-401 | whoever may delete a producer also passes the employee test |
| `Views.RolesOfNewProfiles` | app_sigrams/views.py:189-192 | a self-registered inspector passes neither role test; a default "empleado" profile passes only the employee test |
| `Views.ListaProductores` | app_sigrams/views.py:216-239 | narrowing step by step by each non-empty parameter gives `ListaSpec`: the producers, in order, that pass every non-empty filter |
| `Views.ListaMembers` | app_sigrams/views.py:224-239 | a producer is listed iff it passes each non-empty filter: `q` as a case-insensitive substring of nombre, apellido, dni or campo, `estado` exactly, and localidad and departamento case-insensitively |
| `Views.ListaSubset` | app_sigrams/views.py:216-239 | the list only drops producers |
| `Views.ListaNoFilters` | app_sigrams/views.py:219-239 | with every parameter empty, every producer is listed |
| `Views.ListaKeepsOrder` | app_registros/models.py:45 | the model's default (apellido, nombre) order survives the filters |
| `Views.ByApellidoNombreOrder` | app_sigrams/views.py:354 | ordering by (apellido, nombre) is a total preorder |
| `Views.GetQueryset` | app_sigrams/views.py:337-354 | the view's query set is a permutation of the filtered producers, sorted by (apellido, nombre) |
| `Views.QuerysetMembers` | app_sigrams/views.py:345-352 | a producer is in the view's query set iff it passes each non-empty filter |
| `Views.UltimasSolicitudes` | app_sigrams/views.py:70 | the latest requests: min(n, 10) of them, newest first, and none left out is newer than one shown |
| `Views.ProductoresRecientes` | app_sigrams/views.py:83-86 | at most 5 producers, each a row of the table taken at most as often as it occurs there, all registered in the last 7 days, newest first; with fewer than 5 shown, every recent producer is shown; none left out is newer than one shown |
| `Views.MarcasPorVencer` | app_sigrams/views.py:89-94 | at most 5 VIGENTE marks, each taken at most as often as it occurs in the table, expiring between today and today + 30, soonest first; with fewer than 5 shown, every such mark is shown; none left out expires sooner |
| `Views.GeoFeature` | app_sigrams/views.py:661-674 | coordinates are [longitude, latitude], the area is 0 iff it is missing or zero, and the name is the full name |
| `Views.ApiProductoresGeojson` | app_sigrams/views.py:655-682 | the loop emits one feature per producer with both coordinates, in order (`GeoFeatures`) |
| `Views.MarkerColor` | app_sigrams/views.py:707 | the colour is "green" iff the state is REGISTRADO, otherwise "orange" |
| `Views.EstadoDisplay` | app_registros/models.py:10-15 | `get_estado_display` gives each declared producer state the label at its place in `ESTADO_CHOICES`, and any other stored value as it is |
| `Views.ToPunto` | app_sigrams/views.py:699-708 | a map marker carries the producer's key and its state's colour |
| `Views.PuntosMapa` | app_sigrams/views.py:689-713 | the loop emits one marker per producer whose coordinates are both present and non-zero, in order |
| `Views.ToMapFeature` | app_sigrams/views.py:722-737 | a map feature has [longitude, latitude] coordinates and the state's colour |
| `Views.PuntosMapaJson` | app_sigrams/views.py:715-743 | the loop emits one feature per producer whose coordinates are both present and non-zero, in order |
| `Views.MapWithinGeojson` | app_sigrams/views.py:693-698 | the map's producers are the GeoJSON's producers without those with a zero coordinate; the map views never show more than the GeoJSON API, and both map views show the same number |
| `Views.ZeroLatitudeOnlyInGeojson` | app_sigrams/views.py:697-698 | a producer at latitude 0 gets a GeoJSON feature but neither a map marker nor a map feature |
| `SignUpForm.CleanNameAsWritten` | app_sigrams/forms.py:85-94 | as written, every truthy name raises `NameError` (the unbound `re`), and a falsy one is returned unchanged |
| `SignUpForm.CleanName` | app_sigrams/forms.py:85-105 | as intended: a falsy name is returned unchanged; a truthy one is accepted iff every character is in the letter/accent/ñ/whitespace class, and is then returned title-cased (same length, same letters up to case); otherwise it raises the given code |
| `SignUpForm.CleanFirstName` | app_sigrams/forms.py:85-94 | `clean_first_name` is the name cleaner above; a failure raises `invalid_first_name` |
| `SignUpForm.CleanLastName` | app_sigrams/forms.py:96-105 | `clean_last_name` is the name cleaner above; a failure raises `invalid_last_name` |
| `SignUpForm.CleanNameDefect` | app_sigrams/forms.py:1-4 | on every valid non-empty name the written cleaner raises `NameError` where the intended one returns the title-cased name |
| `SignUpForm.CleanNameExample` | app_sigrams/forms.py:93 | "juan pérez" raises `NameError` as written and becomes "Juan Pérez" as intended |
| `SignUpForm.CleanNameStable` | app_sigrams/forms.py:87-93 | a cleaned name passes the cleaner again unchanged |
| `SignUpForm.CleanEmail` | app_sigrams/forms.py:107-115 | fails with `duplicate_email` iff the e-mail is truthy and some user has exactly that e-mail; otherwise it is returned unchanged |
| `SignUpForm.CleanPassword1` | app_sigrams/forms.py:117-126 | a falsy password passes unchanged; a truthy one passes unchanged iff the default `PasswordValidator()` accepts it, and otherwise raises carrying the validator's unmet list |
| `SignUpForm.CleanPassword1Accepts` | app_sigrams/forms.py:121-123 | a non-empty password passes iff it has at least 8 characters, an upper-case, a lower-case, a digit and a special character |
| `Commands.DefaultCampo` | app_registros/management/commands/migrar_campos.py:12-20 | the created parcel belongs to the producer and has non-empty name, district and department; its name is `campo` or exactly "Campo de {nombre} {apellido}"; district and department fall back to "Sin especificar"; a missing area is stored as 0 and a given one copied; coordinates are copied |
| `Commands.FallbackNameWidth` | app_registros/management/commands/migrar_campos.py:13 | the fallback name "Campo de {nombre} {apellido}" fits `Campo.nombre` (`max_length=200`, app_registros/models.py:73) iff `nombre` and `apellido` together have at most 190 characters |
| `Commands.FallbackNameOverflows` | app_registros/management/commands/migrar_campos.py:13 | a producer whose `nombre` and `apellido` have 100 characters each fits its own columns (`max_length=150`) but gets a 210-character fallback name |
| `Commands.HasCampoInsert` | app_registros/management/commands/migrar_campos.py:10-12 | after a parcel is created, `campos.exists()` holds for its producer and is unchanged for every other producer |
| `Commands.SinCampoCount` | app_registros/management/commands/migrar_campos.py:8-21 | counting the producers without a parcel during one pass over all producers gives the number of such producers |
| `Commands.MigratedUnvisited` | app_registros/management/commands/migrar_campos.py:10 | a producer not yet visited has a parcel iff it had one at the start |
| `Commands.MigratedCreate` | app_registros/management/commands/migrar_campos.py:12-21 | creating the default parcel for an unvisited producer without one keeps the loop invariant |
| `Commands.MigratedSkip` | app_registros/management/commands/migrar_campos.py:10 | passing over a producer with a parcel keeps the loop invariant |
| `Commands.MigrarProductor` | app_registros/management/commands/migrar_campos.py:10-21 | one turn: creates a parcel iff the producer has none, keeps the invariant, and counts the creation |
| `Commands.MigrarEn` | app_registros/management/commands/migrar_campos.py:9-21 | after the loop, existing parcels are untouched, each new parcel is the default one of a producer that had none, no producer gets two, every visited producer has a parcel, and `count` is the number created |
| `Commands.MigrarCampos` | app_registros/management/commands/migrar_campos.py:7-21 | afterwards every producer has a parcel and no other table changes; `count` is the number of producers that had none, so a second run counts 0 |
| `Commands.MigratedCovers` | app_registros/management/commands/migrar_campos.py:9-21 | once every producer is visited, none is left without a parcel, and the count is the original number without one |
| `Commands.TiposIniciales` | app_registros/management/commands/cargar_datos_iniciales.py:10-17 | six seed rows with distinct names; the first five ear sides are declared choices, and the last is "OTRO", which is not |
| `Commands.Faltantes` | app_registros/management/commands/cargar_datos_iniciales.py:19-26 | the seed rows that `get_or_create` will create are exactly those whose name is not yet in the table |
| `Commands.GetOrCreateTipoSenal` | app_registros/management/commands/cargar_datos_iniciales.py:20-26 | raises `MultipleObjectsReturned` iff the name is on two or more rows; creates a row with the defaults iff the name is absent; otherwise changes nothing |
| `Commands.SeededUnvisited` | app_registros/management/commands/cargar_datos_iniciales.py:19-26 | before a seed row is processed, the rows with its name are the original ones |
| `Commands.SeededCreate` | app_registros/management/commands/cargar_datos_iniciales.py:20-26 | creating an absent seed row keeps the seeding invariant |
| `Commands.SeededFound` | app_registros/management/commands/cargar_datos_iniciales.py:20-26 | finding a seed row's name exactly once keeps the seeding invariant without changing the row |
| `Commands.SeededPrefix` | app_registros/management/commands/cargar_datos_iniciales.py:19-26 | every row a partial run added is a seed row whose name was absent |
| `Commands.SeededAll` | app_registros/management/commands/cargar_datos_iniciales.py:19-26 | after a full run every seed name is in the table exactly once, and no seed row is missing |
| `Commands.SembrarTipo` | app_registros/management/commands/cargar_datos_iniciales.py:20-30 | one turn: fails iff the name was on two or more original rows, creates iff it was absent, and keeps the invariant |
| `Commands.Sembrar` | app_registros/management/commands/cargar_datos_iniciales.py:19-30 | the loop creates as many rows as there were absent seed names, or stops at the first repeated name, keeping what it created |
| `Commands.CargarDatosIniciales` | app_registros/management/commands/cargar_datos_iniciales.py:8-31 | existing types are never modified; new rows are seed rows whose names were absent; it fails iff some seed name was repeated; on success every seed name is present once, the number created is the number previously absent, and no seed row is left to create, so a second run creates none |
| `Commands.SembrarOutcome` | app_registros/management/commands/cargar_datos_iniciales.py:19-26 | the loop's per-row outcome, stated for the whole table |
| `ClientValidation.Trim` | static/js/validation.js:32 | `trim()` is the contiguous slice left after removing ECMAScript whitespace and line terminators at both ends, and has none at either end |
| `ClientValidation.TrimIdempotent` | static/js/validation.js:32 | trimming twice is trimming once |
| `ClientValidation.TrimBlank` | static/js/validation.js:45-54 | a value trims to "" iff it is all whitespace |
| `ClientValidation.TrimExample` | static/js/validation.js:32 | an illustration: "  ab  " trims to "ab" |
| `ClientValidation.ParseInt` | static/js/validation.js:67 | `parseInt` is NaN iff no digit follows the optional whitespace, sign and `0x` prefix; without a '-' the result is non-negative |
| `ClientValidation.ParseIntNatToString` | static/js/validation.js:67 | `parseInt` of a decimal numeral gives back its number |
| `ClientValidation.ParseIntNaN` | static/js/validation.js:67 | "" and "abc" give NaN |
| `ClientValidation.ParseIntLenient` | static/js/validation.js:67 | an illustration: " 8" and "8px" both give 8: leading whitespace is skipped and trailing junk ignored |
| `ClientValidation.ParseIntHex` | static/js/validation.js:67 | "0x1F" gives 31 |
| `ClientValidation.ParseIntNegative` | static/js/validation.js:67 | "-3" gives -3 |
| `ClientValidation.ValidateFieldFirstFailure` | static/js/validation.js:31-112 | `validateField` throws iff the value is not blank and the pattern does not compile; it passes iff the field is blank and optional, or is not blank and no rule rejects it; a failure names a rule that rejects the field, and no earlier rule in check order does |
| `ClientValidation.ValidateFieldSeesTrimmed` | static/js/validation.js:32 | trimming the value beforehand changes no verdict |
| `ClientValidation.BlankRequiredFails` | static/js/validation.js:45-48 | a required field that is blank after trimming fails on `required` |
| `ClientValidation.BlankOptionalPasses` | static/js/validation.js:51-54 | an optional blank field passes, whatever its other attributes |
| `ClientValidation.PatternUnanchored` | static/js/validation.js:57-59 | for a pattern whose `test` is a search for a fully matching piece (no anchors or lookarounds), a matching piece of the trimmed value satisfies the pattern rule |
| `ClientValidation.PatternTestDecides` | static/js/validation.js:57-62 | for any pattern, anchored or not, a compiled pattern whose `test` fails on a non-blank value fails the field on the pattern rule |
| `ClientValidation.MinLengthCountsTrimmed` | static/js/validation.js:67-70 | "  ab  " with `minlength="3"` fails on minlength: the trimmed length is compared |
| `ClientValidation.ValidateForm` | static/js/validation.js:114-125 | runs `validateField` on every field in order, without short-circuiting; when no field throws, it returns true iff every field passed; when one throws, the exception ends the loop there |
| `ClientValidation.CheckFields` | static/js/validation.js:115-122 | the `forEach` loop with its `isValid` flag, proved against the sequence of verdicts for any per-field check |

## Left out

- HTTP and rendering are not modelled: `render`, `redirect`, `messages`, `JsonResponse`, pagination and login redirects. The handlers are modelled as operations on the tables.
- The ReportLab PDF export is not modelled (a foreign library).
- Authentication, sessions and password hashing are not modelled: `authenticate`, `login`, `logout`, and the hash `create_user` stores. The `User` record holds no password.
- Image and file fields are not modelled, nor are the endpoints that list predefined images and parcels (storage and lookup plumbing).
- Message texts, translations and the JSON envelope (`"type": "FeatureCollection"`) are not modelled. Only error codes and data are.
- Printed output is not modelled: the lines the two management commands write to standard output, and the final count message.
- Iteration order is a parameter: `Productor.objects.all()` is passed in as the sequence `order` of keys. The commands are proved for any such order.
- Concurrency is not modelled: races between a uniqueness pre-check and the commit, and between `exists()` and `create()` in the commands.
- Unicode is not modelled. Letters are ASCII plus áéíóúÁÉÍÓÚñÑ and whitespace is the ASCII part of `str.isspace`. Python's `isupper`/`islower`/`isdigit`/`title()` and `\s`/`\d` are restricted to that set.
- Python's `$` also matching before a trailing newline is not modelled.
- Database collation is not modelled: `order_by` compares code points, and `icontains` lower-cases only the modelled letters.
- Dates and times are integers. `timezone.now()` and "today" are parameters. The dashboard compares day numbers for dates and seconds for date-times, so the datetime-versus-date comparison of line 91 is read as a comparison of days.
- Floating point is not modelled: `float(...)` of decimal coordinates and areas. Decimals stay exact integers in the column's unit.
- The browser `parseFloat` comparisons for `min` and `max` are not modelled: they are `Engine.floatLess`.
- The general regex engine is not modelled: a field's `pattern` is tested through `Engine.compiles` and `Engine.test`, which stands for `RegExp.prototype.test`. `ClientValidation.PatternUnanchored`: the link between `test` and whole-piece matching (`SearchesPieces`) is assumed per pattern, because which patterns lack anchors, word boundaries and lookarounds is not modelled. The fixed e-mail expression reuses `Validators.EmailSyntax`, which is the same expression.
- `new URL` is not modelled: it is `Engine.isUrl`.
- Column widths (`max_length`) are not modelled. On PostgreSQL, saving a longer value into a `varchar(n)` column raises `DataError`, and no modelled operation checks lengths first. The four lines below name the members whose contracts are weaker because of this.
- `Registry.Database.InsertCampo`: does not refuse a `nombre` over 200 characters or a `distrito` or `departamento` over 150. The source's database would raise `DataError` for these.
- `Registry.Database.InsertUser`: does not refuse a `username`, `first_name` or `last_name` over 150 characters or an `email` over 254. `auth_user` would raise `DataError` for these.
- `Commands.MigrarCampos`: "afterwards every producer has a parcel" holds only while every parcel name fits. A fallback name can exceed 200 characters (`Commands.FallbackNameOverflows`), and so can a copied `campo`, because the model does not bound the producer's own columns either. The source would then stop at that producer with `DataError`, and later producers would get no parcel.
- `Views.RegisterView`: "exactly one user is added" assumes the raw POST values fit `auth_user`'s columns. An over-long username, name or e-mail would make `create_user` raise `DataError` instead.
- `value.length` in validation.js counts the code points of the model's strings, not UTF-16 code units.
- `parseInt` results are unbounded integers, so Number precision above 2^53 is not modelled.
- The DOM helpers of validation.js are not modelled: `showFieldError`, `clearFieldError`, `markFieldValid`, `scrollToFirstError` and the submit/blur event wiring.
- The dashboard's counts and aggregations are not modelled: totals, the month's requests, and the per-state and per-type counts.
- `ChangeLog` (its `user` column is SET_NULL) is not modelled. No core operation writes it.
- Field-level form cleaning is not modelled: Django's `EmailField`/`CharField` cleaning before the `clean_*` hooks. A hook receives the value as `Option<string>`.
- A missing POST key in `register_view` (a `KeyError` on `request.POST[...]`) is not modelled. The four values are parameters.
- Key allocation is simplified: all tables draw keys from one counter. Only freshness of keys is relied on.
- `None` and `""` in text columns are distinguished (`Option`) but treated alike wherever the source tests truthiness.
- `Views.UltimasSolicitudes`: requests with equal dates may come in any order among themselves. The database's tie order is not modelled.
- `Views.GetQueryset`: producers with equal (apellido, nombre) may come in any order. The result is stated as a sorted permutation, not as one particular sequence.
- `Validators.Cuit`: the `IndexError`/`ValueError` branch (`invalid_cuit`) is unreachable once the pattern matched, so the model has no such outcome.
- Rules the code does not have are not modelled: a coordinate bounding box, a positive livestock total, expiry after issue, a minimum description length, a parcel owned by the mark's producer, terminal request states, and creating a parcel in the parcel lookup.

## Findings

| source | as written | input that shows it | evidently intended | confidence | as-written member | corrected member |
|---|---|---|---|---|---|---|
| app_sigrams/forms.py:88 | `clean_first_name` and `clean_last_name` call `re.match`, but the module never imports `re` (lines 1-4), so any non-empty name raises `NameError` | first name "juan pérez" | accept names made of letters, accented vowels, ñ and whitespace, and return them title-cased ("Juan Pérez"); refuse others with `invalid_first_name` / `invalid_last_name` | not executed | `SignUpForm.CleanNameAsWritten` | `SignUpForm.CleanName` |
