/**
 * The registry's entities (`app_registros/models.py`) as values: producers,
 * parcels, ear-mark types, predefined brand images, brands and marks,
 * requests, users and their profiles, with the properties the models derive
 * and the defaults a new record receives.
 *
 * Choice fields are `CharField`s: the database stores whatever string is
 * saved (choices are only enforced by forms), so they are strings here,
 * with the declared choice lists as constants.  Nullable columns are
 * `Option`s; decimal columns hold integers in the column's smallest unit
 * (1e-8 degree for coordinates, 0.01 ha for areas); dates are day numbers
 * and date-times are second counts.
 */
module Models {
  import opened Wrappers
  import opened Text
  import opened Sequences

  // ----- declared choices -----

  const EstadoProductorChoices: seq<string> := ["PENDIENTE", "REGISTRADO", "RENOVACION", "TRANSFERENCIA"]
  /** The labels of `Productor.ESTADO_CHOICES`, position by position. */
  const EstadoProductorLabels: seq<string> := ["Pendiente", "Registrado", "Renovación", "Transferencia"]
  const UbicacionOrejaChoices: seq<string> := ["DERECHA", "IZQUIERDA", "AMBAS"]
  const TipoMarcaChoices: seq<string> := ["FLANCO", "ANCA", "COSTILLAR", "PALETA", "CUELLO", "MEJILLA", "OTRO"]
  const TipoTramiteMarcaChoices: seq<string> := ["NUEVA", "RENOVACION", "TRANSFERENCIA"]
  const EstadoMarcaChoices: seq<string> := ["VIGENTE", "VENCIDA", "BAJA", "EN_TRAMITE"]
  const TipoTramiteSolicitudChoices: seq<string> := ["NUEVO", "RENOVACION", "TRANSFERENCIA", "BAJA"]
  const EstadoSolicitudChoices: seq<string> := ["PENDIENTE", "APROBADO", "RECHAZADO"]
  const RolChoices: seq<string> := ["admin", "empleado", "inspector"]

  // ----- declared column widths (not enforced by the inserts) -----

  /** `Productor.nombre` and `Productor.apellido`: `max_length=150`. */
  const ProductorNombreMaxLength: nat := 150
  /** `Campo.nombre`: `max_length=200`. */
  const CampoNombreMaxLength: nat := 200

  // ----- entities -----

  datatype Productor = Productor(
    nombre: string,
    apellido: string,
    dni: string,
    cuit: Option<string>,
    calle: Option<string>,
    campo: Option<string>,
    localidad: Option<string>,
    municipio: Option<string>,
    departamento: Option<string>,
    provincia: string,
    telefono: Option<string>,
    email: Option<string>,
    latitud: Option<int>,
    longitud: Option<int>,
    areaHectareas: Option<int>,
    estado: string,
    fechaRegistro: int,
    observaciones: string)

  /** A parcel; `productor` is the owning producer's key. */
  datatype Campo = Campo(
    nombre: string,
    productor: int,
    areaHectareas: Option<int>,
    distrito: string,
    departamento: string,
    latitud: Option<int>,
    longitud: Option<int>,
    observaciones: string)

  datatype TipoSenal = TipoSenal(nombre: string, descripcion: string, ubicacionOreja: string)

  datatype ImagenMarcaPredefinida = ImagenMarcaPredefinida(
    nombre: string, tipoMarca: string, descripcion: string, activa: bool)

  /** A registered brand and ear mark, with its livestock counts. */
  datatype MarcaSenal = MarcaSenal(
    productor: int,
    campo: int,
    tipoTramite: string,
    numeroOrden: nat,
    fechaInscripcion: int,
    fechaVencimiento: Option<int>,
    descripcionMarca: string,
    tipoSenal: Option<int>,
    descripcionSenal: string,
    imagenPredefinida: Option<int>,
    vacuno: nat,
    caballar: nat,
    mular: nat,
    asnal: nat,
    ovino: nat,
    cabrio: nat,
    valorSellado: Option<int>,
    estado: string,
    observaciones: string)

  datatype Solicitud = Solicitud(
    productor: int,
    tipoTramite: string,
    fechaSolicitud: int,
    estado: string,
    observaciones: string,
    marcaSenal: Option<int>)

  /** The framework's user record, without the password hash. */
  datatype User = User(username: string, email: string, firstName: string, lastName: string)

  /** A user's profile; the profile table is keyed by the user's key (one-to-one). */
  datatype UserProfile = UserProfile(rol: string, telefono: Option<string>)

  // ----- derived values -----

  /** `MarcaSenal.total_ganado`: the sum of the six species counts. */
  function TotalGanado(m: MarcaSenal): (t: nat)
    ensures t == 0 <==>
      m.vacuno == 0 && m.caballar == 0 && m.mular == 0 && m.asnal == 0 && m.ovino == 0 && m.cabrio == 0
    ensures t >= m.vacuno && t >= m.caballar && t >= m.mular
    ensures t >= m.asnal && t >= m.ovino && t >= m.cabrio
  {
    m.vacuno + m.caballar + m.mular + m.asnal + m.ovino + m.cabrio
  }

  /** `Productor.nombre_completo`: "apellido, nombre". */
  function NombreCompleto(p: Productor): (s: string)
    ensures |s| == |p.apellido| + 2 + |p.nombre|
    ensures StartsWith(s, p.apellido + ", ") && EndsWith(s, p.nombre)
  {
    p.apellido + ", " + p.nombre
  }

  /** First comma of a string, or its length when there is none. */
  function FirstComma(s: string): (i: nat)
    ensures i <= |s|
    ensures forall j :: 0 <= j < i ==> s[j] != ','
    ensures i < |s| ==> s[i] == ','
  {
    if s == [] then 0
    else if s[0] == ',' then 0
    else 1 + FirstComma(s[1..])
  }

  /**
   * When surnames carry no comma, the full name determines surname and name:
   * the surname is everything before the first comma.
   */
  lemma NombreCompletoInjective(p: Productor, q: Productor)
    requires ',' !in p.apellido && ',' !in q.apellido
    requires NombreCompleto(p) == NombreCompleto(q)
    ensures p.apellido == q.apellido && p.nombre == q.nombre
  {
    CommaAfterSurname(p.apellido, p.nombre);
    CommaAfterSurname(q.apellido, q.nombre);
    var s := NombreCompleto(p);
    assert p.apellido == s[..|p.apellido|];
    assert q.apellido == s[..|q.apellido|];
    assert p.nombre == s[|p.apellido| + 2..];
    assert q.nombre == s[|q.apellido| + 2..];
  }

  lemma CommaAfterSurname(apellido: string, nombre: string)
    requires ',' !in apellido
    ensures FirstComma(apellido + ", " + nombre) == |apellido|
  {
    var s := apellido + ", " + nombre;
    assert s[|apellido|] == ',';
  }

  /** `Productor.__str__`: "apellido, nombre (dni)". */
  function Str(p: Productor): (s: string)
    ensures StartsWith(s, NombreCompleto(p) + " (")
    ensures EndsWith(s, p.dni + ")")
    ensures |s| == |NombreCompleto(p)| + 3 + |p.dni|
  {
    NombreCompleto(p) + " (" + p.dni + ")"
  }

  /** Two producers with the same full name are told apart by their DNI. */
  lemma StrSeparatesDni(p: Productor, q: Productor)
    requires NombreCompleto(p) == NombreCompleto(q) && p.dni != q.dni
    ensures Str(p) != Str(q)
  {
    assert (p.dni + ")")[..|p.dni|] == p.dni;
    assert (q.dni + ")")[..|q.dni|] == q.dni;
  }

  /** Python truthiness of a nullable text column: None and "" are both false. */
  function TextOf(o: Option<string>): (s: string)
    ensures s != [] <==> o.Some? && o.value != []
  {
    if o.Some? then o.value else ""
  }

  /** A component contributes a part iff it is truthy. */
  function Keep(s: string): (r: seq<string>)
    ensures r == [] <==> s == []
    ensures forall x :: x in r ==> x == s
  {
    if s != [] then [s] else []
  }

  /** The five address components in the order `direccion_completa` takes them. */
  function AddressComponents(p: Productor): seq<string> {
    [TextOf(p.calle), TextOf(p.localidad), TextOf(p.municipio), TextOf(p.departamento), p.provincia]
  }

  /** The truthy address components, in order. */
  function AddressParts(p: Productor): seq<string> {
    Keep(TextOf(p.calle)) + Keep(TextOf(p.localidad)) + Keep(TextOf(p.municipio)) +
    Keep(TextOf(p.departamento)) + Keep(p.provincia)
  }

  /** `direccion_completa` as specified: ", ".join of the truthy components. */
  function Direccion(p: Productor): string {
    Join(", ", AddressParts(p))
  }

  /** `Productor.direccion_completa`, appending the truthy parts one at a time. */
  method DireccionCompleta(p: Productor) returns (d: string)
    ensures d == Direccion(p)
  {
    var parts: seq<string> := [];
    if p.calle.Some? && p.calle.value != "" {
      parts := parts + [p.calle.value];
    }
    assert parts == Keep(TextOf(p.calle));
    if p.localidad.Some? && p.localidad.value != "" {
      parts := parts + [p.localidad.value];
    }
    assert parts == Keep(TextOf(p.calle)) + Keep(TextOf(p.localidad));
    if p.municipio.Some? && p.municipio.value != "" {
      parts := parts + [p.municipio.value];
    }
    assert parts == Keep(TextOf(p.calle)) + Keep(TextOf(p.localidad)) + Keep(TextOf(p.municipio));
    if p.departamento.Some? && p.departamento.value != "" {
      parts := parts + [p.departamento.value];
    }
    assert parts == Keep(TextOf(p.calle)) + Keep(TextOf(p.localidad)) + Keep(TextOf(p.municipio)) +
      Keep(TextOf(p.departamento));
    if p.provincia != "" {
      parts := parts + [p.provincia];
    }
    assert parts == AddressParts(p);
    d := Join(", ", parts);
  }

  /** Exactly the non-empty components become parts, and no part is empty. */
  lemma AddressPartsSpec(p: Productor)
    ensures forall x :: x in AddressParts(p) <==> x in AddressComponents(p) && x != []
    ensures forall i :: 0 <= i < |AddressParts(p)| ==> AddressParts(p)[i] != []
  {
    var a, b, c, d, e := TextOf(p.calle), TextOf(p.localidad), TextOf(p.municipio), TextOf(p.departamento), p.provincia;
    var parts := Keep(a) + Keep(b) + Keep(c) + Keep(d) + Keep(e);
    assert AddressParts(p) == parts;
    assert AddressComponents(p) == [a, b, c, d, e];
    forall x ensures x in parts <==> x in [a, b, c, d, e] && x != [] {
      assert x in parts <==> x in Keep(a) || x in Keep(b) || x in Keep(c) || x in Keep(d) || x in Keep(e);
    }
    forall i | 0 <= i < |parts| ensures parts[i] != [] {
      assert parts[i] in parts;
    }
  }

  /** The address is empty iff all five components are falsy. */
  lemma DireccionEmpty(p: Productor)
    ensures Direccion(p) == [] <==>
      TextOf(p.calle) == [] && TextOf(p.localidad) == [] && TextOf(p.municipio) == [] &&
      TextOf(p.departamento) == [] && p.provincia == []
  {
    JoinEmpty(", ", AddressParts(p));
  }

  /** With only the default province set, the address is the province. */
  lemma DireccionOnlyProvincia(p: Productor)
    requires TextOf(p.calle) == [] && TextOf(p.localidad) == [] && TextOf(p.municipio) == []
    requires TextOf(p.departamento) == [] && p.provincia != []
    ensures Direccion(p) == p.provincia
  {
  }

  /** With every component present, they are joined in order. */
  lemma DireccionAllPresent(p: Productor, calle: string, localidad: string, municipio: string, departamento: string)
    requires p.calle == Some(calle) && p.localidad == Some(localidad) && p.municipio == Some(municipio)
    requires p.departamento == Some(departamento)
    requires calle != [] && localidad != [] && municipio != [] && departamento != [] && p.provincia != []
    ensures Direccion(p) ==
      calle + ", " + (localidad + ", " + (municipio + ", " + (departamento + ", " + p.provincia)))
  {
    var parts := [calle, localidad, municipio, departamento, p.provincia];
    assert AddressParts(p) == parts;
    assert Join(", ", [departamento, p.provincia]) == departamento + ", " + p.provincia;
    assert parts[1..][1..][1..] == [departamento, p.provincia];
    assert Join(", ", [municipio, departamento, p.provincia]) ==
      municipio + ", " + (departamento + ", " + p.provincia);
    assert parts[1..][1..] == [municipio, departamento, p.provincia];
    assert Join(", ", parts[1..]) == localidad + ", " + (municipio + ", " + (departamento + ", " + p.provincia));
  }

  /** `UserProfile.es_administrador`. */
  predicate EsAdministrador(u: UserProfile): (b: bool)
    ensures b <==> u.rol == RolChoices[0]
    ensures b ==> u.rol != RolChoices[1] && u.rol != RolChoices[2]
  {
    u.rol == "admin"
  }

  // ----- new records with their declared defaults -----

  /** A producer as first saved: only the required columns given. */
  function NewProductor(nombre: string, apellido: string, dni: string, fechaRegistro: int): (p: Productor)
    ensures p.estado == "PENDIENTE" && p.estado in EstadoProductorChoices
    ensures p.provincia == "Catamarca"
    ensures Direccion(p) == "Catamarca"
    ensures p.nombre == nombre && p.apellido == apellido && p.dni == dni && p.fechaRegistro == fechaRegistro
    ensures p.latitud.None? && p.longitud.None? && p.areaHectareas.None?
  {
    var p := Productor(nombre, apellido, dni, None, None, None, None, None, None, "Catamarca",
      None, None, None, None, None, "PENDIENTE", fechaRegistro, "");
    DireccionOnlyProvincia(p);
    p
  }

  /** A brand as first saved, with `fecha_inscripcion` set to the current day. */
  function NewMarca(productor: int, campo: int, numeroOrden: nat, hoy: int, descripcionMarca: string): (m: MarcaSenal)
    ensures m.tipoTramite == "NUEVA" && m.tipoTramite in TipoTramiteMarcaChoices
    ensures m.estado == "EN_TRAMITE" && m.estado in EstadoMarcaChoices
    ensures TotalGanado(m) == 0
    ensures m.productor == productor && m.campo == campo && m.numeroOrden == numeroOrden
    ensures m.fechaInscripcion == hoy && m.tipoSenal.None? && m.imagenPredefinida.None?
  {
    MarcaSenal(productor, campo, "NUEVA", numeroOrden, hoy, None, descripcionMarca, None, "", None,
      0, 0, 0, 0, 0, 0, None, "EN_TRAMITE", "")
  }

  /** A request as first saved: pending. */
  function NewSolicitud(productor: int, tipoTramite: string, hoy: int, marcaSenal: Option<int>): (s: Solicitud)
    ensures s.estado == "PENDIENTE" && s.estado in EstadoSolicitudChoices
    ensures s.productor == productor && s.tipoTramite == tipoTramite && s.marcaSenal == marcaSenal
    ensures s.fechaSolicitud == hoy
  {
    Solicitud(productor, tipoTramite, hoy, "PENDIENTE", "", marcaSenal)
  }

  /** A profile as first saved: an employee, not an administrator. */
  function NewUserProfile(): (u: UserProfile)
    ensures u.rol == "empleado" && u.rol in RolChoices
    ensures !EsAdministrador(u)
  {
    UserProfile("empleado", None)
  }

  /** A predefined image as first saved: flank, active. */
  function NewImagen(nombre: string): (i: ImagenMarcaPredefinida)
    ensures i.tipoMarca == "FLANCO" && i.tipoMarca in TipoMarcaChoices
    ensures i.activa && i.nombre == nombre
  {
    ImagenMarcaPredefinida(nombre, "FLANCO", "", true)
  }
}
