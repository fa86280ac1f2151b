/**
 * The request handlers' rules (app_sigrams/views.py): changing a request's
 * state, registering a user, the role tests, the producer list filters and
 * ordering, the dashboard windows and the construction of GeoJSON features
 * and map points.  Query sets are sequences of rows in the database's order.
 */
module Views {
  import opened Wrappers
  import opened Text
  import opened Sequences
  import opened Models
  import opened Registry

  /** A row of a query set: its primary key and its columns. */
  datatype Row<T> = Row(id: int, rec: T)

  datatype ViewError = NotFound | ProfileMissing

  // ===== cambiar_estado_solicitud =====

  /** A request after `cambiar_estado_solicitud(pk, estado)`. */
  function EstadoTras(s: Solicitud, estado: string): (t: Solicitud)
    ensures t == s.(estado := t.estado)
    ensures estado == "APROBADO" || estado == "RECHAZADO" ==> t.estado == estado
    ensures t.estado != s.estado ==> t.estado == estado && (estado == "APROBADO" || estado == "RECHAZADO")
  {
    if estado == "APROBADO" || estado == "RECHAZADO" then s.(estado := estado) else s
  }

  /**
   * The current state is not consulted: an approved request can be rejected
   * and a rejected one approved, and any other requested value is ignored.
   */
  lemma EstadoNotTerminal(s: Solicitud)
    ensures EstadoTras(EstadoTras(s, "APROBADO"), "RECHAZADO").estado == "RECHAZADO"
    ensures EstadoTras(EstadoTras(s, "RECHAZADO"), "APROBADO").estado == "APROBADO"
    ensures EstadoTras(s, "PENDIENTE") == s
  {
  }

  /** Repeating the same change changes nothing more. */
  lemma EstadoTrasIdempotent(s: Solicitud, estado: string)
    ensures EstadoTras(EstadoTras(s, estado), estado) == EstadoTras(s, estado)
  {
  }

  /** `cambiar_estado_solicitud`: a missing request is a 404; otherwise the state is saved. */
  method CambiarEstadoSolicitud(db: Database, pk: int, estado: string) returns (r: Result<Solicitud, ViewError>)
    requires db.Valid()
    modifies db`solicitudes
    ensures db.Valid()
    ensures pk !in old(db.solicitudes) ==> r == Err(NotFound) && db.solicitudes == old(db.solicitudes)
    ensures pk in old(db.solicitudes) ==>
      && r == Ok(EstadoTras(old(db.solicitudes)[pk], estado))
      && db.solicitudes == old(db.solicitudes)[pk := r.value]
  {
    if pk !in db.solicitudes {
      return Err(NotFound);
    }
    var solicitud := db.solicitudes[pk];
    if estado == "APROBADO" || estado == "RECHAZADO" {
      solicitud := solicitud.(estado := estado);
      assert SolicitudRefsOk(db.solicitudes[pk], db.productores, db.marcas);
      db.SaveSolicitud(pk, solicitud);
    }
    return Ok(solicitud);
  }

  // ===== register_view =====

  /**
   * The outcomes of `register_view` that create nothing. `UsernameNotSet` is
   * the `ValueError` that `create_user` raises for an empty username, after
   * the view's own three checks have passed.
   */
  datatype RegisterError = PasswordMismatch | UsernameExists | EmailExists | UsernameNotSet

  /** The checks of `register_view`, in order; None when all pass. */
  function RegisterCheck(users: map<int, User>, username: string, email: string,
                         password: string, password2: string): (r: Option<RegisterError>)
    ensures r == Some(PasswordMismatch) <==> password != password2
    ensures r == Some(UsernameExists) <==> password == password2 && UsernameTaken(users, username)
    ensures r == Some(EmailExists) <==>
      password == password2 && !UsernameTaken(users, username) && EmailTaken(users, email)
    ensures r.None? <==>
      password == password2 && !UsernameTaken(users, username) && !EmailTaken(users, email)
  {
    if password != password2 then Some(PasswordMismatch)
    else if exists k :: k in users && users[k].username == username then Some(UsernameExists)
    else if exists k :: k in users && users[k].email == email then Some(EmailExists)
    else None
  }

  // ----- BaseUserManager.normalize_email, applied by create_user -----

  /** No '@' at position `from` or later. */
  predicate NoAt(s: string, from: nat) {
    forall i :: from <= i < |s| ==> s[i] != '@'
  }

  /** Dropping a last character that is not '@' keeps the answer. */
  lemma NoAtInit(s: string, from: nat)
    requires |s| > 0 && s[|s| - 1] != '@'
    ensures NoAt(s, from) <==> NoAt(s[..|s| - 1], from)
  {
    var t := s[..|s| - 1];
    assert forall i :: 0 <= i < |t| ==> t[i] == s[i];
  }

  /** The position `rsplit("@", 1)` splits at: the last '@', if any. */
  function LastAt(s: string): (r: Option<nat>)
    ensures r.None? <==> NoAt(s, 0)
    ensures r.Some? ==> r.value < |s| && s[r.value] == '@' && NoAt(s, r.value + 1)
  {
    if s == [] then None
    else if s[|s| - 1] == '@' then Some(|s| - 1)
    else
      var r := LastAt(s[..|s| - 1]);
      NoAtInit(s, 0);
      if r.Some? then NoAtInit(s, r.value + 1); r else r
  }

  /** A string whose position `a` is '@' and which has none after it splits at `a`. */
  lemma LastAtSplit(s: string, a: nat)
    requires a < |s| && s[a] == '@' && NoAt(s, a + 1)
    ensures LastAt(s) == Some(a)
  {
    if a < |s| - 1 {
      NoAtInit(s, a + 1);
      LastAtSplit(s[..|s| - 1], a);
    }
  }

  /** `email_name + "@" + domain_part.lower()` for the split at position `a`. */
  function LowerAfter(s: string, a: nat): (r: string)
    requires a < |s|
    ensures |r| == |s| && r[..a + 1] == s[..a + 1]
    ensures forall i :: a < i < |s| ==> r[i] == ToLower(s[i])
  {
    s[..a + 1] + LowerStr(s[a + 1..])
  }

  /** Lower-casing the domain keeps the split point, and leaves the string equal up to case. */
  lemma LowerAfterSplit(s: string, a: nat)
    requires a < |s| && s[a] == '@' && NoAt(s, a + 1)
    ensures LastAt(LowerAfter(s, a)) == Some(a)
    ensures LowerStr(LowerAfter(s, a)) == LowerStr(s)
    ensures var r := LowerAfter(s, a); LowerStr(r[a..]) == r[a..]
  {
    LowerAfterAt(s, a);
    LowerAfterUpToCase(s, a);
    LowerAfterDomainLower(s, a);
  }

  lemma LowerAfterAt(s: string, a: nat)
    requires a < |s| && s[a] == '@' && NoAt(s, a + 1)
    ensures LastAt(LowerAfter(s, a)) == Some(a)
  {
    var r := LowerAfter(s, a);
    assert r[a] == r[..a + 1][a];
    assert NoAt(r, a + 1) by {
      forall i | a < i < |r| ensures r[i] != '@' {
        assert r[i] == ToLower(s[i]);
      }
    }
    LastAtSplit(r, a);
  }

  lemma LowerAfterUpToCase(s: string, a: nat)
    requires a < |s|
    ensures LowerStr(LowerAfter(s, a)) == LowerStr(s)
  {
    var r := LowerAfter(s, a);
    forall i | 0 <= i < |r| ensures LowerStr(r)[i] == LowerStr(s)[i] {
      if i > a { CaseLowerTwice(s[i]); } else { assert r[i] == r[..a + 1][i]; }
    }
  }

  lemma LowerAfterDomainLower(s: string, a: nat)
    requires a < |s| && s[a] == '@'
    ensures var r := LowerAfter(s, a); LowerStr(r[a..]) == r[a..]
  {
    var r := LowerAfter(s, a);
    var d := r[a..];
    forall j | 0 <= j < |d| ensures LowerStr(d)[j] == d[j] {
      if j > 0 { CaseLowerTwice(s[a + j]); } else { assert r[a] == r[..a + 1][a]; }
    }
  }

  /** Stripping removes only whitespace, so it keeps every '@'. */
  lemma StripKeepsAt(email: string)
    ensures NoAt(Strip(email), 0) <==> NoAt(email, 0)
  {
    var s := Strip(email);
    var a := StripStart(email);
    if !NoAt(email, 0) {
      var i :| 0 <= i < |email| && email[i] == '@';
      assert !IsSpace(email[i]);
      assert s[i - a] == '@';
    }
  }

  /**
   * The address `create_user` stores: one holding an '@' is stripped and
   * the part after its last '@' lower-cased; one without an '@' is kept
   * exactly as given.
   */
  function NormalizeUserEmail(email: string): (r: string)
    ensures NoAt(email, 0) ==> r == email
    ensures !NoAt(email, 0) ==>
      && LastAt(r).Some? && LastAt(r) == LastAt(Strip(email))
      && r[..LastAt(r).value] == Strip(email)[..LastAt(r).value]
      && LowerStr(r) == LowerStr(Strip(email))
      && LowerStr(r[LastAt(r).value..]) == r[LastAt(r).value..]
  {
    StripKeepsAt(email);
    var s := Strip(email);
    var at := LastAt(s);
    if at.None? then email
    else
      LowerAfterSplit(s, at.value);
      assert LowerAfter(s, at.value)[..at.value] == LowerAfter(s, at.value)[..at.value + 1][..at.value];
      LowerAfter(s, at.value)
  }

  lemma CaseLowerTwice(c: char)
    ensures ToLower(ToLower(c)) == ToLower(c)
  {
    CaseRoundTrips(c);
  }

  /** Lower-casing the domain a second time changes nothing. */
  lemma LowerAfterTwice(s: string, a: nat)
    requires a < |s|
    ensures LowerAfter(LowerAfter(s, a), a) == LowerAfter(s, a)
  {
    var r := LowerAfter(s, a);
    var r2 := LowerAfter(r, a);
    forall i | 0 <= i < |r| ensures r2[i] == r[i] {
      if i > a { CaseLowerTwice(s[i]); } else { assert r2[i] == r2[..a + 1][i] == r[..a + 1][i]; }
    }
  }

  /** Normalising a stored address again changes nothing. */
  lemma NormalizeUserEmailIdempotent(email: string)
    ensures NormalizeUserEmail(NormalizeUserEmail(email)) == NormalizeUserEmail(email)
  {
    StripKeepsAt(email);
    var s := Strip(email);
    if LastAt(s).Some? {
      var a := LastAt(s).value;
      var r := LowerAfter(s, a);
      assert NormalizeUserEmail(email) == r;
      LowerAfterAt(s, a);
      assert r[0] == r[..a + 1][0] == s[0];
      assert !IsSpace(r[|r| - 1]) by {
        if a < |r| - 1 { assert r[|r| - 1] == ToLower(s[|s| - 1]); }
        else { assert r[a] == r[..a + 1][a]; }
      }
      StripTrimmed(r);
      LowerAfterTwice(s, a);
      assert !NoAt(r, 0) by { assert r[a] == r[..a + 1][a]; }
      StripKeepsAt(r);
      assert NormalizeUserEmail(r) == LowerAfter(r, a);
    }
  }

  /** The domain of "ana@Campo.com" is lower-cased; its local part is kept. */
  lemma NormalizeUserEmailExample()
    ensures NormalizeUserEmail("ana@Campo.com") == "ana@campo.com"
  {
    ExampleSplit();
    ExampleLowered();
  }

  lemma ExampleSplit()
    ensures Strip("ana@Campo.com") == "ana@Campo.com"
    ensures LastAt("ana@Campo.com") == Some(3)
  {
    var e := "ana@Campo.com";
    StripTrimmed(e);
    assert NoAt(e, 4);
    LastAtSplit(e, 3);
  }

  lemma ExampleLowered()
    ensures LowerAfter("ana@Campo.com", 3) == "ana@campo.com"
  {
    var e := "ana@Campo.com";
    assert e[..4] == "ana@" && e[4..] == "Campo.com";
    var l := LowerStr("Campo.com");
    forall i | 0 <= i < 9 ensures l[i] == "campo.com"[i] {}
  }

  /**
   * The e-mail test of `register_view` compares the address as submitted
   * with the stored, normalised ones: once "ana@Campo.com" has registered,
   * "ana@campo.com" is refused.
   */
  lemma RegisterSeesNormalisedEmail(k: int)
    ensures RegisterCheck(map[k := User("ana", NormalizeUserEmail("ana@Campo.com"), "", "")],
                          "beto", "ana@campo.com", "x", "x") == Some(EmailExists)
  {
    NormalizeUserEmailExample();
    var users := map[k := User("ana", "ana@campo.com", "", "")];
    assert users[k].email == "ana@campo.com";
    assert !UsernameTaken(users, "beto") by { assert users[k].username[0] != "beto"[0]; }
  }

  /**
   * `register_view` on a POST: a failed check, or an empty username that
   * `create_user` refuses, creates nothing; success creates
   * exactly one user, with its address normalised, and its profile with role
   * "inspector".
   */
  method RegisterView(db: Database, username: string, email: string, password: string,
                      password2: string, firstName: string, lastName: string)
    returns (r: Result<int, RegisterError>)
    requires db.Valid()
    modifies db
    ensures db.Valid()
    ensures old(RegisterCheck(db.users, username, email, password, password2)).Some? ==>
      && r == Err(old(RegisterCheck(db.users, username, email, password, password2)).value)
      && db.users == old(db.users) && db.profiles == old(db.profiles)
    ensures old(RegisterCheck(db.users, username, email, password, password2)).None? && username == [] ==>
      && r == Err(UsernameNotSet)
      && db.users == old(db.users) && db.profiles == old(db.profiles)
    ensures old(RegisterCheck(db.users, username, email, password, password2)).None? && username != [] ==>
      && r.Ok? && r.value !in old(db.users)
      && db.users == old(db.users)[r.value := User(username, NormalizeUserEmail(email), firstName, lastName)]
      && db.profiles == old(db.profiles)[r.value := UserProfile("inspector", None)]
    ensures db.productores == old(db.productores) && db.campos == old(db.campos)
    ensures db.marcas == old(db.marcas) && db.solicitudes == old(db.solicitudes)
    ensures db.tipos == old(db.tipos) && db.imagenes == old(db.imagenes)
  {
    var check := RegisterCheck(db.users, username, email, password, password2);
    if check.Some? {
      return Err(check.value);
    }
    if username == [] {
      return Err(UsernameNotSet);
    }
    var u := db.InsertUser(User(username, NormalizeUserEmail(email), firstName, lastName));
    assert u.Ok?;
    var pk := u.value;
    var p := db.InsertProfile(pk, UserProfile("inspector", None));
    assert p.Ok?;
    return Ok(pk);
  }

  // ===== role tests =====

  /** `EsEmpleadoOMas.test_func`; a user without a profile makes `get` raise. */
  function EsEmpleadoOMas(profiles: map<int, UserProfile>, user: int): (r: Result<bool, ViewError>)
    ensures r.Err? <==> user !in profiles
    ensures r == Ok(true) <==> user in profiles && (profiles[user].rol == "admin" || profiles[user].rol == "empleado")
  {
    if user !in profiles then Err(ProfileMissing)
    else Ok(profiles[user].rol == "admin" || profiles[user].rol == "empleado")
  }

  /** `EliminarProductorView.test_func`: administrators only. */
  function PuedeEliminarProductor(profiles: map<int, UserProfile>, user: int): (r: Result<bool, ViewError>)
    ensures r.Err? <==> user !in profiles
    ensures r == Ok(true) <==> user in profiles && EsAdministrador(profiles[user])
  {
    if user !in profiles then Err(ProfileMissing) else Ok(profiles[user].rol == "admin")
  }

  /** Whoever may delete a producer also passes the employee test. */
  lemma DeletersAreEmployees(profiles: map<int, UserProfile>, user: int)
    requires PuedeEliminarProductor(profiles, user) == Ok(true)
    ensures EsEmpleadoOMas(profiles, user) == Ok(true)
  {
  }

  /** A self-registered user (an inspector) passes neither test; a default profile passes only the first. */
  lemma RolesOfNewProfiles(profiles: map<int, UserProfile>, user: int)
    ensures EsEmpleadoOMas(profiles[user := UserProfile("inspector", None)], user) == Ok(false)
    ensures PuedeEliminarProductor(profiles[user := UserProfile("inspector", None)], user) == Ok(false)
    ensures EsEmpleadoOMas(profiles[user := NewUserProfile()], user) == Ok(true)
    ensures PuedeEliminarProductor(profiles[user := NewUserProfile()], user) == Ok(false)
  {
  }

  // ===== producer lists =====

  /** `field__icontains=needle` on a nullable column: NULL never matches. */
  predicate OptIContains(o: Option<string>, needle: string) {
    o.Some? && IContains(o.value, needle)
  }

  /** The GET parameters of `lista_productores`; a missing one is "". */
  datatype ListaParams = ListaParams(q: string, estado: string, localidad: string, departamento: string)

  predicate QueryMatch(p: Productor, q: string) {
    IContains(p.nombre, q) || IContains(p.apellido, q) || IContains(p.dni, q) || OptIContains(p.campo, q)
  }

  predicate QStep(f: ListaParams, p: Productor) { f.q == "" || QueryMatch(p, f.q) }
  predicate EstadoStep(f: ListaParams, p: Productor) { f.estado == "" || p.estado == f.estado }
  predicate LocalidadStep(f: ListaParams, p: Productor) { f.localidad == "" || OptIContains(p.localidad, f.localidad) }
  predicate DepartamentoStep(f: ListaParams, p: Productor) {
    f.departamento == "" || OptIContains(p.departamento, f.departamento)
  }

  /** A producer is listed iff it passes every non-empty parameter. */
  predicate ListaMatch(f: ListaParams, p: Productor) {
    QStep(f, p) && EstadoStep(f, p) && LocalidadStep(f, p) && DepartamentoStep(f, p)
  }

  /** The rows `lista_productores` shows, in the query set's order. */
  function ListaSpec(all: seq<Row<Productor>>, f: ListaParams): seq<Row<Productor>> {
    Filter(all, (x: Row<Productor>) => ListaMatch(f, x.rec))
  }

  /** `lista_productores`: each non-empty parameter narrows `productores` in turn. */
  method ListaProductores(all: seq<Row<Productor>>, f: ListaParams) returns (productores: seq<Row<Productor>>)
    ensures productores == ListaSpec(all, f)
  {
    var s1 := (x: Row<Productor>) => QStep(f, x.rec);
    var s2 := (x: Row<Productor>) => QStep(f, x.rec) && EstadoStep(f, x.rec);
    var s3 := (x: Row<Productor>) => QStep(f, x.rec) && EstadoStep(f, x.rec) && LocalidadStep(f, x.rec);
    var s4 := (x: Row<Productor>) => ListaMatch(f, x.rec);
    productores := all;
    if f.q != "" {
      productores := Filter(productores, (x: Row<Productor>) => QueryMatch(x.rec, f.q));
      FilterAllPass(all, (x: Row<Productor>) => true);
      FilterNarrow(all, (x: Row<Productor>) => true, (x: Row<Productor>) => QueryMatch(x.rec, f.q), s1);
    } else {
      FilterAllPass(all, s1);
    }
    assert productores == Filter(all, s1);
    if f.estado != "" {
      productores := Filter(productores, (x: Row<Productor>) => x.rec.estado == f.estado);
      FilterNarrow(all, s1, (x: Row<Productor>) => x.rec.estado == f.estado, s2);
    } else {
      FilterExt(all, s1, s2);
    }
    assert productores == Filter(all, s2);
    if f.localidad != "" {
      productores := Filter(productores, (x: Row<Productor>) => OptIContains(x.rec.localidad, f.localidad));
      FilterNarrow(all, s2, (x: Row<Productor>) => OptIContains(x.rec.localidad, f.localidad), s3);
    } else {
      FilterExt(all, s2, s3);
    }
    assert productores == Filter(all, s3);
    if f.departamento != "" {
      productores := Filter(productores, (x: Row<Productor>) => OptIContains(x.rec.departamento, f.departamento));
      FilterNarrow(all, s3, (x: Row<Productor>) => OptIContains(x.rec.departamento, f.departamento), s4);
    } else {
      FilterExt(all, s3, s4);
    }
  }

  /** A row is listed iff it is a producer row that passes every non-empty filter. */
  lemma ListaMembers(all: seq<Row<Productor>>, f: ListaParams, x: Row<Productor>)
    ensures x in ListaSpec(all, f) <==> x in all && ListaMatch(f, x.rec)
  {
    FilterMembers(all, (x: Row<Productor>) => ListaMatch(f, x.rec), x);
  }

  /** The list only drops rows. */
  lemma ListaSubset(all: seq<Row<Productor>>, f: ListaParams)
    ensures multiset(ListaSpec(all, f)) <= multiset(all)
  {
    FilterSubMultiset(all, (x: Row<Productor>) => ListaMatch(f, x.rec));
  }

  /** With no parameters the list is every producer. */
  lemma ListaNoFilters(all: seq<Row<Productor>>)
    ensures ListaSpec(all, ListaParams("", "", "", "")) == all
  {
    FilterAllPass(all, (x: Row<Productor>) => ListaMatch(ListaParams("", "", "", ""), x.rec));
  }

  /** The model's default ordering (apellido, nombre) survives the filters. */
  lemma ListaKeepsOrder(all: seq<Row<Productor>>, f: ListaParams)
    requires SortedBy(all, ByApellidoNombre)
    ensures SortedBy(ListaSpec(all, f), ByApellidoNombre)
  {
    FilterSorted(all, (x: Row<Productor>) => ListaMatch(f, x.rec), ByApellidoNombre);
  }

  /** `order_by('apellido', 'nombre')`, comparing code points. */
  predicate ByApellidoNombre(a: Row<Productor>, b: Row<Productor>) {
    if a.rec.apellido == b.rec.apellido then LexLe(a.rec.nombre, b.rec.nombre)
    else LexLe(a.rec.apellido, b.rec.apellido)
  }

  lemma ByApellidoNombreOrder()
    ensures IsTotalPreorder(ByApellidoNombre)
  {
    forall x: Row<Productor>, y: Row<Productor> ensures ByApellidoNombre(x, y) || ByApellidoNombre(y, x) {
      LexLeTotal(x.rec.apellido, y.rec.apellido);
      LexLeTotal(x.rec.nombre, y.rec.nombre);
    }
    forall x: Row<Productor>, y: Row<Productor>, z: Row<Productor> |
      ByApellidoNombre(x, y) && ByApellidoNombre(y, z)
      ensures ByApellidoNombre(x, z)
    {
      var a, b, c := x.rec.apellido, y.rec.apellido, z.rec.apellido;
      if a == b && b == c {
        LexLeTransitive(x.rec.nombre, y.rec.nombre, z.rec.nombre);
      } else if a != b && b != c {
        LexLeTransitive(a, b, c);
        if a == c {
          LexLeAntisymmetric(a, b);
        }
      }
    }
  }

  /** The GET parameters of `ListaProductoresView`; a missing one is "". */
  datatype QuerysetParams = QuerysetParams(nombre: string, dni: string, localidad: string, estado: string)

  predicate QuerysetMatch(f: QuerysetParams, p: Productor) {
    && (f.nombre == "" || IContains(p.nombre, f.nombre) || IContains(p.apellido, f.nombre))
    && (f.dni == "" || IContains(p.dni, f.dni))
    && (f.localidad == "" || OptIContains(p.localidad, f.localidad))
    && (f.estado == "" || p.estado == f.estado)
  }

  function QuerysetSpec(all: seq<Row<Productor>>, f: QuerysetParams): seq<Row<Productor>> {
    Filter(all, (x: Row<Productor>) => QuerysetMatch(f, x.rec))
  }

  /**
   * `ListaProductoresView.get_queryset`: the filtered producers, reordered by
   * (apellido, nombre).  Producers with equal names may come in any order.
   */
  method GetQueryset(all: seq<Row<Productor>>, f: QuerysetParams) returns (queryset: seq<Row<Productor>>)
    ensures multiset(queryset) == multiset(QuerysetSpec(all, f))
    ensures SortedBy(queryset, ByApellidoNombre)
  {
    var t1 := (x: Row<Productor>) => f.nombre == "" || IContains(x.rec.nombre, f.nombre) || IContains(x.rec.apellido, f.nombre);
    var t2 := (x: Row<Productor>) => t1(x) && (f.dni == "" || IContains(x.rec.dni, f.dni));
    var t3 := (x: Row<Productor>) => t2(x) && (f.localidad == "" || OptIContains(x.rec.localidad, f.localidad));
    var t4 := (x: Row<Productor>) => QuerysetMatch(f, x.rec);
    queryset := all;
    if f.nombre != "" {
      queryset := Filter(queryset, (x: Row<Productor>) => IContains(x.rec.nombre, f.nombre) || IContains(x.rec.apellido, f.nombre));
      FilterExt(all, (x: Row<Productor>) => IContains(x.rec.nombre, f.nombre) || IContains(x.rec.apellido, f.nombre), t1);
    } else {
      FilterAllPass(all, t1);
    }
    assert queryset == Filter(all, t1);
    if f.dni != "" {
      queryset := Filter(queryset, (x: Row<Productor>) => IContains(x.rec.dni, f.dni));
      FilterNarrow(all, t1, (x: Row<Productor>) => IContains(x.rec.dni, f.dni), t2);
    } else {
      FilterExt(all, t1, t2);
    }
    assert queryset == Filter(all, t2);
    if f.localidad != "" {
      queryset := Filter(queryset, (x: Row<Productor>) => OptIContains(x.rec.localidad, f.localidad));
      FilterNarrow(all, t2, (x: Row<Productor>) => OptIContains(x.rec.localidad, f.localidad), t3);
    } else {
      FilterExt(all, t2, t3);
    }
    assert queryset == Filter(all, t3);
    if f.estado != "" {
      queryset := Filter(queryset, (x: Row<Productor>) => x.rec.estado == f.estado);
      FilterNarrow(all, t3, (x: Row<Productor>) => x.rec.estado == f.estado, t4);
    } else {
      FilterExt(all, t3, t4);
    }
    assert queryset == QuerysetSpec(all, f);
    ByApellidoNombreOrder();
    queryset := SortBy(queryset, ByApellidoNombre);
  }

  /** A row is in the view's list iff it passes every non-empty filter. */
  lemma QuerysetMembers(all: seq<Row<Productor>>, f: QuerysetParams, x: Row<Productor>)
    ensures x in QuerysetSpec(all, f) <==> x in all && QuerysetMatch(f, x.rec)
  {
    FilterMembers(all, (x: Row<Productor>) => QuerysetMatch(f, x.rec), x);
  }

  // ===== home dashboard windows =====

  const SecondsPerDay := 86400

  predicate BySolicitudReciente(a: Row<Solicitud>, b: Row<Solicitud>) {
    a.rec.fechaSolicitud >= b.rec.fechaSolicitud
  }

  lemma BySolicitudRecienteOrder()
    ensures IsTotalPreorder(BySolicitudReciente)
  {
  }

  /** `Solicitud.objects.order_by('-fecha_solicitud')[:10]`. */
  function UltimasSolicitudes(solicitudes: seq<Row<Solicitud>>): (r: seq<Row<Solicitud>>)
    ensures |r| == if |solicitudes| < 10 then |solicitudes| else 10
    ensures multiset(r) <= multiset(solicitudes)
    ensures SortedBy(r, BySolicitudReciente)
    ensures forall x, y :: x in r && y in multiset(solicitudes) - multiset(r) ==> BySolicitudReciente(x, y)
  {
    BySolicitudRecienteOrder();
    Smallest(solicitudes, BySolicitudReciente, 10)
  }

  predicate ByRegistroReciente(a: Row<Productor>, b: Row<Productor>) {
    a.rec.fechaRegistro >= b.rec.fechaRegistro
  }

  lemma ByRegistroRecienteOrder()
    ensures IsTotalPreorder(ByRegistroReciente)
  {
  }

  /** Registered at or after `ahora` minus seven days (`fecha_registro__gte`). */
  predicate Reciente(ahora: int, x: Row<Productor>) {
    x.rec.fechaRegistro >= ahora - 7 * SecondsPerDay
  }

  /**
   * The dashboard's recent producers: registered in the last seven days,
   * newest first, at most five, and none newer left out.
   */
  function ProductoresRecientes(productores: seq<Row<Productor>>, ahora: int): (r: seq<Row<Productor>>)
    ensures |r| <= 5
    ensures multiset(r) <= multiset(productores)
    ensures forall x :: x in r ==> x in productores && Reciente(ahora, x)
    ensures SortedBy(r, ByRegistroReciente)
    ensures |r| < 5 ==> forall y :: y in productores && Reciente(ahora, y) ==> y in r
    ensures forall x, y :: x in r && y in productores && Reciente(ahora, y) && y !in r ==>
      ByRegistroReciente(x, y)
  {
    var keep := (x: Row<Productor>) => Reciente(ahora, x);
    ByRegistroRecienteOrder();
    WindowSpec(productores, keep, ByRegistroReciente, 5);
    Smallest(Filter(productores, keep), ByRegistroReciente, 5)
  }

  function Vencimiento(x: Row<MarcaSenal>): int {
    if x.rec.fechaVencimiento.Some? then x.rec.fechaVencimiento.value else 0
  }

  predicate ByVencimiento(a: Row<MarcaSenal>, b: Row<MarcaSenal>) {
    Vencimiento(a) <= Vencimiento(b)
  }

  lemma ByVencimientoOrder()
    ensures IsTotalPreorder(ByVencimiento)
  {
  }

  /** A VIGENTE mark expiring between today and thirty days from today, inclusive. */
  predicate PorVencer(hoy: int, x: Row<MarcaSenal>) {
    && x.rec.estado == "VIGENTE"
    && x.rec.fechaVencimiento.Some?
    && hoy <= x.rec.fechaVencimiento.value <= hoy + 30
  }

  /**
   * The dashboard's marks about to expire: soonest first, at most five, and
   * none expiring sooner left out.
   */
  function MarcasPorVencer(marcas: seq<Row<MarcaSenal>>, hoy: int): (r: seq<Row<MarcaSenal>>)
    ensures |r| <= 5
    ensures multiset(r) <= multiset(marcas)
    ensures forall x :: x in r ==> x in marcas && PorVencer(hoy, x)
    ensures SortedBy(r, ByVencimiento)
    ensures |r| < 5 ==> forall y :: y in marcas && PorVencer(hoy, y) ==> y in r
    ensures forall x, y :: x in r && y in marcas && PorVencer(hoy, y) && y !in r ==> ByVencimiento(x, y)
  {
    var keep := (x: Row<MarcaSenal>) => PorVencer(hoy, x);
    ByVencimientoOrder();
    WindowSpec(marcas, keep, ByVencimiento, 5);
    Smallest(Filter(marcas, keep), ByVencimiento, 5)
  }

  // ===== GeoJSON and map points =====

  predicate Located(x: Row<Productor>) { x.rec.latitud.Some? && x.rec.longitud.Some? }

  /** The map views also drop coordinates equal to zero (a truthiness test). */
  predicate OnMap(x: Row<Productor>) {
    Located(x) && x.rec.latitud.value != 0 && x.rec.longitud.value != 0
  }

  function OrZero(o: Option<int>): int { if o.Some? then o.value else 0 }

  /** A GeoJSON Point feature with the producer's properties. */
  datatype Feature = Feature(
    coordinates: seq<int>, id: int, nombre: string, dni: string, estado: string,
    areaHectareas: int, detalleUrl: string)

  /** One feature of `api_productores_geojson`. */
  function GeoFeature(x: Row<Productor>): (f: Feature)
    ensures Located(x) ==> f.coordinates == [x.rec.longitud.value, x.rec.latitud.value]
    ensures f.areaHectareas == 0 <==> x.rec.areaHectareas.None? || x.rec.areaHectareas.value == 0
    ensures f.nombre == NombreCompleto(x.rec) && f.id == x.id
  {
    Feature(
      [OrZero(x.rec.longitud), OrZero(x.rec.latitud)],
      x.id, NombreCompleto(x.rec), x.rec.dni, x.rec.estado,
      if x.rec.areaHectareas.Some? && x.rec.areaHectareas.value != 0 then x.rec.areaHectareas.value else 0,
      "/productores/" + IntToString(x.id) + "/")
  }

  function GeoFeatures(productores: seq<Row<Productor>>): seq<Feature> {
    MapSeq(Filter(productores, Located), GeoFeature)
  }

  /** `api_productores_geojson`: one feature per producer with both coordinates. */
  method ApiProductoresGeojson(productores: seq<Row<Productor>>) returns (features: seq<Feature>)
    ensures features == GeoFeatures(productores)
  {
    features := [];
    var i := 0;
    while i < |productores|
      invariant 0 <= i <= |productores|
      invariant features == GeoFeatures(productores[..i])
    {
      var p := productores[i];
      FilterMapSnoc(productores[..i], p, Located, GeoFeature);
      assert productores[..i + 1] == productores[..i] + [p];
      if Located(p) {
        features := features + [GeoFeature(p)];
      }
      i := i + 1;
    }
    assert productores[..i] == productores;
  }

  /** `'green' if p.estado == 'REGISTRADO' else 'orange'`. */
  function MarkerColor(estado: string): (c: string)
    ensures c == "green" <==> estado == "REGISTRADO"
    ensures c == "green" || c == "orange"
  {
    if estado == "REGISTRADO" then "green" else "orange"
  }

  /** `get_estado_display()`: the choice's label, or the stored value when it is no choice. */
  function EstadoDisplay(estado: string): (d: string)
    ensures forall k :: 0 <= k < |EstadoProductorChoices| && estado == EstadoProductorChoices[k] ==>
      d == EstadoProductorLabels[k]
    ensures estado !in EstadoProductorChoices ==> d == estado
  {
    if estado == "PENDIENTE" then "Pendiente"
    else if estado == "REGISTRADO" then "Registrado"
    else if estado == "RENOVACION" then "Renovación"
    else if estado == "TRANSFERENCIA" then "Transferencia"
    else estado
  }

  /** A marker of `MapaProductoresView`. */
  datatype PuntoMapa = PuntoMapa(
    id: int, nombre: string, dni: string, localidad: Option<string>, estado: string,
    lat: int, lng: int, color: string)

  function ToPunto(x: Row<Productor>): (p: PuntoMapa)
    ensures p.color == MarkerColor(x.rec.estado) && p.id == x.id
  {
    PuntoMapa(x.id, NombreCompleto(x.rec), x.rec.dni, x.rec.localidad, EstadoDisplay(x.rec.estado),
      OrZero(x.rec.latitud), OrZero(x.rec.longitud), MarkerColor(x.rec.estado))
  }

  function PuntosMapaSpec(productores: seq<Row<Productor>>): seq<PuntoMapa> {
    MapSeq(Filter(productores, OnMap), ToPunto)
  }

  /** `MapaProductoresView.get_context_data`: one marker per producer on the map. */
  method PuntosMapa(productores: seq<Row<Productor>>) returns (puntos: seq<PuntoMapa>)
    ensures puntos == PuntosMapaSpec(productores)
  {
    puntos := [];
    var i := 0;
    while i < |productores|
      invariant 0 <= i <= |productores|
      invariant puntos == PuntosMapaSpec(productores[..i])
    {
      var p := productores[i];
      FilterMapSnoc(productores[..i], p, OnMap, ToPunto);
      assert productores[..i + 1] == productores[..i] + [p];
      if p.rec.latitud.Some? && p.rec.longitud.Some? && p.rec.latitud.value != 0 && p.rec.longitud.value != 0 {
        puntos := puntos + [ToPunto(p)];
      }
      i := i + 1;
    }
    assert productores[..i] == productores;
  }

  /** A feature of `get_puntos_mapa_json`. */
  datatype MapFeature = MapFeature(
    coordinates: seq<int>, id: int, nombre: string, dni: string, localidad: Option<string>,
    estado: string, estadoDisplay: string, color: string)

  function ToMapFeature(x: Row<Productor>): (f: MapFeature)
    ensures Located(x) ==> f.coordinates == [x.rec.longitud.value, x.rec.latitud.value]
    ensures f.color == MarkerColor(x.rec.estado) && f.id == x.id
  {
    MapFeature([OrZero(x.rec.longitud), OrZero(x.rec.latitud)], x.id, NombreCompleto(x.rec), x.rec.dni,
      x.rec.localidad, x.rec.estado, EstadoDisplay(x.rec.estado), MarkerColor(x.rec.estado))
  }

  function MapFeaturesSpec(productores: seq<Row<Productor>>): seq<MapFeature> {
    MapSeq(Filter(productores, OnMap), ToMapFeature)
  }

  /** `get_puntos_mapa_json`: the same producers as the map, as GeoJSON features. */
  method PuntosMapaJson(productores: seq<Row<Productor>>) returns (features: seq<MapFeature>)
    ensures features == MapFeaturesSpec(productores)
  {
    features := [];
    var i := 0;
    while i < |productores|
      invariant 0 <= i <= |productores|
      invariant features == MapFeaturesSpec(productores[..i])
    {
      var p := productores[i];
      FilterMapSnoc(productores[..i], p, OnMap, ToMapFeature);
      assert productores[..i + 1] == productores[..i] + [p];
      if p.rec.latitud.Some? && p.rec.longitud.Some? && p.rec.latitud.value != 0 && p.rec.longitud.value != 0 {
        features := features + [ToMapFeature(p)];
      }
      i := i + 1;
    }
    assert productores[..i] == productores;
  }

  /** The map's producers are the GeoJSON's producers minus those with a zero coordinate. */
  lemma MapWithinGeojson(productores: seq<Row<Productor>>)
    ensures Filter(Filter(productores, Located), NonZeroCoordinates) == Filter(productores, OnMap)
    ensures |PuntosMapaSpec(productores)| <= |GeoFeatures(productores)|
    ensures |MapFeaturesSpec(productores)| == |PuntosMapaSpec(productores)|
  {
    FilterNarrow(productores, Located, NonZeroCoordinates, OnMap);
  }

  predicate NonZeroCoordinates(x: Row<Productor>) {
    OrZero(x.rec.latitud) != 0 && OrZero(x.rec.longitud) != 0
  }

  /** A producer on the equator gets a GeoJSON feature but no map marker. */
  lemma ZeroLatitudeOnlyInGeojson(x: Row<Productor>)
    requires x.rec.latitud == Some(0) && x.rec.longitud.Some?
    ensures GeoFeatures([x]) == [GeoFeature(x)]
    ensures GeoFeatures([x])[0].coordinates == [x.rec.longitud.value, 0]
    ensures PuntosMapaSpec([x]) == [] && MapFeaturesSpec([x]) == []
  {
    FilterHead([x], Located);
    FilterHead([x], OnMap);
    assert [x][1..] == [];
  }
}
