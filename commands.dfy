/**
 * The two management commands of `app_registros`: `migrar_campos` gives
 * every producer without a parcel one default `Campo`, and
 * `cargar_datos_iniciales` seeds the ear-mark types with `get_or_create`.
 * Both are loops of inserts into the `Database` tables; the lines they print
 * are left out.
 */
module Commands {
  import opened Wrappers
  import opened Text
  import opened Sequences
  import opened Models
  import opened Registry

  // ===== migrar_campos =====

  const SinEspecificar := "Sin especificar"

  /** `productor.campos.exists()`. */
  predicate HasCampo(campos: map<int, Campo>, productor: int) {
    exists k :: k in campos && campos[k].productor == productor
  }

  /** A new parcel gives its own producer a parcel and changes no other producer's test. */
  lemma HasCampoInsert(campos: map<int, Campo>, k: int, c: Campo, q: int)
    requires k !in campos
    ensures HasCampo(campos[k := c], q) <==> HasCampo(campos, q) || c.productor == q
  {
    if HasCampo(campos, q) {
      var j :| j in campos && campos[j].productor == q;
      assert j in campos[k := c] && campos[k := c][j].productor == q;
    }
    if c.productor == q { assert k in campos[k := c]; }
  }

  /** The producers the command has to give a parcel. */
  ghost function SinCampo(productores: map<int, Productor>, campos: map<int, Campo>): set<int> {
    set p | p in productores && !HasCampo(campos, p)
  }

  /** The loop's test, as a value usable with `Filter`. */
  function NeedsCampo(campos: map<int, Campo>): (keep: int -> bool)
    ensures forall p :: keep(p) == !HasCampo(campos, p)
  {
    (p: int) => !HasCampo(campos, p)
  }

  /**
   * The parcel created for producer `pk`: each blank text falls back to a
   * default, so none of the parcel's required texts is empty.
   */
  function DefaultCampo(pk: int, p: Productor): (c: Campo)
    ensures c.productor == pk
    ensures c.nombre != [] && c.distrito != [] && c.departamento != []
    ensures TextOf(p.campo) != [] ==> c.nombre == TextOf(p.campo)
    ensures TextOf(p.campo) == [] ==>
      && StartsWith(c.nombre, "Campo de " + p.nombre + " ") && EndsWith(c.nombre, " " + p.apellido)
      && |c.nombre| == 10 + |p.nombre| + |p.apellido|
    ensures c.distrito == if TextOf(p.localidad) != [] then TextOf(p.localidad) else SinEspecificar
    ensures c.departamento == if TextOf(p.departamento) != [] then TextOf(p.departamento) else SinEspecificar
    ensures c.areaHectareas.Some? && (p.areaHectareas.Some? ==> c.areaHectareas == p.areaHectareas)
    ensures p.areaHectareas.None? ==> c.areaHectareas == Some(0)
    ensures c.latitud == p.latitud && c.longitud == p.longitud
  {
    var nombre := if TextOf(p.campo) != [] then TextOf(p.campo) else "Campo de " + p.nombre + " " + p.apellido;
    assert TextOf(p.campo) == [] ==>
      nombre[..10 + |p.nombre|] == "Campo de " + p.nombre + " " && nombre[|nombre| - |p.apellido| - 1..] == " " + p.apellido;
    Campo(
      nombre,
      pk,
      if p.areaHectareas.Some? then p.areaHectareas else Some(0),
      if TextOf(p.localidad) != [] then TextOf(p.localidad) else SinEspecificar,
      if TextOf(p.departamento) != [] then TextOf(p.departamento) else SinEspecificar,
      p.latitud,
      p.longitud,
      "")
  }

  /**
   * The fallback parcel name fits `Campo.nombre` iff the producer's two
   * names together leave room for the ten characters "Campo de " and the
   * separating space.
   */
  lemma FallbackNameWidth(pk: int, p: Productor)
    requires TextOf(p.campo) == []
    ensures |DefaultCampo(pk, p).nombre| <= CampoNombreMaxLength <==>
            |p.nombre| + |p.apellido| <= CampoNombreMaxLength - 10
  {
  }

  /** Names that fit the producer's columns can still overflow the parcel's. */
  lemma FallbackNameOverflows(pk: int, p: Productor)
    requires TextOf(p.campo) == [] && |p.nombre| == 100 && |p.apellido| == 100
    ensures |p.nombre| <= ProductorNombreMaxLength && |p.apellido| <= ProductorNombreMaxLength
    ensures |DefaultCampo(pk, p).nombre| == 210 > CampoNombreMaxLength
  {
    FallbackNameWidth(pk, p);
  }

  /** Counting the producers the loop passes over without a parcel counts `SinCampo`. */
  lemma SinCampoCount(productores: map<int, Productor>, campos: map<int, Campo>, order: seq<int>)
    requires Distinct(order) && forall k :: k in order <==> k in productores
    ensures |Filter(order, NeedsCampo(campos))| == |SinCampo(productores, campos)|
  {
    var keep := NeedsCampo(campos);
    var r := Filter(order, keep);
    FilterDistinct(order, keep);
    DistinctCard(r);
    forall p ensures p in r <==> p in SinCampo(productores, campos) {
      FilterMembers(order, keep, p);
    }
    assert (set p | p in r) == SinCampo(productores, campos);
  }

  /**
   * What the migration has done once it has visited `done`: the original
   * parcels `oc` are intact, every added parcel is the default one of a
   * visited producer that had none, no producer got two, and every visited
   * producer has a parcel.
   */
  ghost predicate Migrated(oc: map<int, Campo>, cs: map<int, Campo>, ps: map<int, Productor>, done: seq<int>) {
    && (forall k :: k in oc ==> k in cs && cs[k] == oc[k])
    && (forall k :: k in cs && k !in oc ==>
         && cs[k].productor in done && cs[k].productor in ps
         && !HasCampo(oc, cs[k].productor)
         && cs[k] == DefaultCampo(cs[k].productor, ps[cs[k].productor]))
    && (forall k1, k2 ::
         (k1 in cs && k2 in cs && k1 !in oc && k2 !in oc && cs[k1].productor == cs[k2].productor) ==> k1 == k2)
    && (forall j :: 0 <= j < |done| ==> HasCampo(cs, done[j]))
  }

  /** A producer not yet visited has a parcel now exactly when it had one at the start. */
  lemma MigratedUnvisited(oc: map<int, Campo>, cs: map<int, Campo>, ps: map<int, Productor>, done: seq<int>, pk: int)
    requires Migrated(oc, cs, ps, done) && pk !in done
    ensures HasCampo(cs, pk) == HasCampo(oc, pk)
  {
    if HasCampo(cs, pk) {
      var k :| k in cs && cs[k].productor == pk;
      assert k in oc;
    }
    if HasCampo(oc, pk) {
      var k :| k in oc && oc[k].productor == pk;
      assert k in cs && cs[k].productor == pk;
    }
  }

  /** Creating the default parcel for an unvisited producer without one. */
  lemma MigratedCreate(oc: map<int, Campo>, cs: map<int, Campo>, ps: map<int, Productor>, done: seq<int>, pk: int, key: int)
    requires Migrated(oc, cs, ps, done) && pk !in done && pk in ps
    requires !HasCampo(cs, pk) && key !in cs
    ensures Migrated(oc, cs[key := DefaultCampo(pk, ps[pk])], ps, done + [pk])
  {
    MigratedUnvisited(oc, cs, ps, done, pk);
    var cs' := cs[key := DefaultCampo(pk, ps[pk])];
    var done' := done + [pk];
    assert HasCampo(cs', pk) by {
      assert cs'[key].productor == pk;
    }
    forall j | 0 <= j < |done'| ensures HasCampo(cs', done'[j]) {
      if j < |done| {
        assert done'[j] == done[j] && HasCampo(cs, done[j]);
        var k :| k in cs && cs[k].productor == done[j];
        assert k in cs' && cs'[k].productor == done'[j];
      }
    }
  }

  /** Passing over a producer that has a parcel. */
  lemma MigratedSkip(oc: map<int, Campo>, cs: map<int, Campo>, ps: map<int, Productor>, done: seq<int>, pk: int)
    requires Migrated(oc, cs, ps, done) && HasCampo(cs, pk)
    ensures Migrated(oc, cs, ps, done + [pk])
  {
    var done' := done + [pk];
    forall j | 0 <= j < |done'| ensures HasCampo(cs, done'[j]) {
      if j < |done| {
        assert done'[j] == done[j];
      }
    }
  }

  /** One turn of the loop, at `order[i]`: the parcel check and, when it fails, the `Campo.objects.create`. */
  method MigrarProductor(db: Database, ghost oc: map<int, Campo>, order: seq<int>, i: nat) returns (created: bool)
    requires i < |order| && Distinct(order) && order[i] in db.productores
    requires db.Valid() && Migrated(oc, db.campos, db.productores, order[..i])
    modifies db
    ensures db.Valid()
    ensures unchanged(db`productores, db`tipos, db`imagenes, db`marcas, db`solicitudes, db`users, db`profiles)
    ensures Migrated(oc, db.campos, db.productores, order[..i + 1])
    ensures |Filter(order[..i + 1], NeedsCampo(oc))| == |Filter(order[..i], NeedsCampo(oc))| + (if created then 1 else 0)
    ensures |db.campos| == |old(db.campos)| + (if created then 1 else 0)
  {
    var pk := order[i];
    FilterPrefixStep(order, i, NeedsCampo(oc));
    PrefixSnoc(order, i);
    DistinctPrefix(order, i);
    MigratedUnvisited(oc, db.campos, db.productores, order[..i], pk);
    if HasCampo(db.campos, pk) {
      MigratedSkip(oc, db.campos, db.productores, order[..i], pk);
      return false;
    }
    ghost var before := db.campos;
    var r := db.InsertCampo(DefaultCampo(pk, db.productores[pk]));
    assert r.Ok?;
    MigratedCreate(oc, before, db.productores, order[..i], pk, r.value);
    return true;
  }

  /** The loop of `migrar_campos` over the producers listed in `order`. */
  method MigrarEn(db: Database, order: seq<int>) returns (count: nat)
    requires db.Valid()
    requires Distinct(order) && forall k :: k in order ==> k in db.productores
    modifies db
    ensures db.Valid()
    ensures unchanged(db`productores, db`tipos, db`imagenes, db`marcas, db`solicitudes, db`users, db`profiles)
    ensures Migrated(old(db.campos), db.campos, db.productores, order)
    ensures count == |Filter(order, NeedsCampo(old(db.campos)))|
    ensures |db.campos| == |old(db.campos)| + count
  {
    ghost var oc := db.campos;
    count := 0;
    var i := 0;
    while i < |order|
      invariant 0 <= i <= |order|
      invariant db.Valid()
      invariant unchanged(db`productores, db`tipos, db`imagenes, db`marcas, db`solicitudes, db`users, db`profiles)
      invariant Migrated(oc, db.campos, db.productores, order[..i])
      invariant count == |Filter(order[..i], NeedsCampo(oc))|
      invariant |db.campos| == |oc| + count
    {
      assert order[i] in order;
      var created := MigrarProductor(db, oc, order, i);
      if created {
        count := count + 1;
      }
      i := i + 1;
    }
    assert order[..i] == order;
  }

  /**
   * `migrar_campos`: visits the producers in `order` (the query set's order)
   * and creates a default parcel for each one that has none, returning how
   * many it created.
   */
  method MigrarCampos(db: Database, order: seq<int>) returns (count: nat)
    requires db.Valid()
    requires Distinct(order) && forall k :: k in order <==> k in db.productores
    modifies db
    ensures db.Valid()
    ensures unchanged(db`productores, db`tipos, db`imagenes, db`marcas, db`solicitudes, db`users, db`profiles)
    ensures Migrated(old(db.campos), db.campos, db.productores, order)
    ensures forall p :: p in db.productores ==> HasCampo(db.campos, p)
    ensures count == |SinCampo(old(db.productores), old(db.campos))|
    ensures |db.campos| == |old(db.campos)| + count
    ensures SinCampo(db.productores, db.campos) == {}
  {
    ghost var oc := db.campos;
    count := MigrarEn(db, order);
    MigratedCovers(oc, db.campos, db.productores, order, count);
  }

  /** Once every producer is visited, none is left without a parcel. */
  lemma MigratedCovers(oc: map<int, Campo>, cs: map<int, Campo>, ps: map<int, Productor>, order: seq<int>, count: nat)
    requires Distinct(order) && forall k :: k in order <==> k in ps
    requires Migrated(oc, cs, ps, order) && count == |Filter(order, NeedsCampo(oc))|
    ensures forall p :: p in ps ==> HasCampo(cs, p)
    ensures SinCampo(ps, cs) == {}
    ensures count == |SinCampo(ps, oc)|
  {
    SinCampoCount(ps, oc, order);
    forall p | p in ps ensures HasCampo(cs, p) {
      var j :| 0 <= j < |order| && order[j] == p;
    }
  }

  // ===== cargar_datos_iniciales =====

  /** The six ear-mark types the command seeds, the last one outside the declared ear choices. */
  function TiposIniciales(): (ts: seq<TipoSenal>)
    ensures |ts| == 6
    ensures DistinctNames(ts)
    ensures forall i :: 0 <= i < 5 ==> ts[i].ubicacionOreja in UbicacionOrejaChoices
    ensures ts[5].ubicacionOreja == "OTRO" && ts[5].ubicacionOreja !in UbicacionOrejaChoices
  {
    [ TipoSenal("Corte en V", "Corte en forma de V en la oreja", "IZQUIERDA"),
      TipoSenal("Corte redondo", "Corte circular en la oreja", "DERECHA"),
      TipoSenal("Muesca triangular", "Muesca en forma de triángulo", "IZQUIERDA"),
      TipoSenal("Perforación circular", "Perforación circular", "DERECHA"),
      TipoSenal("Doble corte", "Dos cortes paralelos", "AMBAS"),
      TipoSenal("Marca de fuego", "Marca con hierro caliente", "OTRO") ]
  }

  /** No two seed rows share a name. */
  predicate DistinctNames(ts: seq<TipoSenal>) {
    forall i, j :: 0 <= i < j < |ts| ==> ts[i].nombre != ts[j].nombre
  }

  predicate NombreTaken(tipos: map<int, TipoSenal>, nombre: string) {
    exists k :: k in tipos && tipos[k].nombre == nombre
  }

  /** Two or more rows carry the name, so `get` raises `MultipleObjectsReturned`. */
  predicate NombreRepetido(tipos: map<int, TipoSenal>, nombre: string) {
    exists k1, k2 :: k1 in tipos && k2 in tipos && k1 != k2 && tipos[k1].nombre == nombre && tipos[k2].nombre == nombre
  }

  function Ausente(tipos: map<int, TipoSenal>): (keep: TipoSenal -> bool)
    ensures forall t :: keep(t) == !NombreTaken(tipos, t.nombre)
  {
    (t: TipoSenal) => !NombreTaken(tipos, t.nombre)
  }

  /** The seed rows whose name is not yet in the table. */
  function Faltantes(tipos: map<int, TipoSenal>): (r: seq<TipoSenal>)
    ensures |r| <= 6
    ensures forall t :: t in r <==> t in TiposIniciales() && !NombreTaken(tipos, t.nombre)
  {
    var r := Filter(TiposIniciales(), Ausente(tipos));
    assert forall t :: t in r <==> t in TiposIniciales() && !NombreTaken(tipos, t.nombre) by {
      forall t ensures t in r <==> t in TiposIniciales() && !NombreTaken(tipos, t.nombre) {
        FilterMembers(TiposIniciales(), Ausente(tipos), t);
      }
    }
    r
  }

  /**
   * `TipoSenal.objects.get_or_create(nombre=t.nombre, defaults=...)`: returns
   * whether it created a row; the defaults are used only when it does.
   */
  method GetOrCreateTipoSenal(db: Database, t: TipoSenal) returns (r: Result<bool, DbError>)
    requires db.Valid()
    modifies db
    ensures db.Valid()
    ensures unchanged(db`productores, db`campos, db`imagenes, db`marcas, db`solicitudes, db`users, db`profiles)
    ensures r.Err? <==> NombreRepetido(old(db.tipos), t.nombre)
    ensures r.Err? ==> r.error == MultipleObjectsReturned
    ensures r == Ok(true) <==> !NombreTaken(old(db.tipos), t.nombre)
    ensures r == Ok(true) ==> exists pk :: pk !in old(db.tipos) && db.tipos == old(db.tipos)[pk := t]
    ensures r != Ok(true) ==> db.tipos == old(db.tipos)
  {
    if NombreRepetido(db.tipos, t.nombre) {
      return Err(MultipleObjectsReturned);
    }
    if NombreTaken(db.tipos, t.nombre) {
      return Ok(false);
    }
    var pk := db.InsertTipoSenal(t);
    return Ok(true);
  }

  /**
   * What the seeding has done after the first `i` rows of `ts`: the original
   * rows `ot` are intact, every added row is one of those seed rows whose
   * name was absent, and each of those names was at most once in `ot` and is
   * now exactly once in the table.
   */
  ghost predicate Seeded(ot: map<int, TipoSenal>, tipos: map<int, TipoSenal>, ts: seq<TipoSenal>, i: nat)
    requires i <= |ts|
  {
    && (forall k :: k in ot ==> k in tipos && tipos[k] == ot[k])
    && (forall k :: k in tipos && k !in ot ==> tipos[k] in ts[..i] && !NombreTaken(ot, tipos[k].nombre))
    && (forall j :: 0 <= j < i ==>
         !NombreRepetido(ot, ts[j].nombre) && NombreTaken(tipos, ts[j].nombre) && !NombreRepetido(tipos, ts[j].nombre))
  }

  /**
   * Before step `i`, the rows named like `ts[i]` are the original ones:
   * every row added so far carries an earlier, different name.
   */
  lemma SeededUnvisited(ot: map<int, TipoSenal>, tipos: map<int, TipoSenal>, ts: seq<TipoSenal>, i: nat)
    requires i < |ts| && DistinctNames(ts) && Seeded(ot, tipos, ts, i)
    ensures NombreTaken(tipos, ts[i].nombre) == NombreTaken(ot, ts[i].nombre)
    ensures NombreRepetido(tipos, ts[i].nombre) == NombreRepetido(ot, ts[i].nombre)
  {
    forall k | k in tipos && k !in ot ensures tipos[k].nombre != ts[i].nombre {
      var j :| 0 <= j < i && ts[j] == tipos[k];
    }
  }

  /** `ts[i]` was created under a fresh key. */
  lemma SeededCreate(ot: map<int, TipoSenal>, tipos: map<int, TipoSenal>, ts: seq<TipoSenal>, i: nat, pk: int)
    requires i < |ts| && DistinctNames(ts) && Seeded(ot, tipos, ts, i) && pk !in tipos
    requires !NombreTaken(tipos, ts[i].nombre)
    ensures Seeded(ot, tipos[pk := ts[i]], ts, i + 1)
  {
    var t := ts[i];
    var tipos' := tipos[pk := t];
    SeededUnvisited(ot, tipos, ts, i);
    PrefixSnoc(ts, i);
    forall k | k in tipos' && k !in ot
      ensures tipos'[k] in ts[..i + 1] && !NombreTaken(ot, tipos'[k].nombre)
    {
      if k != pk {
        assert tipos'[k] == tipos[k];
      }
    }
    forall j | 0 <= j < i + 1
      ensures NombreTaken(tipos', ts[j].nombre) && !NombreRepetido(tipos', ts[j].nombre)
    {
      if j < i {
        assert ts[j].nombre != t.nombre;
        var k :| k in tipos && tipos[k].nombre == ts[j].nombre;
        assert k != pk && tipos'[k] == tipos[k];
      } else {
        assert tipos'[pk].nombre == ts[j].nombre;
      }
    }
  }

  /** `ts[i]` was found, exactly once. */
  lemma SeededFound(ot: map<int, TipoSenal>, tipos: map<int, TipoSenal>, ts: seq<TipoSenal>, i: nat)
    requires i < |ts| && DistinctNames(ts) && Seeded(ot, tipos, ts, i)
    requires NombreTaken(tipos, ts[i].nombre) && !NombreRepetido(tipos, ts[i].nombre)
    ensures Seeded(ot, tipos, ts, i + 1)
  {
    SeededUnvisited(ot, tipos, ts, i);
    assert ts[..i] <= ts[..i + 1];
  }

  /** What a run that stopped after `i` rows has added. */
  lemma SeededPrefix(ot: map<int, TipoSenal>, tipos: map<int, TipoSenal>, ts: seq<TipoSenal>, i: nat)
    requires i <= |ts| && Seeded(ot, tipos, ts, i)
    ensures forall k :: k in tipos && k !in ot ==> tipos[k] in ts && !NombreTaken(ot, tipos[k].nombre)
  {
    forall k | k in tipos && k !in ot ensures tipos[k] in ts {
      var j :| 0 <= j < i && ts[..i][j] == tipos[k];
      assert ts[j] == tipos[k];
    }
  }

  /** A complete run leaves no seed name missing and none repeated. */
  lemma SeededAll(ot: map<int, TipoSenal>, tipos: map<int, TipoSenal>, ts: seq<TipoSenal>)
    requires Seeded(ot, tipos, ts, |ts|)
    ensures forall i :: 0 <= i < |ts| ==> !NombreRepetido(ot, ts[i].nombre)
    ensures forall t :: t in ts ==> NombreTaken(tipos, t.nombre) && !NombreRepetido(tipos, t.nombre)
    ensures Filter(ts, Ausente(tipos)) == []
  {
    forall t | t in ts ensures NombreTaken(tipos, t.nombre) && !NombreRepetido(tipos, t.nombre) {
      var j :| 0 <= j < |ts| && ts[j] == t;
    }
    FilterNonePass(ts, Ausente(tipos));
  }

  /** One turn of the loop: the `get_or_create` for seed row `ts[i]`. */
  method SembrarTipo(db: Database, ghost ot: map<int, TipoSenal>, ts: seq<TipoSenal>, i: nat) returns (r: Result<bool, DbError>)
    requires i < |ts| && DistinctNames(ts) && db.Valid() && Seeded(ot, db.tipos, ts, i)
    modifies db
    ensures db.Valid()
    ensures unchanged(db`productores, db`campos, db`imagenes, db`marcas, db`solicitudes, db`users, db`profiles)
    ensures r.Err? <==> NombreRepetido(ot, ts[i].nombre)
    ensures r.Err? ==> r.error == MultipleObjectsReturned && db.tipos == old(db.tipos)
    ensures r.Ok? ==> Seeded(ot, db.tipos, ts, i + 1)
    ensures r.Ok? ==> (r.value <==> !NombreTaken(ot, ts[i].nombre))
    ensures r.Ok? ==> |db.tipos| == |old(db.tipos)| + (if r.value then 1 else 0)
  {
    SeededUnvisited(ot, db.tipos, ts, i);
    ghost var before := db.tipos;
    var t := ts[i];
    r := GetOrCreateTipoSenal(db, t);
    if r == Ok(true) {
      ghost var pk :| pk !in before && db.tipos == before[pk := t];
      SeededCreate(ot, before, ts, i, pk);
    } else if r.Ok? {
      SeededFound(ot, before, ts, i);
    }
  }

  /**
   * The loop of `cargar_datos_iniciales` over any seed list with distinct
   * names: get-or-create for each row in turn; a `MultipleObjectsReturned`
   * at row `i` ends the command, keeping what the rows before it created.
   */
  method Sembrar(db: Database, ts: seq<TipoSenal>) returns (r: Result<nat, DbError>)
    requires db.Valid() && DistinctNames(ts)
    modifies db
    ensures db.Valid()
    ensures unchanged(db`productores, db`campos, db`imagenes, db`marcas, db`solicitudes, db`users, db`profiles)
    ensures r.Ok? ==> Seeded(old(db.tipos), db.tipos, ts, |ts|)
    ensures r.Ok? ==> r.value == |Filter(ts, Ausente(old(db.tipos)))| && |db.tipos| == |old(db.tipos)| + r.value
    ensures r.Err? ==> r.error == MultipleObjectsReturned
    ensures r.Err? ==> exists i :: 0 <= i < |ts| && Seeded(old(db.tipos), db.tipos, ts, i) && NombreRepetido(old(db.tipos), ts[i].nombre)
  {
    ghost var ot := db.tipos;
    var created := 0;
    var i := 0;
    while i < |ts|
      invariant 0 <= i <= |ts|
      invariant db.Valid()
      invariant unchanged(db`productores, db`campos, db`imagenes, db`marcas, db`solicitudes, db`users, db`profiles)
      invariant Seeded(ot, db.tipos, ts, i)
      invariant created == |Filter(ts[..i], Ausente(ot))|
      invariant |db.tipos| == |ot| + created
    {
      FilterPrefixStep(ts, i, Ausente(ot));
      var res := SembrarTipo(db, ot, ts, i);
      if res.Err? {
        return Err(res.error);
      }
      if res.value {
        created := created + 1;
      }
      i := i + 1;
    }
    assert ts[..i] == ts;
    return Ok(created);
  }

  /** `cargar_datos_iniciales`: the loop over the six seed rows. */
  method CargarDatosIniciales(db: Database) returns (r: Result<nat, DbError>)
    requires db.Valid()
    modifies db
    ensures db.Valid()
    ensures unchanged(db`productores, db`campos, db`imagenes, db`marcas, db`solicitudes, db`users, db`profiles)
    ensures forall k :: k in old(db.tipos) ==> k in db.tipos && db.tipos[k] == old(db.tipos)[k]
    ensures forall k :: k in db.tipos && k !in old(db.tipos) ==>
      db.tipos[k] in TiposIniciales() && !NombreTaken(old(db.tipos), db.tipos[k].nombre)
    ensures r.Err? <==> exists t :: t in TiposIniciales() && NombreRepetido(old(db.tipos), t.nombre)
    ensures r.Err? ==> r.error == MultipleObjectsReturned
    ensures r.Ok? ==> forall t :: t in TiposIniciales() ==>
      NombreTaken(db.tipos, t.nombre) && !NombreRepetido(db.tipos, t.nombre)
    ensures r.Ok? ==> r.value == |Faltantes(old(db.tipos))| && |db.tipos| == |old(db.tipos)| + r.value
    ensures r.Ok? ==> Faltantes(db.tipos) == []
  {
    ghost var ot := db.tipos;
    r := Sembrar(db, TiposIniciales());
    SembrarOutcome(ot, db.tipos, TiposIniciales(), r);
  }

  /** The outcome of `Sembrar`, stated table-wide. */
  lemma SembrarOutcome(ot: map<int, TipoSenal>, tipos: map<int, TipoSenal>, ts: seq<TipoSenal>, r: Result<nat, DbError>)
    requires r.Ok? ==> Seeded(ot, tipos, ts, |ts|)
    requires r.Err? ==> exists i :: 0 <= i < |ts| && Seeded(ot, tipos, ts, i) && NombreRepetido(ot, ts[i].nombre)
    ensures forall k :: k in ot ==> k in tipos && tipos[k] == ot[k]
    ensures forall k :: k in tipos && k !in ot ==> tipos[k] in ts && !NombreTaken(ot, tipos[k].nombre)
    ensures r.Err? <==> exists t :: t in ts && NombreRepetido(ot, t.nombre)
    ensures r.Ok? ==> forall t :: t in ts ==> NombreTaken(tipos, t.nombre) && !NombreRepetido(tipos, t.nombre)
    ensures r.Ok? ==> Filter(ts, Ausente(tipos)) == []
  {
    if r.Err? {
      var i :| 0 <= i < |ts| && Seeded(ot, tipos, ts, i) && NombreRepetido(ot, ts[i].nombre);
      SeededPrefix(ot, tipos, ts, i);
      assert ts[i] in ts;
    } else {
      SeededPrefix(ot, tipos, ts, |ts|);
      SeededAll(ot, tipos, ts);
      forall t | t in ts ensures !NombreRepetido(ot, t.nombre) {
        var j :| 0 <= j < |ts| && ts[j] == t;
      }
    }
  }
}
