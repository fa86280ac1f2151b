/**
 * The registry's tables as one mutable store: every table maps primary keys
 * to rows, and a single counter hands out fresh keys.  `Valid` is the
 * database's integrity: keys below the counter, every foreign key pointing
 * at an existing row, and the two declared unique columns (`dni`,
 * `numero_orden`) unique.  The delete operations follow the declared
 * `on_delete` rules (app_registros/models.py): CASCADE removes the referring
 * rows, SET_NULL clears the reference and removes nothing.
 */
module Registry {
  import opened Wrappers
  import opened Models

  datatype DbError = IntegrityError | DoesNotExist | MultipleObjectsReturned

  predicate KeysBelow<V>(m: map<int, V>, n: int) {
    forall k :: k in m ==> 0 < k < n
  }

  /** `dni = CharField(unique=True)`. */
  predicate DniUnique(ps: map<int, Productor>) {
    forall a, b :: a in ps && b in ps && ps[a].dni == ps[b].dni ==> a == b
  }

  /** `numero_orden = PositiveIntegerField(unique=True)`. */
  predicate NumeroOrdenUnique(ms: map<int, MarcaSenal>) {
    forall a, b :: a in ms && b in ms && ms[a].numeroOrden == ms[b].numeroOrden ==> a == b
  }

  /** `auth_user.username` is unique. */
  predicate UsernameUnique(us: map<int, User>) {
    forall a, b :: a in us && b in us && us[a].username == us[b].username ==> a == b
  }

  predicate DniTaken(ps: map<int, Productor>, dni: string) {
    exists k :: k in ps && ps[k].dni == dni
  }

  predicate NumeroOrdenTaken(ms: map<int, MarcaSenal>, n: nat) {
    exists k :: k in ms && ms[k].numeroOrden == n
  }

  predicate UsernameTaken(us: map<int, User>, username: string) {
    exists k :: k in us && us[k].username == username
  }

  /** `User.objects.filter(email=email).exists()`: an exact match. */
  predicate EmailTaken(us: map<int, User>, email: string) {
    exists k :: k in us && us[k].email == email
  }

  /** Every parcel's producer exists. */
  predicate CamposRefsOk(campos: map<int, Campo>, productores: map<int, Productor>) {
    forall c :: c in campos ==> campos[c].productor in productores
  }

  /** A mark's producer and parcel exist, and so do its type and image when set. */
  predicate MarcaRefsOk(m: MarcaSenal, productores: map<int, Productor>, campos: map<int, Campo>,
                        tipos: map<int, TipoSenal>, imagenes: map<int, ImagenMarcaPredefinida>) {
    && m.productor in productores
    && m.campo in campos
    && (m.tipoSenal.Some? ==> m.tipoSenal.value in tipos)
    && (m.imagenPredefinida.Some? ==> m.imagenPredefinida.value in imagenes)
  }

  predicate MarcasRefsOk(marcas: map<int, MarcaSenal>, productores: map<int, Productor>, campos: map<int, Campo>,
                         tipos: map<int, TipoSenal>, imagenes: map<int, ImagenMarcaPredefinida>) {
    forall k :: k in marcas ==> MarcaRefsOk(marcas[k], productores, campos, tipos, imagenes)
  }

  /** A request's producer exists, and so does its mark when set. */
  predicate SolicitudRefsOk(s: Solicitud, productores: map<int, Productor>, marcas: map<int, MarcaSenal>) {
    s.productor in productores && (s.marcaSenal.Some? ==> s.marcaSenal.value in marcas)
  }

  predicate SolicitudesRefsOk(solicitudes: map<int, Solicitud>, productores: map<int, Productor>,
                              marcas: map<int, MarcaSenal>) {
    forall k :: k in solicitudes ==> SolicitudRefsOk(solicitudes[k], productores, marcas)
  }

  /** The parcels removed with the producers `ps` (`Campo.productor`, CASCADE). */
  function CamposCascade(campos: map<int, Campo>, ps: set<int>): set<int> {
    set c | c in campos && campos[c].productor in ps
  }

  /** The marks removed with producers `ps` or parcels `cs` (both CASCADE). */
  function MarcasCascade(marcas: map<int, MarcaSenal>, ps: set<int>, cs: set<int>): set<int> {
    set m | m in marcas && (marcas[m].productor in ps || marcas[m].campo in cs)
  }

  /** The requests removed with producers `ps` or marks `ms` (both CASCADE). */
  function SolicitudesCascade(solicitudes: map<int, Solicitud>, ps: set<int>, ms: set<int>): set<int> {
    set s | s in solicitudes &&
      (solicitudes[s].productor in ps ||
       (solicitudes[s].marcaSenal.Some? && solicitudes[s].marcaSenal.value in ms))
  }

  /** `MarcaSenal.tipo_senal` is SET_NULL: marks that referred to `t` lose the reference. */
  function NullTipoSenal(marcas: map<int, MarcaSenal>, t: int): (r: map<int, MarcaSenal>)
    ensures r.Keys == marcas.Keys
    ensures forall m :: m in r ==> r[m].tipoSenal != Some(t)
    ensures forall m :: m in r && marcas[m].tipoSenal != Some(t) ==> r[m] == marcas[m]
    ensures forall m :: m in r ==> r[m] == marcas[m].(tipoSenal := r[m].tipoSenal)
  {
    map m | m in marcas :: if marcas[m].tipoSenal == Some(t) then marcas[m].(tipoSenal := None) else marcas[m]
  }

  /** `MarcaSenal.imagen_predefinida` is SET_NULL as well. */
  function NullImagen(marcas: map<int, MarcaSenal>, i: int): (r: map<int, MarcaSenal>)
    ensures r.Keys == marcas.Keys
    ensures forall m :: m in r ==> r[m].imagenPredefinida != Some(i)
    ensures forall m :: m in r && marcas[m].imagenPredefinida != Some(i) ==> r[m] == marcas[m]
    ensures forall m :: m in r ==> r[m] == marcas[m].(imagenPredefinida := r[m].imagenPredefinida)
  {
    map m | m in marcas ::
      if marcas[m].imagenPredefinida == Some(i) then marcas[m].(imagenPredefinida := None) else marcas[m]
  }

  class Database {
    var productores: map<int, Productor>
    var campos: map<int, Campo>
    var tipos: map<int, TipoSenal>
    var imagenes: map<int, ImagenMarcaPredefinida>
    var marcas: map<int, MarcaSenal>
    var solicitudes: map<int, Solicitud>
    var users: map<int, User>
    /** `UserProfile` rows, keyed by their user's key (`OneToOneField`). */
    var profiles: map<int, UserProfile>
    var nextPk: int

    ghost predicate Valid()
      reads this
    {
      && nextPk > 0
      && KeysBelow(productores, nextPk) && KeysBelow(campos, nextPk) && KeysBelow(tipos, nextPk)
      && KeysBelow(imagenes, nextPk) && KeysBelow(marcas, nextPk) && KeysBelow(solicitudes, nextPk)
      && KeysBelow(users, nextPk)
      && CamposRefsOk(campos, productores)
      && MarcasRefsOk(marcas, productores, campos, tipos, imagenes)
      && SolicitudesRefsOk(solicitudes, productores, marcas)
      && profiles.Keys <= users.Keys
      && DniUnique(productores)
      && NumeroOrdenUnique(marcas)
      && UsernameUnique(users)
    }

    /** An empty database. */
    constructor ()
      ensures Valid()
      ensures productores == map[] && campos == map[] && tipos == map[] && imagenes == map[]
      ensures marcas == map[] && solicitudes == map[] && users == map[] && profiles == map[]
    {
      productores, campos, tipos, imagenes := map[], map[], map[], map[];
      marcas, solicitudes, users, profiles := map[], map[], map[], map[];
      nextPk := 1;
    }

    // ----- inserts -----

    /** Saves a new producer; a taken DNI violates the unique constraint. */
    method InsertProductor(p: Productor) returns (r: Result<int, DbError>)
      requires Valid()
      modifies this
      ensures Valid()
      ensures r.Err? <==> old(DniTaken(productores, p.dni))
      ensures r.Err? ==> r.error == IntegrityError && unchanged(this)
      ensures r.Ok? ==> r.value !in old(productores) && productores == old(productores)[r.value := p]
      ensures unchanged(this`campos, this`tipos, this`imagenes, this`marcas, this`solicitudes)
      ensures unchanged(this`users, this`profiles)
    {
      if exists k :: k in productores && productores[k].dni == p.dni {
        return Err(IntegrityError);
      }
      var pk := nextPk;
      productores := productores[pk := p];
      nextPk := nextPk + 1;
      return Ok(pk);
    }

    /** Saves a new parcel; its producer must exist. */
    method InsertCampo(c: Campo) returns (r: Result<int, DbError>)
      requires Valid()
      modifies this
      ensures Valid()
      ensures r.Err? <==> c.productor !in old(productores)
      ensures r.Err? ==> r.error == IntegrityError && unchanged(this)
      ensures r.Ok? ==> r.value !in old(campos) && campos == old(campos)[r.value := c]
      ensures unchanged(this`productores, this`tipos, this`imagenes, this`marcas, this`solicitudes)
      ensures unchanged(this`users, this`profiles)
    {
      if c.productor !in productores {
        return Err(IntegrityError);
      }
      var pk := nextPk;
      campos := campos[pk := c];
      nextPk := nextPk + 1;
      return Ok(pk);
    }

    /** Saves a new ear-mark type (no constraint beyond the key). */
    method InsertTipoSenal(t: TipoSenal) returns (pk: int)
      requires Valid()
      modifies this
      ensures Valid()
      ensures pk !in old(tipos) && tipos == old(tipos)[pk := t]
      ensures unchanged(this`productores, this`campos, this`imagenes, this`marcas, this`solicitudes)
      ensures unchanged(this`users, this`profiles)
    {
      pk := nextPk;
      tipos := tipos[pk := t];
      nextPk := nextPk + 1;
    }

    /** Saves a new predefined image. */
    method InsertImagen(i: ImagenMarcaPredefinida) returns (pk: int)
      requires Valid()
      modifies this
      ensures Valid()
      ensures pk !in old(imagenes) && imagenes == old(imagenes)[pk := i]
      ensures unchanged(this`productores, this`campos, this`tipos, this`marcas, this`solicitudes)
      ensures unchanged(this`users, this`profiles)
    {
      pk := nextPk;
      imagenes := imagenes[pk := i];
      nextPk := nextPk + 1;
    }

    /** Saves a new mark; a dangling reference or a taken order number is refused. */
    method InsertMarca(m: MarcaSenal) returns (r: Result<int, DbError>)
      requires Valid()
      modifies this
      ensures Valid()
      ensures r.Err? <==>
        !old(MarcaRefsOk(m, productores, campos, tipos, imagenes)) || old(NumeroOrdenTaken(marcas, m.numeroOrden))
      ensures r.Err? ==> r.error == IntegrityError && unchanged(this)
      ensures r.Ok? ==> r.value !in old(marcas) && marcas == old(marcas)[r.value := m]
      ensures unchanged(this`productores, this`campos, this`tipos, this`imagenes, this`solicitudes)
      ensures unchanged(this`users, this`profiles)
    {
      if !MarcaRefsOk(m, productores, campos, tipos, imagenes) ||
         exists k :: k in marcas && marcas[k].numeroOrden == m.numeroOrden
      {
        return Err(IntegrityError);
      }
      var pk := nextPk;
      marcas := marcas[pk := m];
      nextPk := nextPk + 1;
      return Ok(pk);
    }

    /** Saves a new request; its producer and mark (when given) must exist. */
    method InsertSolicitud(s: Solicitud) returns (r: Result<int, DbError>)
      requires Valid()
      modifies this
      ensures Valid()
      ensures r.Err? <==> !old(SolicitudRefsOk(s, productores, marcas))
      ensures r.Err? ==> r.error == IntegrityError && unchanged(this)
      ensures r.Ok? ==> r.value !in old(solicitudes) && solicitudes == old(solicitudes)[r.value := s]
      ensures unchanged(this`productores, this`campos, this`tipos, this`imagenes, this`marcas)
      ensures unchanged(this`users, this`profiles)
    {
      if !SolicitudRefsOk(s, productores, marcas) {
        return Err(IntegrityError);
      }
      var pk := nextPk;
      solicitudes := solicitudes[pk := s];
      nextPk := nextPk + 1;
      return Ok(pk);
    }

    /** Re-saves an existing request with new column values. */
    method SaveSolicitud(pk: int, s: Solicitud)
      requires Valid() && pk in solicitudes && SolicitudRefsOk(s, productores, marcas)
      modifies this`solicitudes
      ensures Valid()
      ensures solicitudes == old(solicitudes)[pk := s]
    {
      solicitudes := solicitudes[pk := s];
    }

    /** Saves a new user; a taken username violates the unique constraint. */
    method InsertUser(u: User) returns (r: Result<int, DbError>)
      requires Valid()
      modifies this
      ensures Valid()
      ensures r.Err? <==> old(UsernameTaken(users, u.username))
      ensures r.Err? ==> r.error == IntegrityError && unchanged(this)
      ensures r.Ok? ==> r.value !in old(users) && users == old(users)[r.value := u]
      ensures r.Ok? ==> r.value !in profiles
      ensures unchanged(this`productores, this`campos, this`tipos, this`imagenes, this`marcas)
      ensures unchanged(this`solicitudes, this`profiles)
    {
      if exists k :: k in users && users[k].username == u.username {
        return Err(IntegrityError);
      }
      var pk := nextPk;
      users := users[pk := u];
      nextPk := nextPk + 1;
      return Ok(pk);
    }

    /** Saves a user's profile; the user must exist and have none yet (one-to-one). */
    method InsertProfile(user: int, p: UserProfile) returns (r: Result<int, DbError>)
      requires Valid()
      modifies this`profiles
      ensures Valid()
      ensures r.Err? <==> user !in old(users) || user in old(profiles)
      ensures r.Err? ==> r.error == IntegrityError && profiles == old(profiles)
      ensures r.Ok? ==> r.value == user && profiles == old(profiles)[user := p]
    {
      if user !in users || user in profiles {
        return Err(IntegrityError);
      }
      profiles := profiles[user := p];
      return Ok(user);
    }

    // ----- deletes -----

    /** A key with no producer cascades to nothing, given integrity. */
    lemma AbsentProductorCascadesNothing(pk: int)
      requires Valid() && pk !in productores
      ensures CamposCascade(campos, {pk}) == {}
      ensures MarcasCascade(marcas, {pk}, {}) == {}
      ensures SolicitudesCascade(solicitudes, {pk}, {}) == {}
    {
      forall c | c in campos ensures campos[c].productor != pk {
              }
      forall m | m in marcas ensures marcas[m].productor != pk {
        assert MarcaRefsOk(marcas[m], productores, campos, tipos, imagenes);
      }
      forall s | s in solicitudes ensures solicitudes[s].productor != pk {
        assert SolicitudRefsOk(solicitudes[s], productores, marcas);
      }
    }

    /**
     * Deletes a producer with everything that cascades from it: its parcels,
     * the marks of the producer or of those parcels, and the requests of the
     * producer or of those marks.  Nothing else is removed or changed.
     */
    method DeleteProductor(pk: int)
      requires Valid()
      modifies this
      ensures Valid()
      ensures productores == old(productores) - {pk}
      ensures campos == old(campos) - old(CamposCascade(campos, {pk}))
      ensures marcas == old(marcas) - old(MarcasCascade(marcas, {pk}, CamposCascade(campos, {pk})))
      ensures solicitudes == old(solicitudes) -
        old(SolicitudesCascade(solicitudes, {pk}, MarcasCascade(marcas, {pk}, CamposCascade(campos, {pk}))))
      ensures unchanged(this`tipos, this`imagenes, this`users, this`profiles, this`nextPk)
      ensures pk !in old(productores) ==> unchanged(this)
    {
      var cs := CamposCascade(campos, {pk});
      var ms := MarcasCascade(marcas, {pk}, cs);
      var ss := SolicitudesCascade(solicitudes, {pk}, ms);
      if pk !in productores {
        AbsentProductorCascadesNothing(pk);
        assert productores - {pk} == productores && campos - cs == campos;
        assert marcas - ms == marcas && solicitudes - ss == solicitudes;
      }
      productores := productores - {pk};
      campos := campos - cs;
      marcas := marcas - ms;
      solicitudes := solicitudes - ss;
    }

    /** Deletes a parcel, its marks and their requests. */
    method DeleteCampo(pk: int)
      requires Valid()
      modifies this
      ensures Valid()
      ensures campos == old(campos) - {pk}
      ensures marcas == old(marcas) - old(MarcasCascade(marcas, {}, {pk}))
      ensures solicitudes == old(solicitudes) -
        old(SolicitudesCascade(solicitudes, {}, MarcasCascade(marcas, {}, {pk})))
      ensures unchanged(this`productores, this`tipos, this`imagenes, this`users, this`profiles, this`nextPk)
    {
      var ms := MarcasCascade(marcas, {}, {pk});
      var ss := SolicitudesCascade(solicitudes, {}, ms);
      campos := campos - {pk};
      marcas := marcas - ms;
      solicitudes := solicitudes - ss;
    }

    /** Deletes a mark and the requests that refer to it. */
    method DeleteMarca(pk: int)
      requires Valid()
      modifies this
      ensures Valid()
      ensures marcas == old(marcas) - {pk}
      ensures solicitudes == old(solicitudes) - old(SolicitudesCascade(solicitudes, {}, {pk}))
      ensures unchanged(this`productores, this`campos, this`tipos, this`imagenes, this`users)
      ensures unchanged(this`profiles, this`nextPk)
    {
      var ss := SolicitudesCascade(solicitudes, {}, {pk});
      marcas := marcas - {pk};
      solicitudes := solicitudes - ss;
    }

    /** Deletes an ear-mark type; the marks using it keep existing, without a type. */
    method DeleteTipoSenal(pk: int)
      requires Valid()
      modifies this
      ensures Valid()
      ensures tipos == old(tipos) - {pk}
      ensures marcas == NullTipoSenal(old(marcas), pk)
      ensures marcas.Keys == old(marcas).Keys
      ensures unchanged(this`productores, this`campos, this`imagenes, this`solicitudes, this`users)
      ensures unchanged(this`profiles, this`nextPk)
    {
      marcas := NullTipoSenal(marcas, pk);
      tipos := tipos - {pk};
    }

    /** Deletes a predefined image; the marks using it keep existing, without one. */
    method DeleteImagen(pk: int)
      requires Valid()
      modifies this
      ensures Valid()
      ensures imagenes == old(imagenes) - {pk}
      ensures marcas == NullImagen(old(marcas), pk)
      ensures marcas.Keys == old(marcas).Keys
      ensures unchanged(this`productores, this`campos, this`tipos, this`solicitudes, this`users)
      ensures unchanged(this`profiles, this`nextPk)
    {
      marcas := NullImagen(marcas, pk);
      imagenes := imagenes - {pk};
    }

    /** Deletes a user and, by CASCADE on the one-to-one key, their profile. */
    method DeleteUser(pk: int)
      requires Valid()
      modifies this
      ensures Valid()
      ensures users == old(users) - {pk} && profiles == old(profiles) - {pk}
      ensures unchanged(this`productores, this`campos, this`tipos, this`imagenes, this`marcas)
      ensures unchanged(this`solicitudes, this`nextPk)
    {
      users := users - {pk};
      profiles := profiles - {pk};
    }
  }
}
