/** Keys, typed attribute values and the maps that hold them: the
    vocabulary shared by the configuration, the recorded resource state and
    the remote service's responses. */
module Values {

  datatype Option<T> = None | Some(value: T)

  /** The attributes of an auth method resource, by the name the resource
      stores them under. */
  datatype Key =
    | Id | Name | Description | ScopeId | Type
    // password variant
    | MinLoginNameLength | MinPasswordLength
    // OIDC variant
    | State | Issuer | ClientId | ClientSecret | ClientSecretHmac | MaxAge
    | SigningAlgorithms | ApiUrlPrefix | CallbackUrl | CaCertificates
    | AllowedAudiences | DisableDiscoveredConfigValidation

  /** The type a key's value must have for the host to store it. */
  datatype Kind = StringKind | IntKind | BoolKind | StringListKind

  /** An attribute value, already converted from the wire format. */
  datatype Value = Str(s: string) | Num(n: int) | Flag(b: bool) | StrList(items: seq<string>)

  const PasswordType: string := "password"
  const OidcType: string := "oidc"

  predicate KnownType(t: string) {
    t == PasswordType || t == OidcType
  }

  function KindOf(k: Key): Kind {
    match k
    case MinLoginNameLength | MinPasswordLength | MaxAge => IntKind
    case SigningAlgorithms | CaCertificates | AllowedAudiences => StringListKind
    case DisableDiscoveredConfigValidation => BoolKind
    case _ => StringKind
  }

  predicate HasKind(v: Value, kind: Kind) {
    match v
    case Str(_) => kind == StringKind
    case Num(_) => kind == IntKind
    case Flag(_) => kind == BoolKind
    case StrList(_) => kind == StringListKind
  }

  /** Every value stored in `m` has the kind of its key. */
  predicate WellKinded(m: map<Key, Value>) {
    forall k | k in m :: HasKind(m[k], KindOf(k))
  }

  function Lookup(m: map<Key, Value>, k: Key): (r: Option<Value>)
    ensures r.Some? <==> k in m
    ensures r.Some? ==> r.value == m[k]
  {
    if k in m then Some(m[k]) else None
  }

  /** The host accepts writing `v` under `k`: a missing value clears the
      key, a present one must have the key's kind. */
  predicate Accepts(k: Key, v: Option<Value>) {
    v.None? || HasKind(v.value, KindOf(k))
  }

  /** `m` after writing `v` under `k`; a missing value clears the key. */
  function Put(m: map<Key, Value>, k: Key, v: Option<Value>): (r: map<Key, Value>)
    ensures Lookup(r, k) == v
    ensures forall j | j != k :: Lookup(r, j) == Lookup(m, j)
  {
    if v.Some? then m[k := v.value] else m - {k}
  }

  lemma PutKeepsWellKinded(m: map<Key, Value>, k: Key, v: Option<Value>)
    requires WellKinded(m) && Accepts(k, v)
    ensures WellKinded(Put(m, k, v))
  {
  }

  /** A response of the remote service: the top-level fields (id, name,
      description, scope id, type) and, when the response carries one, the
      attribute map of the variant. */
  datatype Response = Response(fields: map<Key, Value>, attributes: Option<map<Key, Value>>)
}
