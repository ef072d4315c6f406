/** The typed options of the auth-method client: what a create or update
    request carries, one option per attribute to set or reset. */
module Options {
  import opened Values
  import opened Text

  newtype uint32 = x: int | 0 <= x < 0x1_0000_0000

  /** Go's conversion `uint32(n)` of an `int`: the low 32 bits of `n`. */
  function ToUint32(n: int): (r: uint32)
    ensures 0 <= n < 0x1_0000_0000 ==> r as int == n
    ensures (n - r as int) % 0x1_0000_0000 == 0
  {
    (n % 0x1_0000_0000) as uint32
  }

  datatype AmOption =
    | WithName(name: string)
    | DefaultName
    | WithDescription(description: string)
    | DefaultDescription
    | WithMinLoginNameLength(minLoginNameLength: uint32)
    | DefaultMinLoginNameLength
    | WithMinPasswordLength(minPasswordLength: uint32)
    | DefaultMinPasswordLength
    | WithIssuer(issuer: string)
    | WithClientId(clientId: string)
    | WithClientSecret(clientSecret: string)
    | WithMaxAge(maxAge: uint32)
    | WithApiUrlPrefix(apiUrlPrefix: string)
    | WithIdpCaCerts(certs: seq<string>)
    | WithAllowedAudiences(audiences: seq<string>)
    | WithDisableDiscoveredConfigValidation(disable: bool)
    | WithSigningAlgorithms(algorithms: seq<string>)
    | WithAutomaticVersioning(automatic: bool)
  {
    /** The option puts an attribute back to the server's default. */
    predicate IsReset() {
      DefaultName? || DefaultDescription? || DefaultMinLoginNameLength? || DefaultMinPasswordLength?
    }
  }

  /** The attributes a request can set from configuration. */
  predicate Settable(k: Key) {
    !(k.Id? || k.ScopeId? || k.Type? || k.State? || k.CallbackUrl?)
  }

  /** The attributes an update resets to the default before setting them. */
  predicate Resettable(k: Key) {
    k.Name? || k.Description? || k.MinLoginNameLength? || k.MinPasswordLength?
  }

  /** The option that sets `k` to the value `v` it is sent with (see
      `Sent`); the client-secret HMAC is sent as the client secret. */
  function SetOption(k: Key, v: Value): (o: AmOption)
    requires Settable(k) && HasKind(v, KindOf(k))
    ensures !o.IsReset() && !o.WithAutomaticVersioning?
  {
    match k
    case Name => WithName(v.s)
    case Description => WithDescription(v.s)
    case MinLoginNameLength => WithMinLoginNameLength(ToUint32(v.n))
    case MinPasswordLength => WithMinPasswordLength(ToUint32(v.n))
    case Issuer => WithIssuer(v.s)
    case ClientId => WithClientId(v.s)
    case ClientSecret => WithClientSecret(v.s)
    case ClientSecretHmac => WithClientSecret(v.s)
    case MaxAge => WithMaxAge(ToUint32(v.n))
    case ApiUrlPrefix => WithApiUrlPrefix(v.s)
    case CaCertificates => WithIdpCaCerts(v.items)
    case AllowedAudiences => WithAllowedAudiences(v.items)
    case DisableDiscoveredConfigValidation => WithDisableDiscoveredConfigValidation(v.b)
    case SigningAlgorithms => WithSigningAlgorithms(v.items)
  }

  /** The value a setting option carries. */
  function Payload(o: AmOption): Value
    requires !o.IsReset() && !o.WithAutomaticVersioning?
  {
    match o
    case WithName(s) => Str(s)
    case WithDescription(s) => Str(s)
    case WithMinLoginNameLength(n) => Num(n as int)
    case WithMinPasswordLength(n) => Num(n as int)
    case WithIssuer(s) => Str(s)
    case WithClientId(s) => Str(s)
    case WithClientSecret(s) => Str(s)
    case WithMaxAge(n) => Num(n as int)
    case WithApiUrlPrefix(s) => Str(s)
    case WithIdpCaCerts(items) => StrList(items)
    case WithAllowedAudiences(items) => StrList(items)
    case WithDisableDiscoveredConfigValidation(b) => Flag(b)
    case WithSigningAlgorithms(items) => StrList(items)
  }

  /** A setting option carries the value it was made with, an integer cut
      to its low 32 bits. */
  lemma SetOptionCarries(k: Key, v: Value)
    requires Settable(k) && HasKind(v, KindOf(k))
    ensures Payload(SetOption(k, v)) == if v.Num? then Num(ToUint32(v.n) as int) else v
  {
  }

  /** The option that resets `k` to the server's default. */
  function ResetOption(k: Key): (o: AmOption)
    requires Resettable(k)
    ensures o.IsReset()
  {
    match k
    case Name => DefaultName
    case Description => DefaultDescription
    case MinLoginNameLength => DefaultMinLoginNameLength
    case MinPasswordLength => DefaultMinPasswordLength
  }

  /** The attribute an option sets or resets. */
  function Target(o: AmOption): Key
    requires !o.WithAutomaticVersioning?
  {
    match o
    case WithName(_) | DefaultName => Name
    case WithDescription(_) | DefaultDescription => Description
    case WithMinLoginNameLength(_) | DefaultMinLoginNameLength => MinLoginNameLength
    case WithMinPasswordLength(_) | DefaultMinPasswordLength => MinPasswordLength
    case WithIssuer(_) => Issuer
    case WithClientId(_) => ClientId
    case WithClientSecret(_) => ClientSecret
    case WithMaxAge(_) => MaxAge
    case WithApiUrlPrefix(_) => ApiUrlPrefix
    case WithIdpCaCerts(_) => CaCertificates
    case WithAllowedAudiences(_) => AllowedAudiences
    case WithDisableDiscoveredConfigValidation(_) => DisableDiscoveredConfigValidation
    case WithSigningAlgorithms(_) => SigningAlgorithms
  }

  /** Setting and resetting address the attribute they were made for (the
      HMAC key is the one exception: it sets the client secret). */
  lemma TargetOfOptions(k: Key, v: Value)
    requires Settable(k) && HasKind(v, KindOf(k))
    ensures Target(SetOption(k, v)) == if k == ClientSecretHmac then ClientSecret else k
    ensures Resettable(k) ==> Target(ResetOption(k)) == k
  {
  }

  /** The value a request sends for the configured value `v` of `k`: the
      certificates trimmed element by element, everything else as
      configured. */
  function Sent(k: Key, v: Value): (r: Value)
    ensures HasKind(r, KindOf(k)) <==> HasKind(v, KindOf(k))
  {
    if k == CaCertificates && v.StrList? then StrList(TrimEach(v.items)) else v
  }

  /** The configuration as the requests send it. */
  function Outgoing(st: map<Key, Value>): (r: map<Key, Value>)
    ensures r.Keys == st.Keys
    ensures WellKinded(st) ==> WellKinded(r)
  {
    if CaCertificates in st then st[CaCertificates := Sent(CaCertificates, st[CaCertificates])] else st
  }

  /** Every attribute is sent with its `Sent` value. */
  lemma OutgoingAt(st: map<Key, Value>, k: Key)
    requires k in st
    ensures Outgoing(st)[k] == Sent(k, st[k])
  {
  }

  /** The certificate list is sent trimmed element by element in its order;
      the audiences, the signing algorithms and every other attribute are
      sent as configured. */
  lemma SentValues(k: Key, v: Value)
    ensures k == CaCertificates && v.StrList? ==>
      |Sent(k, v).items| == |v.items| && forall i | 0 <= i < |v.items| :: Sent(k, v).items[i] == TrimSpace(v.items[i])
    ensures k != CaCertificates ==> Sent(k, v) == v
  {
    if v.StrList? {
      forall i | 0 <= i < |v.items| ensures TrimEach(v.items)[i] == TrimSpace(v.items[i]) {
        TrimEachAt(v.items, i);
      }
    }
  }
}
