/** What decoding a response of the remote service does to the resource's
    attributes and id, as a function of the attributes before and the
    response. */
module Decoding {
  import opened Values
  import opened Text

  datatype DecodeError = Rejected(key: Key) | InvalidAuthMethodType

  predicate IsStr(m: map<Key, Value>, k: Key) {
    k in m && m[k].Str?
  }

  predicate IsNum(m: map<Key, Value>, k: Key) {
    k in m && m[k].Num?
  }

  predicate IsList(m: map<Key, Value>, k: Key) {
    k in m && m[k].StrList?
  }

  /** The host accepts the four top-level writes decoding starts with. */
  predicate TopAccepted(r: Response) {
    && Accepts(Name, Lookup(r.fields, Name))
    && Accepts(Description, Lookup(r.fields, Description))
    && Accepts(ScopeId, Lookup(r.fields, ScopeId))
    && Accepts(Type, Lookup(r.fields, Type))
  }

  predicate PasswordAttrsShape(a: map<Key, Value>) {
    IsNum(a, MinLoginNameLength) && IsNum(a, MinPasswordLength)
  }

  predicate OidcAttrsShape(a: map<Key, Value>) {
    && IsStr(a, State) && IsStr(a, Issuer) && IsStr(a, ClientId) && IsStr(a, ClientSecretHmac)
    && IsList(a, CaCertificates) && IsList(a, AllowedAudiences) && IsNum(a, MaxAge)
    && (ApiUrlPrefix in a ==> a[ApiUrlPrefix].Str?) && (CallbackUrl in a ==> a[CallbackUrl].Str?)
    && (DisableDiscoveredConfigValidation in a ==> a[DisableDiscoveredConfigValidation].Str?)
    && (SigningAlgorithms in a ==> a[SigningAlgorithms].StrList?)
  }

  /** What decoding takes for granted of a response: every value it reads
      is there and has the type it reads it as. Only what is reached on the
      way to success is demanded. */
  predicate DecodeDemands(r: Response) {
    TopAccepted(r) ==>
      && IsStr(r.fields, Type)
      && (KnownType(r.fields[Type].s) ==> IsStr(r.fields, Id))
      && (r.fields[Type].s == PasswordType && r.attributes.Some? ==> PasswordAttrsShape(r.attributes.value))
      && (r.fields[Type].s == OidcType && r.attributes.Some? ==> OidcAttrsShape(r.attributes.value))
  }

  const TopKeys: set<Key> := {Name, Description, ScopeId, Type}
  const PasswordKeys: set<Key> := {MinLoginNameLength, MinPasswordLength}
  const OidcAlwaysKeys: set<Key> :=
    {State, Issuer, ClientId, ClientSecretHmac, MaxAge, CaCertificates, AllowedAudiences}
  /** The string attributes decoded only when the response has them, in the
      order they are decoded; the signing algorithms follow them. */
  const SometimesStrings: seq<Key> := [ApiUrlPrefix, CallbackUrl, DisableDiscoveredConfigValidation]
  const OidcSometimesKeys: set<Key> :=
    {ApiUrlPrefix, CallbackUrl, DisableDiscoveredConfigValidation, SigningAlgorithms}

  /** `m` after a write of `v` under `k` whose refusal is ignored. */
  function Stored(m: map<Key, Value>, k: Key, v: Value): map<Key, Value> {
    if HasKind(v, KindOf(k)) then m[k := v] else m
  }

  /** `m` after writing the response's value of `k`, when it has one. */
  function WriteIfPresent(m: map<Key, Value>, a: map<Key, Value>, k: Key): map<Key, Value> {
    if k in a then Stored(m, k, a[k]) else m
  }

  /** Decoding an optional attribute `k` from `a`: written when `a` has it
      and the host accepts the value, otherwise left as it was. */
  predicate OptionalRule(prev: map<Key, Value>, out: map<Key, Value>, a: map<Key, Value>, k: Key) {
    Lookup(out, k) == if k in a && HasKind(a[k], KindOf(k)) then Some(a[k]) else Lookup(prev, k)
  }

  /** `k` is the first of the top-level attributes, in the order name,
      description, scope id, type, whose write the host refuses. */
  predicate FirstRefused(f: map<Key, Value>, k: Key) {
    && k in TopKeys && !Accepts(k, Lookup(f, k))
    && (k != Name ==> Accepts(Name, Lookup(f, Name)))
    && (k == ScopeId || k == Type ==> Accepts(Description, Lookup(f, Description)))
    && (k == Type ==> Accepts(ScopeId, Lookup(f, ScopeId)))
  }

  /** At most one attribute is the first refused. */
  lemma FirstRefusedUnique(f: map<Key, Value>, k1: Key, k2: Key)
    requires FirstRefused(f, k1) && FirstRefused(f, k2)
    ensures k1 == k2
  {
  }

  /** The four top-level writes, stopping at the first one refused; the
      second component names the refused attribute. */
  function TopWrites(prev: map<Key, Value>, f: map<Key, Value>): (out: (map<Key, Value>, Option<Key>))
    ensures out.1.None? <==> TopAccepted(Response(f, None))
    ensures out.1.Some? ==> FirstRefused(f, out.1.value)
    ensures out.1.None? ==>
      && Lookup(out.0, Name) == Lookup(f, Name) && Lookup(out.0, Description) == Lookup(f, Description)
      && Lookup(out.0, ScopeId) == Lookup(f, ScopeId) && Lookup(out.0, Type) == Lookup(f, Type)
  {
    if !Accepts(Name, Lookup(f, Name)) then (prev, Some(Name))
    else
      var m1 := Put(prev, Name, Lookup(f, Name));
      if !Accepts(Description, Lookup(f, Description)) then (m1, Some(Description))
      else
        var m2 := Put(m1, Description, Lookup(f, Description));
        if !Accepts(ScopeId, Lookup(f, ScopeId)) then (m2, Some(ScopeId))
        else
          var m3 := Put(m2, ScopeId, Lookup(f, ScopeId));
          if !Accepts(Type, Lookup(f, Type)) then (m3, Some(Type))
          else (Put(m3, Type, Lookup(f, Type)), None)
  }

  /** The position of a top-level attribute in the order it is written. */
  function TopIndex(k: Key): nat
    requires k in TopKeys
  {
    match k
    case Name => 0
    case Description => 1
    case ScopeId => 2
    case Type => 3
  }

  /** A refused write stops the top-level writes: the attributes before it
      carry the response's values, it and those after it keep theirs. */
  lemma TopWritesStop(prev: map<Key, Value>, f: map<Key, Value>, k: Key)
    requires k in TopKeys && TopWrites(prev, f).1.Some?
    ensures var (m, refused) := TopWrites(prev, f);
      Lookup(m, k) == if TopIndex(k) < TopIndex(refused.value) then Lookup(f, k) else Lookup(prev, k)
  {
  }

  /** The top-level writes touch no other attribute. */
  lemma TopWritesFrame(prev: map<Key, Value>, f: map<Key, Value>, k: Key)
    requires k !in TopKeys
    ensures Lookup(TopWrites(prev, f).0, k) == Lookup(prev, k)
  {
  }

  /** The password block: both lengths copied. */
  function PasswordWrites(m: map<Key, Value>, a: map<Key, Value>): map<Key, Value>
    requires PasswordAttrsShape(a)
  {
    m[MinLoginNameLength := a[MinLoginNameLength]][MinPasswordLength := a[MinPasswordLength]]
  }

  /** The OIDC attributes every response carries, with the certificate and
      audience lists as the caller trimmed them. */
  function OidcAlways(m: map<Key, Value>, a: map<Key, Value>, certs: seq<string>, audiences: seq<string>): map<Key, Value>
    requires OidcAttrsShape(a)
  {
    m[State := a[State]][Issuer := a[Issuer]][ClientId := a[ClientId]]
     [ClientSecretHmac := a[ClientSecretHmac]]
     [CaCertificates := StrList(certs)][AllowedAudiences := StrList(audiences)]
     [MaxAge := a[MaxAge]]
  }

  /** The loop over the optional string attributes: `keys` written in order,
      each only when present. */
  function Sometimes(m: map<Key, Value>, a: map<Key, Value>, keys: seq<Key>): map<Key, Value>
  {
    if keys == [] then m
    else WriteIfPresent(Sometimes(m, a, keys[..|keys| - 1]), a, keys[|keys| - 1])
  }

  /** A key the loop does not visit keeps its value. */
  lemma {:induction false} SometimesOutside(m: map<Key, Value>, a: map<Key, Value>, keys: seq<Key>, k: Key)
    requires k !in keys
    ensures Lookup(Sometimes(m, a, keys), k) == Lookup(m, k)
  {
    if keys != [] {
      assert keys == keys[..|keys| - 1] + [keys[|keys| - 1]];
      SometimesOutside(m, a, keys[..|keys| - 1], k);
    }
  }

  /** A key the loop visits once is decoded by `OptionalRule`. */
  lemma {:induction false} SometimesAt(m: map<Key, Value>, a: map<Key, Value>, keys: seq<Key>, i: nat)
    requires i < |keys|
    requires forall j | 0 <= j < |keys| && j != i :: keys[j] != keys[i]
    ensures OptionalRule(m, Sometimes(m, a, keys), a, keys[i])
  {
    var init := keys[..|keys| - 1];
    if i == |keys| - 1 {
      assert keys[i] !in init by {
        forall j | 0 <= j < |init| ensures init[j] != keys[i] {
          assert init[j] == keys[j];
        }
      }
      SometimesOutside(m, a, init, keys[i]);
    } else {
      assert init[i] == keys[i];
      SometimesAt(m, a, init, i);
    }
  }

  /** The OIDC block: the attributes every response carries, then the
      optional strings, then the signing algorithms when present. */
  function OidcWrites(m: map<Key, Value>, a: map<Key, Value>, certs: seq<string>, audiences: seq<string>): map<Key, Value>
    requires OidcAttrsShape(a)
  {
    WriteIfPresent(Sometimes(OidcAlways(m, a, certs, audiences), a, SometimesStrings), a, SigningAlgorithms)
  }

  /** The OIDC block copies the attributes every response carries. */
  lemma OidcWritesAlways(m: map<Key, Value>, a: map<Key, Value>, certs: seq<string>, audiences: seq<string>)
    requires OidcAttrsShape(a)
    ensures var r := OidcWrites(m, a, certs, audiences);
      && Lookup(r, State) == Some(a[State]) && Lookup(r, Issuer) == Some(a[Issuer])
      && Lookup(r, ClientId) == Some(a[ClientId]) && Lookup(r, ClientSecretHmac) == Some(a[ClientSecretHmac])
      && Lookup(r, MaxAge) == Some(a[MaxAge])
      && Lookup(r, CaCertificates) == Some(StrList(certs))
      && Lookup(r, AllowedAudiences) == Some(StrList(audiences))
  {
    var m1 := OidcAlways(m, a, certs, audiences);
    forall k | k in OidcAlwaysKeys ensures Lookup(Sometimes(m1, a, SometimesStrings), k) == Lookup(m1, k) {
      SometimesOutside(m1, a, SometimesStrings, k);
    }
  }

  /** The OIDC block decodes every optional attribute by `OptionalRule`. */
  lemma OidcWritesOptional(m: map<Key, Value>, a: map<Key, Value>, certs: seq<string>, audiences: seq<string>, k: Key)
    requires OidcAttrsShape(a) && k in OidcSometimesKeys
    ensures OptionalRule(m, OidcWrites(m, a, certs, audiences), a, k)
  {
    var m1 := OidcAlways(m, a, certs, audiences);
    if k == SigningAlgorithms {
      SometimesOutside(m1, a, SometimesStrings, k);
    } else {
      var i := if k == ApiUrlPrefix then 0 else if k == CallbackUrl then 1 else 2;
      SometimesAt(m1, a, SometimesStrings, i);
    }
  }

  /** The OIDC block touches nothing outside it. */
  lemma OidcWritesFrame(m: map<Key, Value>, a: map<Key, Value>, certs: seq<string>, audiences: seq<string>, k: Key)
    requires OidcAttrsShape(a) && k !in OidcAlwaysKeys && k !in OidcSometimesKeys
    ensures Lookup(OidcWrites(m, a, certs, audiences), k) == Lookup(m, k)
  {
    SometimesOutside(OidcAlways(m, a, certs, audiences), a, SometimesStrings, k);
  }

  /** The outcome of decoding: the attributes and id afterwards, and the
      error returned, if any. */
  datatype Decoded = Decoded(state: map<Key, Value>, id: string, err: Option<DecodeError>)

  /** What decoding response `r` does to attributes `prev` and id `prevId`:
      the top-level writes, then the variant's block, and the id last. */
  function Decode(prevId: string, prev: map<Key, Value>, r: Response): (out: Decoded)
    requires DecodeDemands(r)
    ensures out.err.None? <==> TopAccepted(r) && KnownType(r.fields[Type].s)
    ensures out.id == if out.err.None? then r.fields[Id].s else prevId
    ensures !TopAccepted(r) ==> out.err.Some? && out.err.value.Rejected? && FirstRefused(r.fields, out.err.value.key)
    ensures TopAccepted(r) && !KnownType(r.fields[Type].s) ==> out.err == Some(InvalidAuthMethodType)
  {
    var (m, rejected) := TopWrites(prev, r.fields);
    if rejected.Some? then Decoded(m, prevId, Some(Rejected(rejected.value)))
    else if KnownType(r.fields[Type].s) then Decoded(VariantWrites(m, r), r.fields[Id].s, None)
    else Decoded(m, prevId, Some(InvalidAuthMethodType))
  }

  /** The attributes block of a response with a known type, written over
      `m`; a response without a block writes nothing. The certificates and
      audiences are trimmed element by element. */
  function VariantWrites(m: map<Key, Value>, r: Response): map<Key, Value>
    requires DecodeDemands(r) && TopAccepted(r) && KnownType(r.fields[Type].s)
  {
    if r.attributes.None? then m
    else
      var a := r.attributes.value;
      if r.fields[Type].s == PasswordType then PasswordWrites(m, a)
      else OidcWrites(m, a, TrimEach(a[CaCertificates].items), TrimEach(a[AllowedAudiences].items))
  }

  /** The block writes nothing outside the variant's attributes. */
  lemma VariantWritesFrame(m: map<Key, Value>, r: Response, k: Key)
    requires DecodeDemands(r) && TopAccepted(r) && KnownType(r.fields[Type].s) && k !in VariantKeys(r)
    ensures Lookup(VariantWrites(m, r), k) == Lookup(m, k)
  {
    if r.attributes.Some? && r.fields[Type].s == OidcType {
      var a := r.attributes.value;
      OidcWritesFrame(m, a, TrimEach(a[CaCertificates].items), TrimEach(a[AllowedAudiences].items), k);
    }
  }

  /** The attributes decoding leaves: the top-level writes, followed by
      the variant's block when the type is known. */
  lemma DecodeState(prevId: string, prev: map<Key, Value>, r: Response)
    requires DecodeDemands(r) && TopAccepted(r)
    ensures Decode(prevId, prev, r).state ==
      if KnownType(r.fields[Type].s) then VariantWrites(TopWrites(prev, r.fields).0, r)
      else TopWrites(prev, r.fields).0
  {
  }

  /** Once the top-level writes are accepted, the name, description, scope
      id and type are the response's, whatever the type says. */
  lemma DecodeTop(prevId: string, prev: map<Key, Value>, r: Response)
    requires DecodeDemands(r) && TopAccepted(r)
    ensures var st := Decode(prevId, prev, r).state;
      && Lookup(st, Name) == Lookup(r.fields, Name) && Lookup(st, Description) == Lookup(r.fields, Description)
      && Lookup(st, ScopeId) == Lookup(r.fields, ScopeId) && Lookup(st, Type) == Lookup(r.fields, Type)
  {
    DecodeState(prevId, prev, r);
    var m := TopWrites(prev, r.fields).0;
    if KnownType(r.fields[Type].s) {
      VariantWritesKeepTop(m, r);
    }
  }

  /** A variant's block leaves the four top-level attributes alone. */
  lemma VariantWritesKeepTop(m: map<Key, Value>, r: Response)
    requires DecodeDemands(r) && TopAccepted(r) && KnownType(r.fields[Type].s)
    ensures var v := VariantWrites(m, r);
      && Lookup(v, Name) == Lookup(m, Name) && Lookup(v, Description) == Lookup(m, Description)
      && Lookup(v, ScopeId) == Lookup(m, ScopeId) && Lookup(v, Type) == Lookup(m, Type)
  {
    if r.attributes.Some? && r.fields[Type].s == OidcType {
      var a := r.attributes.value;
      var certs, audiences := TrimEach(a[CaCertificates].items), TrimEach(a[AllowedAudiences].items);
      OidcWritesFrame(m, a, certs, audiences, Name);
      OidcWritesFrame(m, a, certs, audiences, Description);
      OidcWritesFrame(m, a, certs, audiences, ScopeId);
      OidcWritesFrame(m, a, certs, audiences, Type);
    }
  }

  /** A password response with attributes records both lengths. */
  lemma DecodePassword(prevId: string, prev: map<Key, Value>, r: Response)
    requires DecodeDemands(r) && TopAccepted(r)
    requires r.fields[Type].s == PasswordType && r.attributes.Some?
    ensures var out := Decode(prevId, prev, r);
      && Lookup(out.state, MinLoginNameLength) == Some(r.attributes.value[MinLoginNameLength])
      && Lookup(out.state, MinPasswordLength) == Some(r.attributes.value[MinPasswordLength])
  {
  }

  /** An OIDC response with attributes records the attributes it always
      carries, the certificates and audiences trimmed element by element in
      their order. */
  lemma DecodeOidc(prevId: string, prev: map<Key, Value>, r: Response)
    requires DecodeDemands(r) && TopAccepted(r)
    requires r.fields[Type].s == OidcType && r.attributes.Some?
    ensures var out := Decode(prevId, prev, r); var a := r.attributes.value;
      && Lookup(out.state, State) == Some(a[State]) && Lookup(out.state, Issuer) == Some(a[Issuer])
      && Lookup(out.state, ClientId) == Some(a[ClientId])
      && Lookup(out.state, ClientSecretHmac) == Some(a[ClientSecretHmac])
      && Lookup(out.state, MaxAge) == Some(a[MaxAge])
      && Lookup(out.state, CaCertificates) == Some(StrList(TrimEach(a[CaCertificates].items)))
      && Lookup(out.state, AllowedAudiences) == Some(StrList(TrimEach(a[AllowedAudiences].items)))
  {
    var a := r.attributes.value;
    OidcWritesAlways(TopWrites(prev, r.fields).0, a, TrimEach(a[CaCertificates].items), TrimEach(a[AllowedAudiences].items));
  }

  /** An OIDC response writes an optional attribute only when it carries
      it and the host accepts the value; otherwise the attribute keeps the
      value it had before decoding. */
  lemma DecodeOidcOptional(prevId: string, prev: map<Key, Value>, r: Response, k: Key)
    requires DecodeDemands(r) && TopAccepted(r) && k in OidcSometimesKeys
    requires r.fields[Type].s == OidcType && r.attributes.Some?
    ensures OptionalRule(prev, Decode(prevId, prev, r).state, r.attributes.value, k)
  {
    var a := r.attributes.value;
    var m := TopWrites(prev, r.fields).0;
    TopWritesFrame(prev, r.fields, k);
    OidcWritesOptional(m, a, TrimEach(a[CaCertificates].items), TrimEach(a[AllowedAudiences].items), k);
  }

  /** The disable flag arrives as a string, which the host refuses for a
      boolean attribute; the refusal is ignored, so decoding never changes
      the flag. */
  lemma DecodeKeepsDisableFlag(prevId: string, prev: map<Key, Value>, r: Response)
    requires DecodeDemands(r) && TopAccepted(r)
    requires r.fields[Type].s == OidcType && r.attributes.Some?
    ensures Lookup(Decode(prevId, prev, r).state, DisableDiscoveredConfigValidation)
      == Lookup(prev, DisableDiscoveredConfigValidation)
  {
    DecodeOidcOptional(prevId, prev, r, DisableDiscoveredConfigValidation);
  }

  /** The attributes block a decoded response may write. */
  function VariantKeys(r: Response): set<Key>
    requires DecodeDemands(r) && TopAccepted(r)
  {
    if r.attributes.None? then {}
    else if r.fields[Type].s == PasswordType then PasswordKeys
    else if r.fields[Type].s == OidcType then OidcAlwaysKeys + OidcSometimesKeys
    else {}
  }

  /** Decoding writes nothing but the top-level attributes and the block of
      the response's own variant: a password response leaves the OIDC
      attributes alone and the other way round, a response without an
      attributes block leaves every variant attribute alone, and a refused
      write or an unknown type stops before any variant attribute. */
  lemma DecodeFrame(prevId: string, prev: map<Key, Value>, r: Response, k: Key)
    requires DecodeDemands(r) && k !in TopKeys
    requires TopAccepted(r) ==> k !in VariantKeys(r)
    ensures Lookup(Decode(prevId, prev, r).state, k) == Lookup(prev, k)
  {
    var m := TopWrites(prev, r.fields).0;
    TopWritesFrame(prev, r.fields, k);
    if TopAccepted(r) && KnownType(r.fields[Type].s) {
      VariantWritesFrame(m, r, k);
    }
  }

  /** A write whose refusal is ignored keeps every value of its key's kind. */
  lemma StoredKeepsWellKinded(m: map<Key, Value>, k: Key, v: Value)
    requires WellKinded(m)
    ensures WellKinded(Stored(m, k, v))
  {
  }

  lemma {:induction false} SometimesKeepsWellKinded(m: map<Key, Value>, a: map<Key, Value>, keys: seq<Key>)
    requires WellKinded(m)
    ensures WellKinded(Sometimes(m, a, keys))
  {
    if keys != [] {
      var init := keys[..|keys| - 1];
      SometimesKeepsWellKinded(m, a, init);
      var k := keys[|keys| - 1];
      if k in a {
        StoredKeepsWellKinded(Sometimes(m, a, init), k, a[k]);
      }
    }
  }

  lemma TopWritesKeepWellKinded(prev: map<Key, Value>, f: map<Key, Value>)
    requires WellKinded(prev)
    ensures WellKinded(TopWrites(prev, f).0)
  {
    var m0 := prev;
    if Accepts(Name, Lookup(f, Name)) {
      PutKeepsWellKinded(m0, Name, Lookup(f, Name));
      var m1 := Put(m0, Name, Lookup(f, Name));
      if Accepts(Description, Lookup(f, Description)) {
        PutKeepsWellKinded(m1, Description, Lookup(f, Description));
        var m2 := Put(m1, Description, Lookup(f, Description));
        if Accepts(ScopeId, Lookup(f, ScopeId)) {
          PutKeepsWellKinded(m2, ScopeId, Lookup(f, ScopeId));
          var m3 := Put(m2, ScopeId, Lookup(f, ScopeId));
          if Accepts(Type, Lookup(f, Type)) {
            PutKeepsWellKinded(m3, Type, Lookup(f, Type));
          }
        }
      }
    }
  }

  lemma OidcAlwaysKeepsWellKinded(m: map<Key, Value>, a: map<Key, Value>, certs: seq<string>, audiences: seq<string>)
    requires OidcAttrsShape(a) && WellKinded(m)
    ensures WellKinded(OidcAlways(m, a, certs, audiences))
  {
  }

  lemma OidcWritesKeepWellKinded(m: map<Key, Value>, a: map<Key, Value>, certs: seq<string>, audiences: seq<string>)
    requires OidcAttrsShape(a) && WellKinded(m)
    ensures WellKinded(OidcWrites(m, a, certs, audiences))
  {
    var m1 := OidcAlways(m, a, certs, audiences);
    OidcAlwaysKeepsWellKinded(m, a, certs, audiences);
    SometimesKeepsWellKinded(m1, a, SometimesStrings);
    if SigningAlgorithms in a {
      StoredKeepsWellKinded(Sometimes(m1, a, SometimesStrings), SigningAlgorithms, a[SigningAlgorithms]);
    }
  }

  lemma VariantWritesKeepWellKinded(m: map<Key, Value>, r: Response)
    requires DecodeDemands(r) && TopAccepted(r) && KnownType(r.fields[Type].s) && WellKinded(m)
    ensures WellKinded(VariantWrites(m, r))
  {
    if r.attributes.Some? && r.fields[Type].s == OidcType {
      var a := r.attributes.value;
      OidcWritesKeepWellKinded(m, a, TrimEach(a[CaCertificates].items), TrimEach(a[AllowedAudiences].items));
    }
  }

  /** Decoding keeps every recorded value of its key's kind, because the
      host refuses the writes that would not: what decoding leaves is again
      a state the operations can read. */
  lemma DecodeKeepsWellKinded(prevId: string, prev: map<Key, Value>, r: Response)
    requires DecodeDemands(r) && WellKinded(prev)
    ensures WellKinded(Decode(prevId, prev, r).state)
  {
    TopWritesKeepWellKinded(prev, r.fields);
    if TopAccepted(r) {
      DecodeState(prevId, prev, r);
      if KnownType(r.fields[Type].s) {
        VariantWritesKeepWellKinded(TopWrites(prev, r.fields).0, r);
      }
    }
  }
}
