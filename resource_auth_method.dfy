/** The auth-method resource's lifecycle: decoding a response into the
    resource, and the create, read, update and delete operations, each
    deciding which call to make to the remote service and what to record. */
module AuthMethod {
  import opened Values
  import opened Text
  import opened Options
  import opened Decoding
  import opened Encoding
  import opened Diffing
  import opened ResourceState
  import opened Remote

  /** The errors an operation reports to the host. */
  datatype Diagnostic =
    | NoTypeProvided
    | ErrorInvalidAuthMethodType
    | NoScopeIdProvided
    | ErrorCreating(err: ApiError)
    | NilAfterCreate
    | ErrorReading(err: ApiError)
    | NilAfterRead
    | ErrorUpdating(err: ApiError)
    | ErrorDeleting(err: ApiError)
    | FromDecode(cause: DecodeError)

  /** What an operation decides before talking to the service: to fail, to
      make no call, or to make one call. */
  datatype Plan = Refuse(diag: Diagnostic) | Skip | Send(call: Call)

  /** The resource's id, attributes and reported error after an operation. */
  datatype Outcome = Outcome(id: string, state: map<Key, Value>, diag: Option<Diagnostic>)

  /** The four top-level writes of the decoder, stopping at the first the
      host refuses. */
  method SetTop(d: ResourceData, f: map<Key, Value>) returns (rejected: Option<Key>)
    modifies d`state
    ensures (d.state, rejected) == TopWrites(old(d.state), f)
  {
    var e := d.Set(Name, Lookup(f, Name));
    if e.Some? { return Some(Name); }
    e := d.Set(Description, Lookup(f, Description));
    if e.Some? { return Some(Description); }
    e := d.Set(ScopeId, Lookup(f, ScopeId));
    if e.Some? { return Some(ScopeId); }
    e := d.Set(Type, Lookup(f, Type));
    if e.Some? { return Some(Type); }
    return None;
  }

  /** The password block: both lengths, which the host always accepts. */
  method SetPassword(d: ResourceData, a: map<Key, Value>)
    requires PasswordAttrsShape(a)
    modifies d`state
    ensures d.state == PasswordWrites(old(d.state), a)
  {
    var _ := d.Set(MinLoginNameLength, Some(a[MinLoginNameLength]));
    var _ := d.Set(MinPasswordLength, Some(a[MinPasswordLength]));
  }

  /** Trims every element of `xs` and records the list under `k`. */
  method SetTrimmed(d: ResourceData, k: Key, xs: seq<string>)
    requires KindOf(k) == StringListKind
    modifies d`state
    ensures d.state == old(d.state)[k := StrList(TrimEach(xs))]
  {
    var ys := TrimAll(xs);
    var _ := d.Set(k, Some(StrList(ys)));
  }

  /** The OIDC attributes every response carries; the host's refusals are
      ignored, as the resource does. */
  method SetOidcAlways(d: ResourceData, a: map<Key, Value>)
    requires OidcAttrsShape(a)
    modifies d`state
    ensures d.state == OidcAlways(old(d.state), a, TrimEach(a[CaCertificates].items), TrimEach(a[AllowedAudiences].items))
  {
    var _ := d.Set(State, Some(a[State]));
    var _ := d.Set(Issuer, Some(a[Issuer]));
    var _ := d.Set(ClientId, Some(a[ClientId]));
    var _ := d.Set(ClientSecretHmac, Some(a[ClientSecretHmac]));
    SetTrimmed(d, CaCertificates, a[CaCertificates].items);
    SetTrimmed(d, AllowedAudiences, a[AllowedAudiences].items);
    var _ := d.Set(MaxAge, Some(a[MaxAge]));
  }

  /** The loop over the optional string attributes. */
  method SetSometimes(d: ResourceData, a: map<Key, Value>)
    modifies d`state
    ensures d.state == Sometimes(old(d.state), a, SometimesStrings)
  {
    var i := 0;
    while i < |SometimesStrings|
      invariant 0 <= i <= |SometimesStrings|
      invariant d.state == Sometimes(old(d.state), a, SometimesStrings[..i])
    {
      var k := SometimesStrings[i];
      if k in a {
        var _ := d.Set(k, Some(a[k]));
      }
      assert SometimesStrings[..i + 1][..i] == SometimesStrings[..i];
      i := i + 1;
    }
    assert SometimesStrings[..i] == SometimesStrings;
  }

  /** The OIDC block: the attributes always present, the optional strings,
      and the signing algorithms when present. */
  method SetOidc(d: ResourceData, a: map<Key, Value>)
    requires OidcAttrsShape(a)
    modifies d`state
    ensures d.state == OidcWrites(old(d.state), a, TrimEach(a[CaCertificates].items), TrimEach(a[AllowedAudiences].items))
  {
    SetOidcAlways(d, a);
    SetSometimes(d, a);
    if SigningAlgorithms in a {
      var _ := d.Set(SigningAlgorithms, Some(a[SigningAlgorithms]));
    }
  }

  /** Decodes response `r` into `d`: the attributes and id afterwards and
      the error returned are those of `Decode`. */
  method SetFromResponse(d: ResourceData, r: Response) returns (err: Option<DecodeError>)
    requires DecodeDemands(r)
    modifies d
    ensures var out := Decode(old(d.id), old(d.state), r);
      d.state == out.state && d.id == out.id && err == out.err
    ensures old(WellKinded(d.state)) ==> WellKinded(d.state)
  {
    if WellKinded(d.state) {
      DecodeKeepsWellKinded(d.id, d.state, r);
    }
    var rejected := SetTop(d, r.fields);
    if rejected.Some? {
      return Some(Rejected(rejected.value));
    }
    var typ := r.fields[Type].s;
    if typ == PasswordType {
      if r.attributes.Some? {
        SetPassword(d, r.attributes.value);
      }
    } else if typ == OidcType {
      if r.attributes.Some? {
        SetOidc(d, r.attributes.value);
      }
    } else {
      return Some(InvalidAuthMethodType);
    }
    d.SetId(r.fields[Id].s);
    return None;
  }

  /** The outcome of decoding a response into the resource. */
  function DecodeOutcome(id: string, st: map<Key, Value>, resp: Response): (o: Outcome)
    requires DecodeDemands(resp)
    ensures o.diag.None? <==> Decode(id, st, resp).err.None?
    ensures o.id == (if o.diag.None? then resp.fields[Id].s else id)
    ensures o.state == Decode(id, st, resp).state
    ensures Decode(id, st, resp).err.Some? ==> o.diag == Some(FromDecode(Decode(id, st, resp).err.value))
    ensures WellKinded(st) ==> WellKinded(o.state)
  {
    var out := Decode(id, st, resp);
    assert WellKinded(st) ==> WellKinded(out.state) by {
      if WellKinded(st) {
        DecodeKeepsWellKinded(id, st, resp);
      }
    }
    Outcome(out.id, out.state, if out.err.Some? then Some(FromDecode(out.err.value)) else None)
  }

  /** A reply the resource can decode without tripping over a value of an
      unexpected type. */
  predicate Decodable(r: Reply) {
    r.Answer? ==> DecodeDemands(r.resp)
  }

  // ---- Create ----

  /** The create request for configuration `st`, or the error that stops
      the resource before it makes one: a missing type first, then an
      unknown type, then a missing scope id. */
  function CreatePlan(st: map<Key, Value>): (p: Plan)
    requires WellKinded(st)
    ensures !p.Skip?
    ensures p.Refuse? <==> Type !in st || !KnownType(st[Type].s) || ScopeId !in st
    ensures Type !in st ==> p == Refuse(NoTypeProvided)
    ensures Type in st && !KnownType(st[Type].s) ==> p == Refuse(ErrorInvalidAuthMethodType)
    ensures Type in st && KnownType(st[Type].s) && ScopeId !in st ==> p == Refuse(NoScopeIdProvided)
    ensures p.Send? ==> p.call.CreateCall? && p.call.typ == st[Type].s && p.call.scopeId == st[ScopeId].s
    ensures p.Send? ==> p.call.opts == CreateOptions(st, st[Type].s)
  {
    if Type !in st then Refuse(NoTypeProvided)
    else if !KnownType(st[Type].s) then Refuse(ErrorInvalidAuthMethodType)
    else if ScopeId !in st then Refuse(NoScopeIdProvided)
    else Send(CreateCall(st[Type].s, st[ScopeId].s, CreateOptions(st, st[Type].s)))
  }

  /** What create leaves behind, given the configuration and the service's
      answer to the request (not consulted when no request is made). */
  function CreateOutcome(id: string, st: map<Key, Value>, reply: Reply): (o: Outcome)
    requires WellKinded(st) && Decodable(reply)
    ensures CreatePlan(st).Refuse? ==> o == Outcome(id, st, Some(CreatePlan(st).diag))
    ensures o.diag.None? ==> CreatePlan(st).Send? && reply.Answer? && Decode(id, st, reply.resp).err.None?
    ensures o.diag.None? ==> o.id == reply.resp.fields[Id].s
    ensures o.diag.Some? ==> o.id == id
    ensures !reply.Answer? ==> o.state == st && o.diag.Some?
    ensures CreatePlan(st).Send? && reply.Answer? ==> o.state == Decode(id, st, reply.resp).state
    ensures CreatePlan(st).Send? && reply.Answer? ==> (o.diag.None? <==> Decode(id, st, reply.resp).err.None?)
    ensures CreatePlan(st).Send? && reply.Failure? ==> o.diag == Some(ErrorCreating(reply.err))
    ensures CreatePlan(st).Send? && reply.NoAnswer? ==> o.diag == Some(NilAfterCreate)
    ensures WellKinded(o.state)
  {
    var plan := CreatePlan(st);
    if plan.Refuse? then Outcome(id, st, Some(plan.diag))
    else
      match reply
      case Failure(e) => Outcome(id, st, Some(ErrorCreating(e)))
      case NoAnswer => Outcome(id, st, Some(NilAfterCreate))
      case Answer(resp) => DecodeOutcome(id, st, resp)
  }

  /** The option that sends the configured value `v` of `k`; a
      certificate list is trimmed by the resource's loop. */
  method OptionFor(k: Key, v: Value) returns (o: AmOption)
    requires Settable(k) && HasKind(v, KindOf(k))
    ensures o == SetOption(k, Sent(k, v))
  {
    if k == CaCertificates {
      var certs := TrimAll(v.items);
      o := WithIdpCaCerts(certs);
    } else {
      o := SetOption(k, v);
    }
  }

  /** The option of one block of create: the one for `k` when it is
      configured. */
  method PresentOption(d: ResourceData, k: Key) returns (os: seq<AmOption>)
    requires WellKinded(d.state) && Settable(k)
    ensures os == Emit(Outgoing(d.state), k)
  {
    os := [];
    var v := d.GetOk(k);
    if v.Some? {
      var o := OptionFor(k, v.value);
      OutgoingAt(d.state, k);
      os := [o];
    }
  }

  /** One block of create appended to the options of the blocks before it;
      `done` lists the keys handled so far. */
  method AppendIfPresent(d: ResourceData, k: Key, opts: seq<AmOption>, ghost done: seq<Key>)
      returns (opts': seq<AmOption>, ghost done': seq<Key>)
    requires WellKinded(d.state) && Settable(k) && AllSettable(done)
    requires opts == EmitAll(Outgoing(d.state), done)
    ensures done' == done + [k] && AllSettable(done')
    ensures opts' == EmitAll(Outgoing(d.state), done')
  {
    var os := PresentOption(d, k);
    opts' := opts + os;
    done' := done + [k];
    EmitAllSnoc(Outgoing(d.state), done, k);
  }

  /** Creates the auth method: builds the options from the configuration,
      refuses before any call when the type or scope id is missing or the
      type is unknown, and otherwise makes one create call and decodes the
      answer into the resource. */
  method Create(d: ResourceData, c: Client) returns (diag: Option<Diagnostic>)
    requires WellKinded(d.state) && c.replies != [] && Decodable(c.replies[0])
    modifies d, c
    ensures var plan := CreatePlan(old(d.state));
      && c.log == old(c.log) + (if plan.Send? then [plan.call] else [])
      && c.replies == (if plan.Send? then old(c.replies)[1..] else old(c.replies))
    ensures Outcome(d.id, d.state, diag) == CreateOutcome(old(d.id), old(d.state), old(c.replies)[0])
    ensures WellKinded(d.state)
  {
    var t := d.GetOk(Type);
    if t.None? {
      return Some(NoTypeProvided);
    }
    var typ := t.value.s;
    if !KnownType(typ) {
      return Some(ErrorInvalidAuthMethodType);
    }
    var opts := BuildCreateOptions(d, typ);
    var scope := d.GetOk(ScopeId);
    if scope.None? {
      return Some(NoScopeIdProvided);
    }
    var r := c.Send(CreateCall(typ, scope.value.s, opts));
    match r
    case Failure(e) =>
      return Some(ErrorCreating(e));
    case NoAnswer =>
      return Some(NilAfterCreate);
    case Answer(resp) =>
      var err := SetFromResponse(d, resp);
      diag := if err.Some? then Some(FromDecode(err.value)) else None;
  }

  /** The options of the create request: the variant's blocks, then the
      name and the description. */
  method BuildCreateOptions(d: ResourceData, typ: string) returns (opts: seq<AmOption>)
    requires WellKinded(d.state) && KnownType(typ)
    ensures opts == CreateOptions(d.state, typ)
  {
    ghost var done: seq<Key>;
    opts, done := BuildVariantOptions(d, typ);
    opts, done := AppendIfPresent(d, Name, opts, done);
    opts, done := AppendIfPresent(d, Description, opts, done);
    assert done == CreateKeys(typ);
  }

  /** The variant's blocks of create. */
  method BuildVariantOptions(d: ResourceData, typ: string) returns (opts: seq<AmOption>, ghost done: seq<Key>)
    requires WellKinded(d.state) && KnownType(typ)
    ensures done == VariantCreateKeys(typ) && AllSettable(done)
    ensures opts == EmitAll(Outgoing(d.state), done)
  {
    if typ == PasswordType {
      opts, done := AppendIfPresent(d, MinLoginNameLength, [], []);
      opts, done := AppendIfPresent(d, MinPasswordLength, opts, done);
    } else {
      opts, done := BuildOidcOptions(d);
    }
  }

  /** The OIDC blocks of create, in the resource's order. */
  method BuildOidcOptions(d: ResourceData) returns (opts: seq<AmOption>, ghost done: seq<Key>)
    requires WellKinded(d.state)
    ensures done == OidcCreateKeys && AllSettable(done)
    ensures opts == EmitAll(Outgoing(d.state), done)
  {
    opts, done := AppendIfPresents(d, Issuer, ClientId, ClientSecret, [], []);
    opts, done := AppendIfPresents(d, MaxAge, ApiUrlPrefix, CaCertificates, opts, done);
    opts, done := AppendIfPresents(d, AllowedAudiences, DisableDiscoveredConfigValidation, SigningAlgorithms, opts, done);
  }

  /** Three consecutive blocks of create. The code is one straight run of
      blocks; the grouping in threes only keeps each proof small. */
  method AppendIfPresents(d: ResourceData, k1: Key, k2: Key, k3: Key, opts: seq<AmOption>, ghost done: seq<Key>)
      returns (opts': seq<AmOption>, ghost done': seq<Key>)
    requires WellKinded(d.state) && Settable(k1) && Settable(k2) && Settable(k3) && AllSettable(done)
    requires opts == EmitAll(Outgoing(d.state), done)
    ensures done' == done + [k1, k2, k3] && AllSettable(done')
    ensures opts' == EmitAll(Outgoing(d.state), done')
  {
    opts', done' := AppendIfPresent(d, k1, opts, done);
    opts', done' := AppendIfPresent(d, k2, opts', done');
    opts', done' := AppendIfPresent(d, k3, opts', done');
  }

  // ---- Read ----

  /** What read leaves behind, given the service's answer: a "not found"
      error clears the id and is not reported, any other error or a missing
      result is reported, and a result is decoded into the resource. */
  function ReadOutcome(id: string, st: map<Key, Value>, reply: Reply): (o: Outcome)
    requires Decodable(reply)
    ensures !reply.Answer? ==> o.state == st
    ensures reply.Failure? ==> (o.diag.None? <==> reply.err.status == StatusNotFound)
    ensures reply.Failure? ==> o.id == if reply.err.status == StatusNotFound then "" else id
    ensures reply.Failure? && reply.err.status != StatusNotFound ==> o.diag == Some(ErrorReading(reply.err))
    ensures reply.NoAnswer? ==> o.diag == Some(NilAfterRead) && o.id == id
    ensures reply.Answer? ==> (o.diag.None? <==> Decode(id, st, reply.resp).err.None?)
    ensures reply.Answer? && o.diag.None? ==> o.id == reply.resp.fields[Id].s
    ensures o.diag.Some? ==> o.id == id
    ensures reply.Answer? ==> o.state == Decode(id, st, reply.resp).state
    ensures WellKinded(st) ==> WellKinded(o.state)
  {
    match reply
    case Failure(e) =>
      if e.status == StatusNotFound then Outcome("", st, None) else Outcome(id, st, Some(ErrorReading(e)))
    case NoAnswer => Outcome(id, st, Some(NilAfterRead))
    case Answer(resp) => DecodeOutcome(id, st, resp)
  }

  /** Reads the auth method by the resource's id. */
  method Read(d: ResourceData, c: Client) returns (diag: Option<Diagnostic>)
    requires c.replies != [] && Decodable(c.replies[0])
    modifies d, c
    ensures c.log == old(c.log) + [ReadCall(old(d.id))] && c.replies == old(c.replies)[1..]
    ensures Outcome(d.id, d.state, diag) == ReadOutcome(old(d.id), old(d.state), old(c.replies)[0])
    ensures old(WellKinded(d.state)) ==> WellKinded(d.state)
  {
    var r := c.Send(ReadCall(d.id));
    match r
    case Failure(e) =>
      if e.status == StatusNotFound {
        d.SetId("");
        return None;
      }
      return Some(ErrorReading(e));
    case NoAnswer =>
      return Some(NilAfterRead);
    case Answer(resp) =>
      var err := SetFromResponse(d, resp);
      diag := if err.Some? then Some(FromDecode(err.value)) else None;
  }

  // ---- Update ----

  /** The type an update works with: the configured one, or the empty
      string when none is configured. */
  function UpdateType(st: map<Key, Value>): (t: string)
    ensures t != "" ==> Type in st && st[Type] == Str(t)
    ensures Type in st && st[Type].Str? ==> t == st[Type].s
  {
    if Type in st && st[Type].Str? then st[Type].s else ""
  }

  /** The update request for the change from `prior` to `st`: none for an
      unknown type (an error) or when no option results (no error), and
      otherwise the options with automatic versioning appended, sent for
      version 0. */
  function UpdatePlan(prior: map<Key, Value>, st: map<Key, Value>, id: string): (p: Plan)
    requires WellKinded(st)
    ensures p.Refuse? <==> !KnownType(UpdateType(st))
    ensures p.Refuse? ==> p.diag == ErrorInvalidAuthMethodType
    ensures p.Skip? <==> KnownType(UpdateType(st)) && UpdateOptions(prior, st, UpdateType(st)) == []
    ensures p.Send? ==>
      && p.call.UpdateCall? && p.call.id == id && p.call.version == 0
      && |p.call.opts| > 1 && p.call.opts[|p.call.opts| - 1] == WithAutomaticVersioning(true)
      && p.call.opts[..|p.call.opts| - 1] == UpdateOptions(prior, st, UpdateType(st))
  {
    var typ := UpdateType(st);
    if !KnownType(typ) then Refuse(ErrorInvalidAuthMethodType)
    else
      var opts := UpdateOptions(prior, st, typ);
      if opts == [] then Skip
      else
        var sent := opts + [WithAutomaticVersioning(true)];
        assert sent[..|sent| - 1] == opts;
        Send(UpdateCall(id, 0, sent))
  }

  /** Applying a configuration that matches the recorded attributes makes
      no call: it is refused for an unknown type and skipped otherwise. */
  lemma UpdateInSyncMakesNoCall(m: map<Key, Value>, id: string)
    requires WellKinded(m)
    ensures UpdatePlan(m, m, id) == if KnownType(UpdateType(m)) then Skip else Refuse(ErrorInvalidAuthMethodType)
  {
    if KnownType(UpdateType(m)) {
      UpdateOptionsUnchanged(m, UpdateType(m));
    }
  }

  /** Every option of an update call but the versioning one belongs to an
      attribute that changed; a reset is only ever sent for a changed
      attribute with a default. */
  lemma UpdateCallSendsOnlyChanges(prior: map<Key, Value>, st: map<Key, Value>, id: string, j: nat)
    requires WellKinded(st) && UpdatePlan(prior, st, id).Send? && j < |UpdatePlan(prior, st, id).call.opts| - 1
    ensures ChangeOption(prior, st, UpdatePlan(prior, st, id).call.opts[j])
  {
    var typ := UpdateType(st);
    UpdateKeysFacts(typ);
    var keys := UpdateKeys(typ);
    var opts := UpdatePlan(prior, st, id).call.opts;
    assert opts[j] == DiffAll(prior, st, keys)[j];
    DiffAllChanged(prior, st, keys, j);
    if opts[j].IsReset() {
      DiffAllResets(prior, st, keys, j);
    }
  }

  /** `o` is the option of a compared attribute that changed, and a reset
      only for one with a default. */
  predicate ChangeOption(prior: map<Key, Value>, st: map<Key, Value>, o: AmOption)
    requires WellKinded(st) && KnownType(UpdateType(st))
  {
    UpdateKeysFacts(UpdateType(st));
    && (exists k | k in UpdateKeys(UpdateType(st)) :: Changed(prior, st, k) && o in FieldDiff(prior, st, k))
    && (o.IsReset() ==> Resettable(Target(o)) && Changed(prior, st, Target(o)))
  }

  /** What update reports: the refusal, or the service's error. */
  function UpdateDiag(plan: Plan, reply: Reply): (r: Option<Diagnostic>)
    ensures r.None? <==> plan.Skip? || (plan.Send? && !reply.Failure?)
    ensures plan.Refuse? ==> r == Some(plan.diag)
    ensures plan.Send? && reply.Failure? ==> r == Some(ErrorUpdating(reply.err))
  {
    match plan
    case Refuse(dg) => Some(dg)
    case Skip => None
    case Send(_) => if reply.Failure? then Some(ErrorUpdating(reply.err)) else None
  }

  /** The options of one block of update: when `k` changed, a reset for
      the attributes that have a default, then the option for the configured
      value. */
  method FieldOptions(d: ResourceData, k: Key) returns (os: seq<AmOption>)
    requires WellKinded(d.state) && Settable(k)
    ensures os == FieldDiff(d.prior, d.state, k)
  {
    os := [];
    if d.HasChange(k) {
      if Resettable(k) {
        os := os + [ResetOption(k)];
      }
      var v := d.GetOk(k);
      if v.Some? {
        var o := OptionFor(k, v.value);
        OutgoingAt(d.state, k);
        os := os + [o];
      }
    }
  }

  /** One block of update appended to the options of the blocks before it;
      `done` lists the keys handled so far. */
  method AppendDiff(d: ResourceData, k: Key, opts: seq<AmOption>, ghost done: seq<Key>)
      returns (opts': seq<AmOption>, ghost done': seq<Key>)
    requires WellKinded(d.state) && Settable(k) && AllSettable(done)
    requires opts == DiffAll(d.prior, d.state, done)
    ensures done' == done + [k] && AllSettable(done')
    ensures opts' == DiffAll(d.prior, d.state, done')
  {
    var os := FieldOptions(d, k);
    opts' := opts + os;
    done' := done + [k];
    DiffAllSnoc(d.prior, d.state, done, k);
  }

  /** The variant's blocks of update, after the name and description. */
  method BuildVariantDiff(d: ResourceData, typ: string, opts: seq<AmOption>, ghost done: seq<Key>)
      returns (opts': seq<AmOption>)
    requires WellKinded(d.state) && KnownType(typ)
    requires done == CommonKeys && opts == DiffAll(d.prior, d.state, done)
    ensures opts' == UpdateOptions(d.prior, d.state, typ)
  {
    ghost var done': seq<Key>;
    if typ == PasswordType {
      opts', done' := AppendDiff(d, MinLoginNameLength, opts, done);
      opts', done' := AppendDiff(d, MinPasswordLength, opts', done');
    } else {
      opts', done' := BuildOidcDiff(d, opts, done);
    }
    assert done' == UpdateKeys(typ);
  }

  /** The OIDC blocks of update, in the resource's order. */
  method BuildOidcDiff(d: ResourceData, opts: seq<AmOption>, ghost done: seq<Key>)
      returns (opts': seq<AmOption>, ghost done': seq<Key>)
    requires WellKinded(d.state) && AllSettable(done) && opts == DiffAll(d.prior, d.state, done)
    ensures done' == done + OidcUpdateKeys
    ensures AllSettable(done') && opts' == DiffAll(d.prior, d.state, done')
  {
    opts', done' := AppendDiffs(d, Issuer, ClientId, ClientSecret, opts, done);
    opts', done' := AppendDiffs(d, MaxAge, SigningAlgorithms, ApiUrlPrefix, opts', done');
    opts', done' := AppendDiffs(d, ClientSecretHmac, AllowedAudiences, CaCertificates, opts', done');
    opts', done' := AppendDiff(d, DisableDiscoveredConfigValidation, opts', done');
  }

  /** Three consecutive blocks of update. The code is one straight run of
      blocks; the grouping in threes only keeps each proof small. */
  method AppendDiffs(d: ResourceData, k1: Key, k2: Key, k3: Key, opts: seq<AmOption>, ghost done: seq<Key>)
      returns (opts': seq<AmOption>, ghost done': seq<Key>)
    requires WellKinded(d.state) && Settable(k1) && Settable(k2) && Settable(k3) && AllSettable(done)
    requires opts == DiffAll(d.prior, d.state, done)
    ensures done' == done + [k1, k2, k3] && AllSettable(done')
    ensures opts' == DiffAll(d.prior, d.state, done')
  {
    opts', done' := AppendDiff(d, k1, opts, done);
    opts', done' := AppendDiff(d, k2, opts', done');
    opts', done' := AppendDiff(d, k3, opts', done');
  }

  /** Updates the auth method: compares the configuration with the
      recorded attributes and sends the differences, if any. */
  method Update(d: ResourceData, c: Client) returns (diag: Option<Diagnostic>)
    requires WellKinded(d.state) && c.replies != []
    modifies c
    ensures var plan := UpdatePlan(d.prior, d.state, d.id);
      && c.log == old(c.log) + (if plan.Send? then [plan.call] else [])
      && c.replies == (if plan.Send? then old(c.replies)[1..] else old(c.replies))
      && diag == UpdateDiag(plan, old(c.replies)[0])
  {
    var opts: seq<AmOption>;
    ghost var done: seq<Key>;
    opts, done := AppendDiff(d, Name, [], []);
    opts, done := AppendDiff(d, Description, opts, done);
    var typ := UpdateType(d.state);
    if !KnownType(typ) {
      return Some(ErrorInvalidAuthMethodType);
    }
    opts := BuildVariantDiff(d, typ, opts, done);
    if |opts| > 0 {
      opts := opts + [WithAutomaticVersioning(true)];
      var r := c.Send(UpdateCall(d.id, 0, opts));
      if r.Failure? {
        return Some(ErrorUpdating(r.err));
      }
    }
    return None;
  }

  // ---- Delete ----

  /** Deletes the auth method by the resource's id; every error is
      reported. */
  method Delete(d: ResourceData, c: Client) returns (diag: Option<Diagnostic>)
    requires c.replies != []
    modifies c
    ensures c.log == old(c.log) + [DeleteCall(d.id)] && c.replies == old(c.replies)[1..]
    ensures diag == if old(c.replies)[0].Failure? then Some(ErrorDeleting(old(c.replies)[0].err)) else None
  {
    var r := c.Send(DeleteCall(d.id));
    if r.Failure? {
      return Some(ErrorDeleting(r.err));
    }
    return None;
  }
}
