/** The options a create request carries, as a function of the configured
    attributes: one option per configured attribute of the variant, then the
    name and the description. */
module Encoding {
  import opened Values
  import opened Options

  /** The variant attributes a create request can carry, in the order the
      resource appends their options. */
  const PasswordCreateKeys: seq<Key> := [MinLoginNameLength, MinPasswordLength]
  const OidcCreateKeys: seq<Key> :=
    [Issuer, ClientId, ClientSecret, MaxAge, ApiUrlPrefix, CaCertificates,
     AllowedAudiences, DisableDiscoveredConfigValidation, SigningAlgorithms]
  /** The attributes every create request can carry, after the variant's. */
  const CommonKeys: seq<Key> := [Name, Description]

  function VariantCreateKeys(typ: string): seq<Key>
    requires KnownType(typ)
  {
    if typ == PasswordType then PasswordCreateKeys else OidcCreateKeys
  }

  function CreateKeys(typ: string): seq<Key>
    requires KnownType(typ)
  {
    VariantCreateKeys(typ) + CommonKeys
  }

  predicate AllSettable(keys: seq<Key>) {
    forall i | 0 <= i < |keys| :: Settable(keys[i])
  }

  /** The option for `k` when it is configured, nothing otherwise. */
  function Emit(st: map<Key, Value>, k: Key): seq<AmOption>
    requires WellKinded(st) && Settable(k)
  {
    if k in st then [SetOption(k, st[k])] else []
  }

  /** The options for `keys`, appended in order. */
  function EmitAll(st: map<Key, Value>, keys: seq<Key>): seq<AmOption>
    requires WellKinded(st) && AllSettable(keys)
  {
    if keys == [] then []
    else EmitAll(st, keys[..|keys| - 1]) + Emit(st, keys[|keys| - 1])
  }

  /** The keys of `keys` that are in `have`, in their order. */
  function Present(have: set<Key>, keys: seq<Key>): (ps: seq<Key>)
    ensures |ps| <= |keys|
    ensures forall i | 0 <= i < |ps| :: ps[i] in keys && ps[i] in have
  {
    if keys == [] then []
    else Present(have, keys[..|keys| - 1]) + (if keys[|keys| - 1] in have then [keys[|keys| - 1]] else [])
  }

  /** The options of a create request of type `typ`. */
  function CreateOptions(st: map<Key, Value>, typ: string): seq<AmOption>
    requires WellKinded(st) && KnownType(typ)
  {
    EmitAll(Outgoing(st), CreateKeys(typ))
  }

  /** The attribute each option sets. */
  function Targets(os: seq<AmOption>): (ts: seq<Key>)
    requires forall i | 0 <= i < |os| :: !os[i].WithAutomaticVersioning?
    ensures |ts| == |os|
    ensures forall i | 0 <= i < |os| :: ts[i] == Target(os[i])
  {
    if os == [] then [] else [Target(os[0])] + Targets(os[1..])
  }

  /** A key is kept exactly when it is configured. */
  lemma {:induction false} PresentMembers(have: set<Key>, keys: seq<Key>, k: Key)
    ensures k in Present(have, keys) <==> k in keys && k in have
  {
    if keys != [] {
      var init := keys[..|keys| - 1];
      assert keys == init + [keys[|keys| - 1]];
      PresentMembers(have, init, k);
    }
  }

  predicate NoDuplicates(ks: seq<Key>) {
    forall i, j | 0 <= i < j < |ks| :: ks[i] != ks[j]
  }

  /** Keeping some keys of a list without repeats gives a list without
      repeats. */
  lemma {:induction false} PresentNoDuplicates(have: set<Key>, keys: seq<Key>)
    requires NoDuplicates(keys)
    ensures NoDuplicates(Present(have, keys))
  {
    if keys != [] {
      var init := keys[..|keys| - 1];
      var last := keys[|keys| - 1];
      assert NoDuplicates(init) by {
        forall i, j | 0 <= i < j < |init| ensures init[i] != init[j] {
          assert init[i] == keys[i] && init[j] == keys[j];
        }
      }
      PresentNoDuplicates(have, init);
      if last in have {
        PresentMembers(have, init, last);
        assert last !in init by {
          forall i | 0 <= i < |init| ensures init[i] != last {
            assert init[i] == keys[i];
          }
        }
      }
    }
  }

  /** Option `i` sets the `i`-th configured key to its configured value. */
  lemma {:induction false} EmitAllShape(st: map<Key, Value>, keys: seq<Key>)
    requires WellKinded(st) && AllSettable(keys)
    ensures |EmitAll(st, keys)| == |Present(st.Keys, keys)|
    ensures forall i | 0 <= i < |Present(st.Keys, keys)| ::
      EmitAll(st, keys)[i] == SetOption(Present(st.Keys, keys)[i], st[Present(st.Keys, keys)[i]])
  {
    if keys != [] {
      var init := keys[..|keys| - 1];
      assert AllSettable(init) by {
        forall i | 0 <= i < |init| ensures Settable(init[i]) {
          assert init[i] == keys[i];
        }
      }
      EmitAllShape(st, init);
      PresentMembers(st.Keys, init, keys[|keys| - 1]);
    }
  }

  /** The options for one more key. */
  lemma EmitAllSnoc(st: map<Key, Value>, keys: seq<Key>, k: Key)
    requires WellKinded(st) && AllSettable(keys) && Settable(k)
    ensures AllSettable(keys + [k])
    ensures EmitAll(st, keys + [k]) == EmitAll(st, keys) + Emit(st, k)
  {
    assert (keys + [k])[..|keys|] == keys;
  }

  /** The options for two lists of keys, one after the other. */
  lemma {:induction false} EmitAllAppend(st: map<Key, Value>, xs: seq<Key>, ys: seq<Key>)
    requires WellKinded(st) && AllSettable(xs) && AllSettable(ys)
    ensures AllSettable(xs + ys)
    ensures EmitAll(st, xs + ys) == EmitAll(st, xs) + EmitAll(st, ys)
    decreases |ys|
  {
    if ys == [] {
      assert xs + ys == xs;
    } else {
      var init := ys[..|ys| - 1];
      assert AllSettable(init) by {
        forall i | 0 <= i < |init| ensures Settable(init[i]) {
          assert init[i] == ys[i];
        }
      }
      assert (xs + ys)[..|xs + ys| - 1] == xs + init;
      EmitAllAppend(st, xs, init);
    }
  }

  /** Every part and every join of settable key lists is settable. */
  lemma AllSettableSlices(xs: seq<Key>, ys: seq<Key>, i: nat, j: nat)
    requires AllSettable(xs) && AllSettable(ys) && i <= j <= |xs|
    ensures AllSettable(xs[i..j]) && AllSettable(xs + ys)
  {
    assert forall n | 0 <= n < j - i :: xs[i..j][n] == xs[i + n];
  }

  lemma CreateKeysFacts(typ: string)
    requires KnownType(typ)
    ensures AllSettable(VariantCreateKeys(typ)) && AllSettable(CommonKeys) && AllSettable(CreateKeys(typ))
    ensures NoDuplicates(CreateKeys(typ))
    ensures ClientSecretHmac !in CreateKeys(typ)
  {
  }

  /** The create request carries one option per configured attribute of
      its variant and of the name and description, in the resource's order,
      each setting that attribute to the value it is sent with (`Sent`: the
      certificates trimmed). */
  lemma CreateOptionsShape(st: map<Key, Value>, typ: string)
    requires WellKinded(st) && KnownType(typ)
    ensures var os := CreateOptions(st, typ); var ps := Present(st.Keys, CreateKeys(typ));
      && |os| == |ps|
      && (forall i | 0 <= i < |os| :: os[i] == SetOption(ps[i], Sent(ps[i], st[ps[i]])) && Target(os[i]) == ps[i])
  {
    CreateKeysFacts(typ);
    var keys := CreateKeys(typ);
    var out := Outgoing(st);
    EmitAllShape(out, keys);
    var ps := Present(st.Keys, keys);
    forall i | 0 <= i < |ps| ensures out[ps[i]] == Sent(ps[i], st[ps[i]]) && Target(SetOption(ps[i], out[ps[i]])) == ps[i] {
      OutgoingAt(st, ps[i]);
      TargetOfOptions(ps[i], out[ps[i]]);
    }
  }

  /** An attribute of the create request's list gets an option exactly when
      it is configured, and then exactly one; no other attribute gets one. */
  lemma CreateOptionsExactlyPresent(st: map<Key, Value>, typ: string, k: Key)
    requires WellKinded(st) && KnownType(typ)
    ensures var os := CreateOptions(st, typ);
      && (forall i | 0 <= i < |os| :: !os[i].WithAutomaticVersioning?)
      && (k in Targets(os) <==> k in CreateKeys(typ) && k in st)
      && NoDuplicates(Targets(os))
  {
    CreateKeysFacts(typ);
    CreateOptionsShape(st, typ);
    var ps := Present(st.Keys, CreateKeys(typ));
    PresentMembers(st.Keys, CreateKeys(typ), k);
    PresentNoDuplicates(st.Keys, CreateKeys(typ));
    assert Targets(CreateOptions(st, typ)) == ps;
  }

  /** The variant's options come first, the name and description last. */
  lemma CreateOptionsOrder(st: map<Key, Value>, typ: string)
    requires WellKinded(st) && KnownType(typ)
    ensures var os := CreateOptions(st, typ); var n := |Present(st.Keys, VariantCreateKeys(typ))|;
      && n <= |os|
      && (forall i | 0 <= i < n :: os[i].WithAutomaticVersioning? == false && Target(os[i]) in VariantCreateKeys(typ))
      && (forall i | n <= i < |os| :: os[i].WithName? || os[i].WithDescription?)
  {
    CreateKeysFacts(typ);
    var vk := VariantCreateKeys(typ);
    var out := Outgoing(st);
    EmitAllAppend(out, vk, CommonKeys);
    EmitAllShape(out, vk);
    EmitAllShape(out, CommonKeys);
    var ps := Present(st.Keys, vk);
    forall i | 0 <= i < |ps| ensures Target(SetOption(ps[i], out[ps[i]])) == ps[i] {
      TargetOfOptions(ps[i], out[ps[i]]);
    }
  }
}
