/** The options an update request carries, as a function of the attributes
    recorded before the update and the attributes configured now. */
module Diffing {
  import opened Values
  import opened Options
  import opened Encoding

  /** The variant attributes an update compares, in the order the resource
      appends their options; the name and description come first. */
  const PasswordUpdateKeys: seq<Key> := [MinLoginNameLength, MinPasswordLength]
  const OidcUpdateKeys: seq<Key> :=
    [Issuer, ClientId, ClientSecret, MaxAge, SigningAlgorithms, ApiUrlPrefix,
     ClientSecretHmac, AllowedAudiences, CaCertificates, DisableDiscoveredConfigValidation]

  function UpdateKeys(typ: string): seq<Key>
    requires KnownType(typ)
  {
    CommonKeys + (if typ == PasswordType then PasswordUpdateKeys else OidcUpdateKeys)
  }

  predicate Changed(prior: map<Key, Value>, st: map<Key, Value>, k: Key) {
    Lookup(prior, k) != Lookup(st, k)
  }

  /** The options for one attribute: nothing when it did not change;
      otherwise a reset to the server's default for the attributes that have
      one, followed by the option that sends the configured value, if any. */
  function FieldDiff(prior: map<Key, Value>, st: map<Key, Value>, k: Key): seq<AmOption>
    requires WellKinded(st) && Settable(k)
  {
    if !Changed(prior, st, k) then []
    else (if Resettable(k) then [ResetOption(k)] else []) + Emit(Outgoing(st), k)
  }

  /** The options for `keys`, appended in order. */
  function DiffAll(prior: map<Key, Value>, st: map<Key, Value>, keys: seq<Key>): seq<AmOption>
    requires WellKinded(st) && AllSettable(keys)
  {
    if keys == [] then []
    else DiffAll(prior, st, keys[..|keys| - 1]) + FieldDiff(prior, st, keys[|keys| - 1])
  }

  /** The options for one more key. */
  lemma DiffAllSnoc(prior: map<Key, Value>, st: map<Key, Value>, keys: seq<Key>, k: Key)
    requires WellKinded(st) && AllSettable(keys) && Settable(k)
    ensures AllSettable(keys + [k])
    ensures DiffAll(prior, st, keys + [k]) == DiffAll(prior, st, keys) + FieldDiff(prior, st, k)
  {
    assert (keys + [k])[..|keys|] == keys;
  }

  /** The options of the first `m` keys begin the options of all of
      them: later blocks only append. */
  lemma {:induction false} DiffAllPrefix(prior: map<Key, Value>, st: map<Key, Value>, keys: seq<Key>, m: nat)
    requires WellKinded(st) && AllSettable(keys) && m <= |keys|
    ensures AllSettable(keys[..m])
    ensures DiffAll(prior, st, keys[..m]) <= DiffAll(prior, st, keys)
    decreases |keys|
  {
    AllSettableSlices(keys, [], 0, m);
    assert keys[..m] == keys[0..m];
    if m == |keys| {
      assert keys[..m] == keys;
    } else {
      var init := keys[..|keys| - 1];
      AllSettableSlices(keys, [], 0, |keys| - 1);
      assert init == keys[0..|keys| - 1];
      assert init[..m] == keys[..m];
      DiffAllPrefix(prior, st, init, m);
    }
  }

  /** Every attribute's block comes whole, right after the blocks of the
      attributes before it. */
  lemma DiffAllBlock(prior: map<Key, Value>, st: map<Key, Value>, keys: seq<Key>, n: nat)
    requires WellKinded(st) && AllSettable(keys) && n < |keys|
    ensures AllSettable(keys[..n])
    ensures DiffAll(prior, st, keys[..n]) + FieldDiff(prior, st, keys[n]) <= DiffAll(prior, st, keys)
  {
    DiffAllPrefix(prior, st, keys, n + 1);
    AllSettableSlices(keys, [], 0, n);
    assert keys[..n] == keys[0..n];
    assert keys[..n + 1][..n] == keys[..n];
  }

  /** The options of an update request of type `typ`, before the versioning
      option is added. */
  function UpdateOptions(prior: map<Key, Value>, st: map<Key, Value>, typ: string): seq<AmOption>
    requires WellKinded(st) && KnownType(typ)
  {
    UpdateKeysFacts(typ);
    DiffAll(prior, st, UpdateKeys(typ))
  }

  lemma UpdateKeysFacts(typ: string)
    requires KnownType(typ)
    ensures AllSettable(UpdateKeys(typ)) && NoDuplicates(UpdateKeys(typ))
  {
  }

  /** An attribute contributes nothing exactly when it did not change, or
      it changed, has no default to reset to and is not configured now. */
  predicate Silent(prior: map<Key, Value>, st: map<Key, Value>, k: Key) {
    !Changed(prior, st, k) || (!Resettable(k) && k !in st)
  }

  /** No option at all exactly when every attribute is silent. */
  lemma {:induction false} DiffAllEmpty(prior: map<Key, Value>, st: map<Key, Value>, keys: seq<Key>)
    requires WellKinded(st) && AllSettable(keys)
    ensures DiffAll(prior, st, keys) == [] <==> forall i | 0 <= i < |keys| :: Silent(prior, st, keys[i])
  {
    if keys != [] {
      var init := keys[..|keys| - 1];
      var last := keys[|keys| - 1];
      assert AllSettable(init) by {
        forall i | 0 <= i < |init| ensures Settable(init[i]) {
          assert init[i] == keys[i];
        }
      }
      DiffAllEmpty(prior, st, init);
      assert FieldDiff(prior, st, last) == [] <==> Silent(prior, st, last);
      if forall i | 0 <= i < |keys| :: Silent(prior, st, keys[i]) {
        forall i | 0 <= i < |init| ensures Silent(prior, st, init[i]) {
          assert init[i] == keys[i];
        }
      }
      if (forall i | 0 <= i < |init| :: Silent(prior, st, init[i])) && Silent(prior, st, last) {
        forall i | 0 <= i < |keys| ensures Silent(prior, st, keys[i]) {
          if i < |init| { assert keys[i] == init[i]; }
        }
      }
    }
  }

  /** When only `keys[n]` may have changed, the options are that
      attribute's alone. */
  lemma {:induction false} DiffAllSingle(prior: map<Key, Value>, st: map<Key, Value>, keys: seq<Key>, n: nat)
    requires WellKinded(st) && AllSettable(keys) && n < |keys|
    requires forall i | 0 <= i < |keys| && i != n :: !Changed(prior, st, keys[i])
    ensures DiffAll(prior, st, keys) == FieldDiff(prior, st, keys[n])
  {
    var init := keys[..|keys| - 1];
    assert AllSettable(init) by {
      forall i | 0 <= i < |init| ensures Settable(init[i]) {
        assert init[i] == keys[i];
      }
    }
    if n == |keys| - 1 {
      DiffAllEmpty(prior, st, init);
      forall i | 0 <= i < |init| ensures Silent(prior, st, init[i]) {
        assert init[i] == keys[i];
      }
    } else {
      forall i | 0 <= i < |init| && i != n ensures !Changed(prior, st, init[i]) {
        assert init[i] == keys[i];
      }
      assert init[n] == keys[n];
      DiffAllSingle(prior, st, init, n);
    }
  }

  /** Every option belongs to an attribute of `keys` that changed. */
  lemma {:induction false} DiffAllChanged(prior: map<Key, Value>, st: map<Key, Value>, keys: seq<Key>, j: nat)
    requires WellKinded(st) && AllSettable(keys) && j < |DiffAll(prior, st, keys)|
    ensures exists i | 0 <= i < |keys| :: Changed(prior, st, keys[i]) && DiffAll(prior, st, keys)[j] in FieldDiff(prior, st, keys[i])
  {
    var init := keys[..|keys| - 1];
    assert AllSettable(init) by {
      forall i | 0 <= i < |init| ensures Settable(init[i]) {
        assert init[i] == keys[i];
      }
    }
    var head := DiffAll(prior, st, init);
    if j < |head| {
      DiffAllChanged(prior, st, init, j);
      var i :| 0 <= i < |init| && Changed(prior, st, init[i]) && head[j] in FieldDiff(prior, st, init[i]);
      assert keys[i] == init[i];
    } else {
      var n := |keys| - 1;
      assert DiffAll(prior, st, keys)[j] == FieldDiff(prior, st, keys[n])[j - |head|];
    }
  }

  /** Only attributes with a default that changed are reset, each by its
      own reset option. */
  lemma DiffAllResets(prior: map<Key, Value>, st: map<Key, Value>, keys: seq<Key>, j: nat)
    requires WellKinded(st) && AllSettable(keys) && j < |DiffAll(prior, st, keys)|
    requires DiffAll(prior, st, keys)[j].IsReset()
    ensures var k := Target(DiffAll(prior, st, keys)[j]); k in keys && Resettable(k) && Changed(prior, st, k)
  {
    DiffAllChanged(prior, st, keys, j);
    var i :| 0 <= i < |keys| && Changed(prior, st, keys[i]) && DiffAll(prior, st, keys)[j] in FieldDiff(prior, st, keys[i]);
    if keys[i] in st {
      TargetOfOptions(keys[i], Outgoing(st)[keys[i]]);
    }
  }

  /** An update has no option exactly when every attribute it compares is
      silent: unchanged, or changed to absent without a default to reset. */
  lemma UpdateOptionsEmpty(prior: map<Key, Value>, st: map<Key, Value>, typ: string)
    requires WellKinded(st) && KnownType(typ)
    ensures UpdateOptions(prior, st, typ) == [] <==> forall k | k in UpdateKeys(typ) :: Silent(prior, st, k)
  {
    UpdateKeysFacts(typ);
    DiffAllEmpty(prior, st, UpdateKeys(typ));
  }

  /** Applying a configuration that matches the recorded attributes asks
      for nothing. */
  lemma UpdateOptionsUnchanged(m: map<Key, Value>, typ: string)
    requires WellKinded(m) && KnownType(typ)
    ensures UpdateOptions(m, m, typ) == []
  {
    UpdateOptionsEmpty(m, m, typ);
  }

  /** Every compared attribute that changed is sent, whatever else
      changed: its reset when it has a default, and the option setting the
      value it is sent with when it is configured. */
  lemma UpdateOptionsComplete(prior: map<Key, Value>, st: map<Key, Value>, typ: string, k: Key)
    requires WellKinded(st) && KnownType(typ) && k in UpdateKeys(typ) && Changed(prior, st, k)
    ensures Settable(k)
    ensures Resettable(k) ==> ResetOption(k) in UpdateOptions(prior, st, typ)
    ensures k in st ==> SetOption(k, Sent(k, st[k])) in UpdateOptions(prior, st, typ)
  {
    UpdateKeysFacts(typ);
    var keys := UpdateKeys(typ);
    var n :| 0 <= n < |keys| && keys[n] == k;
    DiffAllComplete(prior, st, keys, n);
  }

  /** A changed attribute's reset and set options are among the options. */
  lemma DiffAllComplete(prior: map<Key, Value>, st: map<Key, Value>, keys: seq<Key>, n: nat)
    requires WellKinded(st) && AllSettable(keys) && n < |keys| && Changed(prior, st, keys[n])
    ensures var k := keys[n];
      && (Resettable(k) ==> ResetOption(k) in DiffAll(prior, st, keys))
      && (k in st ==> SetOption(k, Sent(k, st[k])) in DiffAll(prior, st, keys))
  {
    var k := keys[n];
    DiffAllBlock(prior, st, keys, n);
    var pre := DiffAll(prior, st, keys[..n]);
    var block := FieldDiff(prior, st, k);
    var os := DiffAll(prior, st, keys);
    if k in st {
      OutgoingAt(st, k);
    }
    forall o | o in block ensures o in os {
      var j :| 0 <= j < |block| && block[j] == o;
      assert os[|pre| + j] == (pre + block)[|pre| + j];
    }
  }

  /** When one compared attribute changed and nothing else did, the update
      carries a reset for it if it has a default, then the option setting
      the value it is sent with if it is configured. */
  lemma UpdateSingleChange(prior: map<Key, Value>, st: map<Key, Value>, typ: string, k: Key)
    requires WellKinded(st) && KnownType(typ) && k in UpdateKeys(typ) && Changed(prior, st, k)
    requires forall j | j != k :: Lookup(prior, j) == Lookup(st, j)
    ensures Settable(k)
    ensures UpdateOptions(prior, st, typ) ==
      (if Resettable(k) then [ResetOption(k)] else []) + (if k in st then [SetOption(k, Sent(k, st[k]))] else [])
  {
    UpdateKeysFacts(typ);
    var keys := UpdateKeys(typ);
    var n :| 0 <= n < |keys| && keys[n] == k;
    forall i | 0 <= i < |keys| && i != n ensures !Changed(prior, st, keys[i]) {
      assert keys[i] != keys[n];
    }
    DiffAllSingle(prior, st, keys, n);
    if k in st {
      OutgoingAt(st, k);
    }
  }

  /** A changed client-secret HMAC alone sends its value as the client
      secret. */
  lemma UpdateHmacSendsClientSecret(prior: map<Key, Value>, st: map<Key, Value>)
    requires WellKinded(st) && ClientSecretHmac in st && Changed(prior, st, ClientSecretHmac)
    requires forall j | j != ClientSecretHmac :: Lookup(prior, j) == Lookup(st, j)
    ensures UpdateOptions(prior, st, OidcType) == [WithClientSecret(st[ClientSecretHmac].s)]
  {
    UpdateSingleChange(prior, st, OidcType, ClientSecretHmac);
  }
}
