/**
 * The server's registry of secret stores: the lookup of the store for a
 * type, the list of enabled stores, and the default type read from the
 * configuration.
 */
module SecretStores {
  import opened Wrappers
  import Text

  /** A store type, by the name of its enum constant. */
  type StoreType = string

  datatype SecretStore = SecretStore(storeType: StoreType, enabled: bool, description: string)

  datatype StoreError =
    | NotEnabled(storeType: StoreType)   // the first store of the type is disabled
    | NotFound(storeType: StoreType)     // no store has the type
    | UnknownType(name: string)          // the configured default names no store type

  /** The registered stores in their collection's order, the size limit and the default type. */
  datatype Provider = Provider(stores: seq<SecretStore>, maxSecretDataSize: int, defaultStoreType: StoreType)

  /**
   * The constructor: the configured default store name, upper-cased, must
   * name one of the `known` store types.
   */
  function NewProvider(stores: seq<SecretStore>, maxSecretDataSize: int, defaultStore: string, known: set<StoreType>)
    : (r: Result<Provider, StoreError>)
    ensures r.Ok? <==> Text.Upper(defaultStore) in known
    ensures r.Ok? ==> r.value.defaultStoreType in known && r.value.defaultStoreType == Text.Upper(defaultStore)
    ensures r.Ok? ==> r.value.stores == stores && r.value.maxSecretDataSize == maxSecretDataSize
    ensures r.Err? ==> r.error == UnknownType(defaultStore)
  {
    var t := Text.Upper(defaultStore);
    if t in known then Ok(Provider(stores, maxSecretDataSize, t)) else Err(UnknownType(defaultStore))
  }

  /** The index of the first store of type `t`, if any: an independent statement of the lookup. */
  function FirstOfType(stores: seq<SecretStore>, t: StoreType): (r: Option<nat>)
    ensures r.Some? ==> r.value < |stores| && stores[r.value].storeType == t
    ensures r.Some? ==> forall j :: 0 <= j < r.value ==> stores[j].storeType != t
    ensures r.None? <==> forall j :: 0 <= j < |stores| ==> stores[j].storeType != t
  {
    if |stores| == 0 then None
    else if stores[0].storeType == t then Some(0)
    else match FirstOfType(stores[1..], t)
      case None => None
      case Some(k) => Some(k + 1)
  }

  /** `getSecretStore`: the first store of the requested type, which must be enabled. */
  function GetSecretStore(stores: seq<SecretStore>, t: StoreType): (r: Result<SecretStore, StoreError>)
    ensures r.Ok? ==> r.value in stores && r.value.storeType == t && r.value.enabled
    ensures r.Err? ==> r.error == NotFound(t) || r.error == NotEnabled(t)
    ensures r == Err(NotFound(t)) <==> forall s :: s in stores ==> s.storeType != t
    decreases |stores|
  {
    if |stores| == 0 then Err(NotFound(t))
    else if stores[0].storeType == t then
      if stores[0].enabled then Ok(stores[0]) else Err(NotEnabled(t))
    else
      var r := GetSecretStore(stores[1..], t);
      assert forall s :: s in stores <==> s == stores[0] || s in stores[1..];
      r
  }

  /** The lookup agrees with the first store of the type: found when it is enabled, refused when it is not. */
  lemma {:induction false} GetSecretStoreIsFirst(stores: seq<SecretStore>, t: StoreType)
    ensures FirstOfType(stores, t).None? ==> GetSecretStore(stores, t) == Err(NotFound(t))
    ensures forall k :: FirstOfType(stores, t) == Some(k) ==>
              GetSecretStore(stores, t) == if stores[k].enabled then Ok(stores[k]) else Err(NotEnabled(t))
    decreases |stores|
  {
    if |stores| > 0 && stores[0].storeType != t {
      GetSecretStoreIsFirst(stores[1..], t);
    }
  }

  /** `getActiveSecretStores`: the enabled stores, in order. */
  function ActiveSecretStores(stores: seq<SecretStore>): (r: seq<SecretStore>)
    ensures forall s :: s in r <==> s in stores && s.enabled
    ensures |r| <= |stores|
  {
    if |stores| == 0 then []
    else
      var rest := ActiveSecretStores(stores[1..]);
      assert forall s :: s in stores <==> s == stores[0] || s in stores[1..];
      if stores[0].enabled then [stores[0]] + rest else rest
  }

  /** Filtering a concatenation filters each part. */
  lemma {:induction false} ActiveOfConcat(a: seq<SecretStore>, b: seq<SecretStore>)
    ensures ActiveSecretStores(a + b) == ActiveSecretStores(a) + ActiveSecretStores(b)
    decreases |a|
  {
    if |a| == 0 {
      assert a + b == b;
    } else {
      assert (a + b)[0] == a[0];
      assert (a + b)[1..] == a[1..] + b;
      ActiveOfConcat(a[1..], b);
    }
  }

  /** The active stores are all enabled, so filtering them again changes nothing. */
  lemma {:induction false} ActiveIdempotent(stores: seq<SecretStore>)
    ensures ActiveSecretStores(ActiveSecretStores(stores)) == ActiveSecretStores(stores)
    decreases |stores|
  {
    if |stores| > 0 {
      ActiveIdempotent(stores[1..]);
      var rest := ActiveSecretStores(stores[1..]);
      if stores[0].enabled {
        assert ([stores[0]] + rest)[1..] == rest;
      }
    }
  }

  /** The store a lookup returns is one of the active stores. */
  lemma FoundIsActive(stores: seq<SecretStore>, t: StoreType)
    requires GetSecretStore(stores, t).Ok?
    ensures GetSecretStore(stores, t).value in ActiveSecretStores(stores)
  {
  }

  /** When each type has at most one store, a lookup succeeds exactly when an active store has the type. */
  lemma LookupMatchesActive(stores: seq<SecretStore>, t: StoreType)
    requires forall i, j :: 0 <= i < j < |stores| ==> stores[i].storeType != stores[j].storeType
    ensures GetSecretStore(stores, t).Ok? <==> exists s :: s in ActiveSecretStores(stores) && s.storeType == t
  {
    GetSecretStoreIsFirst(stores, t);
    if GetSecretStore(stores, t).Ok? {
      FoundIsActive(stores, t);
    } else if FirstOfType(stores, t).Some? {
      var k := FirstOfType(stores, t).value;
      forall s | s in ActiveSecretStores(stores)
        ensures s.storeType != t
      {
        var i :| 0 <= i < |stores| && stores[i] == s;
        assert i == k || stores[i].storeType != stores[k].storeType;
      }
    }
  }

  /** With two stores of one type, a disabled first one hides an enabled second one. */
  lemma DisabledFirstShadows(t: StoreType, a: string, b: string)
    ensures var stores := [SecretStore(t, false, a), SecretStore(t, true, b)];
            && GetSecretStore(stores, t) == Err(NotEnabled(t))
            && ActiveSecretStores(stores) == [SecretStore(t, true, b)]
  {
    var stores := [SecretStore(t, false, a), SecretStore(t, true, b)];
    assert stores[1..] == [SecretStore(t, true, b)];
    assert stores[1..][1..] == [];
  }

  /** The default store name is read without regard to letter case. */
  lemma DefaultTypeIgnoresCase(stores: seq<SecretStore>, n: int, s: string, known: set<StoreType>)
    ensures NewProvider(stores, n, Text.Lower(s), known).Ok? <==> NewProvider(stores, n, s, known).Ok?
    ensures NewProvider(stores, n, s, known).Ok? ==>
              NewProvider(stores, n, Text.Lower(s), known).value == NewProvider(stores, n, s, known).value
    ensures NewProvider(stores, n, Text.Upper(s), known).Ok? <==> NewProvider(stores, n, s, known).Ok?
    ensures NewProvider(stores, n, s, known).Ok? ==>
              NewProvider(stores, n, Text.Upper(s), known).value == NewProvider(stores, n, s, known).value
  {
    assert Text.Upper(Text.Lower(s)) == Text.Upper(s);
    Text.UpperIdempotent(s);
  }
}
