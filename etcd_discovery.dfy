/**
 * The resolver of pkg/etcd/discovery.go. `Resolve` fetches every key under the service's
 * prefix, decodes each value into one `instanceInfo` variable that it reuses across the
 * loop, and turns each decoded entry into an instance. The etcd key space is a parameter
 * (its entries in key order, as the prefix Get returns them), and so is the failure of the
 * Get.
 */
module EtcdDiscovery {
  import opened Errs
  import opened GoText
  import opened EtcdKeys

  /** Weight given to an instance registered with a weight of 0 or less. */
  const DefaultWeight: int := 10

  /** The maps the loop has allocated, in allocation order. A Go map is a reference, so a
      map is named by its place in this list. */
  type Maps = seq<map<string, string>>

  /** The `Tags` field: nil, or the `id`-th allocated map. Two fields holding the same
      `MapRef` share one map. */
  datatype TagsRef = NilMap | MapRef(id: nat)

  datatype InstanceInfo = InstanceInfo(network: string, address: string, weight: I64, tags: TagsRef)

  /** What a `"tags"` member holds: `null`, or an object with these entries. */
  datatype TagsValue = Null | Object(entries: map<string, string>)

  /** What `json.Unmarshal` finds in one value. `Invalid` is a syntax error, which it
      reports before it touches `info`. Otherwise it stores each member whose JSON type fits
      its field (`None` for a member that is absent or does not fit), and `mistyped` says
      that some member did not fit, so that it returns an `UnmarshalTypeError`. */
  datatype Decoded =
    | Invalid
    | Fields(network: Option<string>, address: Option<string>, weight: Option<I64>,
             tags: Option<TagsValue>, mistyped: bool)

  datatype KV = KV(key: string, value: Decoded)

  /** An instance as `discovery.NewInstance` makes it: it keeps the tags map by reference. */
  datatype Made = Made(network: string, address: string, weight: int, tags: TagsRef)

  /** An instance as a caller of `Resolve` reads it, with what its tags map holds. */
  datatype Instance = Instance(network: string, address: string, weight: int, tags: map<string, string>)

  /** `discovery.Result`. */
  datatype Discovered = Discovered(cacheable: bool, cacheKey: string, instances: seq<Instance>)

  /** `rpcinfo.EndpointInfo`, of which the resolver reads the service name. */
  datatype EndpointInfo = EndpointInfo(serviceName: string, methodName: string, tags: map<string, string>)

  /** `Target`: the description is the service name. */
  function Target(target: EndpointInfo): (desc: string)
    ensures ServiceKeyPrefix(desc) == ServiceKeyPrefix(target.serviceName)
  {
    target.serviceName
  }

  /** etcd keeps its keys in ascending byte order, which is the order `store` stands for. */
  predicate KeysAscending(s: seq<KV>)
  {
    forall i, j :: 0 <= i < j < |s| ==> Less(s[i].key, s[j].key)
  }

  /** `clientv3.WithPrefix()`: the entries whose key starts with the prefix, in key order. */
  function Fetch(store: seq<KV>, prefix: string): (kvs: seq<KV>)
    ensures forall kv :: kv in kvs <==> kv in store && prefix <= kv.key
    ensures |kvs| <= |store|
  {
    if store == [] then []
    else (if prefix <= store[0].key then [store[0]] else []) + Fetch(store[1..], prefix)
  }

  /** Fetching keeps the order of the store: the entries of a front part come before those
      of the part after it. */
  lemma {:induction false} FetchConcat(a: seq<KV>, b: seq<KV>, prefix: string)
    ensures Fetch(a + b, prefix) == Fetch(a, prefix) + Fetch(b, prefix)
    decreases |a|
  {
    if a != [] {
      assert (a + b)[1..] == a[1..] + b;
      FetchConcat(a[1..], b, prefix);
    } else {
      assert a + b == b;
    }
  }

  /** So the entries come back in etcd's ascending key order. */
  lemma {:induction false} FetchKeepsKeyOrder(store: seq<KV>, prefix: string)
    requires KeysAscending(store)
    ensures KeysAscending(Fetch(store, prefix))
    decreases |store|
  {
    if store != [] {
      var rest := Fetch(store[1..], prefix);
      assert KeysAscending(store[1..]) by {
        forall i, j | 0 <= i < j < |store[1..]|
          ensures Less(store[1..][i].key, store[1..][j].key)
        {
          assert store[1..][i] == store[i + 1] && store[1..][j] == store[j + 1];
        }
      }
      FetchKeepsKeyOrder(store[1..], prefix);
      forall j | 0 <= j < |rest|
        ensures Less(store[0].key, rest[j].key)
      {
        assert rest[j] in store[1..];
        var k :| 0 <= k < |store[1..]| && store[1..][k] == rest[j];
        assert store[k + 1] == rest[j];
      }
      var kvs := Fetch(store, prefix);
      if prefix <= store[0].key {
        assert kvs == [store[0]] + rest;
        forall i, j | 0 <= i < j < |kvs|
          ensures Less(kvs[i].key, kvs[j].key)
        {
          assert kvs[j] == rest[j - 1];
          if i > 0 {
            assert kvs[i] == rest[i - 1];
          }
        }
      } else {
        assert kvs == rest;
      }
    }
  }

  predicate Allocated(t: TagsRef, maps: Maps)
  {
    t.MapRef? ==> t.id < |maps|
  }

  /** What reading a `Tags` field gives: a nil map reads as empty. */
  function Deref(t: TagsRef, maps: Maps): map<string, string>
  {
    if t.MapRef? && t.id < |maps| then maps[t.id] else map[]
  }

  /** Decoding a `"tags"` member into the field: `null` sets it to nil; an object is added
      into the map the field already holds, or into a new map when the field is nil. */
  function DecodeTags(t: TagsRef, maps: Maps, v: TagsValue): (r: (TagsRef, Maps))
    requires Allocated(t, maps)
    ensures Allocated(r.0, r.1) && |maps| <= |r.1|
    ensures v.Null? ==> r == (NilMap, maps)
    ensures v.Object? ==> r.0.MapRef? && Deref(r.0, r.1) == Deref(t, maps) + v.entries
    ensures v.Object? && t.MapRef? ==> r.0 == t
    ensures forall i :: 0 <= i < |maps| && r.0 != MapRef(i) ==> r.1[i] == maps[i]
  {
    match v
    case Null => (NilMap, maps)
    case Object(entries) =>
      if t.MapRef? then (t, maps[t.id := maps[t.id] + entries])
      else (MapRef(|maps|), maps + [entries])
  }

  /** The outcome of one `json.Unmarshal(kv.Value, &info)`: the new `info`, the maps, and
      whether the error was nil. */
  datatype Decoding = Decoding(info: InstanceInfo, maps: Maps, ok: bool)

  /** `json.Unmarshal(kv.Value, &info)`: a syntax error leaves `info` as it was; otherwise
      the members that fit overwrite the fields of `info`, the others keep their earlier
      values, and the error is nil only when no member was of the wrong type. */
  function Unmarshal(info: InstanceInfo, maps: Maps, d: Decoded): (r: Decoding)
    requires Allocated(info.tags, maps)
    ensures Allocated(r.info.tags, r.maps) && |maps| <= |r.maps|
    ensures r.ok <==> d.Fields? && !d.mistyped
    ensures d.Invalid? ==> r.info == info && r.maps == maps
    ensures d.Fields? ==> r.info.weight == (if d.weight.Some? then d.weight.value else info.weight)
    ensures d.Fields? ==> r.info.address == (if d.address.Some? then d.address.value else info.address)
    ensures d.Fields? && d.tags.None? ==> r.info.tags == info.tags && r.maps == maps
  {
    match d
    case Invalid => Decoding(info, maps, false)
    case Fields(n, a, w, t, mistyped) =>
      var (tags, maps') := if t.Some? then DecodeTags(info.tags, maps, t.value) else (info.tags, maps);
      Decoding(InstanceInfo(if n.Some? then n.value else info.network,
                            if a.Some? then a.value else info.address,
                            if w.Some? then w.value else info.weight,
                            tags),
               maps', !mistyped)
  }

  /** The weight an instance gets. */
  function Weighted(w: int): (r: int)
    ensures r > 0
    ensures w > 0 ==> r == w
    ensures w <= 0 ==> r == DefaultWeight
  {
    if w <= 0 then DefaultWeight else w
  }

  function MadeOf(info: InstanceInfo): Made
  {
    Made(info.network, info.address, Weighted(info.weight), info.tags)
  }

  /** The loop's instances and the maps they refer to. */
  datatype Loop = Loop(made: seq<Made>, maps: Maps)

  /** An entry whose value decodes with a nil error. */
  predicate Clean(d: Decoded)
  {
    d.Fields? && !d.mistyped
  }

  /** The number of entries that decode with a nil error. */
  function CleanCount(kvs: seq<KV>): (n: nat)
    ensures n <= |kvs|
    ensures n == 0 <==> forall i :: 0 <= i < |kvs| ==> !Clean(kvs[i].value)
    decreases |kvs|
  {
    if kvs == [] then 0
    else
      var rest := CleanCount(kvs[1..]);
      assert forall i :: 1 <= i < |kvs| ==> kvs[i] == kvs[1..][i - 1];
      (if Clean(kvs[0].value) then 1 else 0) + rest
  }

  /** The loop over `resp.Kvs`, from the `info` and maps it holds: one instance per entry
      that decodes with a nil error, in order, each with a positive weight and a tags map
      that has been allocated. */
  function Collect(info: InstanceInfo, maps: Maps, kvs: seq<KV>): (r: Loop)
    requires Allocated(info.tags, maps)
    ensures |r.made| == CleanCount(kvs) && |maps| <= |r.maps|
    ensures forall i :: 0 <= i < |r.made| ==> r.made[i].weight > 0 && Allocated(r.made[i].tags, r.maps)
    decreases |kvs|
  {
    if kvs == [] then Loop([], maps)
    else
      var d := Unmarshal(info, maps, kvs[0].value);
      var rest := Collect(d.info, d.maps, kvs[1..]);
      if d.ok then Loop([MadeOf(d.info)] + rest.made, rest.maps) else rest
  }

  /** What a caller reads from the instances once the loop is over: each one's tags are
      what its map holds by then. */
  function Instances(l: Loop): (eps: seq<Instance>)
    ensures |eps| == |l.made|
    ensures forall i :: 0 <= i < |eps| ==>
              eps[i] == Instance(l.made[i].network, l.made[i].address, l.made[i].weight, Deref(l.made[i].tags, l.maps))
  {
    seq(|l.made|, i requires 0 <= i < |l.made| =>
      Instance(l.made[i].network, l.made[i].address, l.made[i].weight, Deref(l.made[i].tags, l.maps)))
  }

  /** The zero `instanceInfo` the loop starts from, with a nil `Tags`. */
  function ZeroInfo(): InstanceInfo
  {
    InstanceInfo("", "", 0, NilMap)
  }

  function ResolveSpec(store: seq<KV>, getFails: bool, desc: string): (r: Result<Discovered>)
    ensures getFails ==> r == Err(EtcdFailed)
    ensures !getFails ==> (r == Err(NoInstance) <==> Collect(ZeroInfo(), [], Fetch(store, ServiceKeyPrefix(desc))).made == [])
    ensures !getFails ==> (r == Err(NoInstance) <==> CleanCount(Fetch(store, ServiceKeyPrefix(desc))) == 0)
    ensures r.Ok? ==> |r.value.instances| == CleanCount(Fetch(store, ServiceKeyPrefix(desc)))
    ensures r.Ok? ==> && r.value.cacheable && r.value.cacheKey == desc
                      && r.value.instances == Instances(Collect(ZeroInfo(), [], Fetch(store, ServiceKeyPrefix(desc))))
                      && |r.value.instances| > 0
  {
    if getFails then Err(EtcdFailed)
    else
      var l := Collect(ZeroInfo(), [], Fetch(store, ServiceKeyPrefix(desc)));
      if |l.made| == 0 then Err(NoInstance)
      else Ok(Discovered(true, desc, Instances(l)))
  }

  method Resolve(store: seq<KV>, getFails: bool, desc: string) returns (r: Result<Discovered>)
    ensures r == ResolveSpec(store, getFails, desc)
  {
    if getFails {
      return Err(EtcdFailed);
    }
    var kvs := Fetch(store, ServiceKeyPrefix(desc));
    var made, maps := CollectInstances(kvs);
    if |made| == 0 {
      return Err(NoInstance);
    }
    return Ok(Discovered(true, desc, Instances(Loop(made, maps))));
  }

  /** The loop of `Resolve`, with its one `info` variable and the maps allocated so far. */
  method CollectInstances(kvs: seq<KV>) returns (made: seq<Made>, maps: Maps)
    ensures Loop(made, maps) == Collect(ZeroInfo(), [], kvs)
  {
    var info := ZeroInfo();
    made, maps := [], [];
    var i := 0;
    assert kvs[0..] == kvs;
    while i < |kvs|
      invariant 0 <= i <= |kvs|
      invariant Allocated(info.tags, maps)
      invariant Collect(ZeroInfo(), [], kvs)
             == Loop(made + Collect(info, maps, kvs[i..]).made, Collect(info, maps, kvs[i..]).maps)
    {
      CollectUnfold(info, maps, kvs, i);
      var found;
      info, maps, found := DecodeEntry(info, maps, kvs[i]);
      if found.Some? {
        assert made + ([found.value] + Collect(info, maps, kvs[i + 1..]).made)
            == (made + [found.value]) + Collect(info, maps, kvs[i + 1..]).made;
        made := made + [found.value];
      }
      i := i + 1;
    }
    assert kvs[i..] == [];
    assert made + [] == made;
  }

  /** One pass of the loop: decode into `info`, and the instance it yields, if any. */
  method DecodeEntry(info: InstanceInfo, maps: Maps, kv: KV) returns (next: InstanceInfo, maps': Maps, found: Option<Made>)
    requires Allocated(info.tags, maps)
    ensures var d := Unmarshal(info, maps, kv.value);
            && next == d.info && maps' == d.maps
            && found == if d.ok then Some(MadeOf(d.info)) else None
  {
    var decoded := Unmarshal(info, maps, kv.value);
    next, maps' := decoded.info, decoded.maps;
    if !decoded.ok {
      return next, maps', None;
    }
    var weight := next.weight as int;
    if weight <= 0 {
      weight := DefaultWeight;
    }
    found := Some(Made(next.network, next.address, weight, next.tags));
  }

  /** One step of the loop from entry `i`. */
  lemma CollectUnfold(info: InstanceInfo, maps: Maps, kvs: seq<KV>, i: nat)
    requires i < |kvs| && Allocated(info.tags, maps)
    ensures var d := Unmarshal(info, maps, kvs[i].value);
            var rest := Collect(d.info, d.maps, kvs[i + 1..]);
            Collect(info, maps, kvs[i..]) == if d.ok then Loop([MadeOf(d.info)] + rest.made, rest.maps) else rest
  {
    assert kvs[i..][0] == kvs[i];
    assert kvs[i..][1..] == kvs[i + 1..];
  }

  // ---------------------------------------------------------------- properties

  /** An entry with a syntax error is skipped: the result is that of the list without it. */
  lemma {:induction false} InvalidEntryIsSkipped(info: InstanceInfo, maps: Maps, a: seq<KV>, kv: KV, b: seq<KV>)
    requires kv.value.Invalid? && Allocated(info.tags, maps)
    ensures Collect(info, maps, a + [kv] + b) == Collect(info, maps, a + b)
    decreases |a|
  {
    if a == [] {
      assert a + [kv] + b == [kv] + b && ([kv] + b)[1..] == b;
      assert a + b == b;
    } else {
      assert (a + [kv] + b)[0] == a[0] && (a + b)[0] == a[0];
      assert (a + [kv] + b)[1..] == a[1..] + [kv] + b;
      assert (a + b)[1..] == a[1..] + b;
      var d := Unmarshal(info, maps, a[0].value);
      InvalidEntryIsSkipped(d.info, d.maps, a[1..], kv, b);
    }
  }

  /** An entry of the wrong type yields no instance, yet the members that fit stay in
      `info`: here the first entry's address reaches the second entry's instance. */
  lemma MistypedEntryLeaks()
    ensures var first := KV("kitex/registry-etcd/video/a", Fields(Some("tcp"), Some("a"), None, None, true));
            var second := KV("kitex/registry-etcd/video/b", Fields(Some("tcp"), None, Some(5), None, false));
            Instances(Collect(ZeroInfo(), [], [first, second])) == [Instance("tcp", "a", 5, map[])]
  {
    var first := KV("kitex/registry-etcd/video/a", Fields(Some("tcp"), Some("a"), None, None, true));
    var second := KV("kitex/registry-etcd/video/b", Fields(Some("tcp"), None, Some(5), None, false));
    assert [first, second][1..] == [second];
    assert [second][1..] == [];
  }

  /** An entry that names all four fields, with a tags object, and decodes cleanly. */
  predicate Complete(d: Decoded)
  {
    && d.Fields? && !d.mistyped && d.network.Some? && d.address.Some? && d.weight.Some?
    && d.tags.Some? && d.tags.value.Object?
  }

  predicate CompleteOrInvalid(kvs: seq<KV>)
  {
    forall i :: 0 <= i < |kvs| ==> kvs[i].value.Invalid? || Complete(kvs[i].value)
  }

  /** The tags objects of the list merged in key order, a later entry's value winning. */
  function Merged(kvs: seq<KV>): map<string, string>
    requires CompleteOrInvalid(kvs)
  {
    if kvs == [] then map[]
    else
      (if kvs[0].value.Invalid? then map[] else kvs[0].value.tags.value.entries) + Merged(kvs[1..])
  }

  /** The instances of the complete entries, each with its own network, address and weight,
      all made with one tags reference. */
  function MadeSharing(kvs: seq<KV>, t: TagsRef): seq<Made>
    requires CompleteOrInvalid(kvs)
  {
    if kvs == [] then []
    else
      var d := kvs[0].value;
      (if d.Invalid? then [] else [Made(d.network.value, d.address.value, Weighted(d.weight.value), t)])
      + MadeSharing(kvs[1..], t)
  }

  /** The same instances as a caller reads them, all with the tags `tags`. */
  function SharingTags(kvs: seq<KV>, tags: map<string, string>): seq<Instance>
    requires CompleteOrInvalid(kvs)
  {
    if kvs == [] then []
    else
      var d := kvs[0].value;
      (if d.Invalid? then [] else [Instance(d.network.value, d.address.value, Weighted(d.weight.value), tags)])
      + SharingTags(kvs[1..], tags)
  }

  /** Once `info.Tags` holds a map, each complete entry adds its tags into that same map and
      every instance refers to it. */
  lemma {:induction false} SharedRun(info: InstanceInfo, maps: Maps, kvs: seq<KV>)
    requires CompleteOrInvalid(kvs) && info.tags.MapRef? && info.tags.id < |maps|
    ensures Collect(info, maps, kvs).made == MadeSharing(kvs, info.tags)
    ensures Collect(info, maps, kvs).maps == maps[info.tags.id := maps[info.tags.id] + Merged(kvs)]
    decreases |kvs|
  {
    var k := info.tags.id;
    if kvs == [] {
      assert maps[k] + map[] == maps[k];
      assert maps[k := maps[k]] == maps;
    } else {
      var d := Unmarshal(info, maps, kvs[0].value);
      var m := Merged(kvs[1..]);
      SharedRun(d.info, d.maps, kvs[1..]);
      if kvs[0].value.Invalid? {
        assert Merged(kvs) == m;
      } else {
        SharedStep(info, maps, kvs[0].value, m);
      }
    }
  }

  /** One complete entry of a shared run. */
  lemma SharedStep(info: InstanceInfo, maps: Maps, v: Decoded, m: map<string, string>)
    requires Complete(v) && info.tags.MapRef? && info.tags.id < |maps|
    ensures var d := Unmarshal(info, maps, v);
            && d.ok && d.info.tags == info.tags
            && MadeOf(d.info) == Made(v.network.value, v.address.value, Weighted(v.weight.value), info.tags)
            && d.maps[info.tags.id := d.maps[info.tags.id] + m]
               == maps[info.tags.id := maps[info.tags.id] + (v.tags.value.entries + m)]
  {
    var k := info.tags.id;
    var e := v.tags.value.entries;
    assert DecodeTags(info.tags, maps, v.tags.value) == (info.tags, maps[k := maps[k] + e]);
    UnionAssoc(maps[k], e, m);
  }

  lemma UnionAssoc(a: map<string, string>, b: map<string, string>, c: map<string, string>)
    ensures (a + b) + c == a + (b + c)
  {
  }

  /** While `info.Tags` is nil, invalid entries are skipped, and the first complete one
      allocates the map that every later instance shares. */
  lemma {:induction false} NilRun(info: InstanceInfo, maps: Maps, kvs: seq<KV>)
    requires CompleteOrInvalid(kvs) && info.tags.NilMap?
    ensures Collect(info, maps, kvs).made == MadeSharing(kvs, MapRef(|maps|))
    ensures Collect(info, maps, kvs).made != [] ==> Collect(info, maps, kvs).maps == maps + [Merged(kvs)]
    decreases |kvs|
  {
    if kvs != [] {
      var d := Unmarshal(info, maps, kvs[0].value);
      if kvs[0].value.Invalid? {
        NilRun(info, maps, kvs[1..]);
        assert map[] + Merged(kvs[1..]) == Merged(kvs[1..]);
      } else {
        var e := kvs[0].value.tags.value.entries;
        assert d.info.tags == MapRef(|maps|) && d.maps == maps + [e];
        SharedRun(d.info, d.maps, kvs[1..]);
        assert (maps + [e])[|maps| := e + Merged(kvs[1..])] == maps + [e + Merged(kvs[1..])];
      }
    }
  }

  /** Reading instances that share one reference gives them all that map's contents. */
  lemma {:induction false} ReadShared(kvs: seq<KV>, t: TagsRef, maps: Maps)
    requires CompleteOrInvalid(kvs)
    ensures Instances(Loop(MadeSharing(kvs, t), maps)) == SharingTags(kvs, Deref(t, maps))
    ensures MadeSharing(kvs, t) == [] ==> SharingTags(kvs, map[]) == []
    decreases |kvs|
  {
    if kvs != [] {
      ReadShared(kvs[1..], t, maps);
      var rest := MadeSharing(kvs[1..], t);
      assert Instances(Loop(MadeSharing(kvs, t), maps))
          == (if kvs[0].value.Invalid? then [] else [Instances(Loop(MadeSharing(kvs, t), maps))[0]])
             + Instances(Loop(rest, maps));
    }
  }

  /** Order and sharing: when every entry that decodes names all its fields, there is one
      instance per such entry, in key order, with that entry's network, address and
      weight; and all of them hold the one map into which every entry's tags were merged. */
  lemma CompleteEntriesKeepOrder(kvs: seq<KV>)
    requires CompleteOrInvalid(kvs)
    ensures Instances(Collect(ZeroInfo(), [], kvs)) == SharingTags(kvs, Merged(kvs))
  {
    NilRun(ZeroInfo(), [], kvs);
    ReadShared(kvs, MapRef(0), Collect(ZeroInfo(), [], kvs).maps);
    if Collect(ZeroInfo(), [], kvs).made == [] {
      ReadShared(kvs, MapRef(0), []);
      SharingTagsEmpty(kvs, map[], Merged(kvs));
    }
  }

  /** Whether it yields an instance depends on the entries only, not on the tags read. */
  lemma {:induction false} SharingTagsEmpty(kvs: seq<KV>, t1: map<string, string>, t2: map<string, string>)
    requires CompleteOrInvalid(kvs) && SharingTags(kvs, t1) == []
    ensures SharingTags(kvs, t2) == []
    decreases |kvs|
  {
    if kvs != [] {
      SharingTagsEmpty(kvs[1..], t1, t2);
    }
  }

  function EntryA(): KV
  {
    KV("kitex/registry-etcd/video/a", Fields(Some("tcp"), Some("a"), Some(1), Some(Object(map["a" := "1"])), false))
  }

  function EntryB(): KV
  {
    KV("kitex/registry-etcd/video/b", Fields(Some("tcp"), Some("b"), Some(1), Some(Object(map["b" := "2"])), false))
  }

  /** The tags of entries decoded one after the other accumulate in one shared map: of two
      instances registered with tags {a: 1} and {b: 2}, both read {a: 1, b: 2}. */
  lemma TagsAccumulateAcrossEntries()
    ensures Instances(Collect(ZeroInfo(), [], [EntryA(), EntryB()]))
         == [Instance("tcp", "a", 1, map["a" := "1", "b" := "2"]), Instance("tcp", "b", 1, map["a" := "1", "b" := "2"])]
  {
    var ab := map["a" := "1", "b" := "2"];
    assert map["a" := "1"] + map["b" := "2"] == ab;
    var da := Unmarshal(ZeroInfo(), [], EntryA().value);
    assert da == Decoding(InstanceInfo("tcp", "a", 1, MapRef(0)), [map["a" := "1"]], true);
    var db := Unmarshal(da.info, da.maps, EntryB().value);
    assert db == Decoding(InstanceInfo("tcp", "b", 1, MapRef(0)), [ab], true);
    assert [EntryA(), EntryB()][1..] == [EntryB()] && [EntryB()][1..] == [];
    assert Collect(db.info, db.maps, []) == Loop([], [ab]);
    assert Collect(da.info, da.maps, [EntryB()]) == Loop([Made("tcp", "b", 1, MapRef(0))], [ab]);
  }

  function EntryNull(): KV
  {
    KV("kitex/registry-etcd/video/c", Fields(Some("tcp"), Some("c"), Some(1), Some(Null), false))
  }

  /** After the null entry `info.Tags` is nil, so B's tags go into a new map. */
  lemma NullRunAfterNull()
    ensures Collect(InstanceInfo("tcp", "c", 1, NilMap), [map["a" := "1"]], [EntryB()])
         == Loop([Made("tcp", "b", 1, MapRef(1))], [map["a" := "1"], map["b" := "2"]])
  {
    var db := Unmarshal(InstanceInfo("tcp", "c", 1, NilMap), [map["a" := "1"]], EntryB().value);
    assert db == Decoding(InstanceInfo("tcp", "b", 1, MapRef(1)), [map["a" := "1"], map["b" := "2"]], true);
    assert [EntryB()][1..] == [];
    assert Collect(db.info, db.maps, []) == Loop([], db.maps);
  }

  /** The null entry makes its instance with a nil map. */
  lemma NullRunAtNull()
    ensures Collect(InstanceInfo("tcp", "a", 1, MapRef(0)), [map["a" := "1"]], [EntryNull(), EntryB()])
         == Loop([Made("tcp", "c", 1, NilMap), Made("tcp", "b", 1, MapRef(1))], [map["a" := "1"], map["b" := "2"]])
  {
    var dc := Unmarshal(InstanceInfo("tcp", "a", 1, MapRef(0)), [map["a" := "1"]], EntryNull().value);
    assert dc == Decoding(InstanceInfo("tcp", "c", 1, NilMap), [map["a" := "1"]], true);
    assert [EntryNull(), EntryB()][1..] == [EntryB()];
    NullRunAfterNull();
  }

  /** The loop over A, a null tags entry and B makes three instances: the first holds
      map 0, the second a nil map, the third the map allocated after the nil. */
  lemma NullRunCollect()
    ensures Collect(ZeroInfo(), [], [EntryA(), EntryNull(), EntryB()])
         == Loop([Made("tcp", "a", 1, MapRef(0)), Made("tcp", "c", 1, NilMap), Made("tcp", "b", 1, MapRef(1))],
                 [map["a" := "1"], map["b" := "2"]])
  {
    var da := Unmarshal(ZeroInfo(), [], EntryA().value);
    assert da == Decoding(InstanceInfo("tcp", "a", 1, MapRef(0)), [map["a" := "1"]], true);
    assert [EntryA(), EntryNull(), EntryB()][1..] == [EntryNull(), EntryB()];
    NullRunAtNull();
  }

  /** A `tags` of `null` sets the field to nil, so the next object starts a new map. */
  lemma NullStartsNewTags()
    ensures Instances(Collect(ZeroInfo(), [], [EntryA(), EntryNull(), EntryB()]))
         == [Instance("tcp", "a", 1, map["a" := "1"]), Instance("tcp", "c", 1, map[]), Instance("tcp", "b", 1, map["b" := "2"])]
  {
    NullRunCollect();
    var maps := [map["a" := "1"], map["b" := "2"]];
    assert Deref(MapRef(0), maps) == map["a" := "1"] && Deref(NilMap, maps) == map[] && Deref(MapRef(1), maps) == map["b" := "2"];
  }

  /** The reused `info` leaks: an entry without a weight gets the weight of the entry
      decoded before it, not the default. */
  lemma WeightLeaksFromPreviousEntry()
    ensures var first := KV("kitex/registry-etcd/video/a", Fields(Some("tcp"), Some("a"), Some(5), None, false));
            var second := KV("kitex/registry-etcd/video/b", Fields(Some("tcp"), Some("b"), None, None, false));
            Instances(Collect(ZeroInfo(), [], [first, second]))
            == [Instance("tcp", "a", 5, map[]), Instance("tcp", "b", 5, map[])]
  {
    var first := KV("kitex/registry-etcd/video/a", Fields(Some("tcp"), Some("a"), Some(5), None, false));
    var second := KV("kitex/registry-etcd/video/b", Fields(Some("tcp"), Some("b"), None, None, false));
    assert [first, second][1..] == [second];
    assert [second][1..] == [];
  }

  /** Every instance registered for the service is fetched: the prefix Get sees it. */
  lemma ResolveFetchesRegisteredKeys(store: seq<KV>, target: EndpointInfo, addr: string)
    ensures forall kv :: kv in store && kv.key == ServiceKey(target.serviceName, addr)
              ==> kv in Fetch(store, ServiceKeyPrefix(Target(target)))
  {
  }

  /** So is every instance of a service whose name extends the one resolved: the prefix
      has no trailing '/'. */
  lemma ResolveFetchesLongerNames(store: seq<KV>, desc: string, suffix: string, addr: string)
    ensures forall kv :: kv in store && kv.key == ServiceKey(desc + suffix, addr) ==> kv in Fetch(store, ServiceKeyPrefix(desc))
  {
    LongerNameSharesPrefix(desc, suffix, addr);
  }
}
