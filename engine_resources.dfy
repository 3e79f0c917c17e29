/**
 * The resource half of ShaderOpTest's bookkeeping: the calls the device
 * would receive, the resource data kept by name, and what CreateResources
 * does to one resource and to the whole list.
 */
module ResourceSteps {
  import opened Wrappers
  import opened D3D12
  import opened ByteInit
  import opened ShaderOpData
  import opened EngineRules

  /** The view a descriptor asks for. */
  datatype ViewKind = UavKind | SrvKind | RtvKind | CbvKind | NoViewKind

  /** A descriptor handle: a heap (its position in the created heaps) and the byte offset from its start. */
  datatype Handle = Handle(heap: nat, offset: nat)

  /** The device and command-list calls, with the arguments the bookkeeping decides. */
  datatype Command =
    | CreateFence
    | CreateCommitted(resource: nat, desc: ResourceDesc, initialState: nat)
    | Upload(resource: nat, bufferWidth: nat, values: seq<byte>)
    | CreateReadBack(resource: nat, width: nat)
    | Barrier(key: Option<string>, before: nat, after: nat)
    | CreateDescriptorHeap(heap: nat, numDescriptors: nat)
    | CreateView(view: ViewKind, key: Option<string>, counter: Option<string>, handle: Handle)
    | SetHeaps(heaps: seq<nat>)
    | BindRootView(compute: bool, rootView: RootViewKind, slot: nat, key: Option<string>)
    | BindRootTable(compute: bool, slot: nat, heap: nat)
    | Dispatch(x: nat, y: nat, z: nat)
    | SetViewport(width: nat, height: nat)
    | SetRenderTargets(handles: seq<Handle>)
    | ClearRenderTarget(target: Option<Handle>)
    | SetVertexBuffer(stride: nat, size: nat)
    | Draw(vertexCount: nat, instanceCount: nat)
    | CopyBuffer(key: Option<string>)
    | CopyTexture(key: Option<string>, width: nat, height: nat, rowPitch: nat)
    | Submit(fence: nat)

  /**
   * ShaderOpResourceData: the resource the entry was created from (None for
   * an entry that map indexing inserted for a name that was never created),
   * its tracked state, and whether a readback buffer exists.
   */
  datatype ResourceData = ResourceData(resource: Option<nat>, state: nat, readBack: bool)

  /** The entry std::map::operator[] default-constructs. */
  const EmptyData := ResourceData(None, RESOURCE_STATE_COMMON, false)

  /** ShaderOpDescriptorData: the resource-data entry and the CPU handle of a descriptor view. */
  datatype DescriptorData = DescriptorData(key: Option<string>, handle: Handle)

  /** 1, 2, …, n. */
  function Upto(n: nat): (s: seq<nat>)
    ensures |s| == n
  {
    seq(n, i => i + 1)
  }

  /** Two resources that differ at most in their Width. */
  predicate SameButWidth(a: Resource, b: Resource)
  {
    a == b.(desc := b.desc.(width := a.desc.width))
  }

  /**
   * The calls that creating resource `i` records, given its back-filled
   * description, the values to upload, if any, and the size of its upload
   * and readback buffers.
   */
  function CreationCommands(i: nat, r: Resource, upload: Option<seq<byte>>, size: Result<nat>): (c: seq<Command>)
    requires upload.Some? || r.readBack ==> size.Ok?
    ensures |c| >= 1 && c[0] == CreateCommitted(i, r.desc, r.initialResourceState)
  {
    [CreateCommitted(i, r.desc, r.initialResourceState)]
    + (if upload.Some? then [Upload(i, size.value, upload.value)] else [])
    + (if r.readBack then [CreateReadBack(i, size.value)] else [])
    + (if r.transitionTo != r.initialResourceState then [Barrier(r.name, r.initialResourceState, r.transitionTo)] else [])
  }

  /**
   * A barrier is recorded exactly when TransitionTo differs from
   * InitialResourceState, as the last call; a readback buffer exactly when
   * the resource is read back.
   */
  lemma CreationBarrier(i: nat, r: Resource, upload: Option<seq<byte>>, size: Result<nat>)
    requires upload.Some? || r.readBack ==> size.Ok?
    ensures var c := CreationCommands(i, r, upload, size);
      (exists j :: 0 <= j < |c| && c[j].Barrier?) <==> r.transitionTo != r.initialResourceState
    ensures var c := CreationCommands(i, r, upload, size);
      r.transitionTo != r.initialResourceState ==> c[|c| - 1] == Barrier(r.name, r.initialResourceState, r.transitionTo)
    ensures var c := CreationCommands(i, r, upload, size);
      (exists j :: 0 <= j < |c| && c[j].CreateReadBack?) <==> r.readBack
  {
    var c := CreationCommands(i, r, upload, size);
    if r.transitionTo == r.initialResourceState {
      assert forall j :: 0 <= j < |c| ==> !c[j].Barrier?;
    } else {
      assert c[|c| - 1].Barrier?;
    }
    if !r.readBack {
      assert forall j :: 0 <= j < |c| ==> !c[j].CreateReadBack?;
    } else {
      assert c[if upload.Some? then 2 else 1].CreateReadBack?;
    }
  }

  /** A resource ready to be committed: its Width back-filled, and the values to upload. */
  datatype Creation = Creation(resource: Resource, upload: Option<seq<byte>>)

  /**
   * The preparation CreateResources makes before committing a resource:
   * none without an Init attribute, and otherwise PrepareInit, whose Width
   * replaces the resource's.
   */
  function Initialise(r: Resource, callback: InitCallback): (c: Result<Creation>)
    ensures InitKindOf(r.init) == NoInit ==> c == Ok(Creation(r, None))
    ensures InitKindOf(r.init) != NoInit ==> (c.Ok? <==> LinearSize(r.desc).Ok?)
    ensures c.Ok? ==> SameButWidth(c.value.resource, r)
    ensures c.Ok? && c.value.upload.Some? ==> LinearSize(c.value.resource.desc).Ok?
    ensures c.Ok? && InitKindOf(r.init) != NoInit ==>
      c.value.upload == Some(PrepareInit(r, InitKindOf(r.init), callback).value.values) &&
      c.value.resource.desc.width == PrepareInit(r, InitKindOf(r.init), callback).value.width
    ensures c.Err? ==> c.error == InvalidArg
  {
    var kind := InitKindOf(r.init);
    if kind == NoInit then Ok(Creation(r, None))
    else
      var p :- PrepareInit(r, kind, callback);
      Ok(Creation(r.(desc := r.desc.(width := p.width)), Some(p.values)))
  }

  /** A resource as CreateResources leaves it: as it was, or with the Width its initialisation back-filled. */
  predicate Backfilled(now: Resource, before: Resource, callback: InitCallback)
  {
    now == before || (Initialise(before, callback).Ok? && now == Initialise(before, callback).value.resource)
  }

  /** The entry of `k` was created from the first resource named `k`, and is in the state that resource asked for. */
  predicate CreatedFirst(resources: seq<Resource>, data: map<Option<string>, ResourceData>, k: Option<string>)
  {
    k in data && data[k].resource.Some? &&
    var j := data[k].resource.value;
    j < |resources| && resources[j].name == k &&
    (forall m :: 0 <= m < j ==> resources[m].name != k) &&
    data[k].state == resources[j].transitionTo && data[k].readBack == resources[j].readBack
  }

  /** What CreateResources keeps whatever happens: resources at most back-filled, existing entries untouched. */
  predicate Kept(resources: seq<Resource>, data: map<Option<string>, ResourceData>,
                 r0: seq<Resource>, d0: map<Option<string>, ResourceData>, callback: InitCallback)
  {
    |resources| == |r0| &&
    (forall j :: 0 <= j < |resources| ==> Backfilled(resources[j], r0[j], callback)) &&
    (forall k :: k in d0 ==> k in data && data[k] == d0[k])
  }

  /** The loop of CreateResources after its first `i` resources, started from `r0` and `d0`. */
  predicate Progress(i: nat, resources: seq<Resource>, data: map<Option<string>, ResourceData>,
                     r0: seq<Resource>, d0: map<Option<string>, ResourceData>, callback: InitCallback)
  {
    Kept(resources, data, r0, d0, callback) && i <= |resources| &&
    (forall j :: i <= j < |resources| ==> resources[j] == r0[j]) &&
    (forall j :: 0 <= j < i ==> resources[j].name in data) &&
    (forall k :: k in data && k !in d0 ==> CreatedFirst(resources, data, k))
  }

  /** A skipped or successfully created resource advances the loop. */
  lemma ProgressStep(i: nat, rs: seq<Resource>, data: map<Option<string>, ResourceData>,
                     rs2: seq<Resource>, data2: map<Option<string>, ResourceData>,
                     r0: seq<Resource>, d0: map<Option<string>, ResourceData>, callback: InitCallback)
    requires Progress(i, rs, data, r0, d0, callback) && i < |rs|
    requires rs[i].name in data ==> rs2 == rs && data2 == data
    requires rs[i].name !in data ==>
      Initialise(rs[i], callback).Ok? && rs2 == rs[i := Initialise(rs[i], callback).value.resource] &&
      data2 == data[rs[i].name := ResourceData(Some(i), rs2[i].transitionTo, rs2[i].readBack)]
    ensures Progress(i + 1, rs2, data2, r0, d0, callback)
  {
    if rs[i].name !in data {
      var name := rs[i].name;
      assert forall j :: 0 <= j < |rs| ==> rs2[j].name == rs[j].name;
      forall k | k in data2 && k !in d0
        ensures CreatedFirst(rs2, data2, k)
      {
        if k != name {
          assert CreatedFirst(rs, data, k);
        } else {
          assert forall m :: 0 <= m < i ==> rs2[m].name in data;
        }
      }
    }
  }

  /** A failed step keeps what CreateResources keeps. */
  lemma FailedStep(i: nat, rs: seq<Resource>, data: map<Option<string>, ResourceData>,
                   rs2: seq<Resource>, data2: map<Option<string>, ResourceData>,
                   r0: seq<Resource>, d0: map<Option<string>, ResourceData>, callback: InitCallback, entry: ResourceData)
    requires Progress(i, rs, data, r0, d0, callback) && i < |rs| && rs[i].name !in data
    requires rs2 == rs || (Initialise(rs[i], callback).Ok? && rs2 == rs[i := Initialise(rs[i], callback).value.resource])
    requires data2 == data || data2 == data[rs[i].name := entry]
    ensures Kept(rs2, data2, r0, d0, callback)
  {
  }

  /** What the loop of CreateResources leaves: failure or not, the resources, the entries, the calls. */
  datatype Created = Created(outcome: Outcome, resources: seq<Resource>, data: map<Option<string>, ResourceData>, calls: seq<Command>)

  /**
   * Resource i of CreateResources: skipped when its name has an entry;
   * otherwise prepared, committed with an entry in its initial state, and
   * either failing on an unsized readback or recorded in full and left in
   * its TransitionTo state.
   */
  function CreateStep(s: Created, i: nat, callback: InitCallback): (u: Created)
    requires i < |s.resources|
    ensures |u.resources| == |s.resources| && u.resources[i].name == s.resources[i].name
    ensures s.resources[i].name in s.data ==> u == s
    ensures u.outcome.Pass? ==> s.data.Keys + {s.resources[i].name} <= u.data.Keys && s.calls <= u.calls
    ensures s.outcome.Pass? && u.outcome.Fail? ==> u.outcome.error == InvalidArg
  {
    var r := s.resources[i];
    if r.name in s.data then s
    else match Initialise(r, callback)
      case Err(e) => s.(outcome := Fail(e))
      case Ok(c) =>
        var r2 := c.resource;
        var size := LinearSize(r2.desc);
        var rs := s.resources[i := r2];
        if r2.readBack && size.Err? then
          Created(Fail(size.error), rs, s.data[r2.name := ResourceData(Some(i), r2.initialResourceState, false)],
                  s.calls + [CreateCommitted(i, r2.desc, r2.initialResourceState)])
        else
          Created(Pass, rs, s.data[r2.name := ResourceData(Some(i), r2.transitionTo, r2.readBack)],
                  s.calls + CreationCommands(i, r2, c.upload, size))
  }

  /**
   * The cases of resource i: a name with an entry is skipped; a failed
   * preparation changes nothing but the outcome; otherwise the prepared
   * resource replaces it and is committed, and it passes unless it is a
   * readback without a size, which leaves its entry in the initial state.
   */
  lemma CreateStepCases(s: Created, i: nat, callback: InitCallback)
    requires i < |s.resources| && s.outcome.Pass?
    ensures var u := CreateStep(s, i, callback); var r := s.resources[i];
      (r.name in s.data ==> u == s) &&
      (r.name !in s.data && Initialise(r, callback).Err? ==> u == s.(outcome := Fail(InvalidArg))) &&
      (r.name !in s.data && Initialise(r, callback).Ok? ==>
        var c := Initialise(r, callback).value;
        var r2 := c.resource;
        u.resources == s.resources[i := r2] &&
        (u.outcome.Pass? <==> !r2.readBack || LinearSize(r2.desc).Ok?) &&
        (u.outcome.Pass? ==>
          u.data == s.data[r2.name := ResourceData(Some(i), r2.transitionTo, r2.readBack)] &&
          u.calls == s.calls + CreationCommands(i, r2, c.upload, LinearSize(r2.desc))) &&
        (u.outcome.Fail? ==>
          u.outcome.error == InvalidArg &&
          u.data == s.data[r2.name := ResourceData(Some(i), r2.initialResourceState, false)] &&
          u.calls == s.calls + [CreateCommitted(i, r2.desc, r2.initialResourceState)]))
  {
  }

  /** Resource i of CreateResources leaves every other resource as it was. */
  lemma CreateStepKeepsOthers(s: Created, i: nat, callback: InitCallback, m: nat)
    requires i < |s.resources| && m < |s.resources| && m != i
    ensures CreateStep(s, i, callback).resources[m] == s.resources[m]
  {
  }

  /** CreateResources from resource k on, after s; the first failure ends it. */
  function ResourcesFrom(s: Created, k: nat, callback: InitCallback): (u: Created)
    requires k <= |s.resources|
    ensures |u.resources| == |s.resources|
    decreases |s.resources| - k
  {
    if k == |s.resources| || s.outcome.Fail? then s
    else ResourcesFrom(CreateStep(s, k, callback), k + 1, callback)
  }

  /** Past the last resource the loop has nothing left to do. */
  lemma ResourcesFromEnd(s: Created, callback: InitCallback)
    ensures ResourcesFrom(s, |s.resources|, callback) == s
  {
  }

  /** One more resource of the loop: a passing state goes on from the next resource, a failed one stays. */
  lemma ResourcesFromNext(s: Created, k: nat, callback: InitCallback)
    requires k < |s.resources| && s.outcome.Pass?
    ensures ResourcesFrom(s, k, callback) == ResourcesFrom(CreateStep(s, k, callback), k + 1, callback)
    ensures CreateStep(s, k, callback).outcome.Fail? ==> ResourcesFrom(s, k, callback) == CreateStep(s, k, callback)
  {
  }

  /** The loop never touches a resource it has already passed. */
  lemma {:induction false} ResourcesFromKeepsBefore(s: Created, k: nat, callback: InitCallback, j: nat)
    requires j < k <= |s.resources|
    ensures ResourcesFrom(s, k, callback).resources[j] == s.resources[j]
    decreases |s.resources| - k
  {
    if k < |s.resources| && s.outcome.Pass? {
      CreateStepKeepsOthers(s, k, callback, j);
      ResourcesFromKeepsBefore(CreateStep(s, k, callback), k + 1, callback, j);
    }
  }

  /** Resource j's name already has an entry, or is the name of a resource from k on before it. */
  predicate Seen(s: Created, k: nat, j: nat)
    requires j < |s.resources|
  {
    s.resources[j].name in s.data || exists m :: k <= m < j && s.resources[m].name == s.resources[j].name
  }

  /** One resource before j leaves j as it was, and still seen when the loop goes on. */
  lemma CreateStepSeen(s: Created, k: nat, callback: InitCallback, j: nat)
    requires k < j < |s.resources| && s.outcome.Pass? && Seen(s, k, j)
    ensures var u := CreateStep(s, k, callback);
      u.resources[j] == s.resources[j] && (u.outcome.Pass? ==> Seen(u, k + 1, j))
  {
    var u := CreateStep(s, k, callback);
    CreateStepKeepsOthers(s, k, callback, j);
    if u.outcome.Pass? && s.resources[j].name !in s.data {
      var m :| k <= m < j && s.resources[m].name == s.resources[j].name;
      if m == k {
        assert s.resources[j].name in u.data;
      } else {
        CreateStepKeepsOthers(s, k, callback, m);
      }
    }
  }

  /**
   * A resource whose name already has an entry, or is the name of an
   * earlier resource of the loop, comes out of the loop unchanged: it is
   * skipped, not created again.
   */
  lemma {:induction false} ResourcesFromSkipsSeen(s: Created, k: nat, callback: InitCallback, j: nat)
    requires k <= j < |s.resources|
    requires s.resources[j].name in s.data || exists m :: k <= m < j && s.resources[m].name == s.resources[j].name
    ensures ResourcesFrom(s, k, callback).resources[j] == s.resources[j]
    decreases |s.resources| - k
  {
    if s.outcome.Fail? {
      assert ResourcesFrom(s, k, callback) == s;
    } else if j == k {
      ResourcesFromNext(s, k, callback);
      assert CreateStep(s, k, callback) == s;
      ResourcesFromKeepsBefore(s, k + 1, callback, j);
    } else {
      ResourcesFromNext(s, k, callback);
      CreateStepSeen(s, k, callback, j);
      var u := CreateStep(s, k, callback);
      if u.outcome.Pass? {
        ResourcesFromSkipsSeen(u, k + 1, callback, j);
      }
    }
  }

  /** The loop from resource `k` on keeps what the first `k` resources established. */
  lemma {:induction false} ResourcesFromProgress(s: Created, k: nat, r0: seq<Resource>, d0: map<Option<string>, ResourceData>,
                                                 callback: InitCallback)
    requires k <= |s.resources| && s.outcome.Pass? && Progress(k, s.resources, s.data, r0, d0, callback)
    ensures var u := ResourcesFrom(s, k, callback);
      Kept(u.resources, u.data, r0, d0, callback) &&
      (u.outcome.Pass? ==> Progress(|u.resources|, u.resources, u.data, r0, d0, callback))
    decreases |s.resources| - k
  {
    if k < |s.resources| {
      CreateStepProgress(s, k, r0, d0, callback);
      ResourcesFromNext(s, k, callback);
      var u := CreateStep(s, k, callback);
      if u.outcome.Pass? {
        ResourcesFromProgress(u, k + 1, r0, d0, callback);
      }
    } else {
      assert ResourcesFrom(s, k, callback) == s;
    }
  }

  /** One resource of the loop keeps Progress, or on failure what Kept states. */
  lemma CreateStepProgress(s: Created, k: nat, r0: seq<Resource>, d0: map<Option<string>, ResourceData>, callback: InitCallback)
    requires k < |s.resources| && s.outcome.Pass? && Progress(k, s.resources, s.data, r0, d0, callback)
    ensures var u := CreateStep(s, k, callback);
      (u.outcome.Pass? ==> Progress(k + 1, u.resources, u.data, r0, d0, callback)) &&
      (u.outcome.Fail? ==> Kept(u.resources, u.data, r0, d0, callback))
  {
    var u := CreateStep(s, k, callback);
    if u.outcome.Pass? {
      ProgressStep(k, s.resources, s.data, u.resources, u.data, r0, d0, callback);
    } else {
      var name := s.resources[k].name;
      FailedStep(k, s.resources, s.data, u.resources, u.data, r0, d0, callback, if name in u.data then u.data[name] else EmptyData);
    }
  }

  /**
   * What the whole loop of CreateResources keeps: every resource is at most
   * back-filled and every existing entry is untouched; when it passes, every
   * name has an entry and each new entry belongs to the first resource of
   * its name.
   */
  lemma ResourcesFromKept(r0: seq<Resource>, d0: map<Option<string>, ResourceData>, calls: seq<Command>, callback: InitCallback)
    ensures var u := ResourcesFrom(Created(Pass, r0, d0, calls), 0, callback);
      Kept(u.resources, u.data, r0, d0, callback) &&
      (u.outcome.Pass? ==> forall j :: 0 <= j < |u.resources| ==> u.resources[j].name in u.data) &&
      (u.outcome.Pass? ==> forall k :: k in u.data && k !in d0 ==> CreatedFirst(u.resources, u.data, k))
  {
    assert Progress(0, r0, d0, r0, d0, callback);
    ResourcesFromProgress(Created(Pass, r0, d0, calls), 0, r0, d0, callback);
  }

  /** GetResourceByName: the position of the first resource with the given name. */
  function ResourceByName(resources: seq<Resource>, name: Option<string>): (r: Option<nat>)
    ensures r.Some? ==> r.value < |resources| && resources[r.value].name == name
    ensures r.Some? ==> forall m :: 0 <= m < r.value ==> resources[m].name != name
    ensures r.None? ==> forall m :: 0 <= m < |resources| ==> resources[m].name != name
  {
    if resources == [] then None
    else if resources[0].name == name then Some(0)
    else match ResourceByName(resources[1..], name)
      case None => None
      case Some(j) => Some(j + 1)
  }

  /** Some resource has the name. */
  predicate Named(resources: seq<Resource>, name: Option<string>)
  {
    exists j :: 0 <= j < |resources| && resources[j].name == name
  }

  /** GetResourceByName finds a resource exactly when one has the name. */
  lemma NamedByName(resources: seq<Resource>, name: Option<string>)
    ensures Named(resources, name) <==> ResourceByName(resources, name).Some?
  {
  }

  /** An entry CreateResources made belongs to the resource GetResourceByName finds. */
  lemma CreatedFirstByName(resources: seq<Resource>, data: map<Option<string>, ResourceData>, k: Option<string>)
    requires CreatedFirst(resources, data, k)
    ensures data[k].resource == ResourceByName(resources, k)
  {
  }

  /** std::map::operator[]: the map with an entry for `key`, default-constructed when it had none. */
  function WithEntry(data: map<Option<string>, ResourceData>, key: Option<string>): (m: map<Option<string>, ResourceData>)
    ensures key in m && m.Keys == data.Keys + {key}
    ensures forall k :: k in data ==> m[k] == data[k]
    ensures key !in data ==> m[key] == EmptyData
  {
    if key in data then data else data[key := EmptyData]
  }

  /** Every entry made from a resource points at a resource of its name. */
  predicate Indexed(resources: seq<Resource>, data: map<Option<string>, ResourceData>)
  {
    forall k :: k in data && data[k].resource.Some? ==>
      data[k].resource.value < |resources| && resources[data[k].resource.value].name == k
  }

  /** Every descriptor data entry refers to an existing resource entry. */
  predicate Resolved(descData: map<Option<string>, DescriptorData>, data: map<Option<string>, ResourceData>)
  {
    forall k :: k in descData ==> descData[k].key in data
  }

  /** Every descriptor handle is in one of the first n heaps created. */
  predicate HandlesBelow(descData: map<Option<string>, DescriptorData>, n: nat)
  {
    forall k :: k in descData ==> descData[k].handle.heap < n
  }
}
