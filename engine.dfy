/**
 * ShaderOpTest's bookkeeping between device calls.  The device is
 * abstract: every call it would receive is appended to `log`, and every
 * call is taken to succeed.  What the class tracks is what the source
 * tracks: the resource data by name (the resource a name was created from,
 * its current state and whether it has a readback buffer), the descriptor
 * data by resource name, the created heaps, and the fence value.
 */
module Engine {
  import opened Wrappers
  import opened Text
  import opened D3D12
  import opened Lookups
  import opened ByteInit
  import opened ShaderOpData
  import opened EngineRules
  import opened ResourceSteps
  import opened DescriptorSteps
  import opened CommandSteps

  /** With a device, the fence has signalled 1 up to the value before the next one, which is at least 1. */
  predicate FenceKept(hasDevice: bool, fenceValue: nat, signals: seq<nat>)
  {
    hasDevice ==> fenceValue >= 1 && signals == Upto(fenceValue - 1)
  }

  /** The values a fence at 4 has signalled. */
  lemma ThreeSignals()
    ensures Upto(3) == [1, 2, 3]
  {
  }

  /** Every heap name maps to one of the first n created heaps. */
  predicate NamedBelow(byName: map<Option<string>, nat>, n: nat)
  {
    forall k :: k in byName ==> byName[k] < n
  }

  class ShaderOpTest {
    /** The parts of the shader op the bookkeeping only reads. */
    const op: ShaderOp
    const isCompute: bool
    /** The op's resources and heaps, whose Width and NumDescriptors are written back. */
    var resources: seq<Resource>
    var heapDescs: seq<DescriptorHeap>
    var resourceData: map<Option<string>, ResourceData>
    var descriptorData: map<Option<string>, DescriptorData>
    /** m_DescriptorHeaps: for each created heap, the heap description it was created from. */
    var heaps: seq<nat>
    /** m_DescriptorHeapsByName: a position in `heaps`. */
    var heapsByName: map<Option<string>, nat>
    var hasDevice: bool
    var fenceValue: nat
    /** The values signalled on the current fence, in order. */
    var signals: seq<nat>
    var log: seq<Command>

    /**
     * Every submission on the current fence signals the next value, from 1;
     * the resource data of a name points at a resource of that name; handles
     * point at created heaps, and descriptor data at resource entries.
     */
    predicate Valid()
      reads this
    {
      FenceKept(hasDevice, fenceValue, signals) &&
      Indexed(resources, resourceData) &&
      PositionsBelow(heaps, |heapDescs|) && NamedBelow(heapsByName, |heaps|) &&
      HandlesBelow(descriptorData, |heaps|) && Resolved(descriptorData, resourceData)
    }

    constructor (shaderOp: ShaderOp, compute: bool)
      ensures Valid() && !hasDevice
      ensures op == shaderOp && isCompute == compute
      ensures resources == shaderOp.resources && heapDescs == shaderOp.descriptorHeaps
      ensures resourceData == map[] && descriptorData == map[] && heaps == [] && heapsByName == map[]
      ensures signals == [] && log == []
    {
      op := shaderOp;
      isCompute := compute;
      resources := shaderOp.resources;
      heapDescs := shaderOp.descriptorHeaps;
      resourceData := map[];
      descriptorData := map[];
      heaps := [];
      heapsByName := map[];
      hasDevice := false;
      fenceValue := 0;
      signals := [];
      log := [];
    }

    /** CreateDevice: a device when there is none, and a new fence whose next value is 1. */
    method CreateDevice()
      requires Valid()
      modifies this`hasDevice, this`fenceValue, this`signals, this`log
      ensures Valid() && hasDevice
      ensures fenceValue == 1 && signals == [] && log == old(log) + [CreateFence]
    {
      hasDevice := true;
      fenceValue := 1;
      signals := [];
      log := log + [CreateFence];
    }

    /** ExecuteCommandList followed by WaitForSignal(m_FenceValue++). */
    method SubmitAndWait()
      requires Valid() && hasDevice
      modifies this`fenceValue, this`signals, this`log
      ensures Valid() && hasDevice
      ensures fenceValue == old(fenceValue) + 1 && signals == old(signals) + [old(fenceValue)]
      ensures log == old(log) + [Submit(old(fenceValue))]
    {
      log := log + [Submit(fenceValue)];
      signals := signals + [fenceValue];
      fenceValue := fenceValue + 1;
    }

    /**
     * The creation of a resource that has no entry yet: the committed
     * resource, its entry in the initial state, the upload, the readback
     * buffer, and the barrier to TransitionTo.  Sizing the readback buffer
     * of a texture whose format has no size fails after the entry exists.
     */
    method Commit(i: nat, upload: Option<seq<byte>>) returns (outcome: Outcome)
      requires Valid() && hasDevice && i < |resources| && resources[i].name !in resourceData
      requires upload.Some? ==> LinearSize(resources[i].desc).Ok?
      modifies this`resourceData, this`log
      ensures Valid() && old(log) <= log
      ensures var r := resources[i];
        outcome.Pass? <==> !r.readBack || LinearSize(r.desc).Ok?
      ensures var r := resources[i];
        outcome.Pass? ==>
          resourceData == old(resourceData)[r.name := ResourceData(Some(i), r.transitionTo, r.readBack)] &&
          log == old(log) + CreationCommands(i, r, upload, LinearSize(r.desc))
      ensures var r := resources[i];
        outcome.Fail? ==>
          outcome.error == InvalidArg &&
          resourceData == old(resourceData)[r.name := ResourceData(Some(i), r.initialResourceState, false)] &&
          log == old(log) + [CreateCommitted(i, r.desc, r.initialResourceState)]
    {
      var r := resources[i];
      var size := LinearSize(r.desc);
      if r.readBack && size.Err? {
        log := log + [CreateCommitted(i, r.desc, r.initialResourceState)];
        resourceData := resourceData[r.name := ResourceData(Some(i), r.initialResourceState, false)];
        return Fail(size.error);
      }
      log := log + CreationCommands(i, r, upload, size);
      resourceData := resourceData[r.name := ResourceData(Some(i), r.transitionTo, r.readBack)];
      return Pass;
    }

    /**
     * One iteration of the loop of CreateResources: a name that already has
     * an entry is skipped; otherwise the initial values are prepared, the
     * Width back-filled, and the resource committed.
     */
    method CreateResource(i: nat, callback: InitCallback) returns (outcome: Outcome)
      requires Valid() && hasDevice && i < |resources|
      modifies this`resources, this`resourceData, this`log
      ensures Valid() && old(log) <= log
      ensures Created(outcome, resources, resourceData, log) ==
        CreateStep(Created(Pass, old(resources), old(resourceData), old(log)), i, callback)
    {
      var r := resources[i];
      if r.name in resourceData {
        return Pass;
      }
      var c := Initialise(r, callback);
      if c.Err? {
        return Fail(c.error);
      }
      resources := resources[i := c.value.resource];
      outcome := Commit(i, c.value.upload);
    }

    /**
     * The loop of CreateResources: every resource whose name has no entry
     * yet is created, in order, until one fails.
     */
    method CreateEach(callback: InitCallback) returns (outcome: Outcome)
      requires Valid() && hasDevice
      modifies this`resources, this`resourceData, this`log
      ensures Valid() && old(log) <= log
      ensures Created(outcome, resources, resourceData, log) ==
        ResourcesFrom(Created(Pass, old(resources), old(resourceData), old(log)), 0, callback)
    {
      ghost var cur := Created(Pass, resources, resourceData, log);
      ghost var run := ResourcesFrom(cur, 0, callback);
      var i := 0;
      while i < |resources|
        invariant Valid() && old(log) <= log && i <= |resources|
        invariant cur == Created(Pass, resources, resourceData, log) && ResourcesFrom(cur, i, callback) == run
      {
        ResourcesFromNext(cur, i, callback);
        outcome := CreateResource(i, callback);
        cur := Created(outcome, resources, resourceData, log);
        if outcome.Fail? {
          return;
        }
        i := i + 1;
      }
      ResourcesFromEnd(cur, callback);
      outcome := Pass;
    }

    /**
     * CreateResources: every resource whose name has no entry yet is
     * created, in order, on one command list, which is then submitted and
     * waited for.  An entry made here belongs to the first resource of its
     * name and is left in that resource's TransitionTo state.
     */
    method CreateResources(callback: InitCallback) returns (outcome: Outcome)
      requires Valid() && hasDevice
      modifies this`resources, this`resourceData, this`log, this`fenceValue, this`signals
      ensures Valid()
      ensures Kept(resources, resourceData, old(resources), old(resourceData), callback)
      ensures outcome.Pass? ==> forall j :: 0 <= j < |resources| ==> resources[j].name in resourceData
      ensures outcome.Pass? ==>
        forall k :: k in resourceData && k !in old(resourceData) ==> CreatedFirst(resources, resourceData, k)
      ensures outcome.Pass? ==>
        fenceValue == old(fenceValue) + 1 && signals == old(signals) + [old(fenceValue)] &&
        |log| > |old(log)| && log[|log| - 1] == Submit(old(fenceValue))
      ensures outcome.Fail? ==> fenceValue == old(fenceValue) && signals == old(signals)
      ensures var u := ResourcesFrom(Created(Pass, old(resources), old(resourceData), old(log)), 0, callback);
        outcome == u.outcome && resources == u.resources && resourceData == u.data &&
        log == if outcome.Pass? then u.calls + [Submit(old(fenceValue))] else u.calls
    {
      ResourcesFromKept(resources, resourceData, log, callback);
      outcome := CreateEach(callback);
      if outcome.Pass? {
        SubmitAndWait();
      }
    }

    /**
     * One descriptor of a heap: the resource it names must exist; its entry
     * (and a UAV counter's) is looked up with operator[]; the view its Kind
     * asks for is made at `offset` in heap `heap`; and the resource's
     * descriptor data is replaced.
     */
    method CreateDescriptor(heap: nat, d: Descriptor, offset: nat) returns (outcome: Outcome)
      modifies this`resourceData, this`descriptorData, this`log
      ensures Views(outcome, resourceData, descriptorData, log) ==
        DescriptorStep(resources, Views(Pass, old(resourceData), old(descriptorData), old(log)), d, Handle(heap, offset))
    {
      NamedByName(resources, d.resName);
      var r := ResourceByName(resources, d.resName);
      if r.None? {
        return Fail(InvalidArg);
      }
      LookUpEntry(d.resName);
      var data := resourceData[d.resName];
      if d.kind.None? {
        return Fail(NullDereference);
      }
      var handle := Handle(heap, offset);
      var view := ViewKindOf(d.kind.value);
      var counter: Option<string> := None;
      if view == UavKind {
        counter := Counter(d);
        if counter.Some? {
          LookUpEntry(counter);
        }
      } else if view == CbvKind && data.resource.None? {
        return Fail(NullDereference);
      }
      if view != NoViewKind {
        log := log + [CreateView(view, d.resName, counter, handle)];
      }
      SetDescriptorData(d.resName, handle);
      return Pass;
    }

    /** m_ResourceData[key]: an entry for `key`, default-constructed when there is none. */
    method LookUpEntry(key: Option<string>)
      modifies this`resourceData
      ensures resourceData == WithEntry(old(resourceData), key)
    {
      resourceData := WithEntry(resourceData, key);
    }

    /** m_DescriptorData[key] = DData. */
    method SetDescriptorData(key: Option<string>, handle: Handle)
      modifies this`descriptorData
      ensures descriptorData == old(descriptorData)[key := DescriptorData(key, handle)]
    {
      descriptorData := descriptorData[key := DescriptorData(key, handle)];
    }

    /**
     * One heap of CreateDescriptorHeaps: NumDescriptors is back-filled, the
     * heap created and recorded under its name, and every descriptor's view
     * made at the next handle, `size` bytes apart (the device's handle
     * increment for the heap's type).
     */
    method CreateHeap(h: nat, size: nat) returns (outcome: Outcome)
      requires Valid() && h < |heapDescs|
      modifies this`heapDescs, this`heaps, this`heapsByName, this`resourceData, this`descriptorData, this`log
      ensures Valid()
      ensures HeapState(Views(outcome, resourceData, descriptorData, log), HeapTable(heapDescs, heaps, heapsByName)) ==
        HeapStep(resources, HeapState(Views(Pass, old(resourceData), old(descriptorData), old(log)),
                                      HeapTable(old(heapDescs), old(heaps), old(heapsByName))), h, size)
    {
      var desc := heapDescs[h];
      heapDescs := heapDescs[h := Counted(desc)];
      log := log + [CreateDescriptorHeap(h, heapDescs[h].numDescriptors)];
      var heap := |heaps|;
      heaps := heaps + [h];
      heapsByName := heapsByName[desc.name := heap];
      ghost var v := Views(Pass, resourceData, descriptorData, log);
      outcome := CreateViews(heap, desc.descriptors, size);
      RunValid(resources, v, desc.descriptors, |desc.descriptors|, heap, size, |heaps|);
    }

    /** The loop over a heap's descriptors, handles `size` bytes apart from the heap start. */
    method CreateViews(heap: nat, descs: seq<Descriptor>, size: nat) returns (outcome: Outcome)
      modifies this`resourceData, this`descriptorData, this`log
      ensures Views(outcome, resourceData, descriptorData, log) ==
        RunDescriptors(resources, Views(Pass, old(resourceData), old(descriptorData), old(log)), descs, |descs|, heap, size)
    {
      ghost var v0 := Views(Pass, resourceData, descriptorData, log);
      ViewsFromRun(resources, v0, descs, 0, heap, size);
      assert descs[0..] == descs;
      var k := 0;
      var offset: nat := 0;
      outcome := Pass;
      while k < |descs|
        invariant k <= |descs| && outcome == Pass
        invariant ViewsFrom(resources, Views(Pass, resourceData, descriptorData, log), descs[k..], heap, offset, size)
          == RunDescriptors(resources, v0, descs, |descs|, heap, size)
      {
        assert descs[k..][1..] == descs[k + 1..];
        outcome := CreateDescriptor(heap, descs[k], offset);
        if outcome.Fail? {
          return;
        }
        offset := offset + size;
        k := k + 1;
      }
      assert descs[k..] == [];
    }

    /**
     * CreateDescriptorHeaps: the heap descriptions in order, each created at
     * the next position with the handle increment sizes[h]; the first
     * failing descriptor ends it.  When it passes, every heap has been
     * created.
     */
    method CreateDescriptorHeaps(sizes: seq<nat>) returns (outcome: Outcome)
      requires Valid() && |sizes| == |heapDescs|
      modifies this`heapDescs, this`heaps, this`heapsByName, this`resourceData, this`descriptorData, this`log
      ensures Valid()
      ensures HeapState(Views(outcome, resourceData, descriptorData, log), HeapTable(heapDescs, heaps, heapsByName)) ==
        HeapsFrom(resources, HeapState(Views(Pass, old(resourceData), old(descriptorData), old(log)),
                                       HeapTable(old(heapDescs), old(heaps), old(heapsByName))), 0, sizes)
      ensures outcome.Pass? ==>
        heapDescs == CountedHeaps(old(heapDescs), |old(heapDescs)|) && heaps == old(heaps) + Positions(|old(heapDescs)|) &&
        heapsByName == HeapNames(old(heapsByName), old(heapDescs), |old(heapDescs)|, |old(heaps)|)
    {
      ghost var s0 := HeapState(Views(Pass, resourceData, descriptorData, log), HeapTable(heapDescs, heaps, heapsByName));
      ghost var run := HeapsFrom(resources, s0, 0, sizes);
      var h := 0;
      outcome := Pass;
      while h < |heapDescs|
        invariant h <= |heapDescs| == |s0.table.descs| && Valid() && outcome == Pass
        invariant HeapsFrom(resources, HeapState(Views(Pass, resourceData, descriptorData, log), HeapTable(heapDescs, heaps, heapsByName)), h, sizes) == run
      {
        outcome := CreateHeap(h, sizes[h]);
        if outcome.Fail? {
          break;
        }
        h := h + 1;
      }
      if outcome.Pass? {
        HeapsFromPass(resources, s0.table, s0, 0, sizes);
        AddHeapsTable(s0.table, |s0.table.descs|);
      }
    }

    /** SetDescriptorHeaps: the shader-visible heaps, in creation order, in one call; no call when there are none. */
    method SetDescriptorHeaps()
      requires Valid()
      modifies this`log
      ensures Valid() && log == old(log) + HeapBinding(heaps, heapDescs)
    {
      if heaps == [] {
        return;
      }
      var visible := ShaderVisibleHeaps();
      if visible != [] {
        log := log + [SetHeaps(visible)];
      }
    }

    /** The loop of SetDescriptorHeaps: the positions of the created heaps whose flags make them shader visible. */
    method ShaderVisibleHeaps() returns (visible: seq<nat>)
      requires PositionsBelow(heaps, |heapDescs|)
      ensures visible == VisibleHeaps(Positions(|heaps|), HeapFlags(heaps, heapDescs))
    {
      ghost var flags := HeapFlags(heaps, heapDescs);
      visible := [];
      var i := 0;
      while i < |heaps|
        invariant i <= |heaps| && visible == VisibleHeaps(Positions(i), flags)
      {
        VisibleHeapsAppend(Positions(i), [i], flags);
        assert Positions(i + 1) == Positions(i) + [i];
        assert [i][1..] == [];
        if ShaderVisible(heapDescs[heaps[i]].flags) {
          visible := visible + [i];
        }
        i := i + 1;
      }
    }

    /**
     * SetRootValues: each root value in order, bound as RootBinding says;
     * the first that fails ends it.
     */
    method SetRootValues() returns (outcome: Outcome)
      requires Valid()
      modifies this`log
      ensures Valid()
      ensures var r := RootBindings(isCompute, op.rootValues, |op.rootValues|, resources, resourceData, heapsByName);
        (outcome.Pass? <==> r.Ok?) && (r.Err? ==> outcome == Fail(r.error)) && (r.Ok? ==> log == old(log) + r.value)
    {
      ghost var log0 := log;
      ghost var run := RootsFrom(isCompute, op.rootValues, 0, resources, resourceData, heapsByName, Listed(Pass, log));
      var i := 0;
      outcome := Pass;
      while i < |op.rootValues|
        invariant i <= |op.rootValues| && Valid() && outcome == Pass
        invariant RootsFrom(isCompute, op.rootValues, i, resources, resourceData, heapsByName, Listed(Pass, log)) == run
      {
        outcome := BindRootValue(i);
        if outcome.Fail? {
          break;
        }
        i := i + 1;
      }
      assert Listed(outcome, log) == run;
      assert log0 + [] == log0;
      RootsFromBindings(isCompute, op.rootValues, 0, resources, resourceData, heapsByName, log0);
    }

    /** Root value i of SetRootValues. */
    method BindRootValue(i: nat) returns (outcome: Outcome)
      requires Valid() && i < |op.rootValues|
      modifies this`log
      ensures Valid()
      ensures var r := RootBinding(isCompute, i, op.rootValues[i], resources, resourceData, heapsByName);
        Listed(outcome, log) == if r.Ok? then Listed(Pass, old(log) + r.value) else Listed(Fail(r.error), old(log))
    {
      var value := op.rootValues[i];
      var slot := RootSlot(value.index, i);
      if value.resName.Some? {
        if value.resName !in resourceData {
          return Fail(InvalidArg);
        }
        var entry := resourceData[value.resName];
        if entry.resource.None? {
          return Fail(NullDereference);
        }
        log := log + [BindRootView(isCompute, RootViewKindOf(resources[entry.resource.value].transitionTo), slot, value.resName)];
      } else if value.heapName.Some? {
        if value.heapName !in heapsByName {
          return Fail(NullDereference);
        }
        log := log + [BindRootTable(isCompute, slot, heapsByName[value.heapName])];
      }
      outcome := Pass;
    }

    /**
     * The render-target loop of RunCommandList: each target's handle goes
     * into the next of eight slots, and its resource moves to RENDER_TARGET.
     */
    method BindRenderTargets() returns (outcome: Outcome, handles: seq<Handle>)
      requires Valid()
      modifies this`resourceData, this`log
      ensures Valid()
      ensures Bound(outcome, handles, resourceData, log) ==
        TargetsFrom(op.renderTargets, 0, descriptorData, Bound(Pass, [], old(resourceData), old(log)))
    {
      var targets := op.renderTargets;
      ghost var run := TargetsFrom(targets, 0, descriptorData, Bound(Pass, [], resourceData, log));
      handles := [];
      outcome := Pass;
      var i := 0;
      while i < |targets|
        invariant i <= |targets| && Valid() && outcome == Pass
        invariant TargetsFrom(targets, i, descriptorData, Bound(Pass, handles, resourceData, log)) == run
      {
        outcome, handles := BindTarget(i, handles);
        if outcome.Fail? {
          break;
        }
        i := i + 1;
      }
    }

    /** Render target i of the render-target loop, after the handles of the targets before it. */
    method BindTarget(i: nat, handles: seq<Handle>) returns (outcome: Outcome, handles': seq<Handle>)
      requires Valid() && i < |op.renderTargets|
      modifies this`resourceData, this`log
      ensures Valid()
      ensures Bound(outcome, handles', resourceData, log) ==
        TargetStep(Bound(Pass, handles, old(resourceData), old(log)), i, op.renderTargets[i], descriptorData)
    {
      TargetStepSame(Bound(Pass, handles, resourceData, log), i, op.renderTargets[i], descriptorData);
      IndexedSame(resources, resourceData, TargetStep(Bound(Pass, handles, resourceData, log), i, op.renderTargets[i], descriptorData).data);
      handles' := handles;
      if i >= RenderTargetSlots {
        return Fail(OutOfBoundsWrite), handles';
      }
      var rt := Some(op.renderTargets[i]);
      if rt !in descriptorData {
        return Fail(NullDereference), handles';
      }
      var key := descriptorData[rt].key;
      var entry := resourceData[key];
      handles' := handles + [descriptorData[rt].handle];
      log := log + [Barrier(key, entry.state, RESOURCE_STATE_RENDER_TARGET)];
      resourceData := resourceData[key := entry.(state := RESOURCE_STATE_RENDER_TARGET)];
      outcome := Pass;
    }

    /**
     * The graphics part of RunCommandList after the root values, from the
     * viewport to the draw.
     */
    method RecordGraphics() returns (outcome: Outcome)
      requires Valid()
      modifies this`resourceData, this`log
      ensures Valid()
      ensures Recorded(outcome, resourceData, log) ==
        GraphicsCalls(resources, old(resourceData), descriptorData, op.renderTargets, op.inputElements, old(log))
    {
      var targets := op.renderTargets;
      var viewport: seq<Command> := [];
      if targets != [] {
        var r := ResourceByName(resources, Some(targets[0]));
        if r.None? {
          return Fail(NullDereference);
        }
        viewport := [SetViewport(resources[r.value].desc.width, resources[r.value].desc.height)];
      }
      log := log + viewport;
      var handles;
      outcome, handles := BindRenderTargets();
      if outcome.Fail? {
        return;
      }
      // With no render targets the source clears rtvHandles[0], an
      // uninitialised handle; the model records that clear with None.
      var first := if handles == [] then None else Some(handles[0]);
      log := log + [SetRenderTargets(handles), ClearRenderTarget(first)];
      outcome := DrawVertices();
    }

    /**
     * The vertex buffer and the draw: VBuffer's entry (made when missing),
     * the stride, the buffer's size and the vertex count.
     */
    method DrawVertices() returns (outcome: Outcome)
      requires Valid()
      modifies this`resourceData, this`log
      ensures Valid()
      ensures Recorded(outcome, resourceData, log) == VertexDraw(resources, old(resourceData), old(log), op.inputElements)
    {
      LookUpEntry(Some(VertexBufferName));
      var stride := VertexStrideOf(op.inputElements);
      if stride.Err? {
        return Fail(stride.error);
      }
      var entry := resourceData[Some(VertexBufferName)];
      if entry.resource.None? {
        return Fail(NullDereference);
      }
      var width := resources[entry.resource.value].desc.width;
      if stride.value == 0 {
        return Fail(DivideByZero);
      }
      var count := VertexCount(width, stride.value).value;
      log := log + [SetVertexBuffer(stride.value, width % UINT_LIMIT), Draw(count, 1)];
      outcome := Pass;
    }

    /**
     * RunCommandList: the shader-visible heaps and the root values, then a
     * dispatch for a compute op or the graphics calls; the list is
     * submitted and waited for with the next fence value.
     */
    method RunCommandList() returns (outcome: Outcome)
      requires Valid() && hasDevice
      modifies this`resourceData, this`log, this`fenceValue, this`signals
      ensures Valid() && hasDevice
      ensures var roots := RootBindings(isCompute, op.rootValues, |op.rootValues|, resources, old(resourceData), heapsByName);
        roots.Err? ==> outcome == Fail(roots.error)
      ensures var roots := RootBindings(isCompute, op.rootValues, |op.rootValues|, resources, old(resourceData), heapsByName);
        roots.Ok? && isCompute ==>
          outcome == Pass && resourceData == old(resourceData) &&
          log == old(log) + HeapBinding(heaps, heapDescs) + roots.value +
                 [Dispatch(op.dispatchX, op.dispatchY, op.dispatchZ), Submit(old(fenceValue))]
      ensures var roots := RootBindings(isCompute, op.rootValues, |op.rootValues|, resources, old(resourceData), heapsByName);
        roots.Ok? && !isCompute ==>
          var g := GraphicsCalls(resources, old(resourceData), descriptorData, op.renderTargets, op.inputElements,
                                 old(log) + HeapBinding(heaps, heapDescs) + roots.value);
          outcome == g.outcome && resourceData == g.data &&
          log == if outcome.Pass? then g.calls + [Submit(old(fenceValue))] else g.calls
      ensures outcome.Pass? ==> fenceValue == old(fenceValue) + 1 && signals == old(signals) + [old(fenceValue)]
      ensures outcome.Fail? ==> fenceValue == old(fenceValue) && signals == old(signals)
    {
      SetDescriptorHeaps();
      outcome := SetRootValues();
      if outcome.Fail? {
        return;
      }
      if isCompute {
        log := log + [Dispatch(op.dispatchX, op.dispatchY, op.dispatchZ)];
      } else {
        outcome := RecordGraphics();
        if outcome.Fail? {
          return;
        }
      }
      SubmitAndWait();
    }

    /**
     * CopyBackResources: every read-back resource moves to COPY_SOURCE and
     * is copied into its readback buffer, on one command list that is then
     * submitted and waited for.
     */
    method CopyBackResources() returns (outcome: Outcome)
      requires Valid() && hasDevice
      modifies this`resourceData, this`log, this`fenceValue, this`signals
      ensures Valid() && hasDevice
      ensures var u := CopiesFrom(resources, 0, Recorded(Pass, old(resourceData), old(log)));
        outcome == u.outcome && resourceData == u.data &&
        log == if outcome.Pass? then u.calls + [Submit(old(fenceValue))] else u.calls
      ensures outcome.Pass? ==> forall j :: 0 <= j < |resources| ==> CopiedBack(resources, resourceData, j)
      ensures outcome.Pass? ==> fenceValue == old(fenceValue) + 1 && signals == old(signals) + [old(fenceValue)]
      ensures outcome.Fail? ==> fenceValue == old(fenceValue) && signals == old(signals)
    {
      ghost var rec0 := Recorded(Pass, resourceData, log);
      ghost var run := CopiesFrom(resources, 0, rec0);
      var i := 0;
      outcome := Pass;
      while i < |resources|
        invariant i <= |resources| && Valid() && fenceValue == old(fenceValue) && signals == old(signals) && outcome == Pass
        invariant CopiesFrom(resources, i, Recorded(Pass, resourceData, log)) == run
      {
        outcome := CopyBack(i);
        if outcome.Fail? {
          return;
        }
        i := i + 1;
      }
      CopiesFromSource(resources, 0, rec0);
      SubmitAndWait();
    }

    /** Resource i of CopyBackResources. */
    method CopyBack(i: nat) returns (outcome: Outcome)
      requires Valid() && i < |resources|
      modifies this`resourceData, this`log
      ensures Valid()
      ensures Recorded(outcome, resourceData, log) == CopyStep(resources, Recorded(Pass, old(resourceData), old(log)), i)
    {
      CopyStepKeeps(resources, Recorded(Pass, resourceData, log), i);
      var r := resources[i];
      if !r.readBack {
        return Pass;
      }
      LookUpEntry(r.name);
      var entry := resourceData[r.name];
      log := log + [Barrier(r.name, entry.state, RESOURCE_STATE_COPY_SOURCE)];
      resourceData := resourceData[r.name := entry.(state := RESOURCE_STATE_COPY_SOURCE)];
      if entry.resource.None? {
        return Fail(NullDereference);
      }
      log := log + [CopyCall(r.name, resources[entry.resource.value].desc)];
      outcome := Pass;
    }

    /**
     * RunShaderOp: device, resources, heaps, the command list and the
     * copy-back, in that order.  When all pass, the fence has signalled 1, 2
     * and 3, every heap has been created, and every read-back resource is
     * in COPY_SOURCE.
     */
    method RunShaderOp(callback: InitCallback, sizes: seq<nat>) returns (outcome: Outcome)
      requires Valid() && |sizes| == |heapDescs|
      modifies this
      ensures Valid()
      ensures outcome.Pass? ==> hasDevice && signals == [1, 2, 3] && fenceValue == 4
      ensures outcome.Pass? ==> heaps == old(heaps) + Positions(|old(heapDescs)|)
      ensures outcome.Pass? ==> forall j :: 0 <= j < |resources| ==> CopiedBack(resources, resourceData, j)
      ensures outcome.Pass? ==>
        resources == ResourcesFrom(Created(Pass, old(resources), old(resourceData), old(log) + [CreateFence]), 0, callback).resources
    {
      CreateDevice();
      outcome := CreateResources(callback);
      if outcome.Fail? {
        return;
      }
      outcome := RunAfterResources(sizes);
    }

    /** The phases of RunShaderOp after CreateResources: heaps, the command list and the copy-back. */
    method RunAfterResources(sizes: seq<nat>) returns (outcome: Outcome)
      requires Valid() && hasDevice && |sizes| == |heapDescs| && fenceValue == 2 && signals == [1]
      modifies this
      ensures Valid() && resources == old(resources)
      ensures outcome.Pass? ==> hasDevice && signals == [1, 2, 3] && fenceValue == 4
      ensures outcome.Pass? ==> heaps == old(heaps) + Positions(|old(heapDescs)|)
      ensures outcome.Pass? ==> forall j :: 0 <= j < |resources| ==> CopiedBack(resources, resourceData, j)
    {
      outcome := CreateDescriptorHeaps(sizes);
      if outcome.Fail? {
        return;
      }
      outcome := RunCommandList();
      if outcome.Fail? {
        return;
      }
      assert fenceValue == 3;
      outcome := CopyBackResources();
      if outcome.Pass? {
        ThreeSignals();
      }
    }
  }

  /** The stride loop of RunCommandList: the input elements' format sizes, summed as a UINT. */
  method VertexStrideOf(elements: seq<InputElement>) returns (r: Result<nat>)
    ensures r == VertexStride(elements)
  {
    var stride := 0;
    var i := 0;
    while i < |elements|
      invariant i <= |elements|
      invariant forall j :: 0 <= j < i ==> GetByteSizeForFormat(elements[j].format).Ok?
      invariant forall j :: 0 <= j < |elements[..i]| ==> GetByteSizeForFormat(elements[..i][j].format).Ok?
      invariant stride == StrideSum(elements[..i]) % UINT_LIMIT
    {
      var size := GetByteSizeForFormat(elements[i].format);
      if size.Err? {
        return Err(size.error);
      }
      assert elements[..i + 1] == elements[..i] + [elements[i]];
      StrideSumSnoc(elements[..i], elements[i]);
      AddMod(size.value, StrideSum(elements[..i]));
      stride := (stride + size.value) % UINT_LIMIT;
      i := i + 1;
    }
    assert elements[..i] == elements;
    VertexStrideSum(elements);
    return Ok(stride);
  }
}
