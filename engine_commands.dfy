/**
 * What ShaderOpTest records on its command lists once the heaps exist: the
 * heaps it binds, the root values, the viewport, render targets and draw
 * of a graphics op, and the copies into the readback buffers.
 */
module CommandSteps {
  import opened Wrappers
  import opened D3D12
  import opened ShaderOpData
  import opened EngineRules
  import opened ResourceSteps

  /** The number of slots of the render-target handle array of RunCommandList. */
  const RenderTargetSlots: nat := 8

  /** The resource name RunCommandList takes the vertex buffer from. */
  const VertexBufferName: string := "VBuffer"

  /** The flags of each created heap, by position. */
  function HeapFlags(heaps: seq<nat>, descs: seq<DescriptorHeap>): (f: seq<nat>)
    requires PositionsBelow(heaps, |descs|)
    ensures |f| == |heaps| && forall i :: 0 <= i < |heaps| ==> f[i] == descs[heaps[i]].flags
  {
    seq(|heaps|, i requires 0 <= i < |heaps| => descs[heaps[i]].flags)
  }

  /** SetDescriptorHeaps: one call with the shader-visible heaps, in order, when there are any. */
  function HeapBinding(heaps: seq<nat>, descs: seq<DescriptorHeap>): (c: seq<Command>)
    requires PositionsBelow(heaps, |descs|)
    ensures |c| <= 1 && (c != [] ==> c[0].SetHeaps?)
  {
    var visible := VisibleHeaps(Positions(|heaps|), HeapFlags(heaps, descs));
    if visible == [] then [] else [SetHeaps(visible)]
  }

  /** A heap is bound exactly when it is shader visible, and nothing is bound when none is. */
  lemma HeapBindingVisible(heaps: seq<nat>, descs: seq<DescriptorHeap>)
    requires PositionsBelow(heaps, |descs|)
    ensures HeapBinding(heaps, descs) == [] <==> forall p :: 0 <= p < |heaps| ==> !ShaderVisible(descs[heaps[p]].flags)
    ensures HeapBinding(heaps, descs) != [] ==>
      forall p: nat :: p in HeapBinding(heaps, descs)[0].heaps <==> 0 <= p < |heaps| && ShaderVisible(descs[heaps[p]].flags)
  {
    var positions, flags := Positions(|heaps|), HeapFlags(heaps, descs);
    var visible := VisibleHeaps(positions, flags);
    if visible == [] {
      forall p | 0 <= p < |heaps|
        ensures !ShaderVisible(descs[heaps[p]].flags)
      {
        assert positions[p] == p && flags[p] == descs[heaps[p]].flags;
      }
    } else {
      assert visible[0] in positions && ShaderVisible(flags[visible[0]]);
      forall p: nat
        ensures p in visible <==> 0 <= p < |heaps| && ShaderVisible(descs[heaps[p]].flags)
      {
        if p in visible {
          var i :| 0 <= i < |visible| && visible[i] == p;
          assert visible[i] in positions;
        }
        if 0 <= p < |heaps| && ShaderVisible(descs[heaps[p]].flags) {
          assert ShaderVisible(flags[positions[p]]);
        }
      }
    }
  }

  /**
   * Root value i of SetRootValues: a resource is bound as the root view its
   * TransitionTo selects, a heap as a descriptor table, at the value's
   * Index or, for Index 0, at i; a value with neither is skipped.  A
   * resource without an entry is E_INVALIDARG; an entry no resource was
   * created for, and a heap name that was never created, are dereferenced
   * as null.
   */
  function RootBinding(compute: bool, i: nat, value: RootValue, resources: seq<Resource>,
                       data: map<Option<string>, ResourceData>, byName: map<Option<string>, nat>): (r: Result<seq<Command>>)
    requires Indexed(resources, data)
    ensures r.Ok? ==> |r.value| <= 1
    ensures r.Ok? && r.value != [] ==>
      (r.value[0].BindRootView? || r.value[0].BindRootTable?) &&
      r.value[0].compute == compute && r.value[0].slot == RootSlot(value.index, i)
    ensures value.resName.Some? ==>
      (r.Ok? <==> value.resName in data && data[value.resName].resource.Some?) &&
      (value.resName !in data ==> r == Err(InvalidArg))
    ensures value.resName.Some? && r.Ok? ==>
      |r.value| == 1 && r.value[0].BindRootView? && r.value[0].key == value.resName &&
      r.value[0].rootView == RootViewKindOf(resources[data[value.resName].resource.value].transitionTo)
    ensures value.resName.None? && value.heapName.Some? ==>
      (r.Ok? <==> value.heapName in byName) &&
      (r.Ok? ==> r.value == [BindRootTable(compute, RootSlot(value.index, i), byName[value.heapName])])
    ensures value.resName.None? && value.heapName.None? ==> r == Ok([])
    ensures r.Err? ==> r.error == InvalidArg || r.error == NullDereference
  {
    var slot := RootSlot(value.index, i);
    if value.resName.Some? then
      if value.resName !in data then Err(InvalidArg)
      else
        var entry := data[value.resName];
        if entry.resource.None? then Err(NullDereference)
        else Ok([BindRootView(compute, RootViewKindOf(resources[entry.resource.value].transitionTo), slot, value.resName)])
    else if value.heapName.Some? then
      if value.heapName !in byName then Err(NullDereference)
      else Ok([BindRootTable(compute, slot, byName[value.heapName])])
    else Ok([])
  }

  /** SetRootValues over the first k root values: their bindings in order, or the first failure. */
  function RootBindings(compute: bool, values: seq<RootValue>, k: nat, resources: seq<Resource>,
                        data: map<Option<string>, ResourceData>, byName: map<Option<string>, nat>): (r: Result<seq<Command>>)
    requires k <= |values| && Indexed(resources, data)
  {
    if k == 0 then Ok([])
    else
      var prev :- RootBindings(compute, values, k - 1, resources, data, byName);
      var c :- RootBinding(compute, k - 1, values[k - 1], resources, data, byName);
      Ok(prev + c)
  }

  /**
   * The root values bind exactly when each of them binds, with at most one
   * call each; a failure is the failure of one of them.
   */
  lemma {:induction false} RootBindingsFacts(compute: bool, values: seq<RootValue>, k: nat, resources: seq<Resource>,
                                             data: map<Option<string>, ResourceData>, byName: map<Option<string>, nat>)
    requires k <= |values| && Indexed(resources, data)
    ensures var r := RootBindings(compute, values, k, resources, data, byName);
      (r.Ok? <==> forall i :: 0 <= i < k ==> RootBinding(compute, i, values[i], resources, data, byName).Ok?) &&
      (r.Ok? ==> |r.value| <= k) &&
      (r.Err? ==> exists i :: 0 <= i < k && RootBinding(compute, i, values[i], resources, data, byName) == Err(r.error))
  {
    if k > 0 {
      RootBindingsFacts(compute, values, k - 1, resources, data, byName);
    }
  }

  /** Once a root value fails, the later ones are not bound. */
  lemma {:induction false} RootBindingsFailureSticks(compute: bool, values: seq<RootValue>, j: nat, k: nat, resources: seq<Resource>,
                                                     data: map<Option<string>, ResourceData>, byName: map<Option<string>, nat>)
    requires j <= k <= |values| && Indexed(resources, data)
    requires RootBindings(compute, values, j, resources, data, byName).Err?
    ensures RootBindings(compute, values, k, resources, data, byName) == RootBindings(compute, values, j, resources, data, byName)
    decreases k
  {
    if j < k {
      RootBindingsFailureSticks(compute, values, j, k - 1, resources, data, byName);
    }
  }

  /** What a run of calls leaves: failure or not, and the calls recorded so far. */
  datatype Listed = Listed(outcome: Outcome, log: seq<Command>)

  /** SetRootValues from root value k on, after state s; the first failure ends it. */
  function RootsFrom(compute: bool, values: seq<RootValue>, k: nat, resources: seq<Resource>,
                     data: map<Option<string>, ResourceData>, byName: map<Option<string>, nat>, s: Listed): (u: Listed)
    requires k <= |values| && Indexed(resources, data)
    decreases |values| - k
  {
    if k == |values| || s.outcome.Fail? then s
    else
      match RootBinding(compute, k, values[k], resources, data, byName)
      case Err(e) => Listed(Fail(e), s.log)
      case Ok(c) => RootsFrom(compute, values, k + 1, resources, data, byName, Listed(Pass, s.log + c))
  }

  /** The state after the first k root values, as RootBindings gives them, when they all passed. */
  function RootsAt(log: seq<Command>, r: Result<seq<Command>>): (s: Listed)
  {
    match r
    case Ok(bound) => Listed(Pass, log + bound)
    case Err(e) => Listed(Fail(e), log)
  }

  /**
   * Binding the root values from the k-th on, after the first k, gives what
   * RootBindings gives for all of them: a failure with its error, or the
   * bindings in order.
   */
  lemma {:induction false} RootsFromBindings(compute: bool, values: seq<RootValue>, k: nat, resources: seq<Resource>,
                                             data: map<Option<string>, ResourceData>, byName: map<Option<string>, nat>, log: seq<Command>)
    requires k <= |values| && Indexed(resources, data)
    requires RootBindings(compute, values, k, resources, data, byName).Ok?
    ensures var u := RootsFrom(compute, values, k, resources, data, byName, RootsAt(log, RootBindings(compute, values, k, resources, data, byName)));
      var r := RootBindings(compute, values, |values|, resources, data, byName);
      u.outcome == RootsAt(log, r).outcome && (r.Ok? ==> u.log == RootsAt(log, r).log)
    decreases |values| - k
  {
    if k < |values| {
      var r := RootBindings(compute, values, k + 1, resources, data, byName);
      RootsNext(compute, values, k, resources, data, byName, log);
      if r.Err? {
        RootBindingsFailureSticks(compute, values, k + 1, |values|, resources, data, byName);
      } else {
        RootsFromBindings(compute, values, k + 1, resources, data, byName, log);
      }
    }
  }

  /** One more root value: binding it from the state after k values gives the state after k + 1 and the rest. */
  lemma RootsNext(compute: bool, values: seq<RootValue>, k: nat, resources: seq<Resource>,
                  data: map<Option<string>, ResourceData>, byName: map<Option<string>, nat>, log: seq<Command>)
    requires k < |values| && Indexed(resources, data)
    requires RootBindings(compute, values, k, resources, data, byName).Ok?
    ensures var r := RootBindings(compute, values, k + 1, resources, data, byName);
      var u := RootsFrom(compute, values, k, resources, data, byName, RootsAt(log, RootBindings(compute, values, k, resources, data, byName)));
      if r.Ok? then u == RootsFrom(compute, values, k + 1, resources, data, byName, RootsAt(log, r))
      else u.outcome == RootsAt(log, r).outcome
  {
    var bound := RootBindings(compute, values, k, resources, data, byName).value;
    var c := RootBinding(compute, k, values[k], resources, data, byName);
    if c.Ok? {
      assert (log + bound) + c.value == log + (bound + c.value);
    }
  }

  /** The viewport and scissor rectangle, from the description of the resource the first render target names. */
  function Viewport(resources: seq<Resource>, targets: seq<string>): (r: Result<seq<Command>>)
    ensures targets == [] ==> r == Ok([])
    ensures targets != [] ==> (r.Ok? <==> ResourceByName(resources, Some(targets[0])).Some?)
    ensures r.Err? ==> r.error == NullDereference
    ensures r.Ok? ==> |r.value| <= 1
  {
    if targets == [] then Ok([])
    else match ResourceByName(resources, Some(targets[0]))
      case None => Err(NullDereference)
      case Some(j) => Ok([SetViewport(resources[j].desc.width, resources[j].desc.height)])
  }

  /** Two resource-data maps with the same names, made from the same resources, with the same readback buffers. */
  predicate SameEntries(d1: map<Option<string>, ResourceData>, d2: map<Option<string>, ResourceData>)
  {
    d1.Keys == d2.Keys &&
    forall k :: k in d1 ==> d2[k].resource == d1[k].resource && d2[k].readBack == d1[k].readBack
  }

  /** The resource the descriptor of target names is in RENDER_TARGET. */
  predicate InRenderState(data: map<Option<string>, ResourceData>, descData: map<Option<string>, DescriptorData>, target: string)
  {
    Some(target) in descData && descData[Some(target)].key in data &&
    data[descData[Some(target)].key].state == RESOURCE_STATE_RENDER_TARGET
  }


  /** The render-target loop so far: failure or not, the handles in their slots, the resource entries, the calls. */
  datatype Bound = Bound(outcome: Outcome, handles: seq<Handle>, data: map<Option<string>, ResourceData>, log: seq<Command>)

  /**
   * Render target i of RunCommandList.  A ninth target writes past the
   * eight-slot handle array; a target without descriptor data reaches its
   * resource through a null pointer; otherwise its handle goes into slot i
   * and its resource moves from its tracked state to RENDER_TARGET, with a
   * barrier.
   */
  function TargetStep(b: Bound, i: nat, target: string, descData: map<Option<string>, DescriptorData>): (u: Bound)
    requires Resolved(descData, b.data)
  {
    if i >= RenderTargetSlots then b.(outcome := Fail(OutOfBoundsWrite))
    else if Some(target) !in descData then b.(outcome := Fail(NullDereference))
    else
      var key := descData[Some(target)].key;
      var entry := b.data[key];
      Bound(Pass, b.handles + [descData[Some(target)].handle],
            b.data[key := entry.(state := RESOURCE_STATE_RENDER_TARGET)],
            b.log + [Barrier(key, entry.state, RESOURCE_STATE_RENDER_TARGET)])
  }

  /** The render-target loop from target k on, after state b; the first failure ends it. */
  function TargetsFrom(targets: seq<string>, k: nat, descData: map<Option<string>, DescriptorData>, b: Bound): (u: Bound)
    requires k <= |targets| && Resolved(descData, b.data)
    decreases |targets| - k
  {
    if k == |targets| || b.outcome.Fail? then b
    else
      TargetStepSame(b, k, targets[k], descData);
      TargetsFrom(targets, k + 1, descData, TargetStep(b, k, targets[k], descData))
  }

  /** A render target changes only the state of an existing entry. */
  lemma TargetStepSame(b: Bound, i: nat, target: string, descData: map<Option<string>, DescriptorData>)
    requires Resolved(descData, b.data)
    ensures SameEntries(b.data, TargetStep(b, i, target, descData).data)
    ensures Resolved(descData, TargetStep(b, i, target, descData).data)
  {
  }

  /** The render-target loop changes only the states of existing entries. */
  lemma {:induction false} TargetsFromSame(targets: seq<string>, k: nat, descData: map<Option<string>, DescriptorData>, b: Bound)
    requires k <= |targets| && Resolved(descData, b.data)
    ensures SameEntries(b.data, TargetsFrom(targets, k, descData, b).data)
    decreases |targets| - k
  {
    if k < |targets| && b.outcome.Pass? {
      TargetStepSame(b, k, targets[k], descData);
      TargetsFromSame(targets, k + 1, descData, TargetStep(b, k, targets[k], descData));
    }
  }

  /** The first k targets have their handles in their slots and their resources in RENDER_TARGET. */
  predicate TargetsSoFar(targets: seq<string>, k: nat, descData: map<Option<string>, DescriptorData>, b: Bound)
    requires k <= |targets|
  {
    |b.handles| == k &&
    forall j :: 0 <= j < k ==>
      Some(targets[j]) in descData && b.handles[j] == descData[Some(targets[j])].handle &&
      InRenderState(b.data, descData, targets[j])
  }

  /** A target that passes adds its handle and keeps the earlier targets in RENDER_TARGET. */
  lemma TargetStepKeeps(targets: seq<string>, k: nat, descData: map<Option<string>, DescriptorData>, b: Bound)
    requires k < |targets| && Resolved(descData, b.data) && TargetsSoFar(targets, k, descData, b)
    requires TargetStep(b, k, targets[k], descData).outcome.Pass?
    ensures TargetsSoFar(targets, k + 1, descData, TargetStep(b, k, targets[k], descData))
  {
  }

  /**
   * The render-target loop passes exactly when there are at most eight
   * targets and each has descriptor data; a failure is a write past the
   * array or a null dereference.
   */
  lemma {:induction false} TargetsFromPass(targets: seq<string>, k: nat, descData: map<Option<string>, DescriptorData>, b: Bound)
    requires k <= |targets| && k <= RenderTargetSlots && Resolved(descData, b.data) && b.outcome.Pass?
    ensures var u := TargetsFrom(targets, k, descData, b);
      (u.outcome.Pass? <==> |targets| <= RenderTargetSlots && forall j :: k <= j < |targets| ==> Some(targets[j]) in descData) &&
      (u.outcome.Fail? ==> u.outcome.error == OutOfBoundsWrite || u.outcome.error == NullDereference)
    decreases |targets| - k
  {
    if k < |targets| {
      var c := TargetStep(b, k, targets[k], descData);
      TargetStepSame(b, k, targets[k], descData);
      assert TargetsFrom(targets, k, descData, b) == TargetsFrom(targets, k + 1, descData, c);
      if k >= RenderTargetSlots {
        assert TargetsFrom(targets, k + 1, descData, c) == c;
      } else if Some(targets[k]) !in descData {
        assert TargetsFrom(targets, k + 1, descData, c) == c;
      } else {
        TargetsFromPass(targets, k + 1, descData, c);
      }
    }
  }

  /** When the render-target loop passes, every target's handle is in its slot and its resource in RENDER_TARGET. */
  lemma {:induction false} TargetsFromSoFar(targets: seq<string>, k: nat, descData: map<Option<string>, DescriptorData>, b: Bound)
    requires k <= |targets| && Resolved(descData, b.data) && b.outcome.Pass? && TargetsSoFar(targets, k, descData, b)
    ensures var u := TargetsFrom(targets, k, descData, b);
      u.outcome.Pass? ==> TargetsSoFar(targets, |targets|, descData, u)
    decreases |targets| - k
  {
    if k < |targets| {
      var c := TargetStep(b, k, targets[k], descData);
      TargetStepSame(b, k, targets[k], descData);
      if c.outcome.Pass? {
        TargetStepKeeps(targets, k, descData, b);
        TargetsFromSoFar(targets, k + 1, descData, c);
      }
    }
  }

  /** When the render-target loop passes, it has recorded one barrier per target after the calls before it. */
  lemma {:induction false} TargetsFromLog(targets: seq<string>, k: nat, descData: map<Option<string>, DescriptorData>, b: Bound)
    requires k <= |targets| && Resolved(descData, b.data) && b.outcome.Pass?
    ensures var u := TargetsFrom(targets, k, descData, b);
      u.outcome.Pass? ==> b.log <= u.log && |u.log| + k == |b.log| + |targets|
    decreases |targets| - k
  {
    if k < |targets| {
      var c := TargetStep(b, k, targets[k], descData);
      TargetStepSame(b, k, targets[k], descData);
      if c.outcome.Pass? {
        TargetsFromLog(targets, k + 1, descData, c);
      }
    }
  }

  /** Resources kept with the same names and origins still point at resources of their names. */
  lemma IndexedSame(resources: seq<Resource>, d1: map<Option<string>, ResourceData>, d2: map<Option<string>, ResourceData>)
    requires Indexed(resources, d1) && SameEntries(d1, d2)
    ensures Indexed(resources, d2)
  {
  }

  /**
   * The vertex buffer and the draw: the stride is the sum of the input
   * elements' sizes, the buffer's size its Width cut to 32 bits, and one
   * instance of as many vertices as whole strides fit in it.  An input
   * element without a size is E_INVALIDARG, a VBuffer entry no resource was
   * created for a null dereference, and a stride of 0 a division by zero.
   */
  function DrawCalls(resources: seq<Resource>, data: map<Option<string>, ResourceData>, elements: seq<InputElement>): (r: Result<seq<Command>>)
    requires Indexed(resources, data)
    ensures VertexStride(elements).Err? ==> r == Err(InvalidArg)
    ensures r.Ok? <==>
      VertexStride(elements).Ok? && VertexStride(elements).value != 0 &&
      Some(VertexBufferName) in data && data[Some(VertexBufferName)].resource.Some?
    ensures r.Ok? ==>
      var stride := VertexStride(elements).value;
      var size := resources[data[Some(VertexBufferName)].resource.value].desc.width % UINT_LIMIT;
      |r.value| == 2 && r.value[0] == SetVertexBuffer(stride, size) &&
      r.value[1].Draw? && r.value[1].instanceCount == 1 &&
      r.value[1].vertexCount * stride <= size < (r.value[1].vertexCount + 1) * stride
  {
    var stride :- VertexStride(elements);
    var entry := WithEntry(data, Some(VertexBufferName))[Some(VertexBufferName)];
    if entry.resource.None? then Err(NullDereference)
    else
      var width := resources[entry.resource.value].desc.width;
      var count :- VertexCount(width, stride);
      Ok([SetVertexBuffer(stride, width % UINT_LIMIT), Draw(count, 1)])
  }

  /** What a part of a command list leaves: failure or not, the resource entries, the calls. */
  datatype Recorded = Recorded(outcome: Outcome, data: map<Option<string>, ResourceData>, calls: seq<Command>)

  /**
   * The graphics part of RunCommandList after the root values, recorded
   * after log: viewport, render targets and their barriers, the clear of
   * the first target (of an unset handle when there is none), the vertex
   * buffer and the draw.
   */
  function GraphicsCalls(resources: seq<Resource>, data: map<Option<string>, ResourceData>,
                         descData: map<Option<string>, DescriptorData>, targets: seq<string>,
                         elements: seq<InputElement>, log: seq<Command>): (g: Recorded)
    requires Indexed(resources, data) && Resolved(descData, data)
  {
    var viewport := Viewport(resources, targets);
    if viewport.Err? then Recorded(Fail(viewport.error), data, log)
    else
      var b := TargetsFrom(targets, 0, descData, Bound(Pass, [], data, log + viewport.value));
      if b.outcome.Fail? then Recorded(b.outcome, b.data, b.log)
      else
        TargetsFromSame(targets, 0, descData, Bound(Pass, [], data, log + viewport.value));
        IndexedSame(resources, data, b.data);
        var first := if b.handles == [] then None else Some(b.handles[0]);
        VertexDraw(resources, b.data, b.log + [SetRenderTargets(b.handles), ClearRenderTarget(first)], elements)
  }

  /** The calls after the render targets, recorded after bound: VBuffer's entry (made when missing), the vertex buffer and the draw. */
  function VertexDraw(resources: seq<Resource>, data: map<Option<string>, ResourceData>, bound: seq<Command>,
                      elements: seq<InputElement>): (g: Recorded)
    requires Indexed(resources, data)
    ensures g.data == WithEntry(data, Some(VertexBufferName))
    ensures g.outcome.Pass? <==> DrawCalls(resources, g.data, elements).Ok?
    ensures g.calls == if g.outcome.Pass? then bound + DrawCalls(resources, g.data, elements).value else bound
  {
    var vdata := WithEntry(data, Some(VertexBufferName));
    match DrawCalls(resources, vdata, elements)
    case Err(e) => Recorded(Fail(e), vdata, bound)
    case Ok(draw) => Recorded(Pass, vdata, bound + draw)
  }

  /**
   * The graphics calls pass only with at most eight render targets; then
   * they extend log, end with the draw after the vertex buffer, set the
   * targets' handles in order and then clear, and leave every target's
   * resource in RENDER_TARGET.
   */
  lemma GraphicsCallsFacts(resources: seq<Resource>, data: map<Option<string>, ResourceData>,
                           descData: map<Option<string>, DescriptorData>, targets: seq<string>,
                           elements: seq<InputElement>, log: seq<Command>)
    requires Indexed(resources, data) && Resolved(descData, data)
    ensures var g := GraphicsCalls(resources, data, descData, targets, elements, log);
      (|targets| > RenderTargetSlots ==> g.outcome.Fail?) &&
      (g.outcome.Pass? ==>
         log <= g.calls && |g.calls| >= |log| + |targets| + 4 &&
         g.calls[|g.calls| - 1].Draw? && g.calls[|g.calls| - 2].SetVertexBuffer? &&
         g.calls[|g.calls| - 4] == SetRenderTargets(g.calls[|g.calls| - 4].handles) &&
         g.calls[|g.calls| - 3].ClearRenderTarget? &&
         |g.calls[|g.calls| - 4].handles| == |targets| &&
         (forall j :: 0 <= j < |targets| ==>
            Some(targets[j]) in descData && g.calls[|g.calls| - 4].handles[j] == descData[Some(targets[j])].handle) &&
         (forall j :: 0 <= j < |targets| ==> InRenderState(g.data, descData, targets[j])))
  {
    var viewport := Viewport(resources, targets);
    if viewport.Ok? {
      var b0 := Bound(Pass, [], data, log + viewport.value);
      TargetsFromPass(targets, 0, descData, b0);
      TargetsFromSoFar(targets, 0, descData, b0);
      TargetsFromLog(targets, 0, descData, b0);
    }
  }

  /** Entries kept under every old name, made from the same resource and with the same readback buffer. */
  predicate Extends(d1: map<Option<string>, ResourceData>, d2: map<Option<string>, ResourceData>)
  {
    forall k :: k in d1 ==> k in d2 && d2[k].resource == d1[k].resource && d2[k].readBack == d1[k].readBack
  }

  /** The copy of one read-back resource: a buffer whole, a texture row by row. */
  function CopyCall(key: Option<string>, desc: ResourceDesc): (c: Command)
    ensures c.CopyBuffer? <==> desc.dimension == RESOURCE_DIMENSION_BUFFER
    ensures c.CopyTexture? ==> c.width == desc.width % UINT_LIMIT && c.height == desc.height && c.rowPitch == RowPitch(desc.width)
    ensures (c.CopyBuffer? || c.CopyTexture?) && c.key == key
  {
    if desc.dimension == RESOURCE_DIMENSION_BUFFER then CopyBuffer(key)
    else CopyTexture(key, desc.width % UINT_LIMIT, desc.height, RowPitch(desc.width))
  }

  /**
   * Resource i of CopyBackResources: skipped unless it is read back;
   * otherwise its entry (made when missing) moves to COPY_SOURCE and its
   * contents are copied, a buffer whole and a texture through a footprint
   * of 32-bit texels with the aligned row pitch.  The description is that
   * of the resource the entry was made from; an entry made from none is
   * dereferenced as null.
   */
  function CopyStep(resources: seq<Resource>, rec: Recorded, i: nat): (u: Recorded)
    requires i < |resources| && Indexed(resources, rec.data)
  {
    var r := resources[i];
    if !r.readBack then rec
    else
      var entry := WithEntry(rec.data, r.name)[r.name];
      var data := rec.data[r.name := entry.(state := RESOURCE_STATE_COPY_SOURCE)];
      var calls := rec.calls + [Barrier(r.name, entry.state, RESOURCE_STATE_COPY_SOURCE)];
      if entry.resource.None? then Recorded(Fail(NullDereference), data, calls)
      else
        Recorded(Pass, data, calls + [CopyCall(r.name, resources[entry.resource.value].desc)])
  }

  /** A copy keeps every entry under its name and origin, changes no entry but its own, and only appends calls. */
  lemma CopyStepKeeps(resources: seq<Resource>, rec: Recorded, i: nat)
    requires i < |resources| && Indexed(resources, rec.data)
    ensures var u := CopyStep(resources, rec, i);
      Indexed(resources, u.data) && Extends(rec.data, u.data) && rec.calls <= u.calls &&
      (forall k :: k in rec.data && k != resources[i].name ==> u.data[k] == rec.data[k])
  {
  }

  /**
   * A copy leaves a resource that is not read back alone; otherwise it
   * moves that resource's entry to COPY_SOURCE, and passes exactly when
   * the entry was made from a resource.
   */
  lemma CopyStepFacts(resources: seq<Resource>, rec: Recorded, i: nat)
    requires i < |resources| && Indexed(resources, rec.data)
    ensures var u := CopyStep(resources, rec, i);
      (!resources[i].readBack ==> u == rec) &&
      (resources[i].readBack ==>
         resources[i].name in u.data && u.data[resources[i].name].state == RESOURCE_STATE_COPY_SOURCE &&
         (u.outcome.Pass? <==> WithEntry(rec.data, resources[i].name)[resources[i].name].resource.Some?))
  {
  }

  /** CopyBackResources from resource k on, after rec; the first failure ends it. */
  function CopiesFrom(resources: seq<Resource>, k: nat, rec: Recorded): (u: Recorded)
    requires k <= |resources| && Indexed(resources, rec.data)
    decreases |resources| - k
  {
    if k == |resources| || rec.outcome.Fail? then rec
    else
      CopyStepKeeps(resources, rec, k);
      CopiesFrom(resources, k + 1, CopyStep(resources, rec, k))
  }

  /** The copies keep every entry under its name and origin, and only append calls. */
  lemma {:induction false} CopiesFromKeeps(resources: seq<Resource>, k: nat, rec: Recorded)
    requires k <= |resources| && Indexed(resources, rec.data)
    ensures var u := CopiesFrom(resources, k, rec);
      Indexed(resources, u.data) && Extends(rec.data, u.data) && rec.calls <= u.calls
    decreases |resources| - k
  {
    if k < |resources| && rec.outcome.Pass? {
      CopyStepKeeps(resources, rec, k);
      CopiesFromKeeps(resources, k + 1, CopyStep(resources, rec, k));
    }
  }

  /** Resource j, when it is read back, has its entry in COPY_SOURCE. */
  predicate CopiedBack(resources: seq<Resource>, data: map<Option<string>, ResourceData>, j: nat)
    requires j < |resources|
  {
    resources[j].readBack ==> resources[j].name in data && data[resources[j].name].state == RESOURCE_STATE_COPY_SOURCE
  }

  /** When the copies pass, every read-back resource has its entry in COPY_SOURCE. */
  lemma {:induction false} CopiesFromSource(resources: seq<Resource>, k: nat, rec: Recorded)
    requires k <= |resources| && Indexed(resources, rec.data)
    requires forall j :: 0 <= j < k ==> CopiedBack(resources, rec.data, j)
    ensures var u := CopiesFrom(resources, k, rec);
      u.outcome.Pass? ==> forall j :: 0 <= j < |resources| ==> CopiedBack(resources, u.data, j)
    decreases |resources| - k
  {
    if k < |resources| && rec.outcome.Pass? {
      CopyStepKeeps(resources, rec, k);
      CopyStepFacts(resources, rec, k);
      var u := CopyStep(resources, rec, k);
      forall j | 0 <= j < k + 1
        ensures CopiedBack(resources, u.data, j)
      {
        if j < k {
          assert CopiedBack(resources, rec.data, j);
        }
      }
      assert CopiesFrom(resources, k, rec) == CopiesFrom(resources, k + 1, u);
      CopiesFromSource(resources, k + 1, u);
    } else {
      assert CopiesFrom(resources, k, rec) == rec;
    }
  }

  /** Each read-back resource from k on has an entry made from a resource. */
  predicate CopiesReady(resources: seq<Resource>, data: map<Option<string>, ResourceData>, k: nat)
    requires k <= |resources|
  {
    forall j :: k <= j < |resources| && resources[j].readBack ==>
      resources[j].name in data && data[resources[j].name].resource.Some?
  }

  /** Entries made from resources for every read-back resource: the copies all succeed. */
  lemma {:induction false} CopiesOfCreated(resources: seq<Resource>, k: nat, rec: Recorded)
    requires k <= |resources| && Indexed(resources, rec.data) && rec.outcome.Pass?
    requires CopiesReady(resources, rec.data, k)
    ensures CopiesFrom(resources, k, rec).outcome.Pass?
    decreases |resources| - k
  {
    if k < |resources| {
      CopyStepKeeps(resources, rec, k);
      CopyStepFacts(resources, rec, k);
      CopiesOfCreated(resources, k + 1, CopyStep(resources, rec, k));
    }
  }
}
