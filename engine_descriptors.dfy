/**
 * The descriptor half of the bookkeeping: what CreateDescriptorHeaps does
 * for one descriptor, for the descriptors of one heap, and for all heaps.
 */
module DescriptorSteps {
  import opened Wrappers
  import opened Text
  import opened ShaderOpData
  import opened EngineRules
  import opened ResourceSteps
  import Parser

  /** The counter resource of a UAV: its CounterName, when that is not empty. */
  function Counter(d: Descriptor): (c: Option<string>)
    ensures c.Some? <==> d.counterName.Some? && d.counterName.value != ""
    ensures c.Some? ==> c == d.counterName
  {
    if d.counterName.Some? && d.counterName.value != "" then d.counterName else None
  }

  /** The view a three-letter Kind selects once folded to lower case. */
  function ViewKindOfLetters(a: char, b: char, c: char): (v: ViewKind)
  {
    if a == 'u' && b == 'a' && c == 'v' then UavKind
    else if a == 's' && b == 'r' && c == 'v' then SrvKind
    else if a == 'r' && b == 't' && c == 'v' then RtvKind
    else if a == 'c' && b == 'b' && c == 'v' then CbvKind
    else NoViewKind
  }

  /** The view a Kind selects: UAV, SRV, RTV or CBV, compared ignoring case, if it is one of them. */
  function ViewKindOf(kind: string): (v: ViewKind)
  {
    if |kind| == 3 then ViewKindOfLetters(Lower(kind[0]), Lower(kind[1]), Lower(kind[2])) else NoViewKind
  }

  /** Each view belongs to exactly the Kinds equal to its name ignoring case; any other Kind selects no view. */
  lemma ViewKindOfCases(kind: string)
    ensures ViewKindOf(kind) == UavKind <==> CaseEq(kind, "UAV")
    ensures ViewKindOf(kind) == SrvKind <==> CaseEq(kind, "SRV")
    ensures ViewKindOf(kind) == RtvKind <==> CaseEq(kind, "RTV")
    ensures ViewKindOf(kind) == CbvKind <==> CaseEq(kind, "CBV")
    ensures ViewKindOf(kind) == NoViewKind <==> !Parser.KnownKind(kind)
  {
    assert Lower('U') == 'u' && Lower('A') == 'a' && Lower('V') == 'v' && Lower('S') == 's';
    assert Lower('R') == 'r' && Lower('T') == 't' && Lower('C') == 'c' && Lower('B') == 'b';
    if |kind| == 3 {
      var names := ["UAV", "SRV", "RTV", "CBV"];
      forall n | n in names
        ensures CaseEq(kind, n) <==> Lower(kind[0]) == Lower(n[0]) && Lower(kind[1]) == Lower(n[1]) && Lower(kind[2]) == Lower(n[2])
      {
        if Lower(kind[0]) == Lower(n[0]) && Lower(kind[1]) == Lower(n[1]) && Lower(kind[2]) == Lower(n[2]) {
          forall i | 0 <= i < 3
            ensures Lower(kind[i]) == Lower(n[i])
          {
          }
        }
      }
      assert "UAV" in names && "SRV" in names && "RTV" in names && "CBV" in names;
    }
  }

  /** The view of a descriptor; a descriptor without a Kind never gets as far as choosing one. */
  function KindOf(d: Descriptor): (v: ViewKind)
    ensures d.kind.None? ==> v == NoViewKind
  {
    if d.kind.Some? then ViewKindOf(d.kind.value) else NoViewKind
  }

  /** The resource entries after a descriptor's view: its resource's and, for a UAV, its counter's. */
  function DescriptorEntries(data: map<Option<string>, ResourceData>, d: Descriptor): (m: map<Option<string>, ResourceData>)
  {
    var m := WithEntry(data, d.resName);
    if KindOf(d) == UavKind && Counter(d).Some? then WithEntry(m, Counter(d)) else m
  }

  /** The lookups add entries for the resource and a UAV's counter and change no existing entry. */
  lemma DescriptorEntriesKeys(data: map<Option<string>, ResourceData>, d: Descriptor)
    ensures var m := DescriptorEntries(data, d);
      d.resName in m &&
      (forall k :: k in data ==> k in m && m[k] == data[k]) &&
      (forall k :: k in m ==> k in data || k == d.resName || (KindOf(d) == UavKind && k == Counter(d)))
  {
  }

  /**
   * Whether the view of a descriptor can be made: its resource exists and
   * its Kind is set, and a CBV's resource has been created (its size is
   * read from it).
   */
  function DescriptorOutcome(resources: seq<Resource>, data: map<Option<string>, ResourceData>, d: Descriptor): (o: Outcome)
  {
    if !Named(resources, d.resName) then Fail(InvalidArg)
    else if d.kind.None? then Fail(NullDereference)
    else if KindOf(d) == CbvKind && WithEntry(data, d.resName)[d.resName].resource.None? then Fail(NullDereference)
    else Pass
  }

  /** A missing resource is E_INVALIDARG, a missing Kind and a CBV of a resource never created are null dereferences, and nothing else fails. */
  lemma DescriptorOutcomeCases(resources: seq<Resource>, data: map<Option<string>, ResourceData>, d: Descriptor)
    ensures var o := DescriptorOutcome(resources, data, d);
      (o.Fail? ==> o.error == InvalidArg || o.error == NullDereference) &&
      (!Named(resources, d.resName) <==> o == Fail(InvalidArg)) &&
      (Named(resources, d.resName) && d.kind.None? ==> o == Fail(NullDereference)) &&
      (o.Pass? <==> Named(resources, d.resName) && d.kind.Some? &&
                    !(KindOf(d) == CbvKind && WithEntry(data, d.resName)[d.resName].resource.None?))
  {
  }

  /** The descriptor's resource exists and has an entry made from a resource. */
  predicate Viewable(resources: seq<Resource>, data: map<Option<string>, ResourceData>, name: Option<string>)
  {
    Named(resources, name) && name in data && data[name].resource.Some?
  }

  /** An entry CreateResources made for the first resource of its name can take views. */
  lemma CreatedFirstViewable(resources: seq<Resource>, data: map<Option<string>, ResourceData>, name: Option<string>)
    requires CreatedFirst(resources, data, name)
    ensures Viewable(resources, data, name)
  {
    var j := data[name].resource.value;
    assert resources[j].name == name;
  }

  /** A descriptor with a Kind whose resource can take views has its view made. */
  lemma DescriptorOfViewable(resources: seq<Resource>, data: map<Option<string>, ResourceData>, d: Descriptor)
    requires d.kind.Some? && Viewable(resources, data, d.resName)
    ensures DescriptorOutcome(resources, data, d) == Pass
  {
  }

  /** The view a descriptor makes, by its Kind; a Kind that is none of the four makes none. */
  function ViewCommands(d: Descriptor, handle: Handle): (c: seq<Command>)
  {
    var view := KindOf(d);
    if view == NoViewKind then []
    else [CreateView(view, d.resName, if view == UavKind then Counter(d) else None, handle)]
  }

  /** One view call exactly for the four known Kinds, at the handle, with a counter only for a UAV that names one. */
  lemma ViewCommandsShape(d: Descriptor, handle: Handle)
    ensures var c := ViewCommands(d, handle);
      |c| <= 1 &&
      (|c| == 1 <==> d.kind.Some? && Parser.KnownKind(d.kind.value)) &&
      (|c| == 1 ==> c[0].CreateView? && c[0] == CreateView(KindOf(d), d.resName, c[0].counter, handle)) &&
      (|c| == 1 ==> (c[0].counter.Some? <==> KindOf(d) == UavKind && Counter(d).Some?))
  {
  }

  /** The heap description after CreateDescriptorHeaps: NumDescriptors 0 becomes the number of descriptors. */
  function Counted(h: DescriptorHeap): (c: DescriptorHeap)
    ensures c.numDescriptors >= |h.descriptors| || c.numDescriptors == h.numDescriptors
    ensures h.numDescriptors != 0 ==> c == h
    ensures c == h.(numDescriptors := c.numDescriptors)
  {
    if h.numDescriptors == 0 then h.(numDescriptors := |h.descriptors|) else h
  }

  /** What the views of descriptors leave: failure or not, the resource entries, the descriptor data, the calls so far. */
  datatype Views = Views(
    outcome: Outcome, data: map<Option<string>, ResourceData>,
    descData: map<Option<string>, DescriptorData>, log: seq<Command>)

  /**
   * One descriptor: on failure, only the lookup of the resource's entry has
   * happened (when the resource exists); otherwise the entries, the view
   * and the resource's descriptor data.
   */
  function DescriptorStep(resources: seq<Resource>, v: Views, d: Descriptor, handle: Handle): (w: Views)
    ensures w.outcome == DescriptorOutcome(resources, v.data, d)
    ensures w.outcome.Pass? ==> d.kind.Some? && w.descData == v.descData[d.resName := DescriptorData(d.resName, handle)]
  {
    var o := DescriptorOutcome(resources, v.data, d);
    if o == Fail(InvalidArg) then v.(outcome := o)
    else if o.Fail? then v.(outcome := o, data := WithEntry(v.data, d.resName))
    else Views(Pass, DescriptorEntries(v.data, d),
               v.descData[d.resName := DescriptorData(d.resName, handle)],
               v.log + ViewCommands(d, handle))
  }

  /**
   * The byte offset of the k-th descriptor of a heap whose handles are
   * `size` bytes apart: the handle is moved on by `size` after each
   * descriptor.
   */
  function Offset(k: nat, size: nat): (offset: nat)
    ensures k == 0 ==> offset == 0
  {
    if k == 0 then 0 else Offset(k - 1, size) + size
  }

  /** The next handle is `size` bytes further. */
  lemma OffsetNext(k: nat, size: nat)
    ensures Offset(k + 1, size) == Offset(k, size) + size
  {
  }

  /** The k-th descriptor is k·size bytes from the heap start. */
  lemma {:induction false} OffsetIsProduct(k: nat, size: nat)
    ensures Offset(k, size) == k * size
  {
    if k > 0 {
      OffsetIsProduct(k - 1, size);
      assert (k - 1) * size + size == k * size;
    }
  }

  /**
   * The first `k` descriptors of one heap in order, the j-th at offset
   * j·size; the first failure ends the run.
   */
  function RunDescriptors(resources: seq<Resource>, v: Views, descs: seq<Descriptor>, k: nat, heap: nat, size: nat): (w: Views)
    requires k <= |descs|
  {
    if k == 0 then v
    else
      var prev := RunDescriptors(resources, v, descs, k - 1, heap, size);
      if prev.outcome.Fail? then prev
      else DescriptorStep(resources, prev, descs[k - 1], Handle(heap, Offset(k - 1, size)))
  }

  /** One descriptor keeps every resource entry and every descriptor data name, and only appends calls. */
  lemma DescriptorStepKeeps(resources: seq<Resource>, v: Views, d: Descriptor, handle: Handle)
    ensures var w := DescriptorStep(resources, v, d, handle);
      (forall key :: key in v.data ==> key in w.data && w.data[key] == v.data[key]) &&
      v.descData.Keys <= w.descData.Keys && v.log <= w.log
  {
  }

  /** A run of descriptors keeps every resource entry and every descriptor data name, and only appends calls. */
  lemma {:induction false} RunKeeps(resources: seq<Resource>, v: Views, descs: seq<Descriptor>, k: nat, heap: nat, size: nat)
    requires k <= |descs|
    ensures var w := RunDescriptors(resources, v, descs, k, heap, size);
      (forall key :: key in v.data ==> key in w.data && w.data[key] == v.data[key]) &&
      v.descData.Keys <= w.descData.Keys && v.log <= w.log
    decreases k
  {
    if k > 0 {
      RunKeeps(resources, v, descs, k - 1, heap, size);
      var prev := RunDescriptors(resources, v, descs, k - 1, heap, size);
      if prev.outcome.Pass? {
        DescriptorStepKeeps(resources, prev, descs[k - 1], Handle(heap, Offset(k - 1, size)));
      }
    }
  }

  /**
   * One descriptor keeps entries made from resources pointing at resources
   * of their names, descriptor data pointing at resource entries, and
   * handles in the first n heaps when its own handle is.
   */
  lemma DescriptorStepValid(resources: seq<Resource>, v: Views, d: Descriptor, handle: Handle, n: nat)
    requires Indexed(resources, v.data) && Resolved(v.descData, v.data) && HandlesBelow(v.descData, n) && handle.heap < n
    ensures var w := DescriptorStep(resources, v, d, handle);
      Indexed(resources, w.data) && Resolved(w.descData, w.data) && HandlesBelow(w.descData, n)
  {
    DescriptorEntriesKeys(v.data, d);
  }

  /** A run of descriptors in heap `heap`, one of the first n, keeps the same three facts. */
  lemma {:induction false} RunValid(resources: seq<Resource>, v: Views, descs: seq<Descriptor>, k: nat, heap: nat, size: nat, n: nat)
    requires k <= |descs| && heap < n
    requires Indexed(resources, v.data) && Resolved(v.descData, v.data) && HandlesBelow(v.descData, n)
    ensures var w := RunDescriptors(resources, v, descs, k, heap, size);
      Indexed(resources, w.data) && Resolved(w.descData, w.data) && HandlesBelow(w.descData, n)
    decreases k
  {
    if k > 0 {
      RunValid(resources, v, descs, k - 1, heap, size, n);
      var prev := RunDescriptors(resources, v, descs, k - 1, heap, size);
      if prev.outcome.Pass? {
        DescriptorStepValid(resources, prev, descs[k - 1], Handle(heap, Offset(k - 1, size)), n);
      }
    }
  }

  /** The run of k descriptors is the run of k - 1 and one more step. */
  lemma RunStep(resources: seq<Resource>, v: Views, descs: seq<Descriptor>, k: nat, heap: nat, size: nat)
    requires 0 < k <= |descs|
    ensures var prev := RunDescriptors(resources, v, descs, k - 1, heap, size);
      RunDescriptors(resources, v, descs, k, heap, size) ==
        if prev.outcome.Fail? then prev else DescriptorStep(resources, prev, descs[k - 1], Handle(heap, Offset(k - 1, size)))
  {
  }

  /** Once a descriptor fails, the rest are not looked at. */
  lemma {:induction false} RunFailureSticks(resources: seq<Resource>, v: Views, descs: seq<Descriptor>, j: nat, k: nat, heap: nat, size: nat)
    requires j <= k <= |descs| && RunDescriptors(resources, v, descs, j, heap, size).outcome.Fail?
    ensures RunDescriptors(resources, v, descs, k, heap, size) == RunDescriptors(resources, v, descs, j, heap, size)
    decreases k
  {
    if j < k {
      RunFailureSticks(resources, v, descs, j, k - 1, heap, size);
    }
  }

  /**
   * The descriptors still to go from state v, the first at `offset` and
   * each next one `size` bytes further; the first failure ends the run.
   */
  function ViewsFrom(resources: seq<Resource>, v: Views, descs: seq<Descriptor>, heap: nat, offset: nat, size: nat): (w: Views)
    decreases |descs|
  {
    if descs == [] || v.outcome.Fail? then v
    else ViewsFrom(resources, DescriptorStep(resources, v, descs[0], Handle(heap, offset)), descs[1..], heap, offset + size, size)
  }

  /** From a passing state, the rest of the descriptors are the next one and then the others. */
  lemma ViewsFromNext(resources: seq<Resource>, v: Views, descs: seq<Descriptor>, k: nat, heap: nat, size: nat)
    requires k < |descs| && RunDescriptors(resources, v, descs, k, heap, size).outcome.Pass?
    ensures ViewsFrom(resources, RunDescriptors(resources, v, descs, k, heap, size), descs[k..], heap, Offset(k, size), size)
      == ViewsFrom(resources, RunDescriptors(resources, v, descs, k + 1, heap, size), descs[k + 1..], heap, Offset(k + 1, size), size)
  {
    var rest := descs[k..];
    assert rest[0] == descs[k] && rest[1..] == descs[k + 1..];
    RunStep(resources, v, descs, k + 1, heap, size);
    OffsetNext(k, size);
  }

  /** Running the rest of the descriptors after the first k completes the run of all of them. */
  lemma {:induction false} ViewsFromRun(resources: seq<Resource>, v: Views, descs: seq<Descriptor>, k: nat, heap: nat, size: nat)
    requires k <= |descs|
    ensures ViewsFrom(resources, RunDescriptors(resources, v, descs, k, heap, size), descs[k..], heap, Offset(k, size), size)
      == RunDescriptors(resources, v, descs, |descs|, heap, size)
    decreases |descs| - k
  {
    if k == |descs| {
      assert descs[k..] == [];
    } else if RunDescriptors(resources, v, descs, k, heap, size).outcome.Fail? {
      RunFailureSticks(resources, v, descs, k, |descs|, heap, size);
    } else {
      ViewsFromNext(resources, v, descs, k, heap, size);
      ViewsFromRun(resources, v, descs, k + 1, heap, size);
    }
  }

  /** A run of k descriptors that passes passed after k - 1 and then recorded the k-th descriptor's handle. */
  lemma RunStepData(resources: seq<Resource>, v: Views, descs: seq<Descriptor>, k: nat, heap: nat, size: nat)
    requires 0 < k <= |descs| && RunDescriptors(resources, v, descs, k, heap, size).outcome.Pass?
    ensures RunDescriptors(resources, v, descs, k - 1, heap, size).outcome.Pass?
    ensures RunDescriptors(resources, v, descs, k, heap, size).descData ==
      RunDescriptors(resources, v, descs, k - 1, heap, size).descData[
        descs[k - 1].resName := DescriptorData(descs[k - 1].resName, Handle(heap, Offset(k - 1, size)))]
  {
  }

  /** The descriptor data the first k descriptors record, the j-th at offset j·size: a later one replaces an earlier one of its resource. */
  function DescriptorHandles(descData: map<Option<string>, DescriptorData>, descs: seq<Descriptor>, k: nat, heap: nat, size: nat)
    : (m: map<Option<string>, DescriptorData>)
    requires k <= |descs|
    ensures forall key :: key in descData ==> key in m
    ensures forall j :: 0 <= j < k ==> descs[j].resName in m
  {
    if k == 0 then descData
    else
      var d := descs[k - 1];
      DescriptorHandles(descData, descs, k - 1, heap, size)[d.resName := DescriptorData(d.resName, Handle(heap, Offset(k - 1, size)))]
  }

  /** A run that passes has recorded exactly DescriptorHandles. */
  lemma {:induction false} RunHandles(resources: seq<Resource>, v: Views, descs: seq<Descriptor>, k: nat, heap: nat, size: nat)
    requires k <= |descs| && RunDescriptors(resources, v, descs, k, heap, size).outcome.Pass?
    ensures RunDescriptors(resources, v, descs, k, heap, size).descData == DescriptorHandles(v.descData, descs, k, heap, size)
    decreases k
  {
    if k > 0 {
      RunStepData(resources, v, descs, k, heap, size);
      RunHandles(resources, v, descs, k - 1, heap, size);
    }
  }

  /** After a run that passes, each of its descriptors has descriptor data. */
  lemma RunCovers(resources: seq<Resource>, v: Views, descs: seq<Descriptor>, k: nat, heap: nat, size: nat)
    requires k <= |descs| && RunDescriptors(resources, v, descs, k, heap, size).outcome.Pass?
    ensures forall j :: 0 <= j < k ==> descs[j].resName in RunDescriptors(resources, v, descs, k, heap, size).descData
  {
    RunHandles(resources, v, descs, k, heap, size);
  }

  /** Of several descriptors of one resource, the last one's handle is recorded. */
  lemma {:induction false} LastHandleWins(descData: map<Option<string>, DescriptorData>, descs: seq<Descriptor>, j: nat, k: nat, heap: nat, size: nat)
    requires j < k <= |descs|
    requires forall m :: j < m < k ==> descs[m].resName != descs[j].resName
    ensures DescriptorHandles(descData, descs, k, heap, size)[descs[j].resName] ==
      DescriptorData(descs[j].resName, Handle(heap, Offset(j, size)))
    decreases k
  {
    if j < k - 1 {
      LastHandleWins(descData, descs, j, k - 1, heap, size);
    }
  }

  /** Of several descriptors of one resource, the last one's handle, `size` bytes per position, is kept. */
  lemma LastDescriptorWins(resources: seq<Resource>, v: Views, descs: seq<Descriptor>, j: nat, k: nat, heap: nat, size: nat)
    requires j < k <= |descs| && RunDescriptors(resources, v, descs, k, heap, size).outcome.Pass?
    requires forall m :: j < m < k ==> descs[m].resName != descs[j].resName
    ensures descs[j].resName in RunDescriptors(resources, v, descs, k, heap, size).descData
    ensures RunDescriptors(resources, v, descs, k, heap, size).descData[descs[j].resName] ==
      DescriptorData(descs[j].resName, Handle(heap, Offset(j, size)))
  {
    RunHandles(resources, v, descs, k, heap, size);
    LastHandleWins(v.descData, descs, j, k, heap, size);
  }

  /** Each of the first k descriptors has a Kind and names a resource that can take views. */
  predicate AllViewable(resources: seq<Resource>, data: map<Option<string>, ResourceData>, descs: seq<Descriptor>, k: nat)
    requires k <= |descs|
  {
    k == 0 ||
    (AllViewable(resources, data, descs, k - 1) &&
     descs[k - 1].kind.Some? && Viewable(resources, data, descs[k - 1].resName))
  }

  /** Descriptors all with a Kind and all of resources that can take views have their views made. */
  lemma {:induction false} RunOfViewable(resources: seq<Resource>, v: Views, descs: seq<Descriptor>, k: nat, heap: nat, size: nat)
    requires k <= |descs| && v.outcome.Pass? && AllViewable(resources, v.data, descs, k)
    ensures RunDescriptors(resources, v, descs, k, heap, size).outcome.Pass?
    decreases k
  {
    if k > 0 {
      RunOfViewable(resources, v, descs, k - 1, heap, size);
      RunKeeps(resources, v, descs, k - 1, heap, size);
      var prev := RunDescriptors(resources, v, descs, k - 1, heap, size);
      var d := descs[k - 1];
      assert Viewable(resources, prev.data, d.resName);
      DescriptorOfViewable(resources, prev.data, d);
      RunStep(resources, v, descs, k, heap, size);
    }
  }

  /** The creation of heap description h, with its back-filled NumDescriptors, before its views. */
  function HeapStart(v: Views, h: nat, desc: DescriptorHeap): (w: Views)
    ensures w.outcome == v.outcome && w.data == v.data && w.descData == v.descData
    ensures w.log == v.log + [CreateDescriptorHeap(h, Counted(desc).numDescriptors)]
  {
    v.(log := v.log + [CreateDescriptorHeap(h, Counted(desc).numDescriptors)])
  }

  /** One heap: its creation, then the views of all its descriptors at position `heap`, handles `size` bytes apart. */
  function HeapViews(resources: seq<Resource>, v: Views, h: nat, desc: DescriptorHeap, heap: nat, size: nat): (w: Views)
  {
    RunDescriptors(resources, HeapStart(v, h, desc), desc.descriptors, |desc.descriptors|, heap, size)
  }

  /** The heap descriptions after the first k have had NumDescriptors back-filled. */
  function CountedHeaps(hs: seq<DescriptorHeap>, k: nat): (r: seq<DescriptorHeap>)
    requires k <= |hs|
    ensures |r| == |hs|
  {
    seq(|hs|, i requires 0 <= i < |hs| => if i < k then Counted(hs[i]) else hs[i])
  }

  /** Back-filling one more heap description. */
  lemma CountedHeapsNext(hs: seq<DescriptorHeap>, k: nat)
    requires k < |hs|
    ensures CountedHeaps(hs, k + 1) == CountedHeaps(hs, k)[k := Counted(hs[k])]
  {
  }

  /** Back-filling changes no heap's descriptors. */
  lemma CountedHeapsDescriptors(hs: seq<DescriptorHeap>, k: nat, i: nat)
    requires k <= |hs| && i < |hs|
    ensures CountedHeaps(hs, k)[i].descriptors == hs[i].descriptors
    ensures CountedHeaps(hs, k)[i].name == hs[i].name
  {
  }

  /** m_DescriptorHeapsByName after the first k heap descriptions, created at base, base + 1, …: a later heap of a name replaces an earlier one. */
  function HeapNames(byName: map<Option<string>, nat>, hs: seq<DescriptorHeap>, k: nat, base: nat): (m: map<Option<string>, nat>)
    requires k <= |hs|
  {
    if k == 0 then byName
    else HeapNames(byName, hs, k - 1, base)[hs[k - 1].name := base + k - 1]
  }

  /** The k-th heap's name points at position base + k. */
  lemma HeapNamesNext(byName: map<Option<string>, nat>, hs: seq<DescriptorHeap>, k: nat, base: nat)
    requires k < |hs|
    ensures HeapNames(byName, hs, k + 1, base) == HeapNames(byName, hs, k, base)[hs[k].name := base + k]
  {
  }

  /** Of several heaps of one name, the name points at the last one. */
  lemma {:induction false} LastHeapWins(byName: map<Option<string>, nat>, hs: seq<DescriptorHeap>, j: nat, k: nat, base: nat)
    requires j < k <= |hs|
    requires forall m :: j < m < k ==> hs[m].name != hs[j].name
    ensures hs[j].name in HeapNames(byName, hs, k, base) && HeapNames(byName, hs, k, base)[hs[j].name] == base + j
    decreases k
  {
    if j < k - 1 {
      LastHeapWins(byName, hs, j, k - 1, base);
    }
  }

  /** A name no heap description has keeps what it had. */
  lemma {:induction false} HeapNamesOthers(byName: map<Option<string>, nat>, hs: seq<DescriptorHeap>, k: nat, base: nat, key: Option<string>)
    requires k <= |hs| && forall j :: 0 <= j < k ==> hs[j].name != key
    ensures key in HeapNames(byName, hs, k, base) <==> key in byName
    ensures key in byName ==> HeapNames(byName, hs, k, base)[key] == byName[key]
    decreases k
  {
    if k > 0 {
      HeapNamesOthers(byName, hs, k - 1, base, key);
    }
  }

  /** The heap bookkeeping: the heap descriptions, m_DescriptorHeaps and m_DescriptorHeapsByName. */
  datatype HeapTable = HeapTable(descs: seq<DescriptorHeap>, created: seq<nat>, byName: map<Option<string>, nat>)

  /** What a heap step works on: the views so far and the heap bookkeeping. */
  datatype HeapState = HeapState(views: Views, table: HeapTable)

  /** Heap description h is back-filled and created at the next position, which its name then points at. */
  function AddHeap(t: HeapTable, h: nat): (u: HeapTable)
    requires h < |t.descs|
    ensures |u.descs| == |t.descs|
  {
    HeapTable(t.descs[h := Counted(t.descs[h])], t.created + [h], t.byName[t.descs[h].name := |t.created|])
  }

  /** The first k heap descriptions added in order; the later ones are untouched. */
  function AddHeaps(t: HeapTable, k: nat): (u: HeapTable)
    requires k <= |t.descs|
    ensures |u.descs| == |t.descs| && |u.created| == |t.created| + k
  {
    if k == 0 then t else AddHeap(AddHeaps(t, k - 1), k - 1)
  }

  /**
   * After k heaps, the first k descriptions are back-filled, positions
   * 0 … k - 1 are appended to the created heaps, and the names point as
   * HeapNames says.
   */
  lemma {:induction false} AddHeapsTable(t: HeapTable, k: nat)
    requires k <= |t.descs|
    ensures AddHeaps(t, k) ==
      HeapTable(CountedHeaps(t.descs, k), t.created + Positions(k), HeapNames(t.byName, t.descs, k, |t.created|))
  {
    if k > 0 {
      AddHeapsTable(t, k - 1);
      AddHeapOfTable(t, k - 1);
    }
  }

  /** Adding heap k to the table after k heaps gives the table after k + 1. */
  lemma AddHeapOfTable(t: HeapTable, k: nat)
    requires k < |t.descs|
    ensures AddHeap(HeapTable(CountedHeaps(t.descs, k), t.created + Positions(k), HeapNames(t.byName, t.descs, k, |t.created|)), k) ==
      HeapTable(CountedHeaps(t.descs, k + 1), t.created + Positions(k + 1), HeapNames(t.byName, t.descs, k + 1, |t.created|))
  {
    PositionsNext(t.created, k);
    CountedHeapsNext(t.descs, k);
    HeapNamesNext(t.byName, t.descs, k, |t.created|);
  }

  /** One more created heap, after those already there. */
  lemma PositionsNext(a: seq<nat>, n: nat)
    ensures a + Positions(n + 1) == (a + Positions(n)) + [n]
  {
    assert Positions(n + 1) == Positions(n) + [n];
  }

  /**
   * One heap of CreateDescriptorHeaps: heap description h is created at the
   * next position, then its views are made, `size` bytes apart.
   */
  function HeapStep(resources: seq<Resource>, s: HeapState, h: nat, size: nat): (u: HeapState)
    requires h < |s.table.descs|
    ensures |u.table.descs| == |s.table.descs| && u.table == AddHeap(s.table, h)
  {
    HeapState(HeapViews(resources, s.views, h, s.table.descs[h], |s.table.created|, size), AddHeap(s.table, h))
  }

  /**
   * CreateDescriptorHeaps from the k-th heap description on: one heap step
   * each, with the handle increment sizes[j] for heap j (the one the device
   * reports for the heap's type); the first failure ends it.
   */
  function HeapsFrom(resources: seq<Resource>, s: HeapState, k: nat, sizes: seq<nat>): (u: HeapState)
    requires k <= |s.table.descs| <= |sizes|
    ensures |u.table.descs| == |s.table.descs|
    decreases |s.table.descs| - k
  {
    if k == |s.table.descs| || s.views.outcome.Fail? then s
    else HeapsFrom(resources, HeapStep(resources, s, k, sizes[k]), k + 1, sizes)
  }

  /** A run over the heaps after the first k that passes has added all of them. */
  lemma {:induction false} HeapsFromPass(resources: seq<Resource>, t: HeapTable, s: HeapState, k: nat, sizes: seq<nat>)
    requires k <= |t.descs| <= |sizes| && s.table == AddHeaps(t, k)
    requires HeapsFrom(resources, s, k, sizes).views.outcome.Pass?
    ensures HeapsFrom(resources, s, k, sizes).table == AddHeaps(t, |t.descs|)
    decreases |t.descs| - k
  {
    if k < |t.descs| {
      HeapsFromPass(resources, t, HeapStep(resources, s, k, sizes[k]), k + 1, sizes);
    }
  }
}
