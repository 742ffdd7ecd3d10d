/**
 Intrusive reference counting: scoped_refptr (api/scoped_refptr.h) over RefCountedBase
 (api/ref_counted_base.h).

 `Heap` is a picture of all handles and counted objects at one moment, and `Apply` what each
 operation of scoped_refptr does to it. The classes at the end do the same on real objects.
 */
module RefCounting {
  import opened Wrappers

  /** H: handles, O: objects. `raw` holds the references that belong to no handle: those handed out
      by release() and those taken by calling AddRef directly. */
  datatype Heap<H, O> = Heap(
    ptr: map<H, Option<O>>,
    count: map<O, int>,
    deleted: set<O>,
    raw: multiset<O>)

  ghost predicate Live<H, O>(h: Heap<H, O>, o: O) {
    o in h.count && o !in h.deleted
  }

  ghost predicate NullOrLive<H, O>(h: Heap<H, O>, p: Option<O>) {
    p.Some? ==> Live(h, p.value)
  }

  /** RefCountedBase::AddRef. */
  ghost function AfterAddRef<H, O>(h: Heap<H, O>, p: Option<O>): Heap<H, O>
    requires NullOrLive(h, p)
  {
    if p.None? then h else h.(count := h.count[p.value := h.count[p.value] + 1])
  }

  /** RefCountedBase::Release: the object goes with its last reference. */
  ghost function AfterRelease<H, O>(h: Heap<H, O>, p: Option<O>): Heap<H, O>
    requires NullOrLive(h, p)
  {
    if p.None? then h
    else
      var after := h.count[p.value] - 1;
      h.(count := h.count[p.value := after],
         deleted := if after == 0 then h.deleted + {p.value} else h.deleted)
  }

  // The operations.

  datatype Operation<H, O> =
    | NewObject(o: O)
    | Construct(x: H, p: Option<O>)
    | CopyConstruct(x: H, r: H)
    | MoveConstruct(x: H, r: H)
    | Destroy(x: H)
    | ReleaseHandle(x: H)
    | AssignRaw(x: H, p: Option<O>)
    | AssignCopy(x: H, r: H)
    | AssignMove(x: H, r: H)
    | Swap(x: H, r: H)
    | SwapRaw(x: H, p: Option<O>)
    | RawAddRef(o: O)
    | RawRelease(o: O)

  /** What the code asks of its callers: handles are constructed once and used while they exist, raw
      pointers passed in are null or point to live objects, and only who owns a raw reference gives
      it up. The two handles of an operation may be the same. */
  ghost predicate Permitted<H, O>(h: Heap<H, O>, op: Operation<H, O>) {
    match op
    case NewObject(o) => o !in h.count
    case Construct(x, p) => x !in h.ptr && NullOrLive(h, p)
    case CopyConstruct(x, r) => x !in h.ptr && r in h.ptr
    case MoveConstruct(x, r) => x !in h.ptr && r in h.ptr
    case Destroy(x) => x in h.ptr
    case ReleaseHandle(x) => x in h.ptr
    case AssignRaw(x, p) => x in h.ptr && NullOrLive(h, p)
    case AssignCopy(x, r) => x in h.ptr && r in h.ptr
    case AssignMove(x, r) => x in h.ptr && r in h.ptr
    case Swap(x, r) => x in h.ptr && r in h.ptr
    case SwapRaw(x, p) => x in h.ptr && (p.Some? ==> p.value in h.raw)
    case RawAddRef(o) => Live(h, o)
    case RawRelease(o) => o in h.raw
  }

  /** The pointers after an operation. */
  ghost function PointersAfter<H, O>(h: Heap<H, O>, op: Operation<H, O>): map<H, Option<O>>
    requires Permitted(h, op)
  {
    match op
    case Construct(x, p) => h.ptr[x := p]
    case CopyConstruct(x, r) => h.ptr[x := h.ptr[r]]
    case MoveConstruct(x, r) => h.ptr[r := None][x := h.ptr[r]]
    case Destroy(x) => h.ptr - {x}
    case ReleaseHandle(x) => h.ptr[x := None]
    case AssignRaw(x, p) => h.ptr[x := p]
    case AssignCopy(x, r) => h.ptr[x := h.ptr[r]]
    case AssignMove(x, r) => h.ptr[r := None][x := h.ptr[r]]
    case Swap(x, r) => h.ptr[x := h.ptr[r]][r := h.ptr[x]]
    case SwapRaw(x, p) => h.ptr[x := p]
    case _ => h.ptr
  }

  ghost function One<O>(p: Option<O>): multiset<O> {
    if p.Some? then multiset{p.value} else multiset{}
  }

  /** One reference fewer. */
  ghost function Less<O>(m: multiset<O>, p: Option<O>): multiset<O> {
    if p.Some? && p.value in m then m[p.value := m[p.value] - 1] else m
  }

  /** The raw references after an operation. */
  ghost function RawAfter<H, O>(h: Heap<H, O>, op: Operation<H, O>): multiset<O>
    requires Permitted(h, op)
  {
    match op
    case ReleaseHandle(x) => h.raw + One(h.ptr[x])
    case SwapRaw(x, p) => Less(h.raw, p) + One(h.ptr[x])
    case RawAddRef(o) => h.raw + multiset{o}
    case RawRelease(o) => Less(h.raw, Some(o))
    case _ => h.raw
  }

  /** The object on which an operation calls AddRef, if any ... */
  ghost function Taken<H, O>(h: Heap<H, O>, op: Operation<H, O>): Option<O>
    requires Permitted(h, op)
  {
    match op
    case Construct(_, p) => p
    case CopyConstruct(_, r) => h.ptr[r]
    case AssignRaw(_, p) => p
    case AssignCopy(_, r) => h.ptr[r]
    case RawAddRef(o) => Some(o)
    case _ => None
  }

  /** ... and the one on which it then calls Release. */
  ghost function Given<H, O>(h: Heap<H, O>, op: Operation<H, O>): Option<O>
    requires Permitted(h, op)
  {
    match op
    case Destroy(x) => h.ptr[x]
    case AssignRaw(x, _) => h.ptr[x]
    case AssignCopy(x, _) => h.ptr[x]
    case AssignMove(x, r) => if x == r then None else h.ptr[x]
    case RawRelease(o) => Some(o)
    case _ => None
  }

  /** The operation does not touch a deleted object. */
  ghost predicate Defined<H, O>(h: Heap<H, O>, op: Operation<H, O>) {
    Permitted(h, op) && NullOrLive(h, Taken(h, op)) && NullOrLive(h, Given(h, op))
  }

  ghost function Apply<H, O>(h: Heap<H, O>, op: Operation<H, O>): Heap<H, O>
    requires Defined(h, op)
  {
    match op
    case NewObject(o) => h.(count := h.count[o := 0])
    case Construct(x, p) => Constructed(h, x, p)
    case CopyConstruct(x, r) => Constructed(h, x, h.ptr[r])
    case MoveConstruct(x, r) => MoveConstructed(h, x, r)
    case Destroy(x) => Destroyed(h, x)
    case ReleaseHandle(x) => Released(h, x)
    case AssignRaw(x, p) => Assigned(h, x, p)
    case AssignCopy(x, r) => Assigned(h, x, h.ptr[r])
    case AssignMove(x, r) => MoveAssigned(h, x, r)
    case Swap(x, r) => Swapped(h, x, r)
    case SwapRaw(x, p) => SwappedRaw(h, x, p)
    case RawAddRef(o) => AfterAddRef(h, Some(o)).(raw := h.raw + multiset{o})
    case RawRelease(o) => AfterRelease(h, Some(o)).(raw := Less(h.raw, Some(o)))
  }

  ghost function Constructed<H, O>(h: Heap<H, O>, x: H, p: Option<O>): Heap<H, O>
    requires NullOrLive(h, p)
  {
    AfterAddRef(h, p).(ptr := h.ptr[x := p])
  }

  ghost function MoveConstructed<H, O>(h: Heap<H, O>, x: H, r: H): Heap<H, O>
    requires r in h.ptr
  {
    h.(ptr := h.ptr[r := None][x := h.ptr[r]])
  }

  ghost function Destroyed<H, O>(h: Heap<H, O>, x: H): Heap<H, O>
    requires x in h.ptr && NullOrLive(h, h.ptr[x])
  {
    AfterRelease(h, h.ptr[x]).(ptr := h.ptr - {x})
  }

  ghost function Released<H, O>(h: Heap<H, O>, x: H): Heap<H, O>
    requires x in h.ptr
  {
    h.(ptr := h.ptr[x := None], raw := h.raw + One(h.ptr[x]))
  }

  ghost function Assigned<H, O>(h: Heap<H, O>, x: H, p: Option<O>): Heap<H, O>
    requires x in h.ptr && NullOrLive(h, p) && NullOrLive(h, h.ptr[x])
  {
    AfterRelease(AfterAddRef(h, p), h.ptr[x]).(ptr := h.ptr[x := p])
  }

  ghost function MoveAssigned<H, O>(h: Heap<H, O>, x: H, r: H): Heap<H, O>
    requires x in h.ptr && r in h.ptr && (x != r ==> NullOrLive(h, h.ptr[x]))
  {
    AfterRelease(h, if x == r then None else h.ptr[x]).(ptr := h.ptr[r := None][x := h.ptr[r]])
  }

  ghost function Swapped<H, O>(h: Heap<H, O>, x: H, r: H): Heap<H, O>
    requires x in h.ptr && r in h.ptr
  {
    h.(ptr := h.ptr[x := h.ptr[r]][r := h.ptr[x]])
  }

  ghost function SwappedRaw<H, O>(h: Heap<H, O>, x: H, p: Option<O>): Heap<H, O>
    requires x in h.ptr
  {
    h.(ptr := h.ptr[x := p], raw := Less(h.raw, p) + One(h.ptr[x]))
  }

  lemma ApplyInParts<H, O>(h: Heap<H, O>, op: Operation<H, O>)
    requires Defined(h, op) && !op.NewObject?
    ensures Apply(h, op) == AfterRelease(AfterAddRef(h, Taken(h, op)), Given(h, op))
                            .(ptr := PointersAfter(h, op), raw := RawAfter(h, op))
  {
  }

  // Conservation.

  ghost function Pointing<H, O>(ptr: map<H, Option<O>>, o: O): set<H> {
    set x | x in ptr && ptr[x] == Some(o)
  }

  /** All references to an object: the handles that hold one and the raw ones. */
  ghost function References<H, O>(h: Heap<H, O>, o: O): nat {
    |Pointing(h.ptr, o)| + h.raw[o]
  }

  /** A live object's count is the number of its references, and only live objects have any. */
  ghost predicate Conserved<H, O>(h: Heap<H, O>) {
    && h.deleted <= h.count.Keys
    && (forall x :: x in h.ptr ==> NullOrLive(h, h.ptr[x]))
    && (forall o :: o in h.raw ==> Live(h, o))
    && (forall o :: o in h.count && o !in h.deleted ==> h.count[o] == References(h, o))
  }

  /** In a balanced heap every permitted operation only touches live objects. */
  lemma PermittedIsDefined<H, O>(h: Heap<H, O>, op: Operation<H, O>)
    requires Conserved(h) && Permitted(h, op)
    ensures Defined(h, op)
  {
  }

  ghost function Occurs<O>(p: Option<O>, o: O): nat {
    if p == Some(o) then 1 else 0
  }

  lemma PointingWithout<H, O>(ptr: map<H, Option<O>>, x: H, o: O)
    ensures |Pointing(ptr, o)| == |Pointing(ptr, o) - {x}| + if x in ptr then Occurs(ptr[x], o) else 0
  {
    var others := Pointing(ptr, o) - {x};
    assert Pointing(ptr, o) == if x in ptr && ptr[x] == Some(o) then others + {x} else others;
  }

  lemma PointingAfterStore<H, O>(ptr: map<H, Option<O>>, x: H, p: Option<O>, o: O)
    ensures |Pointing(ptr[x := p], o)| + (if x in ptr then Occurs(ptr[x], o) else 0)
         == |Pointing(ptr, o)| + Occurs(p, o)
  {
    PointingWithout(ptr, x, o);
    PointingWithout(ptr[x := p], x, o);
    assert Pointing(ptr[x := p], o) - {x} == Pointing(ptr, o) - {x};
  }

  lemma PointingAfterRemoval<H, O>(ptr: map<H, Option<O>>, x: H, o: O)
    requires x in ptr
    ensures |Pointing(ptr - {x}, o)| + Occurs(ptr[x], o) == |Pointing(ptr, o)|
  {
    PointingWithout(ptr, x, o);
    assert Pointing(ptr - {x}, o) == Pointing(ptr, o) - {x};
  }

  /** Each operation changes an object's references by exactly what it takes and gives. */
  lemma ReferencesAfter<H, O>(h: Heap<H, O>, op: Operation<H, O>, o: O)
    requires Conserved(h) && Permitted(h, op)
    ensures |Pointing(PointersAfter(h, op), o)| + RawAfter(h, op)[o] + Occurs(Given(h, op), o)
         == References(h, o) + Occurs(Taken(h, op), o)
  {
    match op
    case Construct(x, p) => PointingAfterStore(h.ptr, x, p, o);
    case CopyConstruct(x, r) => PointingAfterStore(h.ptr, x, h.ptr[r], o);
    case MoveConstruct(x, r) => ReferencesAfterMove(h, op, o);
    case Destroy(x) => PointingAfterRemoval(h.ptr, x, o);
    case ReleaseHandle(x) => ReferencesAfterHandover(h, op, o);
    case AssignRaw(x, p) => PointingAfterStore(h.ptr, x, p, o);
    case AssignCopy(x, r) => PointingAfterStore(h.ptr, x, h.ptr[r], o);
    case AssignMove(x, r) => ReferencesAfterMove(h, op, o);
    case Swap(x, r) =>
      PointingAfterStore(h.ptr, x, h.ptr[r], o);
      PointingAfterStore(h.ptr[x := h.ptr[r]], r, h.ptr[x], o);
    case SwapRaw(x, p) => ReferencesAfterHandover(h, op, o);
    case _ =>
  }

  lemma ReferencesAfterMove<H, O>(h: Heap<H, O>, op: Operation<H, O>, o: O)
    requires Permitted(h, op) && (op.MoveConstruct? || op.AssignMove?)
    ensures |Pointing(PointersAfter(h, op), o)| + Occurs(Given(h, op), o) == |Pointing(h.ptr, o)|
  {
    PointingAfterStore(h.ptr, op.r, None, o);
    PointingAfterStore(h.ptr[op.r := None], op.x, h.ptr[op.r], o);
  }

  lemma ReferencesAfterHandover<H, O>(h: Heap<H, O>, op: Operation<H, O>, o: O)
    requires Permitted(h, op) && (op.ReleaseHandle? || op.SwapRaw?)
    ensures |Pointing(PointersAfter(h, op), o)| + RawAfter(h, op)[o] == References(h, o)
  {
    PointingAfterStore(h.ptr, op.x, if op.SwapRaw? then op.p else None, o);
  }

  lemma ReferencedIsLive<H, O>(h: Heap<H, O>, o: O)
    requires Conserved(h) && References(h, o) > 0
    ensures Live(h, o)
  {
    if h.raw[o] == 0 {
      var x :| x in Pointing(h.ptr, o);
      assert NullOrLive(h, h.ptr[x]);
    }
  }

  /** The heart of the matter, for any change of pointers and raw references that takes one
      reference of `taken` and gives one of `given` up. */
  lemma CountsFollowReferences<H, O>(h: Heap<H, O>, h': Heap<H, O>, taken: Option<O>, given: Option<O>, o: O)
    requires Conserved(h) && NullOrLive(h, taken) && NullOrLive(h, given)
    requires given.Some? ==> References(h, given.value) > 0
    requires h' == AfterRelease(AfterAddRef(h, taken), given).(ptr := h'.ptr, raw := h'.raw)
    requires References(h', o) + Occurs(given, o) == References(h, o) + Occurs(taken, o)
    ensures References(h', o) > 0 ==> Live(h', o)
    ensures Live(h', o) ==> h'.count[o] == References(h', o)
    ensures h.deleted <= h'.deleted <= h'.count.Keys
    ensures o in h'.deleted - h.deleted <==> References(h, o) > 0 && References(h', o) == 0
  {
    if References(h, o) > 0 {
      ReferencedIsLive(h, o);
    }
  }

  lemma StepFacts<H, O>(h: Heap<H, O>, op: Operation<H, O>, o: O)
    requires Conserved(h) && Permitted(h, op) && !op.NewObject?
    ensures Defined(h, op)
    ensures var h' := Apply(h, op);
            && (References(h', o) > 0 ==> Live(h', o))
            && (Live(h', o) ==> h'.count[o] == References(h', o))
            && h.deleted <= h'.deleted <= h'.count.Keys
            && (o in h'.deleted - h.deleted <==> References(h, o) > 0 && References(h', o) == 0)
  {
    PermittedIsDefined(h, op);
    GivenIsReferenced(h, op);
    ApplyInParts(h, op);
    ReferencesAfter(h, op, o);
    CountsFollowReferences(h, Apply(h, op), Taken(h, op), Given(h, op), o);
  }

  /** Every operation keeps the balance, for all handles and objects. */
  lemma ApplyConserves<H, O>(h: Heap<H, O>, op: Operation<H, O>)
    requires Conserved(h) && Permitted(h, op)
    ensures Defined(h, op) && Conserved(Apply(h, op))
  {
    PermittedIsDefined(h, op);
    var h' := Apply(h, op);
    if op.NewObject? {
      NewObjectIsUnreferenced(h, op.o);
    } else {
      forall o ensures References(h', o) > 0 ==> Live(h', o)
               ensures Live(h', o) ==> h'.count[o] == References(h', o)
               ensures h'.deleted <= h'.count.Keys {
        StepFacts(h, op, o);
      }
      LiveAndCountedIsConserved(h');
    }
  }

  lemma LiveAndCountedIsConserved<H, O>(h: Heap<H, O>)
    requires h.deleted <= h.count.Keys
    requires forall o :: References(h, o) > 0 ==> Live(h, o)
    requires forall o :: Live(h, o) ==> h.count[o] == References(h, o)
    ensures Conserved(h)
  {
    forall x | x in h.ptr ensures NullOrLive(h, h.ptr[x]) {
      if h.ptr[x].Some? {
        assert x in Pointing(h.ptr, h.ptr[x].value);
      }
    }
  }

  lemma GivenIsReferenced<H, O>(h: Heap<H, O>, op: Operation<H, O>)
    requires Conserved(h) && Permitted(h, op)
    ensures Given(h, op).Some? ==> References(h, Given(h, op).value) > 0
  {
    var given := Given(h, op);
    if given.Some? && !op.RawRelease? {
      assert op.x in Pointing(h.ptr, given.value);
    }
  }

  lemma NewObjectIsUnreferenced<H, O>(h: Heap<H, O>, o: O)
    requires Conserved(h) && o !in h.count
    ensures References(h, o) == 0
  {
    if References(h, o) > 0 {
      ReferencedIsLive(h, o);
    }
  }

  /** An object is deleted by exactly those operations that take its last reference; nothing
      deleted comes back. */
  lemma DeletedWithLastReference<H, O>(h: Heap<H, O>, op: Operation<H, O>, o: O)
    requires Conserved(h) && Permitted(h, op)
    ensures Defined(h, op)
    ensures var h' := Apply(h, op);
            && h.deleted <= h'.deleted
            && (o in h'.deleted - h.deleted <==> References(h, o) > 0 && References(h', o) == 0)
  {
    if !op.NewObject? {
      StepFacts(h, op, o);
    }
  }

  // Runs.

  ghost predicate IsRun<H, O>(states: seq<Heap<H, O>>, ops: seq<Operation<H, O>>) {
    && |states| == |ops| + 1
    && states[0] == Heap(map[], map[], {}, multiset{})
    && (forall i :: 0 <= i < |ops| ==>
          Permitted(states[i], ops[i]) && (Defined(states[i], ops[i]) ==> states[i + 1] == Apply(states[i], ops[i])))
  }

  /** In every state of every run each live object's count is the number of handles and raw
      references to it, no handle points to a deleted object, and deletion happens in exactly the
      step that takes the last reference. */
  lemma {:induction false} RunConserves<H, O>(states: seq<Heap<H, O>>, ops: seq<Operation<H, O>>, i: nat, o: O)
    requires IsRun(states, ops) && i < |states|
    ensures Conserved(states[i])
    ensures i > 0 ==>
              (o in states[i].deleted - states[i - 1].deleted <==>
                 References(states[i - 1], o) > 0 && References(states[i], o) == 0)
  {
    if i == 0 {
    } else {
      RunConserves(states, ops, i - 1, o);
      ApplyConserves(states[i - 1], ops[i - 1]);
      DeletedWithLastReference(states[i - 1], ops[i - 1], o);
    }
  }

  // The operations one by one, as the classes use them.

  lemma ConstructStep<H, O>(h: Heap<H, O>, x: H, p: Option<O>)
    requires Conserved(h) && x !in h.ptr && NullOrLive(h, p)
    ensures Completes(h, Construct(x, p), Constructed(h, x, p))
    ensures forall r :: r in h.ptr && h.ptr[r] == p ==> Completes(h, CopyConstruct(x, r), Constructed(h, x, p))
  {
    ApplyConserves(h, Construct(x, p));
  }

  lemma MoveStep<H, O>(h: Heap<H, O>, x: H, r: H)
    requires Conserved(h) && x !in h.ptr && r in h.ptr
    ensures Completes(h, MoveConstruct(x, r), MoveConstructed(h, x, r))
  {
    ApplyConserves(h, MoveConstruct(x, r));
  }

  lemma DestroyStep<H, O>(h: Heap<H, O>, x: H)
    requires Conserved(h) && x in h.ptr
    ensures NullOrLive(h, h.ptr[x]) && Completes(h, Operation.Destroy(x), Destroyed(h, x))
  {
    ApplyConserves(h, Operation.Destroy(x));
  }

  lemma ReleaseStep<H, O>(h: Heap<H, O>, x: H)
    requires Conserved(h) && x in h.ptr
    ensures Completes(h, ReleaseHandle(x), Released(h, x))
  {
    ApplyConserves(h, ReleaseHandle(x));
  }

  lemma AssignStep<H, O>(h: Heap<H, O>, x: H, p: Option<O>)
    requires Conserved(h) && x in h.ptr && NullOrLive(h, p)
    ensures NullOrLive(h, h.ptr[x]) && Completes(h, Operation.AssignRaw(x, p), Assigned(h, x, p))
    ensures forall r :: r in h.ptr && h.ptr[r] == p ==> Completes(h, Operation.AssignCopy(x, r), Assigned(h, x, p))
  {
    ApplyConserves(h, Operation.AssignRaw(x, p));
  }

  lemma MoveAssignStep<H, O>(h: Heap<H, O>, x: H, r: H)
    requires Conserved(h) && x in h.ptr && r in h.ptr
    ensures NullOrLive(h, h.ptr[x]) && Completes(h, Operation.AssignMove(x, r), MoveAssigned(h, x, r))
  {
    ApplyConserves(h, Operation.AssignMove(x, r));
  }

  lemma SwapStep<H, O>(h: Heap<H, O>, x: H, r: H)
    requires Conserved(h) && x in h.ptr && r in h.ptr
    ensures Completes(h, Swap(x, r), Swapped(h, x, r))
  {
    ApplyConserves(h, Swap(x, r));
  }

  lemma SwapRawStep<H, O>(h: Heap<H, O>, x: H, p: Option<O>)
    requires Conserved(h) && x in h.ptr && (p.Some? ==> p.value in h.raw)
    ensures Completes(h, Operation.SwapRaw(x, p), SwappedRaw(h, x, p))
  {
    ApplyConserves(h, Operation.SwapRaw(x, p));
  }

  /** The operation is permitted, leads from h to h', and keeps the balance. */
  ghost predicate Completes<H, O>(h: Heap<H, O>, op: Operation<H, O>, h': Heap<H, O>) {
    Permitted(h, op) && Defined(h, op) && h' == Apply(h, op) && Conserved(h')
  }

  /** What the operations do, handle by handle and object by object. */
  lemma HandlesAfter<H, O>(h: Heap<H, O>, op: Operation<H, O>, y: H)
    requires Conserved(h) && Permitted(h, op)
    ensures Defined(h, op)
    ensures var h' := Apply(h, op);
            match op
            case NewObject(_) => h'.ptr == h.ptr
            case Construct(x, p) => h'.ptr.Keys == h.ptr.Keys + {x} && h'.ptr[x] == p && SameAt(h, h', y, {x})
            case CopyConstruct(x, r) =>
              h'.ptr.Keys == h.ptr.Keys + {x} && h'.ptr[x] == h.ptr[r] && SameAt(h, h', y, {x})
            case MoveConstruct(x, r) =>
              && h'.ptr.Keys == h.ptr.Keys + {x}
              && h'.ptr[x] == h.ptr[r] && h'.ptr[r] == None && SameAt(h, h', y, {x, r})
            case Destroy(x) => h'.ptr.Keys == h.ptr.Keys - {x} && SameAt(h, h', y, {x})
            case ReleaseHandle(x) => h'.ptr.Keys == h.ptr.Keys && h'.ptr[x] == None && SameAt(h, h', y, {x})
            case AssignRaw(x, p) => h'.ptr.Keys == h.ptr.Keys && h'.ptr[x] == p && SameAt(h, h', y, {x})
            case AssignCopy(x, r) => h'.ptr.Keys == h.ptr.Keys && h'.ptr[x] == h.ptr[r] && SameAt(h, h', y, {x})
            case AssignMove(x, r) =>
              && h'.ptr.Keys == h.ptr.Keys && h'.ptr[x] == h.ptr[r]
              && (x != r ==> h'.ptr[r] == None) && SameAt(h, h', y, {x, r})
            case Swap(x, r) =>
              && h'.ptr.Keys == h.ptr.Keys
              && h'.ptr[x] == h.ptr[r] && h'.ptr[r] == h.ptr[x] && SameAt(h, h', y, {x, r})
            case SwapRaw(x, p) => h'.ptr.Keys == h.ptr.Keys && h'.ptr[x] == p && SameAt(h, h', y, {x})
            case RawAddRef(_) => h'.ptr == h.ptr
            case RawRelease(_) => h'.ptr == h.ptr
  {
    PermittedIsDefined(h, op);
  }

  ghost predicate SameAt<H, O>(h: Heap<H, O>, h': Heap<H, O>, y: H, except: set<H>) {
    y !in except && y in h.ptr ==> y in h'.ptr && h'.ptr[y] == h.ptr[y]
  }

  /** Raw references come from releasing and swapping handles and from AddRef, and go by swapping and by
      Release. */
  lemma RawReferencesAfter<H, O>(h: Heap<H, O>, op: Operation<H, O>, o: O)
    requires Conserved(h) && Permitted(h, op)
    ensures Defined(h, op)
    ensures var come := (op.ReleaseHandle? || op.SwapRaw?) && h.ptr[op.x] == Some(o);
            var go := op.SwapRaw? && op.p == Some(o);
            Apply(h, op).raw[o] == h.raw[o] + (if come then 1 else 0) - (if go then 1 else 0)
                                   + (if op == RawAddRef(o) then 1 else 0) - (if op == RawRelease(o) then 1 else 0)
  {
    PermittedIsDefined(h, op);
    if !op.NewObject? {
      ApplyInParts(h, op);
      hide Conserved, Apply, Less, AfterAddRef, AfterRelease, Defined, Taken, Given, PointersAfter;
      if op.SwapRaw? {
        LessCounts(h.raw, op.p, o);
      } else if op.RawRelease? {
        LessCounts(h.raw, Some(op.o), o);
      }
    }
  }

  lemma LessCounts<O>(m: multiset<O>, p: Option<O>, o: O)
    requires p.Some? ==> p.value in m
    ensures Less(m, p)[o] == m[o] - if p == Some(o) then 1 else 0
  {
  }

  // The classes.

  class RefCountedBase {
    var refCount: int
    var deleted: bool

    constructor ()
      ensures refCount == 0 && !deleted
    {
      refCount := 0;
      deleted := false;
    }

    method AddRef()
      requires !deleted
      modifies this`refCount
      ensures refCount == old(refCount) + 1
    {
      refCount := refCount + 1;
    }

    method Release() returns (droppedLastRef: bool)
      requires !deleted
      modifies this
      ensures refCount == old(refCount) - 1
      ensures droppedLastRef == deleted == (refCount == 0)
    {
      refCount := refCount - 1;
      droppedLastRef := refCount == 0;
      if droppedLastRef {
        deleted := true;
      }
    }
  }

  ghost function Opt(p: RefCountedBase?): Option<RefCountedBase> {
    if p == null then None else Some(p)
  }

  /** The handles and objects of a program, and the raw references it holds. */
  class World {
    ghost var handles: set<ScopedRefPtr>
    ghost var objects: set<RefCountedBase>
    ghost var raw: multiset<RefCountedBase>

    ghost function Pointers(): map<ScopedRefPtr, Option<RefCountedBase>>
      reads this`handles, handles`ptr
    {
      map x | x in handles :: Opt(x.ptr)
    }

    ghost function Counts(): map<RefCountedBase, int>
      reads this`objects, objects`refCount
    {
      map o | o in objects :: o.refCount
    }

    ghost function Deleted(): set<RefCountedBase>
      reads this`objects, objects`deleted
    {
      set o | o in objects && o.deleted
    }

    ghost function View(): Heap<ScopedRefPtr, RefCountedBase>
      reads this, handles`ptr, objects
    {
      Heap(Pointers(), Counts(), Deleted(), raw)
    }

    constructor ()
      ensures Conserved(View()) && View() == Heap(map[], map[], {}, multiset{})
    {
      handles, objects, raw := {}, {}, multiset{};
    }
  }

  method AddRefIfAny(p: RefCountedBase?, ghost w: World)
    requires NullOrLive(w.View(), Opt(p))
    modifies p
    ensures w.View() == AfterAddRef(old(w.View()), Opt(p))
  {
    if p != null {
      p.AddRef();
    }
    assert w.Deleted() == old(w.Deleted());
  }

  method ReleaseIfAny(p: RefCountedBase?, ghost w: World)
    requires NullOrLive(w.View(), Opt(p))
    modifies p
    ensures w.View() == AfterRelease(old(w.View()), Opt(p))
  {
    if p != null {
      var _ := p.Release();
    }
  }

  /** A new object; nothing refers to it yet. */
  method MakeObject(ghost w: World) returns (o: RefCountedBase)
    requires Conserved(w.View())
    modifies w`objects
    ensures fresh(o) && w.handles == old(w.handles) && w.objects == old(w.objects) + {o}
    ensures Completes(old(w.View()), NewObject(o), w.View())
  {
    o := new RefCountedBase();
    w.objects := w.objects + {o};
    assert w.Counts() == old(w.Counts())[o := 0] && w.Deleted() == old(w.Deleted());
    hide Conserved;
    ApplyConserves(old(w.View()), NewObject(o));
  }

  /** AddRef called directly. */
  method TakeReference(o: RefCountedBase, ghost w: World)
    requires Conserved(w.View()) && Live(w.View(), o)
    modifies w`raw, o
    ensures w.handles == old(w.handles) && w.objects == old(w.objects)
    ensures Completes(old(w.View()), RawAddRef(o), w.View())
  {
    hide Conserved;
    ApplyConserves(w.View(), RawAddRef(o));
    AddRefIfAny(o, w);
    label taken:
    w.raw := w.raw + multiset{o};
    assert w.Counts() == old@taken(w.Counts()) && w.Deleted() == old@taken(w.Deleted())
           && w.Pointers() == old@taken(w.Pointers());
  }

  /** Release called directly, by who owns a reference. */
  method GiveReference(o: RefCountedBase, ghost w: World)
    requires Conserved(w.View()) && o in w.raw
    modifies w`raw, o
    ensures w.handles == old(w.handles) && w.objects == old(w.objects)
    ensures Completes(old(w.View()), RawRelease(o), w.View())
  {
    hide Conserved, Less;
    ApplyConserves(w.View(), RawRelease(o));
    ReleaseIfAny(o, w);
    label given:
    w.raw := Less(w.raw, Some(o));
    assert w.Counts() == old@given(w.Counts()) && w.Deleted() == old@given(w.Deleted())
           && w.Pointers() == old@given(w.Pointers());
  }

  class ScopedRefPtr {
    var ptr: RefCountedBase?

    constructor FromRaw(p: RefCountedBase?, ghost w: World)
      requires Conserved(w.View()) && NullOrLive(w.View(), Opt(p))
      modifies w`handles, p
      ensures ptr == p
      ensures this !in old(w.handles) && w.handles == old(w.handles) + {this} && w.objects == old(w.objects)
      ensures Completes(old(w.View()), Construct(this, Opt(p)), w.View())
    {
      hide Conserved, Completes, Live;
      ptr := p;
      new;
      ConstructStep(old(w.View()), this, Opt(p));
      AddRefIfAny(p, w);
      label added:
      w.handles := w.handles + {this};
      assert w.Counts() == old@added(w.Counts()) && w.Deleted() == old@added(w.Deleted());
      assert w.Pointers() == old(w.Pointers())[this := Opt(p)];
    }

    constructor Copy(r: ScopedRefPtr, ghost w: World)
      requires Conserved(w.View()) && r in w.handles
      modifies w`handles, r.ptr
      ensures ptr == r.ptr == old(r.ptr)
      ensures this !in old(w.handles) && w.handles == old(w.handles) + {this} && w.objects == old(w.objects)
      ensures Completes(old(w.View()), CopyConstruct(this, r), w.View())
    {
      hide Conserved, Completes, Live;
      ptr := r.ptr;
      new;
      HandlesAreLive(old(w.View()), r);
      ConstructStep(old(w.View()), this, Opt(r.ptr));
      AddRefIfAny(ptr, w);
      label added:
      w.handles := w.handles + {this};
      assert w.Counts() == old@added(w.Counts()) && w.Deleted() == old@added(w.Deleted());
      assert w.Pointers() == old(w.Pointers())[this := Opt(ptr)];
      assert old(w.View()).ptr[r] == Opt(ptr);
    }

    constructor Move(r: ScopedRefPtr, ghost w: World)
      requires Conserved(w.View()) && r in w.handles
      modifies w`handles, r
      ensures ptr == old(r.ptr) && r.ptr == null
      ensures this !in old(w.handles) && w.handles == old(w.handles) + {this} && w.objects == old(w.objects)
      ensures Completes(old(w.View()), MoveConstruct(this, r), w.View())
    {
      hide Conserved, Completes;
      ptr := r.ptr;
      new;
      MoveStep(old(w.View()), this, r);
      r.ptr := null;
      w.handles := w.handles + {this};
      assert w.Pointers() == old(w.Pointers())[r := None][this := Opt(old(r.ptr))];
    }

    /** The destructor. */
    method Destroy(ghost w: World)
      requires Conserved(w.View()) && this in w.handles
      modifies w`handles, ptr
      ensures w.handles == old(w.handles) - {this} && w.objects == old(w.objects)
      ensures Completes(old(w.View()), Operation.Destroy(this), w.View())
    {
      hide Conserved, Completes, Live;
      DestroyStep(w.View(), this);
      ReleaseIfAny(ptr, w);
      label released:
      w.handles := w.handles - {this};
      assert w.Counts() == old@released(w.Counts()) && w.Deleted() == old@released(w.Deleted());
      assert w.Pointers() == old(w.Pointers()) - {this};
    }

    /** release(): the caller now owns the reference. */
    method Release(ghost w: World) returns (r: RefCountedBase?)
      requires Conserved(w.View()) && this in w.handles
      modifies w`raw, this
      ensures r == old(ptr) && ptr == null && w.handles == old(w.handles) && w.objects == old(w.objects)
      ensures Completes(old(w.View()), ReleaseHandle(this), w.View())
    {
      hide Conserved, Completes, One;
      ReleaseStep(w.View(), this);
      r := ptr;
      ptr := null;
      w.raw := w.raw + One(Opt(r));
      assert w.Pointers() == old(w.Pointers())[this := None];
    }

    /** The new object is taken before the old one is given up, which matters when they are the same. */
    method AssignRaw(p: RefCountedBase?, ghost w: World)
      requires Conserved(w.View()) && this in w.handles && NullOrLive(w.View(), Opt(p))
      modifies this, p, ptr
      ensures ptr == p
      ensures w.handles == old(w.handles) && w.objects == old(w.objects)
      ensures Completes(old(w.View()), Operation.AssignRaw(this, Opt(p)), w.View())
    {
      hide Conserved, Completes, Live, AfterAddRef, AfterRelease;
      AssignStep(w.View(), this, Opt(p));
      AddRefKeepsLive(w.View(), Opt(p), Opt(ptr));
      AddRefIfAny(p, w);
      ReleaseIfAny(ptr, w);
      Store(p, w);
    }

    method Store(p: RefCountedBase?, ghost w: World)
      requires this in w.handles
      modifies this
      ensures ptr == p && w.View() == old(w.View()).(ptr := old(w.View()).ptr[this := Opt(p)])
    {
      ptr := p;
      assert w.Counts() == old(w.Counts()) && w.Deleted() == old(w.Deleted());
      assert w.Pointers() == old(w.Pointers())[this := Opt(p)];
    }

    method AssignCopy(r: ScopedRefPtr, ghost w: World)
      requires Conserved(w.View()) && this in w.handles && r in w.handles
      modifies this, r.ptr, ptr
      ensures ptr == r.ptr == old(r.ptr)
      ensures w.handles == old(w.handles) && w.objects == old(w.objects)
      ensures Completes(old(w.View()), Operation.AssignCopy(this, r), w.View())
    {
      hide Conserved, Live;
      HandlesAreLive(w.View(), r);
      assert w.View().ptr[r] == Opt(r.ptr);
      AssignStep(w.View(), this, Opt(r.ptr));
      AssignRaw(r.ptr, w);
    }

    method AssignMove(r: ScopedRefPtr, ghost w: World)
      requires Conserved(w.View()) && this in w.handles && r in w.handles
      modifies w`handles, this, r, ptr
      ensures ptr == old(r.ptr) && (r != this ==> r.ptr == null)
      ensures w.handles == old(w.handles) && w.objects == old(w.objects)
      ensures Completes(old(w.View()), Operation.AssignMove(this, r), w.View())
    {
      hide Conserved, Live;
      MoveAssignStep(w.View(), this, r);
      var temporary := new ScopedRefPtr.Move(r, w);
      SwapStep(w.View(), temporary, this);
      temporary.SwapWith(this, w);
      MoveThroughTemporary(old(w.View()), this, r, temporary);
      DestroyStep(w.View(), temporary);
      temporary.Destroy(w);
    }

    /** swap(T**): exchanges the pointer with a raw pointer variable, whose new value is returned. */
    method SwapRaw(p: RefCountedBase?, ghost w: World) returns (q: RefCountedBase?)
      requires Conserved(w.View()) && this in w.handles && (p != null ==> p in w.raw)
      modifies w`raw, this
      ensures q == old(ptr) && ptr == p && w.handles == old(w.handles) && w.objects == old(w.objects)
      ensures Completes(old(w.View()), Operation.SwapRaw(this, Opt(p)), w.View())
    {
      hide Conserved, Completes, Less, One;
      SwapRawStep(w.View(), this, Opt(p));
      q := ptr;
      ptr := p;
      assert w.Pointers() == old(w.Pointers())[this := Opt(p)];
      w.raw := Less(w.raw, Opt(p)) + One(Opt(q));
      assert w.Counts() == old(w.Counts()) && w.Deleted() == old(w.Deleted());
      assert w.View() == SwappedRaw(old(w.View()), this, Opt(p));
    }

    method SwapWith(r: ScopedRefPtr, ghost w: World)
      requires Conserved(w.View()) && this in w.handles && r in w.handles
      modifies this, r
      ensures ptr == old(r.ptr) && r.ptr == old(ptr)
      ensures w.handles == old(w.handles) && w.objects == old(w.objects)
      ensures Completes(old(w.View()), Swap(this, r), w.View())
    {
      hide Conserved, Completes;
      SwapStep(w.View(), this, r);
      var p := ptr;
      ptr := r.ptr;
      r.ptr := p;
      assert w.Pointers() == old(w.Pointers())[this := Opt(old(r.ptr))][r := Opt(p)];
    }
  }

  lemma AddRefKeepsLive<H, O>(h: Heap<H, O>, p: Option<O>, q: Option<O>)
    requires NullOrLive(h, p) && NullOrLive(h, q)
    ensures NullOrLive(AfterAddRef(h, p), q)
  {
  }

  lemma HandlesAreLive<H, O>(h: Heap<H, O>, x: H)
    requires Conserved(h) && x in h.ptr
    ensures NullOrLive(h, h.ptr[x])
  {
  }

  /** Move assignment as the code does it: move into a temporary, swap, destroy the temporary. */
  lemma MoveThroughTemporary<H, O>(h: Heap<H, O>, x: H, r: H, t: H)
    requires x in h.ptr && r in h.ptr && t !in h.ptr && NullOrLive(h, h.ptr[x])
    ensures var h2 := Swapped(MoveConstructed(h, t, r), t, x);
            NullOrLive(h2, h2.ptr[t]) && Destroyed(h2, t) == MoveAssigned(h, x, r)
  {
    var h1 := MoveConstructed(h, t, r);
    assert h1.ptr[x] == if x == r then None else h.ptr[x];
    assert Swapped(h1, t, x).ptr - {t} == h.ptr[r := None][x := h.ptr[r]];
  }
}
