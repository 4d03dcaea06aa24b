/**
 * Deferred attribute-assignment registration (`_can_assign_attr` and
 * `AstroidBuilder.delayed_assattr`) as a fold over the candidates that
 * inference yields for the assigned object.
 */
module AttributeResolution {
  import opened Symbols

  /** What a class's `slots()` gives. */
  datatype Slots =
    | SlotsUnsupported               // `slots()` raises NotImplementedError
    | NoSlots                        // `slots()` returns None: no `__slots__` declared
    | Declared(names: seq<string>)   // the values of the declared slot nodes, possibly none

  /** `_can_assign_attr`: may instances of a class with these slots receive `attrname`? */
  function CanAssignAttr(slots: Slots, attrname: string): (ok: bool)
    ensures ok <==> (slots.Declared? ==> slots.names == [] || attrname in slots.names)
  {
    match slots
    case Declared(names) => !(|names| > 0 && attrname !in names)
    case _ => true
  }

  /** One result of inferring the assigned object. */
  datatype Candidate =
    | Uninferable                               // `util.Uninferable`
    | ExactInstance(proxied: NodeId, slots: Slots) // a `bases.Instance` itself, with its class and the class's slots
    | InstanceSubclass                          // a subclass of `bases.Instance`: Const, Tuple, ...
    | Function(scope: NodeId)                   // `is_function` holds
    | OtherScope(scope: NodeId)                 // any other scope: a class, a module, ...
    | Broken                                    // reading one of the attributes above raises AttributeError

  /** Where a candidate sends the assignment. */
  datatype Target = Skip | Into(ref: TableRef)

  /** The dispatch of `delayed_assattr` over one candidate. */
  function TargetOf(c: Candidate, attrname: string): (r: Target)
    ensures r.Skip? <==> (c.Uninferable? || c.InstanceSubclass? || c.Broken?
                          || (c.ExactInstance? && !CanAssignAttr(c.slots, attrname)))
    ensures c.ExactInstance? && r.Into? ==> r.ref == InstanceAttrs(c.proxied)
    ensures c.Function? ==> r == Into(InstanceAttrs(c.scope))
    ensures c.OtherScope? ==> r == Into(Locals(c.scope))
  {
    match c
    case Uninferable => Skip
    case ExactInstance(cls, slots) => if CanAssignAttr(slots, attrname) then Into(InstanceAttrs(cls)) else Skip
    case InstanceSubclass => Skip
    case Function(scope) => Into(InstanceAttrs(scope))
    case OtherScope(scope) => Into(Locals(scope))
    case Broken => Skip
  }

  /** What `node.expr.infer()` produced: the candidates yielded, and whether it then raised InferenceError. */
  datatype Inference = Inference(yielded: seq<Candidate>, raised: bool)

  /** A pending `obj.attrname = value` record: the assignment node and the inference of `obj`. */
  datatype AssignAttr = AssignAttr(node: Node, attrname: string, inference: Inference)

  /**
   * Where a new assignment node goes in a binding list that does not hold it yet:
   * first when it sits in a constructor and the current first entry does not,
   * last otherwise.
   */
  function PlaceAssignment(values: Bindings, n: Node): (r: Bindings)
    ensures |r| == |values| + 1
    ensures r == [n] + values || r == values + [n]
    ensures r[0] == n || r[0] == values[0]
    ensures n.frameName == "__init__" && values != [] && values[0].frameName != "__init__" ==> r == [n] + values
    ensures !(n.frameName == "__init__" && values != [] && values[0].frameName != "__init__") ==> r == values + [n]
  {
    if n.frameName == "__init__" && values != [] && values[0].frameName != "__init__" then [n] + values
    else values + [n]
  }

  /** The set of tables a sequence of candidates sends the assignment to. */
  function Targets(cs: seq<Candidate>, attrname: string): set<TableRef>
  {
    set c | c in cs && TargetOf(c, attrname).Into? :: TargetOf(c, attrname).ref
  }

  /** Handles one candidate: skip it, leave a list that already holds the node, or place the node. */
  function Apply(t: Tables, n: Node, attrname: string, c: Candidate): Tables
  {
    match TargetOf(c, attrname)
    case Skip => t
    case Into(ref) =>
      var values := Lookup(t, ref, attrname);
      if Holds(values, n) then t else Store(t, ref, attrname, PlaceAssignment(values, n))
  }

  /** Handles the candidates in the order inference yields them. */
  function ApplyAll(t: Tables, n: Node, attrname: string, cs: seq<Candidate>): Tables
  {
    if cs == [] then t
    else Apply(ApplyAll(t, n, attrname, cs[..|cs| - 1]), n, attrname, cs[|cs| - 1])
  }

  /**
   * The effect of resolving one record. An InferenceError ends the candidate
   * stream early: what was handled before it stays, and nothing propagates.
   */
  function Resolve(t: Tables, rec: AssignAttr): Tables
  {
    ApplyAll(t, rec.node, rec.attrname, rec.inference.yielded)
  }

  /** What one table's list for the attribute becomes once the record is resolved. */
  function Registered(values: Bindings, n: Node): Bindings
  {
    if Holds(values, n) then values else PlaceAssignment(values, n)
  }

  /**
   * Resolution is characterised per table, independently of the order and
   * repetition of the candidates: a table some candidate targets ends with the
   * node registered once in the attribute's list; every other list is untouched.
   */
  lemma {:induction false} ApplyAllEffect(t: Tables, n: Node, attrname: string, cs: seq<Candidate>)
    ensures forall ref :: ref in Targets(cs, attrname) ==>
              Lookup(ApplyAll(t, n, attrname, cs), ref, attrname) == Registered(Lookup(t, ref, attrname), n)
    ensures forall ref, name :: (name != attrname || ref !in Targets(cs, attrname)) ==>
              Lookup(ApplyAll(t, n, attrname, cs), ref, name) == Lookup(t, ref, name)
  {
    if cs != [] {
      var init, c := cs[..|cs| - 1], cs[|cs| - 1];
      ApplyAllEffect(t, n, attrname, init);
      assert cs == init + [c];
      var mid := ApplyAll(t, n, attrname, init);
      assert Targets(cs, attrname) == Targets(init, attrname) + (if TargetOf(c, attrname).Into? then {TargetOf(c, attrname).ref} else {});
      match TargetOf(c, attrname)
      case Skip =>
      case Into(ref) =>
        var values := Lookup(mid, ref, attrname);
        if !Holds(values, n) {
          assert ref !in Targets(init, attrname) by {
            if ref in Targets(init, attrname) {
              PlacedHolds(Lookup(t, ref, attrname), n);
            }
          }
        }
    }
  }

  lemma PlacedHolds(values: Bindings, n: Node)
    ensures Holds(Registered(values, n), n)
  {
    if !Holds(values, n) {
      var r := PlaceAssignment(values, n);
      if r == [n] + values { assert r[0] == n; } else { assert r[|r| - 1] == n; }
    }
  }

  /** Once every targeted list holds the node, handling the candidates changes nothing. */
  lemma {:induction false} ApplyAllWhenRegistered(t: Tables, n: Node, attrname: string, cs: seq<Candidate>)
    requires forall ref :: ref in Targets(cs, attrname) ==> Holds(Lookup(t, ref, attrname), n)
    ensures ApplyAll(t, n, attrname, cs) == t
  {
    if cs != [] {
      var init := cs[..|cs| - 1];
      assert cs == init + [cs[|cs| - 1]];
      assert Targets(init, attrname) <= Targets(cs, attrname);
      ApplyAllWhenRegistered(t, n, attrname, init);
    }
  }

  /** Idempotence: resolving the same record twice never duplicates its entry. */
  lemma ResolveIdempotent(t: Tables, rec: AssignAttr)
    ensures Resolve(Resolve(t, rec), rec) == Resolve(t, rec)
  {
    var cs := rec.inference.yielded;
    ApplyAllEffect(t, rec.node, rec.attrname, cs);
    forall ref | ref in Targets(cs, rec.attrname)
      ensures Holds(Lookup(Resolve(t, rec), ref, rec.attrname), rec.node)
    {
      PlacedHolds(Lookup(t, ref, rec.attrname), rec.node);
    }
    ApplyAllWhenRegistered(Resolve(t, rec), rec.node, rec.attrname, cs);
  }

  /** Candidates that all skip (unknown, literal-like instances, slot-rejected classes) change nothing at all. */
  lemma {:induction false} SkippedCandidatesChangeNothing(t: Tables, n: Node, attrname: string, cs: seq<Candidate>)
    requires forall i :: 0 <= i < |cs| ==> TargetOf(cs[i], attrname).Skip?
    ensures ApplyAll(t, n, attrname, cs) == t
  {
    if cs != [] {
      SkippedCandidatesChangeNothing(t, n, attrname, cs[..|cs| - 1]);
    }
  }

  /** Handling candidates in two runs is handling them all in one. */
  lemma {:induction false} ApplyAllAppend(t: Tables, n: Node, attrname: string, cs: seq<Candidate>, more: seq<Candidate>)
    ensures ApplyAll(t, n, attrname, cs + more) == ApplyAll(ApplyAll(t, n, attrname, cs), n, attrname, more)
    decreases |more|
  {
    if more == [] {
      assert cs + more == cs;
    } else {
      var init := more[..|more| - 1];
      ApplyAllAppend(t, n, attrname, cs, init);
      assert (cs + more)[..|cs + more| - 1] == cs + init;
    }
  }

  /**
   * Abandonment: when inference raises InferenceError after yielding `cs`, the
   * record's effect is exactly that of the candidates handled so far; a full
   * run that goes on to yield `more` only continues from there. `Resolve`
   * never reads `raised`: the error only ends the candidate stream, so this is
   * `ApplyAllAppend` read at the level of whole records.
   */
  lemma AbandonedIsPrefix(t: Tables, n: Node, attrname: string, cs: seq<Candidate>, more: seq<Candidate>)
    ensures Resolve(t, AssignAttr(n, attrname, Inference(cs + more, false)))
         == ApplyAll(Resolve(t, AssignAttr(n, attrname, Inference(cs, true))), n, attrname, more)
  {
    ApplyAllAppend(t, n, attrname, cs, more);
  }

  /**
   * A candidate that is skipped (unknown, literal-like, slot-rejected, or one
   * whose attributes cannot be read) drops out without affecting the others.
   */
  lemma {:induction false} SkippedCandidateDropsOut(t: Tables, n: Node, attrname: string, cs: seq<Candidate>, k: nat)
    requires k < |cs| && TargetOf(cs[k], attrname).Skip?
    ensures ApplyAll(t, n, attrname, cs) == ApplyAll(t, n, attrname, cs[..k] + cs[k + 1..])
  {
    var init, last := cs[..|cs| - 1], cs[|cs| - 1];
    var rest := cs[..k] + cs[k + 1..];
    var before := ApplyAll(t, n, attrname, init);
    assert ApplyAll(t, n, attrname, cs) == Apply(before, n, attrname, last);
    if k == |cs| - 1 {
      assert rest == init;
      assert Apply(before, n, attrname, last) == before;
    } else {
      SkippedCandidateDropsOut(t, n, attrname, init, k);
      assert rest[..|rest| - 1] == init[..k] + init[k + 1..];
      assert rest[|rest| - 1] == last;
      assert ApplyAll(t, n, attrname, rest) == Apply(ApplyAll(t, n, attrname, init[..k] + init[k + 1..]), n, attrname, last);
    }
  }

  /** Inference that yields only the unknown sentinel leaves the attribute unregistered. */
  lemma OnlyUninferableDropped(t: Tables, rec: AssignAttr)
    requires forall i :: 0 <= i < |rec.inference.yielded| ==> rec.inference.yielded[i] == Uninferable
    ensures Resolve(t, rec) == t
  {
    SkippedCandidatesChangeNothing(t, rec.node, rec.attrname, rec.inference.yielded);
  }

  /**
   * Slot rejection: when every candidate is an instance whose class declares
   * slots that exclude the attribute, no instance-attribute table gains it.
   */
  lemma SlotRejection(t: Tables, rec: AssignAttr)
    requires forall i :: 0 <= i < |rec.inference.yielded| ==>
               var c := rec.inference.yielded[i];
               c.ExactInstance? && c.slots.Declared? && c.slots.names != [] && rec.attrname !in c.slots.names
    ensures Resolve(t, rec) == t
  {
    SkippedCandidatesChangeNothing(t, rec.node, rec.attrname, rec.inference.yielded);
  }

  /** A list whose constructor assignments, if any, include its first entry. */
  ghost predicate ConstructorFirst(values: Bindings)
  {
    (exists k :: 0 <= k < |values| && values[k].frameName == "__init__") ==> values[0].frameName == "__init__"
  }

  /**
   * Constructor precedence: placing a node keeps a constructor assignment at
   * the head of the list, whatever order the assignments arrive in.
   */
  lemma PlaceKeepsConstructorFirst(values: Bindings, n: Node)
    requires ConstructorFirst(values)
    ensures ConstructorFirst(PlaceAssignment(values, n))
  {
    var r := PlaceAssignment(values, n);
    if exists k :: 0 <= k < |r| && r[k].frameName == "__init__" {
      var k :| 0 <= k < |r| && r[k].frameName == "__init__";
      if r == values + [n] && values != [] && k < |values| {
        assert values[k] == r[k];
      }
    }
  }

  /** Resolution keeps every attribute list constructor-first. */
  lemma ResolveKeepsConstructorFirst(t: Tables, rec: AssignAttr)
    requires forall ref :: ConstructorFirst(Lookup(t, ref, rec.attrname))
    ensures forall ref :: ConstructorFirst(Lookup(Resolve(t, rec), ref, rec.attrname))
  {
    ApplyAllEffect(t, rec.node, rec.attrname, rec.inference.yielded);
    forall ref ensures ConstructorFirst(Lookup(Resolve(t, rec), ref, rec.attrname)) {
      if !Holds(Lookup(t, ref, rec.attrname), rec.node) {
        PlaceKeepsConstructorFirst(Lookup(t, ref, rec.attrname), rec.node);
      }
    }
  }

  /** The delayed-assattr queue, drained in order. */
  function AssattrStage(t: Tables, queue: seq<AssignAttr>): Tables
  {
    if queue == [] then t
    else Resolve(AssattrStage(t, queue[..|queue| - 1]), queue[|queue| - 1])
  }

  /** Resolution only ever adds: a node held by some list stays held. */
  lemma ResolveKeeps(t: Tables, rec: AssignAttr, ref: TableRef, name: string, m: Node)
    requires Holds(Lookup(t, ref, name), m)
    ensures Holds(Lookup(Resolve(t, rec), ref, name), m)
  {
    ApplyAllEffect(t, rec.node, rec.attrname, rec.inference.yielded);
    var values := Lookup(t, ref, name);
    if name == rec.attrname && ref in Targets(rec.inference.yielded, rec.attrname) && !Holds(values, rec.node) {
      var k :| 0 <= k < |values| && values[k].id == m.id;
      var r := PlaceAssignment(values, rec.node);
      if r == [rec.node] + values { assert r[k + 1] == values[k]; } else { assert r[k] == values[k]; }
    }
  }

  /** After the stage, every record's node is held by every table its candidates target. */
  lemma {:induction false} AssattrStageRegisters(t: Tables, queue: seq<AssignAttr>)
    ensures forall i, ref :: 0 <= i < |queue| && ref in Targets(queue[i].inference.yielded, queue[i].attrname) ==>
              Holds(Lookup(AssattrStage(t, queue), ref, queue[i].attrname), queue[i].node)
  {
    if queue != [] {
      var init, last := queue[..|queue| - 1], queue[|queue| - 1];
      AssattrStageRegisters(t, init);
      var mid := AssattrStage(t, init);
      ApplyAllEffect(mid, last.node, last.attrname, last.inference.yielded);
      forall i, ref | 0 <= i < |queue| && ref in Targets(queue[i].inference.yielded, queue[i].attrname)
        ensures Holds(Lookup(AssattrStage(t, queue), ref, queue[i].attrname), queue[i].node)
      {
        if i < |init| {
          assert queue[i] == init[i];
          ResolveKeeps(mid, last, ref, queue[i].attrname, queue[i].node);
        } else {
          PlacedHolds(Lookup(mid, ref, last.attrname), last.node);
        }
      }
    }
  }

  /** A stage over records whose nodes are all registered already changes nothing. */
  lemma {:induction false} AssattrStageWhenRegistered(t: Tables, queue: seq<AssignAttr>)
    requires forall i, ref :: 0 <= i < |queue| && ref in Targets(queue[i].inference.yielded, queue[i].attrname) ==>
               Holds(Lookup(t, ref, queue[i].attrname), queue[i].node)
    ensures AssattrStage(t, queue) == t
  {
    if queue != [] {
      var init, last := queue[..|queue| - 1], queue[|queue| - 1];
      AssattrStageWhenRegistered(t, init);
      ApplyAllWhenRegistered(t, last.node, last.attrname, last.inference.yielded);
    }
  }

  /** Draining the same queue a second time never duplicates an entry: the tables stay as they are. */
  lemma AssattrStageIdempotent(t: Tables, queue: seq<AssignAttr>)
    ensures AssattrStage(AssattrStage(t, queue), queue) == AssattrStage(t, queue)
  {
    AssattrStageRegisters(t, queue);
    AssattrStageWhenRegistered(AssattrStage(t, queue), queue);
  }
}
