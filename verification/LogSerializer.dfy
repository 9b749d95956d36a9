/** The log serialiser on arbitrary object graphs: cycles, depth limit, throwing getters and redaction hooks. */
module LogSerializer {
  import opened Common

  type Ref = nat

  datatype Value =
    | Null
    | Undefined
    | Text(s: string)
    | Flag(b: bool)
    | BigInt(n: int)
    | Finite(x: real)
    | NonFinite(kind: string)
    | Symbol(description: string)
    | Func(name: string)
    | Obj(ref: Ref)

  /** Reading a property may throw. */
  datatype Slot = Holds(value: Value) | Throws

  datatype Prop = Prop(key: string, slot: Slot)

  /** `Hostile` objects throw when they are inspected. */
  datatype Node =
    | Plain(props: seq<Prop>)
    | Array(items: seq<Value>)
    | SetOf(items: seq<Value>)
    | MapOf(entries: seq<(Value, Value)>)
    | Date(iso: Option<string>)
    | Error(message: Slot, name: Slot, stack: Slot, code: Slot, cause: Slot, errors: Option<seq<Value>>,
        props: seq<Prop>)
    | Hostile

  type Heap = map<Ref, Node>

  /** What is serialised below an object; `hooked` children pass the redaction hooks first. */
  datatype Child = Child(trail: seq<string>, key: string, value: Value, hooked: bool)

  datatype HookResult = Keep | Replace(value: Value) | HookThrows
  type Redactor = (string, seq<string>, Value) -> HookResult

  /** What is written of an object besides its parts: its kind, and the labels of its parts in order. */
  datatype Shape = ObjectShape(labels: seq<seq<string>>) | ListShape | EntriesShape | DateShape(iso: Option<string>)

  datatype Output =
    | Leaf(value: Value)
    | Circular
    | MaxDepth
    | Unserializable
    | Composite(shape: Shape, parts: seq<Output>)

  const MAX_SERIALIZATION_DEPTH: nat := 12

  function Read(s: Slot): Value {
    if s.Holds? then s.value else Text("[Unserializable]")
  }

  function Lookup(heap: Heap, r: Ref): Node {
    if r in heap then heap[r] else Hostile
  }

  function Number(n: nat): string {
    if n < 10 then [('0' as int + n) as char] else Number(n / 10) + [('0' as int + n % 10) as char]
  }

  function ItemChildren(items: seq<Value>, prefix: seq<string>): seq<Child> {
    seq(|items|, i requires 0 <= i < |items| => Child(prefix + [Number(i)], "", items[i], false))
  }

  function EntryChildren(entries: seq<(Value, Value)>): seq<Child> {
    if entries == [] then []
    else
      var i := |entries| - 1;
      EntryChildren(entries[..i])
      + [Child([Number(i), "key"], "", entries[i].0, false), Child([Number(i), "value"], "", entries[i].1, false)]
  }

  predicate Reserved(key: string) {
    key == "cause" || key == "code" || key == "errors"
  }

  /** Assigning to `__proto__` on the fresh object sets its prototype and leaves no field of that name. */
  const PROTO := "__proto__"

  function PropChildren(props: seq<Prop>, skipReserved: bool): seq<Child> {
    if props == [] then []
    else
      var p := props[|props| - 1];
      var init := PropChildren(props[..|props| - 1], skipReserved);
      if p.key == PROTO || (skipReserved && Reserved(p.key)) then init
      else init + [Child([p.key], p.key, Read(p.slot), true)]
  }

  function OptionalChild(key: string, slot: Slot): seq<Child> {
    if Read(slot).Undefined? then [] else [Child([key], key, Read(slot), true)]
  }

  /** The children of an object in the order in which they are serialised. */
  function Children(n: Node): seq<Child> {
    match n
    case Plain(props) => PropChildren(props, false)
    case Array(items) => ItemChildren(items, [])
    case SetOf(items) => ItemChildren(items, [])
    case MapOf(entries) => EntryChildren(entries)
    case Error(message, name, stack, code, cause, errors, props) =>
      [Child(["message"], "message", Read(message), true),
       Child(["name"], "name", Read(name), true),
       Child(["stack"], "stack", Read(stack), true)]
      + OptionalChild("code", code) + OptionalChild("cause", cause)
      + (if errors.Some? then ItemChildren(errors.value, ["errors"]) else [])
      + PropChildren(props, true)
    case _ => []
  }

  function Labels(cs: seq<Child>): seq<seq<string>> {
    seq(|cs|, i requires 0 <= i < |cs| => cs[i].trail)
  }

  function ShapeOf(n: Node): Shape {
    match n
    case Array(_) => ListShape
    case SetOf(_) => ListShape
    case MapOf(_) => EntriesShape
    case Date(iso) => DateShape(iso)
    case _ => ObjectShape(Labels(Children(n)))
  }

  /** Hooks run in order on the value left by the one before; one that throws is skipped. */
  function Hooked(key: string, value: Value, path: seq<string>, redactors: seq<Redactor>): Value {
    if redactors == [] then value
    else
      var before := Hooked(key, value, path, redactors[..|redactors| - 1]);
      match redactors[|redactors| - 1](key, path, before)
      case Replace(v) => v
      case _ => before
  }

  function ChildValue(c: Child, path: seq<string>, redactors: seq<Redactor>): Value {
    if c.hooked then Hooked(c.key, c.value, path + c.trail, redactors) else c.value
  }

  /** serializeValue as a function of the ancestors it is called with. */
  function Serialized(heap: Heap, v: Value, path: seq<string>, ancestors: set<Ref>, redactors: seq<Redactor>,
                      depth: nat): Output
    decreases MAX_SERIALIZATION_DEPTH + 1 - depth, 1, 0
  {
    if !v.Obj? then Leaf(v)
    else if depth > MAX_SERIALIZATION_DEPTH then MaxDepth
    else if v.ref in ancestors then Circular
    else
      var n := Lookup(heap, v.ref);
      if n.Hostile? then Unserializable
      else Composite(ShapeOf(n), SerializedAll(heap, Children(n), path, ancestors + {v.ref}, redactors, depth + 1))
  }

  function SerializedAll(heap: Heap, cs: seq<Child>, path: seq<string>, ancestors: set<Ref>,
                         redactors: seq<Redactor>, depth: nat): seq<Output>
    requires depth >= 1
    ensures |SerializedAll(heap, cs, path, ancestors, redactors, depth)| == |cs|
    decreases MAX_SERIALIZATION_DEPTH + 2 - depth, 0, |cs|
  {
    if cs == [] then []
    else
      var c := cs[|cs| - 1];
      SerializedAll(heap, cs[..|cs| - 1], path, ancestors, redactors, depth)
      + [if depth <= MAX_SERIALIZATION_DEPTH + 1
         then Serialized(heap, ChildValue(c, path, redactors), path + c.trail, ancestors, redactors, depth)
         else MaxDepth]
  }

  class Serializer {
    var ancestors: set<Ref>
    const heap: Heap
    const redactors: seq<Redactor>

    constructor (heap: Heap, redactors: seq<Redactor>)
      ensures ancestors == {} && this.heap == heap && this.redactors == redactors
    {
      this.ancestors := {};
      this.heap := heap;
      this.redactors := redactors;
    }

    method ApplyRedactionHooks(key: string, value: Value, path: seq<string>) returns (r: Value)
      ensures r == Hooked(key, value, path, redactors)
    {
      r := value;
      var i := 0;
      while i < |redactors|
        invariant 0 <= i <= |redactors| && r == Hooked(key, value, path, redactors[..i])
      {
        assert redactors[..i + 1][..i] == redactors[..i];
        var candidate := redactors[i](key, path, r);
        if candidate.Replace? {
          r := candidate.value;
        }
        i := i + 1;
      }
      assert redactors[..i] == redactors;
    }

    /** The loops over an object's children, at the depth below it. */
    method SerializeChildren(cs: seq<Child>, path: seq<string>, depth: nat) returns (parts: seq<Output>)
      requires 1 <= depth <= MAX_SERIALIZATION_DEPTH + 1
      modifies this
      ensures ancestors == old(ancestors)
      ensures parts == SerializedAll(heap, cs, path, old(ancestors), redactors, depth)
      decreases MAX_SERIALIZATION_DEPTH + 1 - depth, 2
    {
      parts := [];
      var i := 0;
      while i < |cs|
        invariant 0 <= i <= |cs|
        invariant ancestors == old(ancestors)
        invariant parts == SerializedAll(heap, cs[..i], path, old(ancestors), redactors, depth)
      {
        assert cs[..i + 1][..i] == cs[..i];
        var child := cs[i].value;
        if cs[i].hooked {
          child := ApplyRedactionHooks(cs[i].key, child, path + cs[i].trail);
        }
        var part := SerializeValue(child, path + cs[i].trail, depth);
        parts := parts + [part];
        i := i + 1;
      }
      assert cs[..i] == cs;
    }

    /** The ancestors set is extended for the visit and is back to what it was on every way out. */
    method SerializeValue(v: Value, path: seq<string>, depth: nat) returns (r: Output)
      requires depth <= MAX_SERIALIZATION_DEPTH + 1
      modifies this
      ensures ancestors == old(ancestors)
      ensures r == Serialized(heap, v, path, old(ancestors), redactors, depth)
      decreases MAX_SERIALIZATION_DEPTH + 1 - depth, 1
    {
      if !v.Obj? {
        return Leaf(v);
      }
      if depth > MAX_SERIALIZATION_DEPTH {
        return MaxDepth;
      }
      if v.ref in ancestors {
        return Circular;
      }
      ancestors := ancestors + {v.ref};
      var n := Lookup(heap, v.ref);
      if n.Hostile? {
        ancestors := ancestors - {v.ref};
        return Unserializable;
      }
      var parts := SerializeChildren(Children(n), path, depth + 1);
      ancestors := ancestors - {v.ref};
      r := Composite(ShapeOf(n), parts);
    }
  }

  function Keys(props: seq<Prop>): seq<seq<string>> {
    if props == [] then []
    else Keys(props[..|props| - 1]) + [[props[|props| - 1].key]]
  }

  /** A plain object is written with all its own keys, in order, if and only if none of them is `__proto__`. */
  lemma {:induction false} KeysWrittenIff(props: seq<Prop>)
    ensures |Labels(PropChildren(props, false))| <= |props|
    ensures Labels(PropChildren(props, false)) == Keys(props) <==> [PROTO] !in Keys(props)
  {
    if props != [] {
      var init, p := props[..|props| - 1], props[|props| - 1];
      KeysWrittenIff(init);
      var cs := PropChildren(props, false);
      KeysLength(props);
      KeysLength(init);
      if p.key != PROTO {
        assert Labels(cs) == Labels(PropChildren(init, false)) + [[p.key]];
        assert Keys(props) == Keys(init) + [[p.key]];
        SameLast(Labels(PropChildren(init, false)), Keys(init), [p.key]);
      }
    }
  }

  lemma SameLast<T>(a: seq<T>, b: seq<T>, x: T)
    ensures a + [x] == b + [x] <==> a == b
  {
    if a + [x] == b + [x] {
      assert |a + [x]| == |b + [x]| && a == (a + [x])[..|a|] == (b + [x])[..|a|] == b;
    }
  }

  lemma KeysLength(props: seq<Prop>)
    ensures |Keys(props)| == |props|
  {}

  // ---- what is written of lists, maps and errors ----

  /** An object that is entered has a part for each child. */
  lemma PartWritten(heap: Heap, r: Ref, path: seq<string>, ancestors: set<Ref>, redactors: seq<Redactor>, depth: nat,
                    i: nat)
    requires r in heap && !heap[r].Hostile? && r !in ancestors && depth <= 12 && i < |Children(heap[r])|
    ensures var o, c := Serialized(heap, Obj(r), path, ancestors, redactors, depth), Children(heap[r])[i];
            && o.Composite? && o.shape == ShapeOf(heap[r]) && |o.parts| == |Children(heap[r])|
            && o.parts[i] == Serialized(heap, ChildValue(c, path, redactors), path + c.trail, ancestors + {r},
                                        redactors, depth + 1)
  {
    Opened(heap, Obj(r), path, ancestors, redactors, depth);
    PartAt(heap, Children(heap[r]), path, ancestors + {r}, redactors, depth + 1, i);
  }

  /** An array or a set: every item in order, under its index, not passed through the hooks. */
  lemma ListWritten(heap: Heap, r: Ref, items: seq<Value>, path: seq<string>, ancestors: set<Ref>,
                    redactors: seq<Redactor>, depth: nat, i: nat)
    requires r in heap && (heap[r] == Array(items) || heap[r] == SetOf(items))
    requires r !in ancestors && depth <= 12 && i < |items|
    ensures var o := Serialized(heap, Obj(r), path, ancestors, redactors, depth);
            && o.Composite? && o.shape == ListShape && |o.parts| == |items|
            && o.parts[i] == Serialized(heap, items[i], path + [Number(i)], ancestors + {r}, redactors, depth + 1)
  {
    PartWritten(heap, r, path, ancestors, redactors, depth, i);
    assert [] + [Number(i)] == [Number(i)];
  }

  lemma {:induction false} EntryChildrenAt(entries: seq<(Value, Value)>, i: nat)
    requires i < |entries|
    ensures var cs := EntryChildren(entries);
            && |cs| == 2 * |entries|
            && cs[2 * i] == Child([Number(i), "key"], "", entries[i].0, false)
            && cs[2 * i + 1] == Child([Number(i), "value"], "", entries[i].1, false)
  {
    if i < |entries| - 1 {
      EntryChildrenAt(entries[..|entries| - 1], i);
    } else if i > 0 {
      EntryChildrenAt(entries[..|entries| - 1], i - 1);
    }
  }

  lemma EntryPart(heap: Heap, r: Ref, path: seq<string>, ancestors: set<Ref>, redactors: seq<Redactor>, depth: nat,
                  j: nat, trail: seq<string>, v: Value)
    requires r in heap && heap[r].MapOf? && r !in ancestors && depth <= 12
    requires j < |Children(heap[r])| && Children(heap[r])[j] == Child(trail, "", v, false)
    ensures var o := Serialized(heap, Obj(r), path, ancestors, redactors, depth);
            && o.Composite? && o.shape == EntriesShape && |o.parts| == |Children(heap[r])|
            && o.parts[j] == Serialized(heap, v, path + trail, ancestors + {r}, redactors, depth + 1)
  {
    PartWritten(heap, r, path, ancestors, redactors, depth, j);
  }

  /** A map: key and value of every entry in order, under their own names. */
  lemma MapWritten(heap: Heap, r: Ref, entries: seq<(Value, Value)>, path: seq<string>, ancestors: set<Ref>,
                   redactors: seq<Redactor>, depth: nat, i: nat)
    requires r in heap && heap[r] == MapOf(entries) && r !in ancestors && depth <= 12 && i < |entries|
    ensures var o := Serialized(heap, Obj(r), path, ancestors, redactors, depth);
            && o.Composite? && o.shape == EntriesShape && |o.parts| == 2 * |entries|
            && o.parts[2 * i] == Serialized(heap, entries[i].0, path + [Number(i), "key"], ancestors + {r}, redactors,
                                            depth + 1)
            && o.parts[2 * i + 1] == Serialized(heap, entries[i].1, path + [Number(i), "value"], ancestors + {r},
                                                redactors, depth + 1)
  {
    EntryChildrenAt(entries, i);
    EntryPart(heap, r, path, ancestors, redactors, depth, 2 * i, [Number(i), "key"], entries[i].0);
    EntryPart(heap, r, path, ancestors, redactors, depth, 2 * i + 1, [Number(i), "value"], entries[i].1);
  }

  /** The own properties of a plain object that leave a field, each read once and passed through the hooks. */
  lemma {:induction false} PropChildrenAt(props: seq<Prop>, skip: bool, c: Child)
    ensures c in PropChildren(props, skip) <==>
              exists i :: 0 <= i < |props| && props[i].key != "__proto__"
                && !(skip && props[i].key in ["cause", "code", "errors"])
                && c == Child([props[i].key], props[i].key, Read(props[i].slot), true)
  {
    if props != [] {
      var init, p := props[..|props| - 1], props[|props| - 1];
      PropChildrenAt(init, skip, c);
      assert Reserved(p.key) <==> p.key in ["cause", "code", "errors"];
      assert forall i :: 0 <= i < |init| ==> init[i] == props[i];
    }
  }

  lemma ErrorStart(e: Node)
    requires e.Error?
    ensures var cs := Children(e);
            && |cs| >= 3 && cs[0] == Child(["message"], "message", Read(e.message), true)
            && cs[1] == Child(["name"], "name", Read(e.name), true)
            && cs[2] == Child(["stack"], "stack", Read(e.stack), true)
  {}

  /** An error: message, name and stack come first, code and cause if they are there, and the own properties. */
  lemma ErrorWritten(heap: Heap, r: Ref, path: seq<string>, ancestors: set<Ref>, redactors: seq<Redactor>, depth: nat)
    requires r in heap && heap[r].Error? && r !in ancestors && depth <= 12
    ensures var e := heap[r]; var o := Serialized(heap, Obj(r), path, ancestors, redactors, depth);
            && o.Composite? && o.shape.ObjectShape? && |o.parts| == |o.shape.labels| >= 3
            && o.shape.labels[..3] == [["message"], ["name"], ["stack"]]
            && o.parts[0] == Serialized(heap, Hooked("message", Read(e.message), path + ["message"], redactors),
                                        path + ["message"], ancestors + {r}, redactors, depth + 1)
            && o.parts[1] == Serialized(heap, Hooked("name", Read(e.name), path + ["name"], redactors),
                                        path + ["name"], ancestors + {r}, redactors, depth + 1)
            && o.parts[2] == Serialized(heap, Hooked("stack", Read(e.stack), path + ["stack"], redactors),
                                        path + ["stack"], ancestors + {r}, redactors, depth + 1)
            && (["code"] in o.shape.labels <==> e.code == Throws || e.code.value != Undefined)
            && (["cause"] in o.shape.labels <==> e.cause == Throws || e.cause.value != Undefined)
            && forall i :: 0 <= i < |e.props| && e.props[i].key !in ["cause", "code", "errors", "__proto__"] ==>
                 [e.props[i].key] in o.shape.labels
  {
    ErrorLabels(heap[r]);
    ErrorStart(heap[r]);
    PartWritten(heap, r, path, ancestors, redactors, depth, 0);
    PartWritten(heap, r, path, ancestors, redactors, depth, 1);
    PartWritten(heap, r, path, ancestors, redactors, depth, 2);
  }

  /** The labels of an error's parts, from those of its five groups. */
  lemma LabelsOfError(e: Node) returns (code: seq<seq<string>>, cause: seq<seq<string>>, nested: seq<seq<string>>)
    requires e.Error?
    ensures Labels(Children(e))
            == [["message"], ["name"], ["stack"]] + code + cause + nested + Labels(PropChildren(e.props, true))
    ensures code == if e.code == Throws || e.code.value != Undefined then [["code"]] else []
    ensures cause == if e.cause == Throws || e.cause.value != Undefined then [["cause"]] else []
    ensures forall l :: l in nested ==> |l| == 2
  {
    var head := [Child(["message"], "message", Read(e.message), true), Child(["name"], "name", Read(e.name), true),
                 Child(["stack"], "stack", Read(e.stack), true)];
    var a, b := OptionalChild("code", e.code), OptionalChild("cause", e.cause);
    var c := if e.errors.Some? then ItemChildren(e.errors.value, ["errors"]) else [];
    LabelsJoin(head, a);
    LabelsJoin(head + a, b);
    LabelsJoin(head + a + b, c);
    LabelsJoin(head + a + b + c, PropChildren(e.props, true));
    assert Labels(head) == [["message"], ["name"], ["stack"]];
    OptionalLabels("code", e.code);
    OptionalLabels("cause", e.cause);
    code, cause, nested := Labels(a), Labels(b), Labels(c);
  }

  lemma OneOfFive<T>(a: seq<T>, b: seq<T>, c: seq<T>, d: seq<T>, e: seq<T>, x: T)
    ensures x in a + b + c + d + e <==> x in a || x in b || x in c || x in d || x in e
  {}

  /** `key` is `code` or `cause`, and `other` is the other of them. */
  lemma OptionalLabelled(key: string, other: string, mine: seq<seq<string>>, others: seq<seq<string>>,
                         nested: seq<seq<string>>)
    requires (key == "code" && other == "cause") || (key == "cause" && other == "code")
    requires (mine == [] || mine == [[key]]) && (others == [] || others == [[other]])
    requires forall l :: l in nested ==> |l| == 2
    ensures [key] !in [["message"], ["name"], ["stack"]] && [key] !in others && [key] !in nested
    ensures [key] in mine <==> mine == [[key]]
  {
    assert |[key]| == 1 && [key][0] == key;
    assert ["message"][0] != key && ["name"][0] != key && ["stack"][0] != key && [other][0] != key;
  }

  lemma ErrorLabels(e: Node)
    requires e.Error?
    ensures var labels := Labels(Children(e));
            && |labels| >= 3 && labels[..3] == [["message"], ["name"], ["stack"]]
            && (["code"] in labels <==> e.code == Throws || e.code.value != Undefined)
            && (["cause"] in labels <==> e.cause == Throws || e.cause.value != Undefined)
            && forall i :: 0 <= i < |e.props| && e.props[i].key !in ["cause", "code", "errors", "__proto__"] ==>
                 [e.props[i].key] in labels
  {
    var code, cause, nested := LabelsOfError(e);
    var own := Labels(PropChildren(e.props, true));
    var head := [["message"], ["name"], ["stack"]];
    OwnLabels(e.props);
    OptionalLabelled("code", "cause", code, cause, nested);
    OptionalLabelled("cause", "code", cause, code, nested);
    OneOfFive(head, code, cause, nested, own, ["code"]);
    OneOfFive(head, code, cause, nested, own, ["cause"]);
    forall i | 0 <= i < |e.props| && e.props[i].key !in ["cause", "code", "errors", "__proto__"]
      ensures [e.props[i].key] in Labels(Children(e))
    {
      OneOfFive(head, code, cause, nested, own, [e.props[i].key]);
    }
  }

  lemma OptionalLabels(key: string, slot: Slot)
    ensures Labels(OptionalChild(key, slot)) == if slot == Throws || slot.value != Undefined then [[key]] else []
  {}

  lemma OwnLabels(props: seq<Prop>)
    ensures ["code"] !in Labels(PropChildren(props, true)) && ["cause"] !in Labels(PropChildren(props, true))
    ensures forall i :: 0 <= i < |props| && props[i].key !in ["cause", "code", "errors", "__proto__"] ==>
              [props[i].key] in Labels(PropChildren(props, true))
  {
    var own := PropChildren(props, true);
    forall l | l in Labels(own)
      ensures l != ["code"] && l != ["cause"]
    {
      var j :| 0 <= j < |own| && own[j].trail == l;
      PropChildrenAt(props, true, own[j]);
      var i :| 0 <= i < |props| && props[i].key !in ["cause", "code", "errors"] && l == [props[i].key];
      assert l[0] == props[i].key;
    }
    forall i | 0 <= i < |props| && props[i].key !in ["cause", "code", "errors", "__proto__"]
      ensures [props[i].key] in Labels(own)
    {
      var c := Child([props[i].key], props[i].key, Read(props[i].slot), true);
      PropChildrenAt(props, true, c);
      var j :| 0 <= j < |own| && own[j] == c;
      assert Labels(own)[j] == [props[i].key];
    }
  }

  lemma LabelsJoin(a: seq<Child>, b: seq<Child>)
    ensures Labels(a + b) == Labels(a) + Labels(b)
  {}

  // ---- which positions of the output are '[Circular]' ----

  /** The output at a position, given as child numbers from the root. */
  function At(o: Output, steps: seq<nat>): Option<Output>
    decreases |steps|
  {
    if steps == [] then Some(o)
    else if o.Composite? && steps[0] < |o.parts| then At(o.parts[steps[0]], steps[1..])
    else None
  }

  /** The value found there in the graph, after redaction, and the objects passed on the way. */
  function Found(heap: Heap, v: Value, path: seq<string>, redactors: seq<Redactor>, steps: seq<nat>): Option<Value>
    decreases |steps|
  {
    if steps == [] then Some(v)
    else if v.Obj? && steps[0] < |Children(Lookup(heap, v.ref))| then
      var c := Children(Lookup(heap, v.ref))[steps[0]];
      Found(heap, ChildValue(c, path, redactors), path + c.trail, redactors, steps[1..])
    else None
  }

  function Passed(heap: Heap, v: Value, path: seq<string>, redactors: seq<Redactor>, steps: seq<nat>): set<Ref>
    decreases |steps|
  {
    if steps == [] || !v.Obj? then {}
    else
      {v.ref}
      + (if steps[0] < |Children(Lookup(heap, v.ref))| then
           var c := Children(Lookup(heap, v.ref))[steps[0]];
           Passed(heap, ChildValue(c, path, redactors), path + c.trail, redactors, steps[1..])
         else {})
  }

  lemma {:induction false} PartAt(heap: Heap, cs: seq<Child>, path: seq<string>, ancestors: set<Ref>,
                                  redactors: seq<Redactor>, depth: nat, i: nat)
    requires 1 <= depth <= MAX_SERIALIZATION_DEPTH + 1 && i < |cs|
    ensures SerializedAll(heap, cs, path, ancestors, redactors, depth)[i]
            == Serialized(heap, ChildValue(cs[i], path, redactors), path + cs[i].trail, ancestors, redactors, depth)
    decreases |cs|
  {
    if i < |cs| - 1 {
      PartAt(heap, cs[..|cs| - 1], path, ancestors, redactors, depth, i);
    }
  }

  lemma CircularHere(heap: Heap, v: Value, path: seq<string>, ancestors: set<Ref>, redactors: seq<Redactor>, depth: nat)
    ensures var o := Serialized(heap, v, path, ancestors, redactors, depth);
            && (o.Circular? <==> v.Obj? && depth <= 12 && v.ref in ancestors)
            && (o.MaxDepth? <==> v.Obj? && depth > 12)
  {}

  /**
   * A position is marked circular exactly when the object there is within the depth limit and already on its own
   * path (or among the ancestors given); an object merely shared by two branches never is. Beyond the limit it is
   * '[MaxDepth]' instead.
   */
  lemma {:induction false} CircularIff(heap: Heap, v: Value, path: seq<string>, ancestors: set<Ref>,
                                       redactors: seq<Redactor>, depth: nat, steps: seq<nat>)
    requires At(Serialized(heap, v, path, ancestors, redactors, depth), steps).Some?
    ensures var o := At(Serialized(heap, v, path, ancestors, redactors, depth), steps).value;
            var found := Found(heap, v, path, redactors, steps);
            && found.Some?
            && (o.Circular? <==> found.value.Obj? && depth + |steps| <= 12
                                 && found.value.ref in ancestors + Passed(heap, v, path, redactors, steps))
            && (o.MaxDepth? <==> found.value.Obj? && depth + |steps| > 12)
    decreases |steps|
  {
    if steps == [] {
      CircularHere(heap, v, path, ancestors, redactors, depth);
    } else {
      var n := Lookup(heap, v.ref);
      var cs := Children(n);
      var i := steps[0];
      PartAt(heap, cs, path, ancestors + {v.ref}, redactors, depth + 1, i);
      CircularIff(heap, ChildValue(cs[i], path, redactors), path + cs[i].trail,
                  ancestors + {v.ref}, redactors, depth + 1, steps[1..]);
    }
  }

  // ---- the default hook ----

  function LowerChar(c: char): char {
    if 'A' <= c <= 'Z' then (c as int + 32) as char else c
  }

  function Lower(s: string): string {
    seq(|s|, i requires 0 <= i < |s| => LowerChar(s[i]))
  }

  predicate Contains(s: string, word: string) {
    word <= s || (s != "" && Contains(s[1..], word))
  }

  const SENSITIVE_WORDS: seq<string> := [
    "authorization", "cookie", "credential", "password", "secret", "token",
    "apikey", "api-key", "api_key", "privatekey", "private-key", "private_key"]

  predicate Sensitive(key: string) {
    exists k :: 0 <= k < |SENSITIVE_WORDS| && Contains(Lower(key), SENSITIVE_WORDS[k])
  }

  const REDACTED_VALUE := Text("[REDACTED]")

  function DefaultHook(key: string, path: seq<string>, value: Value): HookResult {
    if Sensitive(key) then Replace(REDACTED_VALUE) else Keep
  }

  /** Which names are sensitive: those with one of the words in them, in capitals or not. */
  lemma SensitiveWhen(key: string, before: string, after: string, word: string)
    requires Lower(key) == before + word + after
    requires word in ["authorization", "cookie", "credential", "password", "secret", "token", "apikey", "api-key",
                      "api_key", "privatekey", "private-key", "private_key"]
    ensures Sensitive(key)
  {
    ContainsWithin(before, word, after);
    assert word in SENSITIVE_WORDS;
    var k :| 0 <= k < |SENSITIVE_WORDS| && SENSITIVE_WORDS[k] == word;
    assert Contains(Lower(key), SENSITIVE_WORDS[k]);
  }

  lemma {:induction false} ContainsWithin(before: string, word: string, after: string)
    ensures Contains(before + word + after, word)
  {
    var s := before + word + after;
    if before == "" {
      assert s == word + after && word <= s;
    } else {
      ContainsWithin(before[1..], word, after);
      assert s[1..] == before[1..] + word + after;
    }
  }

  lemma DefaultHooked(key: string, value: Value, path: seq<string>)
    ensures Hooked(key, value, path, [DefaultHook]) == if Sensitive(key) then REDACTED_VALUE else value
  {
    var hooks: seq<Redactor> := [DefaultHook];
    assert hooks[..0] == [];
    assert Hooked(key, value, path, []) == value;
  }

  /** The children that show: all but hooked properties with a sensitive name. */
  predicate Hidden(c: Child) {
    c.hooked && Sensitive(c.key)
  }

  /** Children that agree but for the values of hidden ones. */
  predicate SameChildren(a: seq<Child>, b: seq<Child>) {
    && |a| == |b|
    && forall i :: 0 <= i < |a| ==>
         && a[i].trail == b[i].trail && a[i].key == b[i].key && a[i].hooked == b[i].hooked
         && (!Hidden(a[i]) ==> a[i].value == b[i].value)
  }

  /** Two versions of an object that differ only in the values of sensitive properties. */
  predicate SameNode(a: Node, b: Node) {
    && (a.Hostile? <==> b.Hostile?)
    && ShapeOf(a) == ShapeOf(b)
    && SameChildren(Children(a), Children(b))
  }

  /** `seen` holds an object and everything reached from it without passing a sensitive property. */
  ghost predicate Closed(heap: Heap, seen: set<Ref>) {
    forall r :: r in seen ==> InSeen(Children(Lookup(heap, r)), seen)
  }

  predicate InSeen(cs: seq<Child>, seen: set<Ref>) {
    forall i :: 0 <= i < |cs| && !Hidden(cs[i]) && cs[i].value.Obj? ==> cs[i].value.ref in seen
  }

  /** The heaps agree on `seen` but for sensitive values; of what lies beneath those, nothing is asked. */
  ghost predicate SameHeaps(h1: Heap, h2: Heap, seen: set<Ref>) {
    Closed(h1, seen) && forall r :: r in seen ==> SameNode(Lookup(h1, r), Lookup(h2, r))
  }

  /**
   * Non-interference of the whole output with the default hook: graphs that differ only beneath properties with a
   * sensitive name, at any depth and with any sharing or cycles, are written alike.
   */
  lemma {:induction false} SensitiveNeverShown(h1: Heap, h2: Heap, seen: set<Ref>, v: Value, path: seq<string>,
                                               ancestors: set<Ref>, depth: nat)
    requires SameHeaps(h1, h2, seen) && (v.Obj? ==> v.ref in seen)
    ensures Serialized(h1, v, path, ancestors, [DefaultHook], depth)
            == Serialized(h2, v, path, ancestors, [DefaultHook], depth)
    decreases MAX_SERIALIZATION_DEPTH + 1 - depth, 1, 0
  {
    if v.Obj? && depth <= MAX_SERIALIZATION_DEPTH && v.ref !in ancestors && !Lookup(h1, v.ref).Hostile? {
      var n1, n2 := Lookup(h1, v.ref), Lookup(h2, v.ref);
      assert SameNode(n1, n2) && InSeen(Children(n1), seen);
      PartsNeverShow(h1, h2, seen, Children(n1), Children(n2), path, ancestors + {v.ref}, depth + 1);
      Opened(h1, v, path, ancestors, [DefaultHook], depth);
      Opened(h2, v, path, ancestors, [DefaultHook], depth);
    } else {
      if v.Obj? { assert SameNode(Lookup(h1, v.ref), Lookup(h2, v.ref)); }
      NotEntered(h1, h2, v, path, ancestors, [DefaultHook], depth);
    }
  }

  /** A leaf, and an object that is not entered, is written alike whatever else the heaps hold. */
  lemma NotEntered(h1: Heap, h2: Heap, v: Value, path: seq<string>, ancestors: set<Ref>, redactors: seq<Redactor>,
                   depth: nat)
    requires v.Obj? ==> (Lookup(h1, v.ref).Hostile? <==> Lookup(h2, v.ref).Hostile?)
    requires !(v.Obj? && depth <= MAX_SERIALIZATION_DEPTH && v.ref !in ancestors && !Lookup(h1, v.ref).Hostile?)
    ensures Serialized(h1, v, path, ancestors, redactors, depth) == Serialized(h2, v, path, ancestors, redactors, depth)
  {}

  /** How an object that is entered is written. */
  lemma Opened(heap: Heap, v: Value, path: seq<string>, ancestors: set<Ref>, redactors: seq<Redactor>, depth: nat)
    requires v.Obj? && depth <= MAX_SERIALIZATION_DEPTH && v.ref !in ancestors && !Lookup(heap, v.ref).Hostile?
    ensures var n := Lookup(heap, v.ref);
            Serialized(heap, v, path, ancestors, redactors, depth)
            == Composite(ShapeOf(n), SerializedAll(heap, Children(n), path, ancestors + {v.ref}, redactors, depth + 1))
  {}

  lemma {:induction false} PartsNeverShow(h1: Heap, h2: Heap, seen: set<Ref>, a: seq<Child>, b: seq<Child>,
                                          path: seq<string>, ancestors: set<Ref>, depth: nat)
    requires SameHeaps(h1, h2, seen) && SameChildren(a, b) && InSeen(a, seen) && depth >= 1
    ensures SerializedAll(h1, a, path, ancestors, [DefaultHook], depth)
            == SerializedAll(h2, b, path, ancestors, [DefaultHook], depth)
    decreases MAX_SERIALIZATION_DEPTH + 2 - depth, 0, |a|
  {
    if a != [] {
      var i := |a| - 1;
      PartsNeverShow(h1, h2, seen, a[..i], b[..i], path, ancestors, depth);
      if depth <= MAX_SERIALIZATION_DEPTH + 1 {
        DefaultHooked(a[i].key, a[i].value, path + a[i].trail);
        DefaultHooked(b[i].key, b[i].value, path + b[i].trail);
        var v := ChildValue(a[i], path, [DefaultHook]);
        assert v == ChildValue(b[i], path, [DefaultHook]);
        SensitiveNeverShown(h1, h2, seen, v, path + a[i].trail, ancestors, depth);
      }
    }
  }
}
