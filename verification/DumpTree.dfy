/**
 * The mutable dump: nested dictionaries and lists, walked by reassigning a node and written in place.
 * Numbers, texts and nulls are immutable and live in their container's slots.
 */
module DumpTree {
  import opened Numeric
  import opened Sorting
  import opened Strategy
  import opened StrategyJson
  import opened StrategyParams

  datatype Slot = Leaf(value: Json) | Ref(node: Node)

  datatype Form = Items(slots: seq<Slot>) | Fields(entries: map<string, Slot>)

  predicate HasSlot(form: Form, key: Key) {
    match key
    case Name(name) => form.Fields? && name in form.entries
    case At(index) => form.Items? && index < |form.slots|
  }

  function SlotAt(form: Form, key: Key): Slot
    requires HasSlot(form, key)
  {
    match key
    case Name(name) => form.entries[name]
    case At(index) => form.slots[index]
  }

  function WithSlot(form: Form, key: Key, slot: Slot): Form
    requires HasSlot(form, key)
  {
    match key
    case Name(name) => Fields(form.entries[name := slot])
    case At(index) => Items(form.slots[index := slot])
  }

  predicate IsScalar(j: Json) { !j.List? && !j.Obj? }

  /** The container has the fields, or the length, of `j`. */
  predicate Alike(form: Form, j: Json) {
    match form
    case Items(slots) => j.List? && |j.items| == |slots|
    case Fields(entries) => j.Obj? && j.fields.Keys == entries.Keys
  }

  class Node {
    var form: Form
    ghost var repr: set<Node>

    constructor (form: Form, ghost below: set<Node>)
      ensures this.form == form && repr == {this} + below
    {
      this.form := form;
      repr := {this} + below;
    }

    /** A tree: every child owns its own nodes, apart from its siblings' and from this one. */
    ghost predicate Valid()
      reads this, repr
      decreases repr
    {
      && this in repr
      && (forall key | HasSlot(form, key) && SlotAt(form, key).Leaf? :: IsScalar(SlotAt(form, key).value))
      && (forall key | HasSlot(form, key) && SlotAt(form, key).Ref? ::
            var child := SlotAt(form, key).node;
            child in repr && child.repr <= repr && this !in child.repr && child.Valid())
      && (forall key, key' | HasSlot(form, key) && HasSlot(form, key') && key != key' && SlotAt(form, key).Ref?
        && SlotAt(form, key').Ref? ::
            SlotAt(form, key).node in repr && SlotAt(form, key').node in repr
            && SlotAt(form, key).node.repr !! SlotAt(form, key').node.repr)
    }

    /** The tree below this node, as a value. */
    ghost predicate Shows(j: Json)
      requires Valid()
      reads this, repr
      decreases repr
    {
      && Alike(form, j)
      && forall key | HasSlot(form, key) ::
           && HasKey(j, key)
           && (SlotAt(form, key).Leaf? ==> SlotAt(form, key).value == Child(j, key))
           && (SlotAt(form, key).Ref? ==> SlotAt(form, key).node.Shows(Child(j, key)))
    }
  }

  /** What a segment selects in a container. */
  function SlotKey(form: Form, segment: string): (key: Outcome<Key>)
    ensures key.Ok? ==> HasSlot(form, key.value)
  {
    match form
    case Fields(entries) => if segment in entries then Ok(Name(segment)) else Err(NoField)
    case Items(slots) =>
      var i := ParseInt(segment);
      if i.None? then Err(NotAnIndex)
      else if i.value >= |slots| || i.value < -|slots| then Err(OutOfRange)
      else Ok(At(if i.value < 0 then i.value + |slots| else i.value))
  }

  lemma SlotKeyIsKey(form: Form, j: Json, segment: string)
    requires Alike(form, j)
    ensures SlotKey(form, segment) == KeyOf(j, segment)
  {
    hide ParseInt;
  }

  /** Following `segments` from `node` arrives at `target`. */
  ghost predicate Follows(node: Node, segments: seq<string>, target: Node)
    requires node.Valid()
    reads node, node.repr
    decreases |segments|
  {
    if segments == [] then node == target
    else
      var key := SlotKey(node.form, segments[0]);
      && key.Ok? && SlotAt(node.form, key.value).Ref?
      && target in SlotAt(node.form, key.value).node.repr
      && Follows(SlotAt(node.form, key.value).node, segments[1..], target)
  }

  /** Following a path: the target lies inside, shows a value, and decides how writing the rest of the path turns
   * out.
   */
  lemma {:induction false} FollowedTo(node: Node, j: Json, path: seq<string>, target: Node, rest: seq<string>,
    value: Json) returns (here: Json)
    requires node.Valid() && node.Shows(j) && Follows(node, path, target) && rest != []
    ensures target in node.repr && target.repr <= node.repr && target.Valid() && target.Shows(here)
    ensures SetPath(j, path + rest, value).Ok? <==> SetPath(here, rest, value).Ok?
    ensures SetPath(here, rest, value).Err? ==> SetPath(j, path + rest, value) == SetPath(here, rest, value)
    decreases |path|
  {
    if path == [] {
      here := j;
      assert path + rest == rest;
    } else {
      SlotKeyIsKey(node.form, j, path[0]);
      var key := SlotKey(node.form, path[0]).value;
      assert (path + rest)[0] == path[0] && (path + rest)[1..] == path[1..] + rest;
      here := FollowedTo(SlotAt(node.form, key).node, Child(j, key), path[1..], target, rest, value);
    }
  }

  lemma {:induction false} FollowsSnoc(node: Node, path: seq<string>, target: Node, segment: string)
    requires node.Valid() && Follows(node, path, target) && target.Valid()
    requires SlotKey(target.form, segment).Ok? && SlotAt(target.form, SlotKey(target.form, segment).value).Ref?
    ensures target.repr <= node.repr
    ensures Follows(node, path + [segment], SlotAt(target.form, SlotKey(target.form, segment).value).node)
    decreases |path|
  {
    if path == [] {
      assert path + [segment] == [segment] && [segment][1..] == [];
    } else {
      assert (path + [segment])[0] == path[0] && (path + [segment])[1..] == path[1..] + [segment];
      FollowsSnoc(SlotAt(node.form, SlotKey(node.form, path[0]).value).node, path[1..], target, segment);
    }
  }

  /** One slot of one container was overwritten; nothing else in the tree was touched. */
  twostate predicate Overwrote(nodes: set<Node>, target: Node, new key: Key, new value: Json)
    reads nodes
  {
    && target in nodes && HasSlot(old(target.form), key)
    && target.form == WithSlot(old(target.form), key, Leaf(value)) && target.repr == old(target.repr)
    && forall n | n in nodes && n != target :: unchanged(n)
  }

  twostate predicate Same(nodes: set<Node>)
    reads nodes
  {
    forall n | n in nodes :: unchanged(n)
  }

  twostate lemma Untouched(node: Node, new j: Json)
    requires old(node.Valid()) && old(node.Shows(j))
    requires Same(old(node.repr))
    ensures node.Valid() && node.Shows(j) && node.repr == old(node.repr)
  {
  }

  /** A sibling of the overwritten slot is as it was. */
  twostate lemma SiblingKept(node: Node, new j: Json, new key: Key, new value: Json, new other: Key)
    requires old(node.Valid()) && old(node.Shows(j))
    requires Overwrote(old(node.repr), node, key, value)
    requires other != key && HasSlot(old(node.form), other)
    ensures HasSlot(node.form, other) && SlotAt(node.form, other) == SlotAt(old(node.form), other)
    ensures SlotAt(node.form, other).Ref? ==>
            SlotAt(node.form, other).node.Valid() && SlotAt(node.form, other).node.Shows(Child(j, other))
  {
    if SlotAt(old(node.form), other).Ref? {
      var c := SlotAt(old(node.form), other).node;
      assert node !in old(c.repr) && old(c.repr) <= old(node.repr);
      Untouched(c, Child(j, other));
    }
  }

  lemma SlotsAfter(form: Form, key: Key, slot: Slot, other: Key)
    requires HasSlot(form, key)
    ensures HasSlot(WithSlot(form, key, slot), other) <==> HasSlot(form, other)
    ensures HasSlot(form, other) ==>
            SlotAt(WithSlot(form, key, slot), other) == if other == key then slot else SlotAt(form, other)
  {
  }

  twostate lemma LeafWritten(node: Node, new j: Json, new key: Key, new value: Json)
    requires old(node.Valid()) && old(node.Shows(j)) && IsScalar(value)
    requires Overwrote(old(node.repr), node, key, value)
    ensures node.Valid() && HasKey(j, key) && node.Shows(Replaced(j, key, value))
  {
    assert HasKey(j, key);
    forall other
      ensures HasSlot(node.form, other) <==> HasSlot(old(node.form), other)
      ensures HasSlot(node.form, other) ==>
              SlotAt(node.form, other) == if other == key then Leaf(value) else SlotAt(old(node.form), other)
      ensures HasKey(Replaced(j, key, value), other) <==> HasKey(j, other)
      ensures HasKey(j, other) ==>
              Child(Replaced(j, key, value), other) == if other == key then value else Child(j, other)
    {
      SlotsAfter(old(node.form), key, Leaf(value), other);
      ReplacedKeys(j, key, value, other);
    }
    forall other | HasSlot(old(node.form), other) && other != key {
      SiblingKept(node, j, key, value, other);
    }
  }

  /** A sibling of the child the path goes through is as it was. */
  twostate lemma BranchKept(node: Node, new j: Json, new key: Key, new other: Key)
    requires old(node.Valid()) && old(node.Shows(j))
    requires HasSlot(old(node.form), key) && SlotAt(old(node.form), key).Ref?
    requires Same(old(node.repr) - old(SlotAt(node.form, key).node.repr))
    requires other != key && HasSlot(old(node.form), other) && SlotAt(old(node.form), other).Ref?
    ensures var c := SlotAt(old(node.form), other).node; c.Valid() && c.Shows(Child(j, other)) && c.repr == old(c.repr)
  {
    var c := SlotAt(old(node.form), other).node;
    var apart := old(node.repr) - old(SlotAt(node.form, key).node.repr);
    assert old(c.repr) <= old(node.repr) && old(c.repr) !! old(SlotAt(node.form, key).node.repr);
    assert old(c.repr) <= apart;
    forall n | n in old(c.repr)
      ensures unchanged(n)
    {
      assert n in apart;
    }
    Untouched(c, Child(j, other));
  }

  /** Only the subtree behind one slot changed, and it now shows `k`. */
  twostate lemma ChildWritten(node: Node, new j: Json, new key: Key, new k: Json)
    requires old(node.Valid()) && old(node.Shows(j))
    requires HasSlot(old(node.form), key) && SlotAt(old(node.form), key).Ref?
    requires Same(old(node.repr) - old(SlotAt(node.form, key).node.repr))
    requires var child := SlotAt(old(node.form), key).node;
             child.Valid() && child.Shows(k) && child.repr == old(child.repr)
    ensures node.Valid() && HasKey(j, key) && node.Shows(Replaced(j, key, k))
  {
    assert node in old(node.repr) - old(SlotAt(node.form, key).node.repr);
    assert unchanged(node);
    assert node.form == old(node.form) && node.repr == old(node.repr);
    forall other
      ensures HasKey(Replaced(j, key, k), other) <==> HasKey(j, other)
      ensures HasKey(j, other) ==> Child(Replaced(j, key, k), other) == if other == key then k else Child(j, other)
    {
      ReplacedKeys(j, key, k, other);
    }
    forall other | HasSlot(node.form, other) && SlotAt(node.form, other).Ref?
      ensures SlotAt(node.form, other).node.Valid()
              && SlotAt(node.form, other).node.repr == old(SlotAt(node.form, other).node.repr)
      ensures other != key ==> SlotAt(node.form, other).node.Shows(Child(j, other))
    {
      if other != key {
        BranchKept(node, j, key, other);
      }
    }
  }

  /** Writing at the end of a path, from the root to the target, rewrites the whole tree exactly as the path
   * specifies.
   */
  twostate lemma {:induction false} PathWritten(ends: (Node, Node), new j: Json, new path: seq<string>,
    new last: string, new key: Key, new value: Json)
    requires old(ends.0.Valid()) && old(ends.0.Shows(j)) && IsScalar(value)
    requires old(Follows(ends.0, path, ends.1))
    requires SlotKey(old(ends.1.form), last) == Ok(key)
    requires Overwrote(old(ends.0.repr), ends.1, key, value)
    ensures ends.0.Valid() && SetPath(j, path + [last], value).Ok?
            && ends.0.Shows(SetPath(j, path + [last], value).value)
    ensures ends.0.repr == old(ends.0.repr)
    decreases |path|
  {
    var (node, target) := ends;
    if path == [] {
      assert path + [last] == [last];
      SlotKeyIsKey(old(node.form), j, last);
      LeafWritten(node, j, key, value);
    } else {
      var k := SlotKey(old(node.form), path[0]).value;
      var child := SlotAt(old(node.form), k).node;
      SlotKeyIsKey(old(node.form), j, path[0]);
      assert (path + [last])[0] == path[0] && (path + [last])[1..] == path[1..] + [last];
      PathWritten((child, target), Child(j, k), path[1..], last, key, value);
      ChildWritten(node, j, k, SetPath(Child(j, k), path[1..] + [last], value).value);
    }
  }

  /** Step into containers until one segment is left. */
  method Walk(root: Node, segments: seq<string>, value: Json, ghost j: Json) returns (found: Outcome<Node>)
    requires root.Valid() && root.Shows(j) && segments != []
    ensures found.Ok? ==> Follows(root, segments[..|segments| - 1], found.value)
    ensures found.Err? ==> SetPath(j, segments, value) == Err(found.refusal)
  {
    hide ParseInt;
    var node := root;
    var i := 0;
    assert segments[..0] == [];
    while i < |segments| - 1
      invariant 0 <= i <= |segments| - 1
      invariant Follows(root, segments[..i], node)
    {
      assert segments == segments[..i] + segments[i..] && segments[i..][0] == segments[i];
      ghost var here := FollowedTo(root, j, segments[..i], node, segments[i..], value);
      SlotKeyIsKey(node.form, here, segments[i]);
      var key := SlotKey(node.form, segments[i]);
      if key.Err? {
        return Err(key.refusal);
      }
      var slot := SlotAt(node.form, key.value);
      if slot.Leaf? {
        LeafStops(node, here, segments[i..], value);
        return Err(NotAContainer);
      }
      FollowsSnoc(root, segments[..i], node, segments[i]);
      assert segments[..i + 1] == segments[..i] + [segments[i]];
      node := slot.node;
      i := i + 1;
    }
    found := Ok(node);
  }

  /** A path cannot go on through a number, a text or a null. */
  lemma LeafStops(node: Node, here: Json, rest: seq<string>, value: Json)
    requires node.Valid() && node.Shows(here) && |rest| > 1
    requires SlotKey(node.form, rest[0]).Ok? && SlotAt(node.form, SlotKey(node.form, rest[0]).value).Leaf?
    ensures SetPath(here, rest, value) == Err(NotAContainer)
  {
    SlotKeyIsKey(node.form, here, rest[0]);
    var key := SlotKey(node.form, rest[0]).value;
    assert IsScalar(Child(here, key));
    assert KeyOf(Child(here, key), rest[1..][0]) == Err(NotAContainer);
  }

  /** `_set_path`: walk to the container of the last segment, then overwrite one slot. */
  method SetInPlace(root: Node, path: string, value: real, ghost j: Json) returns (refusal: Option<Refusal>)
    requires root.Valid() && root.Shows(j)
    modifies root.repr
    ensures root.Valid() && root.repr == old(root.repr)
    ensures SetPath(j, Split(path), Number(value)).Err? ==>
              refusal == Some(SetPath(j, Split(path), Number(value)).refusal) && root.Shows(j)
    ensures SetPath(j, Split(path), Number(value)).Ok? ==>
              refusal == None && root.Shows(SetPath(j, Split(path), Number(value)).value)
  {
    hide ParseInt, Split;
    var segments := Split(path);
    var found := Walk(root, segments, Number(value), j);
    if found.Err? {
      return Some(found.refusal);
    }
    var node, front, leaf := found.value, segments[..|segments| - 1], segments[|segments| - 1];
    assert segments == front + [leaf];
    ghost var here := FollowedTo(root, j, front, node, [leaf], Number(value));
    SlotKeyIsKey(node.form, here, leaf);
    var key := SlotKey(node.form, leaf);
    if key.Err? {
      return Some(key.refusal);
    }
    label before:
    node.form := WithSlot(node.form, key.value, Leaf(Number(value)));
    PathWritten@before((root, node), j, front, leaf, key.value, Number(value));
    refusal := None;
  }

  /** `apply_parameters` up to validation: every parameter's value, written at each of its paths in turn. */
  method WriteParameters(root: Node, parameters: seq<SearchParameter>, values: Values, ghost j: Json)
    returns (refusal: Option<Refusal>)
    requires root.Valid() && root.Shows(j)
    modifies root.repr
    ensures root.Valid()
    ensures WriteAll(j, parameters, values).Err? ==> refusal == Some(WriteAll(j, parameters, values).refusal)
    ensures WriteAll(j, parameters, values).Ok? ==> refusal == None && root.Shows(WriteAll(j, parameters, values).value)
  {
    hide SetPath, Split;
    ghost var dump := j;
    for i := 0 to |parameters|
      invariant root.Valid() && root.Shows(dump) && root.repr == old(root.repr)
      invariant WriteAll(j, parameters, values) == WriteAll(dump, parameters[i..], values)
    {
      var parameter := parameters[i];
      assert parameters[i..][0] == parameter && parameters[i..][1..] == parameters[i + 1..];
      if parameter.name !in values {
        return Some(MissingValue);
      }
      var value := Written(parameter, values[parameter.name]);
      ghost var start := dump;
      for k := 0 to |parameter.paths|
        invariant root.Valid() && root.Shows(dump) && root.repr == old(root.repr)
        invariant SetAll(start, parameter.paths, value) == SetAll(dump, parameter.paths[k..], value)
      {
        var path := parameter.paths[k];
        assert parameter.paths[k..][0] == path && parameter.paths[k..][1..] == parameter.paths[k + 1..];
        var failed := SetInPlace(root, path, value, dump);
        if failed.Some? {
          return failed;
        }
        dump := SetPath(dump, Split(path), Number(value)).value;
      }
      assert SetAll(start, parameter.paths, value) == Ok(dump);
    }
    assert WriteAll(j, parameters, values) == Ok(dump);
    return None;
  }

  // The dump itself, built node by node and read back for validation.

  ghost function Owned(slot: Slot): set<Node>
    reads if slot.Ref? then {slot.node} else {}
  {
    if slot.Ref? then slot.node.repr else {}
  }

  ghost predicate Holds(slot: Slot, j: Json)
    reads if slot.Ref? then {slot.node} + slot.node.repr else {}
  {
    if slot.Leaf? then IsScalar(j) && slot.value == j else slot.node.Valid() && slot.node.Shows(j)
  }

  /** A fresh tree, or an immutable leaf, showing `j`. */
  method Build(j: Json) returns (slot: Slot)
    ensures Holds(slot, j) && fresh(Owned(slot))
    ensures IsScalar(j) <==> slot.Leaf?
    decreases j, 2
  {
    match j
    case List(items) =>
      var node := BuildList(j);
      slot := Ref(node);
    case Obj(fields) =>
      var node := BuildObject(j);
      slot := Ref(node);
    case _ =>
      slot := Leaf(j);
  }

  /** The slots hold the parts of `j`, each subtree apart from the others and inside `owned`. */
  ghost predicate Gathered(form: Form, j: Json, owned: set<Node>)
    reads owned
  {
    && Alike(form, j)
    && (forall key | HasSlot(form, key) ::
      SlotAt(form, key).Ref? ==> SlotAt(form, key).node in owned && SlotAt(form, key).node.repr <= owned)
    && (forall key | HasSlot(form, key) :: Holds(SlotAt(form, key), Child(j, key)))
    && (forall key, key' | HasSlot(form, key) && HasSlot(form, key') && key != key' && SlotAt(form, key).Ref?
      && SlotAt(form, key').Ref? ::
          SlotAt(form, key).node.repr !! SlotAt(form, key').node.repr)
  }

  /** A new container over gathered subtrees is a tree. */
  method NewContainer(form: Form, ghost j: Json, ghost owned: set<Node>) returns (node: Node)
    requires Gathered(form, j, owned)
    ensures node.Valid() && node.Shows(j) && fresh(node) && node.repr == {node} + owned
  {
    node := new Node(form, owned);
    assert Gathered(form, j, owned);
  }

  method BuildSlots(ghost whole: Json, items: seq<Json>) returns (slots: seq<Slot>, ghost owned: set<Node>)
    requires forall i | 0 <= i < |items| :: items[i] < whole
    ensures |slots| == |items| && fresh(owned)
    ensures forall i | 0 <= i < |items| :: Holds(slots[i], items[i]) && Owned(slots[i]) <= owned
    ensures forall i, k | 0 <= i < k < |items| :: Owned(slots[i]) !! Owned(slots[k])
    decreases whole, 0
  {
    slots, owned := [], {};
    for i := 0 to |items|
      invariant |slots| == i && fresh(owned)
      invariant forall k | 0 <= k < i :: Holds(slots[k], items[k]) && Owned(slots[k]) <= owned
      invariant forall k, l | 0 <= k < l < i :: Owned(slots[k]) !! Owned(slots[l])
    {
      var next := Build(items[i]);
      owned := owned + Owned(next);
      slots := slots + [next];
    }
  }

  method BuildList(j: Json) returns (node: Node)
    requires j.List?
    ensures node.Valid() && node.Shows(j) && fresh(node.repr)
    decreases j, 1
  {
    var slots, owned := BuildSlots(j, j.items);
    assert forall key | HasSlot(Items(slots), key) ::
      SlotAt(Items(slots), key) == slots[key.index] && Child(j, key) == j.items[key.index];
    node := NewContainer(Items(slots), j, owned);
  }

  method Names(fields: map<string, Json>) returns (names: seq<string>)
    ensures Distinct(names) && forall n :: n in names <==> n in fields
  {
    names := [];
    var left := fields.Keys;
    while left != {}
      invariant left <= fields.Keys && Distinct(names)
      invariant forall n :: n in names <==> n in fields.Keys - left
      decreases |left|
    {
      var name :| name in left;
      DistinctSnoc(names, name);
      names := names + [name];
      left := left - {name};
    }
  }

  function Position(names: seq<string>, name: string): (i: nat)
    requires name in names
    ensures i < |names| && names[i] == name
  {
    if names[0] == name then 0 else 1 + Position(names[1..], name)
  }

  method BuildObject(j: Json) returns (node: Node)
    requires j.Obj?
    ensures node.Valid() && node.Shows(j) && fresh(node.repr)
    decreases j, 1
  {
    var names := Names(j.fields);
    var slots, owned :=
      BuildSlots(j, seq(|names|, i requires 0 <= i < |names| => assert names[i] in names; j.fields[names[i]]));
    var entries := map name | name in names :: slots[Position(names, name)];
    EntriesGathered(j, names, slots, entries, owned);
    node := NewContainer(Fields(entries), j, owned);
  }

  lemma EntriesGathered(j: Json, names: seq<string>, slots: seq<Slot>, entries: map<string, Slot>, owned: set<Node>)
    requires j.Obj? && |slots| == |names| && (forall n :: n in names <==> n in j.fields)
    requires entries == map name | name in names :: slots[Position(names, name)]
    requires forall i | 0 <= i < |names| ::
             names[i] in j.fields && Holds(slots[i], j.fields[names[i]]) && Owned(slots[i]) <= owned
    requires forall i, k | 0 <= i < k < |names| :: Owned(slots[i]) !! Owned(slots[k])
    ensures Gathered(Fields(entries), j, owned)
  {
    var form := Fields(entries);
    forall key | HasSlot(form, key)
      ensures Holds(SlotAt(form, key), Child(j, key)) && Owned(SlotAt(form, key)) <= owned
    {
      var i := Position(names, key.name);
      assert SlotAt(form, key) == slots[i] && Child(j, key) == j.fields[names[i]];
    }
    forall key, key' | HasSlot(form, key) && HasSlot(form, key') && key != key'
      ensures Owned(SlotAt(form, key)) !! Owned(SlotAt(form, key'))
    {
      EntriesApart(names, slots, entries, key.name, key'.name);
    }
  }

  lemma EntriesApart(names: seq<string>, slots: seq<Slot>, entries: map<string, Slot>, name: string, name': string)
    requires |slots| == |names| && entries == map n | n in names :: slots[Position(names, n)]
    requires forall i, k | 0 <= i < k < |names| :: Owned(slots[i]) !! Owned(slots[k])
    requires name in entries && name' in entries && name != name'
    ensures Owned(entries[name]) !! Owned(entries[name'])
  {
    var i, k := Position(names, name), Position(names, name');
    assert names[i] != names[k];
    assert i < k || k < i;
  }

  /** The tree's value, read off node by node. */
  method Freeze(node: Node, ghost j: Json) returns (k: Json)
    requires node.Valid() && node.Shows(j)
    ensures k == j
    decreases node.repr
  {
    match node.form
    case Items(slots) =>
      var items: seq<Json> := [];
      for i := 0 to |slots|
        invariant |items| == i && forall l | 0 <= l < i :: items[l] == j.items[l]
      {
        assert HasSlot(node.form, At(i)) && Child(j, At(i)) == j.items[i];
        var item := match slots[i] case Leaf(value) => value case Ref(_) => Null;
        if slots[i].Ref? {
          item := Freeze(slots[i].node, Child(j, At(i)));
        }
        items := items + [item];
      }
      k := List(items);
    case Fields(entries) =>
      var fields: map<string, Json> := map[];
      var left := entries.Keys;
      while left != {}
        invariant left <= entries.Keys && fields.Keys == entries.Keys - left
        invariant forall name | name in fields :: fields[name] == j.fields[name]
        decreases |left|
      {
        var name :| name in left;
        assert HasSlot(node.form, Name(name)) && Child(j, Name(name)) == j.fields[name];
        var value := match entries[name] case Leaf(value) => value case Ref(_) => Null;
        if entries[name].Ref? {
          value := Freeze(entries[name].node, Child(j, Name(name)));
        }
        fields := fields[name := value];
        left := left - {name};
      }
      k := Obj(fields);
  }

  /** `apply_parameters`: dump the strategy, write every value in place, validate what results. */
  method ApplyParameters(strategy: Definition, parameters: seq<SearchParameter>, values: Values)
    returns (tuned: Outcome<Definition>)
    ensures tuned == Apply(strategy, parameters, values)
  {
    hide Dump, WriteAll, Read;
    var dump := Build(Dump(strategy));
    DumpIsObject(strategy);
    var refusal := WriteParameters(dump.node, parameters, values, Dump(strategy));
    if refusal.Some? {
      return Err(refusal.value);
    }
    var written := Freeze(dump.node, WriteAll(Dump(strategy), parameters, values).value);
    tuned := Validated(written);
  }

  lemma DumpIsObject(strategy: Definition)
    ensures Dump(strategy).Obj?
  {
  }
}
