/** jget against the value it queries: the text at a path, in objects whose keys are free of
    slashes and not repeated. */
module Jget {
  import opened Text
  import opened Unicode
  import opened Flattening
  import opened JsonTree
  import opened FlatFile

  // ---- paths ----

  ghost predicate SlashFree(steps: seq<string>) {
    forall k | 0 <= k < |steps| :: '/' !in steps[k]
  }

  /** A path read from its front. */
  function PathFrom(steps: seq<string>): string {
    if steps == [] then "" else "/" + steps[0] + PathFrom(steps[1..])
  }

  lemma {:induction false} PathFromAppend(steps: seq<string>, step: string)
    ensures PathFrom(steps + [step]) == PathFrom(steps) + "/" + step
  {
    if steps == [] {
      assert ([] + [step])[1..] == [];
      assert PathFrom([]) == "" && PathFrom([step]) == "/" + step + "";
    } else {
      assert (steps + [step])[1..] == steps[1..] + [step];
      PathFromAppend(steps[1..], step);
      assert "/" + steps[0] + (PathFrom(steps[1..]) + "/" + step) == "/" + steps[0] + PathFrom(steps[1..]) + "/" + step;
    }
  }

  lemma {:induction false} PathOfIsPathFrom(steps: seq<string>)
    ensures PathOf(steps) == PathFrom(steps)
  {
    if steps == [] {
    } else {
      var init, last := steps[..|steps| - 1], steps[|steps| - 1];
      PathOfIsPathFrom(init);
      PathFromAppend(init, last);
      assert init + [last] == steps;
    }
  }

  lemma {:induction false} SplitPathFrom(a: string, steps: seq<string>)
    requires '/' !in a && SlashFree(steps)
    ensures Split(a + PathFrom(steps), '/') == [a] + steps
    decreases |steps|
  {
    hide Split;
    if steps == [] {
      assert a + PathFrom(steps) == a && [a] + steps == [a];
      SplitNone(a, '/');
    } else {
      var rest := steps[0] + PathFrom(steps[1..]);
      assert a + PathFrom(steps) == a + ['/'] + rest;
      SplitPast(a, '/', rest);
      SplitPathFrom(steps[0], steps[1..]);
      assert steps == [steps[0]] + steps[1..];
    }
  }

  /** Splitting a path at its slashes gives its steps back, after an empty first part. */
  lemma SplitPath(steps: seq<string>)
    requires SlashFree(steps)
    ensures Split(PathOf(steps), '/') == [""] + steps
  {
    hide Split;
    PathOfIsPathFrom(steps);
    SplitPathFrom("", steps);
    assert "" + PathFrom(steps) == PathFrom(steps);
  }

  lemma PathOfInjective(a: seq<string>, b: seq<string>)
    requires SlashFree(a) && SlashFree(b) && PathOf(a) == PathOf(b)
    ensures a == b
  {
    hide Split, PathOf;
    SplitPath(a);
    SplitPath(b);
    assert a == ([""] + a)[1..] && b == ([""] + b)[1..];
  }

  // ---- the lookup ----

  /** What the command substitution around jget yields: $2 of the first line whose $1 is p, or
      nothing for the text null. */
  function Jget(lines: seq<Line>, p: string): string {
    if lines == [] then ""
    else if lines[0].path == p then (if lines[0].value == "null" then "" else lines[0].value)
    else Jget(lines[1..], p)
  }

  /** The first line with the path decides, whatever follows it. */
  lemma {:induction false} JgetFirst(a: seq<Line>, l: Line, b: seq<Line>, p: string)
    requires forall i | 0 <= i < |a| :: a[i].path != p
    ensures Jget(a + [l] + b, p) == if l.path != p then Jget(b, p) else if l.value == "null" then "" else l.value
    ensures Jget(a, p) == ""
  {
    if a == [] {
      assert a + [l] + b == [l] + b && ([l] + b)[1..] == b;
    } else {
      assert (a + [l] + b)[1..] == a[1..] + [l] + b;
      JgetFirst(a[1..], l, b, p);
    }
  }

  /** The awk loop over the records of the flat file. */
  method RunJget(records: seq<string>, p: string) returns (out: string)
    ensures out == Jget(ParsedAll(records), p)
  {
    for k := 0 to |records|
      invariant Jget(ParsedAll(records)[k..], p) == Jget(ParsedAll(records), p)
    {
      var l := Parsed(records[k]);
      assert ParsedAll(records)[k..][0] == l && ParsedAll(records)[k..][1..] == ParsedAll(records)[k + 1..];
      if l.path == p {
        return if l.value == "null" then "" else l.value;
      }
    }
    return "";
  }

  // ---- the value's own lookup ----

  predicate HasKey(fields: Fields, key: string)
    requires FieldsOk(fields)
  {
    Shown(fields.field.key) == key || (fields.MoreFields? && HasKey(fields.more, key))
  }

  /** Object keys are free of slashes and none is repeated. */
  predicate KeysOk(v: Value)
    requires ValueOk(v)
    decreases v
  {
    match v
    case Arr(items) => ItemKeysOk(items)
    case Obj(fields) => FieldKeysOk(fields)
    case _ => true
  }

  predicate ItemKeysOk(items: Items)
    requires ItemsOk(items)
    decreases items
  {
    KeysOk(items.item.value) && (items.MoreItems? ==> ItemKeysOk(items.rest))
  }

  predicate FieldKeysOk(fields: Fields)
    requires FieldsOk(fields)
    decreases fields
  {
    && '/' !in Shown(fields.field.key) && KeysOk(fields.field.member.value)
    && (fields.MoreFields? ==> !HasKey(fields.more, Shown(fields.field.key)) && FieldKeysOk(fields.more))
  }

  /** The scalar that a list of keys and indices leads to. */
  function Select(v: Value, steps: seq<string>): Option<string>
    requires ValueOk(v)
    decreases v
  {
    match v
    case Str(us) => if steps == [] then Some(Shown(us)) else None
    case Bare(t) => if steps == [] then Some(t) else None
    case EmptyArr(_) => None
    case EmptyObj(_) => None
    case Arr(items) => if steps == [] then None else SelectItem(items, 0, steps)
    case Obj(fields) => if steps == [] then None else SelectField(fields, steps)
  }

  function SelectItem(items: Items, index: nat, steps: seq<string>): Option<string>
    requires ItemsOk(items) && steps != []
    decreases items
  {
    if steps[0] == Dec(index) then Select(items.item.value, steps[1..])
    else if items.MoreItems? then SelectItem(items.rest, index + 1, steps)
    else None
  }

  function SelectField(fields: Fields, steps: seq<string>): Option<string>
    requires FieldsOk(fields) && steps != []
    decreases fields
  {
    if steps[0] == Shown(fields.field.key) then Select(fields.field.member.value, steps[1..])
    else if fields.MoreFields? then SelectField(fields.more, steps)
    else None
  }

  // ---- leaves and lookups agree ----

  /** Leaf l lies under base and carries what the lookup of the rest of its steps finds. */
  ghost predicate Agrees(l: Leaf, base: seq<string>, v: Value)
    requires ValueOk(v)
  {
    base <= l.steps && Select(v, l.steps[|base|..]) == Some(l.value)
  }

  lemma {:induction false} LeavesSelect(base: seq<string>, v: Value, l: Leaf)
    requires ValueOk(v) && KeysOk(v) && l in Leaves(base, v)
    ensures Agrees(l, base, v)
    decreases v
  {
    hide Shown, UnitsOk;
    match v
    case Str(us) =>
    case Bare(t) =>
    case EmptyArr(_) =>
    case EmptyObj(_) =>
    case Arr(items) => ItemsSelect(base, 0, items, l);
    case Obj(fields) => FieldsSelect(base, fields, l);
  }

  lemma Deeper(base: seq<string>, step: string, steps: seq<string>)
    requires base + [step] <= steps
    ensures base <= steps && steps[|base|..] != [] && steps[|base|..][0] == step
    ensures steps[|base|..][1..] == steps[|base + [step]|..]
  {
    assert steps[|base|] == (base + [step])[|base|];
  }

  lemma {:induction false} ItemsSelect(base: seq<string>, index: nat, items: Items, l: Leaf)
    requires ItemsOk(items) && ItemKeysOk(items) && l in ItemLeaves(base, index, items)
    ensures base < l.steps && SelectItem(items, index, l.steps[|base|..]) == Some(l.value)
    ensures exists i :: i >= index && l.steps[|base|] == Dec(i)
    decreases items
  {
    hide Leaves, Select, KeysOk, ValueOk, Dec;
    var base' := base + [Dec(index)];
    if l in Leaves(base', items.item.value) {
      LeavesSelect(base', items.item.value, l);
      Deeper(base, Dec(index), l.steps);
    } else {
      ItemsSelect(base, index + 1, items.rest, l);
      var i :| i >= index + 1 && l.steps[|base|] == Dec(i);
      if Dec(i) == Dec(index) {
        DecInjective(i, index);
      }
    }
  }

  lemma {:induction false} FieldsSelect(base: seq<string>, fields: Fields, l: Leaf)
    requires FieldsOk(fields) && FieldKeysOk(fields) && l in FieldLeaves(base, fields)
    ensures base < l.steps && SelectField(fields, l.steps[|base|..]) == Some(l.value)
    ensures HasKey(fields, l.steps[|base|])
    decreases fields
  {
    hide Leaves, Select, KeysOk, ValueOk, Shown, UnitsOk;
    var key := Shown(fields.field.key);
    if l in Leaves(base + [key], fields.field.member.value) {
      LeavesSelect(base + [key], fields.field.member.value, l);
      Deeper(base, key, l.steps);
    } else {
      FieldsSelect(base, fields.more, l);
    }
  }

  lemma {:induction false} SelectLeaves(base: seq<string>, v: Value, steps: seq<string>)
    requires ValueOk(v) && Select(v, steps).Some?
    ensures Leaf(base + steps, Select(v, steps).value) in Leaves(base, v)
    decreases v
  {
    hide Shown, UnitsOk;
    match v
    case Str(us) => assert base + steps == base;
    case Bare(t) => assert base + steps == base;
    case Arr(items) => SelectItems(base, 0, items, steps);
    case Obj(fields) => SelectFields(base, fields, steps);
  }

  lemma Onward(base: seq<string>, step: string, steps: seq<string>)
    requires steps != [] && steps[0] == step
    ensures base + [step] + steps[1..] == base + steps
  {
  }

  lemma {:induction false} SelectItems(base: seq<string>, index: nat, items: Items, steps: seq<string>)
    requires ItemsOk(items) && steps != [] && SelectItem(items, index, steps).Some?
    ensures Leaf(base + steps, SelectItem(items, index, steps).value) in ItemLeaves(base, index, items)
    decreases items
  {
    hide Leaves, Select, ValueOk, Dec;
    if steps[0] == Dec(index) {
      SelectLeaves(base + [Dec(index)], items.item.value, steps[1..]);
      Onward(base, Dec(index), steps);
    } else {
      SelectItems(base, index + 1, items.rest, steps);
    }
  }

  lemma {:induction false} SelectFields(base: seq<string>, fields: Fields, steps: seq<string>)
    requires FieldsOk(fields) && steps != [] && SelectField(fields, steps).Some?
    ensures Leaf(base + steps, SelectField(fields, steps).value) in FieldLeaves(base, fields)
    decreases fields
  {
    hide Leaves, Select, ValueOk, Shown, UnitsOk;
    var key := Shown(fields.field.key);
    if steps[0] == key {
      SelectLeaves(base + [key], fields.field.member.value, steps[1..]);
      Onward(base, key, steps);
    } else {
      SelectFields(base, fields.more, steps);
    }
  }

  // ---- leaves have slash-free steps ----

  lemma {:induction false} LeafSteps(base: seq<string>, v: Value, l: Leaf)
    requires ValueOk(v) && KeysOk(v) && SlashFree(base) && l in Leaves(base, v)
    ensures SlashFree(l.steps)
    decreases v
  {
    hide Shown, UnitsOk;
    match v
    case Str(us) =>
    case Bare(t) =>
    case Arr(items) => ItemSteps(base, 0, items, l);
    case Obj(fields) => FieldSteps(base, fields, l);
  }

  lemma {:induction false} ItemSteps(base: seq<string>, index: nat, items: Items, l: Leaf)
    requires ItemsOk(items) && ItemKeysOk(items) && SlashFree(base) && l in ItemLeaves(base, index, items)
    ensures SlashFree(l.steps)
    decreases items
  {
    hide Leaves, KeysOk, ValueOk;
    if l in Leaves(base + [Dec(index)], items.item.value) {
      LeafSteps(base + [Dec(index)], items.item.value, l);
    } else {
      ItemSteps(base, index + 1, items.rest, l);
    }
  }

  lemma {:induction false} FieldSteps(base: seq<string>, fields: Fields, l: Leaf)
    requires FieldsOk(fields) && FieldKeysOk(fields) && SlashFree(base) && l in FieldLeaves(base, fields)
    ensures SlashFree(l.steps)
    decreases fields
  {
    hide Leaves, KeysOk, ValueOk, Shown, UnitsOk;
    var key := Shown(fields.field.key);
    if l in Leaves(base + [key], fields.field.member.value) {
      LeafSteps(base + [key], fields.field.member.value, l);
    } else {
      FieldSteps(base, fields.more, l);
    }
  }

  // ---- the theorem ----

  lemma {:induction false} JgetAmong(leaves: seq<Leaf>, steps: seq<string>)
    requires SlashFree(steps) && forall l | l in leaves :: SlashFree(l.steps)
    ensures (exists l :: l in leaves && l.steps == steps
                         && Jget(Lines(leaves), PathOf(steps)) == if l.value == "null" then "" else l.value)
            || ((forall l | l in leaves :: l.steps != steps) && Jget(Lines(leaves), PathOf(steps)) == "")
  {
    hide PathOf;
    if leaves == [] {
    } else {
      var first, rest := leaves[0], leaves[1..];
      assert first in leaves;
      assert Lines(leaves)[1..] == Lines(rest);
      if PathOf(first.steps) == PathOf(steps) {
        PathOfInjective(first.steps, steps);
      } else {
        forall l | l in rest ensures l in leaves {
        }
        JgetAmong(rest, steps);
      }
    }
  }

  /** jget on the flattened text of a value yields the text at a path: nothing where the value has
      no scalar there, and nothing for null or the string "null". */
  lemma JgetFinds(v: Value, steps: seq<string>)
    requires ValueOk(v) && KeysOk(v) && SlashFree(steps)
    ensures Jget(ParsedAll(Records(FileText(Lines(Leaves([], v))))), PathOf(steps)) ==
            match Select(v, steps)
            case Some(x) => if x == "null" then "" else x
            case None => ""
  {
    hide Leaves, Lines, Select, ValueOk, KeysOk, PathOf, FileText;
    FlatFileIsLeaves(v);
    var leaves := Leaves([], v);
    forall l | l in leaves ensures SlashFree(l.steps) && Select(v, l.steps) == Some(l.value) {
      LeafSteps([], v, l);
      LeavesSelect([], v, l);
      assert l.steps[0..] == l.steps;
    }
    if Select(v, steps).Some? {
      SelectLeaves([], v, steps);
      assert [] + steps == steps;
    }
    JgetAmong(leaves, steps);
  }
}
