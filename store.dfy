/** The builder's reducer (components/PromptBuilder.tsx:11, 27-36): a `set`
    action writes one value along a dotted path, a `reset` action replaces
    the whole draft, and anything else leaves the state as it is. */
module Store {
  import opened Text
  import opened Values

  /** `{type: "set", path, value}`, `{type: "reset", value?}` (an absent
      value is `Undefined`), or an action with any other tag. */
  datatype Action = Set(path: string, value: Value) | Reset(value: Value) | Other(tag: string)

  /** The reducer can run `action` on `state` within the model: a `set`
      writes to arrays only at canonical indices. */
  predicate Applicable(state: Value, action: Action) {
    action.Set? ==> ArrayKeysIndexed(state, Split(action.path, '.'))
  }

  /** `reducer(state, action)`, with `defaultPrompt()` passed in as
      `defaults`. `action.value ?? defaultPrompt()` falls back on the
      defaults for both `undefined` and `null`. */
  function Reduce(defaults: Value, state: Value, action: Action): (r: Value)
    requires Applicable(state, action)
    ensures action.Set? ==> r.Obj? && GetPath(r, Split(action.path, '.')) == action.value
    ensures action.Reset? && !action.value.Undefined? && !action.value.Null? ==> r == action.value
    ensures action.Reset? && (action.value.Undefined? || action.value.Null?) ==> r == defaults
    ensures action.Other? ==> r == state
  {
    match action
    case Set(path, value) =>
      SetAtPathReadsBack(state, path, value);
      SetAtPath(state, path, value)
    case Reset(value) => if value.Undefined? || value.Null? then defaults else value
    case Other(_) => state
  }

  /** A `set` on a top-level key (no dot in the path) writes that key of a
      fresh root object and nothing else. */
  lemma {:induction false} SetTopField(defaults: Value, state: Value, key: string, v: Value)
    requires '.' !in key
    ensures Applicable(state, Set(key, v))
    ensures var r := Reduce(defaults, state, Set(key, v));
      r.Obj? && r.fields.Keys == Spread(state).Keys + {key} && Get(r, key) == v && SameExcept(r, state, key)
  {
    SplitNoSeparator(key, '.');
    var r := Reduce(defaults, state, Set(key, v));
    assert r == Assign(Obj(Spread(state)), key, v);
  }

  /** A `set` on `group.field` copies the group node into a fresh object,
      writes `field` there, and changes no other key of the root or of the
      group. */
  lemma {:induction false} SetNestedField(defaults: Value, state: Value, group: string, field: string, v: Value)
    requires '.' !in group && '.' !in field && !Get(state, group).Arr?
    ensures Applicable(state, Set(group + "." + field, v))
    ensures var r := Reduce(defaults, state, Set(group + "." + field, v));
      && r.Obj? && r.fields.Keys == Spread(state).Keys + {group}
      && SameExcept(r, state, group)
      && Get(r, group).Obj? && Get(r, group).fields.Keys == Spread(Get(state, group)).Keys + {field}
      && Get(Get(r, group), field) == v
      && SameExcept(Get(r, group), Get(state, group), field)
  {
    var path := group + "." + field;
    SplitNoSeparator(field, '.');
    SplitAtFirst(group, field, '.');
    assert Split(path, '.') == [group, field];
    var root := Obj(Spread(state));
    var next := CopyNode(Get(root, group));
    assert Get(root, group) == Get(state, group);
    assert next == Obj(Spread(Get(state, group)));
    var r := Reduce(defaults, state, Set(path, v));
    assert [group, field][1..] == [field];
    assert r == SetIn(root, [group, field], v);
    assert SetIn(next, [field], v) == Assign(next, field, v);
    assert r == Assign(root, group, Assign(next, field, v));
  }

  /** Whether a sequence of dispatches can run one after another. */
  predicate Runs(defaults: Value, state: Value, actions: seq<Action>)
    decreases |actions|
  {
    |actions| == 0 ||
    (Applicable(state, actions[0]) && Runs(defaults, Reduce(defaults, state, actions[0]), actions[1..]))
  }

  /** The state after dispatching `actions` in order, each reduced from the
      state the previous one left. */
  function ApplyAll(defaults: Value, state: Value, actions: seq<Action>): Value
    requires Runs(defaults, state, actions)
    decreases |actions|
  {
    if |actions| == 0 then state
    else ApplyAll(defaults, Reduce(defaults, state, actions[0]), actions[1..])
  }

  /** Dispatching a first action and then the rest. */
  lemma ApplyAllCons(defaults: Value, state: Value, actions: seq<Action>)
    requires |actions| > 0 && Applicable(state, actions[0])
    requires Runs(defaults, Reduce(defaults, state, actions[0]), actions[1..])
    ensures Runs(defaults, state, actions)
    ensures ApplyAll(defaults, state, actions) == ApplyAll(defaults, Reduce(defaults, state, actions[0]), actions[1..])
  {
  }

  /** The `k`-th dispatch of a run: it can run, the rest can run after it,
      and the run from `k` on is that dispatch followed by the rest. */
  lemma RunsFrom(defaults: Value, state: Value, actions: seq<Action>, k: nat)
    requires k < |actions| && Runs(defaults, state, actions[k..])
    ensures Applicable(state, actions[k])
    ensures Runs(defaults, Reduce(defaults, state, actions[k]), actions[k + 1..])
    ensures ApplyAll(defaults, state, actions[k..]) == ApplyAll(defaults, Reduce(defaults, state, actions[k]), actions[k + 1..])
  {
    assert actions[k..][0] == actions[k] && actions[k..][1..] == actions[k + 1..];
  }

  /** A reset forgets everything before it: whatever was dispatched
      earlier, the state after `reset` is the same. */
  lemma {:induction false} ResetForgetsHistory(defaults: Value, state: Value, earlier: seq<Action>, v: Value)
    requires Runs(defaults, state, earlier)
    ensures Runs(defaults, state, earlier + [Reset(v)])
    ensures ApplyAll(defaults, state, earlier + [Reset(v)]) == Reduce(defaults, defaults, Reset(v))
    decreases |earlier|
  {
    if |earlier| == 0 {
      assert earlier + [Reset(v)] == [Reset(v)];
      assert [Reset(v)][1..] == [];
    } else {
      var s1 := Reduce(defaults, state, earlier[0]);
      assert (earlier + [Reset(v)])[1..] == earlier[1..] + [Reset(v)];
      ResetForgetsHistory(defaults, s1, earlier[1..], v);
    }
  }
}
