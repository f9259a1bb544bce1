/** The JavaScript values the builder's draft is made of, property reads
    and writes on them, and `setAtPath` (components/PromptBuilder.tsx:13-25):
    an update along a dotted path that copies every node on the way down and
    replaces the leaf, leaving the input untouched. */
module Values {
  import opened Text

  /** A JavaScript value: a plain object is a map from keys to values, an
      array a sequence (holes read as `undefined`). */
  datatype Value =
    | Undefined
    | Null
    | Bool(b: bool)
    | Num(n: real)
    | Str(s: string)
    | Arr(items: seq<Value>)
    | Obj(fields: map<string, Value>)

  /** Own-property read `v[k]`: an object's own key, an array's or a string's
      index. Any other key, including `length` and inherited properties,
      yields `undefined`. */
  function Get(v: Value, k: string): Value
  {
    match v
    case Obj(f) => if k in f then f[k] else Undefined
    case Arr(items) => if IsIndexKey(k) && ParseNat(k) < |items| then items[ParseNat(k)] else Undefined
    case Str(s) => if IsIndexKey(k) && ParseNat(k) < |s| then Str([s[ParseNat(k)]]) else Undefined
    case _ => Undefined
  }

  /** Reading the keys of `path` one after the other. */
  function GetPath(v: Value, path: seq<string>): Value
    decreases |path|
  {
    if path == [] then v else GetPath(Get(v, path[0]), path[1..])
  }

  /** Two values read the same under every key except `key`. */
  ghost predicate SameExcept(a: Value, b: Value, key: string) {
    forall k :: k != key ==> Get(a, k) == Get(b, k)
  }

  /** Two values read the same under every key. */
  ghost predicate SameReads(a: Value, b: Value) {
    forall k :: Get(a, k) == Get(b, k)
  }

  /** The characters of a string as one-character strings. */
  function Chars(s: string): (r: seq<Value>)
    ensures |r| == |s| && forall i :: 0 <= i < |s| ==> r[i] == Str([s[i]])
  {
    seq(|s|, i requires 0 <= i < |s| => Str([s[i]]))
  }

  /** The own enumerable properties of an array-like: "0" ↦ items[0], … */
  function IndexMap(items: seq<Value>): (m: map<string, Value>)
    ensures forall k :: k in m ==> IsIndexKey(k) && ParseNat(k) < |items| && m[k] == items[ParseNat(k)]
    ensures forall k :: IsIndexKey(k) && ParseNat(k) < |items| ==> k in m
  {
    if items == [] then map[]
    else
      var n := |items| - 1;
      IndexKeyOfNat(n);
      IndexMap(items[..n])[NatToString(n) := items[n]]
  }

  /** The properties object spread `{...v}` copies: an object's own
      properties, an array's or a string's index keys, and nothing for
      `undefined`, `null`, booleans and numbers. The copy reads exactly
      as the original does. */
  function Spread(v: Value): (m: map<string, Value>)
    ensures SameReads(Obj(m), v)
    ensures !v.Obj? && !v.Arr? && !v.Str? ==> m == map[]
  {
    match v
    case Obj(f) => f
    case Arr(items) => IndexMap(items)
    case Str(s) => IndexMap(Chars(s))
    case _ => map[]
  }

  /** The copy made of an intermediate node:
      `Array.isArray(x) ? [...x] : {...x}`. Arrays stay arrays, everything
      else becomes a plain object, and the copy reads as the original. */
  function CopyNode(v: Value): (c: Value)
    ensures c.Arr? == v.Arr? && (c.Obj? || c.Arr?)
    ensures SameReads(c, v)
    ensures v.Arr? ==> c == v
    ensures !v.Arr? ==> c == Obj(Spread(v))
  {
    if v.Arr? then Arr(v.items) else Obj(Spread(v))
  }

  /** Array writes stay within the model: a fresh copy is an object, or an
      array written at a canonical index. */
  predicate Writable(c: Value, k: string) {
    c.Obj? || (c.Arr? && IsIndexKey(k))
  }

  /** The `n` holes an array gets when written `n` places past its end. */
  function Holes(n: nat): (r: seq<Value>)
    ensures |r| == n && forall i :: 0 <= i < n ==> r[i] == Undefined
  {
    seq(n, _ => Undefined)
  }

  /** Property write `c[k] = x` on a fresh copy `c`: afterwards `k` reads
      `x`, every other key reads as before, and the container keeps its kind;
      an array written past its end grows to the index, with holes. */
  function Assign(c: Value, k: string, x: Value): (r: Value)
    requires Writable(c, k)
    ensures r.Obj? == c.Obj? && r.Arr? == c.Arr?
    ensures Get(r, k) == x
    ensures SameExcept(r, c, k)
    ensures c.Obj? ==> r.fields.Keys == c.fields.Keys + {k}
    ensures c.Arr? ==> |r.items| == if ParseNat(k) < |c.items| then |c.items| else ParseNat(k) + 1
  {
    if c.Obj? then Obj(c.fields[k := x])
    else
      var i := ParseNat(k);
      if i < |c.items| then Arr(c.items[i := x]) else Arr(c.items + Holes(i - |c.items|) + [x])
  }

  /** Every key that `setAtPath` applies to an array along `path` is a
      canonical index (`path[0]` is applied to the fresh root object). */
  predicate ArrayKeysIndexed(v: Value, path: seq<string>)
    decreases |path|
  {
    |path| <= 1 ||
    ((Get(v, path[0]).Arr? ==> IsIndexKey(path[1])) && ArrayKeysIndexed(Get(v, path[0]), path[1..]))
  }

  lemma ArrayKeysIndexedReads(v: Value, w: Value, path: seq<string>)
    requires SameReads(v, w) && ArrayKeysIndexed(v, path)
    ensures ArrayKeysIndexed(w, path)
  {
    if |path| > 1 {
      assert Get(v, path[0]) == Get(w, path[0]);
    }
  }

  /** The loop of `setAtPath` from the already copied container `c` on:
      copy the node under `path[0]`, continue in the copy, and write the
      leaf. */
  function SetIn(c: Value, path: seq<string>, x: Value): (r: Value)
    requires |path| >= 1 && Writable(c, path[0]) && ArrayKeysIndexed(c, path)
    ensures r.Obj? == c.Obj? && r.Arr? == c.Arr?
    decreases |path|
  {
    if |path| == 1 then Assign(c, path[0], x)
    else
      var next := CopyNode(Get(c, path[0]));
      ArrayKeysIndexedReads(Get(c, path[0]), next, path[1..]);
      Assign(c, path[0], SetIn(next, path[1..], x))
  }

  /** One step of the descent keeps the copy writable at the next key. */
  lemma CopyStep(c: Value, path: seq<string>)
    requires |path| >= 2 && ArrayKeysIndexed(c, path)
    ensures var next := CopyNode(Get(c, path[0]));
      Writable(next, path[1]) && ArrayKeysIndexed(next, path[1..])
  {
    ArrayKeysIndexedReads(Get(c, path[0]), CopyNode(Get(c, path[0])), path[1..]);
  }

  /** `setAtPath(obj, path, x)`: the root is spread into a fresh object and
      the path is the dot-separated pieces of `path`. */
  function SetAtPath(obj: Value, path: string, x: Value): (r: Value)
    requires ArrayKeysIndexed(obj, Split(path, '.'))
    ensures r.Obj?
  {
    ArrayKeysIndexedReads(obj, Obj(Spread(obj)), Split(path, '.'));
    SetIn(Obj(Spread(obj)), Split(path, '.'), x)
  }

  // ---------------------------------------------------------------------
  // The loop as the source writes it

  /** `setAtPath` as a loop. The descent copies one node per step, as
      `cur[p] = next; cur = next` does; since values here are not shared
      references, the writes of each copy into its parent are then made
      explicitly, from the leaf back to the root. */
  method SetAtPathLoop(obj: Value, path: string, x: Value) returns (r: Value)
    requires ArrayKeysIndexed(obj, Split(path, '.'))
    ensures r == SetAtPath(obj, path, x)
  {
    var parts := Split(path, '.');
    var nodes := CopyPath(obj, parts);
    r := WriteBack(nodes, parts, x);
    assert parts[0..] == parts;
  }

  /** `nodes` are the copies the descent has made so far along `parts`:
      each can take the write of its key, and each after the first is the
      copy of what the previous one holds under its key. */
  predicate CopyChain(nodes: seq<Value>, parts: seq<string>) {
    && |nodes| <= |parts|
    && (forall j :: 0 <= j < |nodes| ==> Writable(nodes[j], parts[j]) && ArrayKeysIndexed(nodes[j], parts[j..]))
    && (forall j :: 0 <= j < |nodes| - 1 ==> nodes[j + 1] == CopyNode(Get(nodes[j], parts[j])))
  }

  /** One more step of the descent extends the chain. */
  lemma CopyChainExtend(nodes: seq<Value>, parts: seq<string>)
    requires CopyChain(nodes, parts) && 1 <= |nodes| < |parts|
    ensures var i := |nodes| - 1;
      CopyChain(nodes + [CopyNode(Get(nodes[i], parts[i]))], parts)
  {
    var i := |nodes| - 1;
    CopyStep(nodes[i], parts[i..]);
    assert parts[i..][1..] == parts[i + 1..];
  }

  /** The descent of `setAtPath`: `nodes[0]` is the spread root and each
      further node the copy of what the previous one holds under the next
      key, down to the leaf's container. */
  method CopyPath(obj: Value, parts: seq<string>) returns (nodes: seq<Value>)
    requires |parts| >= 1 && ArrayKeysIndexed(obj, parts)
    ensures |nodes| == |parts| && nodes[0] == Obj(Spread(obj)) && CopyChain(nodes, parts)
  {
    var n := |parts|;
    nodes := [Obj(Spread(obj))];
    ArrayKeysIndexedReads(obj, nodes[0], parts);
    assert parts[0..] == parts;
    var i := 0;
    while i < n - 1
      invariant 0 <= i <= n - 1 && |nodes| == i + 1
      invariant nodes[0] == Obj(Spread(obj))
      invariant CopyChain(nodes, parts)
    {
      CopyChainExtend(nodes, parts);
      nodes := nodes + [CopyNode(Get(nodes[i], parts[i]))];
      i := i + 1;
    }
  }

  /** Writing each copy into its parent, from the leaf back to the root;
      in the source the copies are linked into their parents as they are
      made, since objects are shared references. */
  method WriteBack(nodes: seq<Value>, parts: seq<string>, x: Value) returns (r: Value)
    requires |nodes| == |parts| >= 1 && CopyChain(nodes, parts)
    ensures r == SetIn(nodes[0], parts[0..], x)
  {
    var n := |parts|;
    r := Assign(nodes[n - 1], parts[n - 1], x);
    assert parts[n - 1..] == [parts[n - 1]];
    var j := n - 1;
    while j > 0
      invariant 0 <= j <= n - 1
      invariant r == SetIn(nodes[j], parts[j..], x)
    {
      var tail := parts[j..];
      j := j - 1;
      assert parts[j..][1..] == tail;
      r := Assign(nodes[j], parts[j], r);
    }
  }

  // ---------------------------------------------------------------------
  // Properties of setAtPath

  lemma {:induction false} GetPathAppend(v: Value, path: seq<string>, k: string)
    ensures GetPath(v, path + [k]) == Get(GetPath(v, path), k)
    decreases |path|
  {
    if path != [] {
      assert (path + [k])[1..] == path[1..] + [k];
      GetPathAppend(Get(v, path[0]), path[1..], k);
    }
  }

  lemma GetPathReads(v: Value, w: Value, path: seq<string>)
    requires SameReads(v, w) && |path| >= 1
    ensures GetPath(v, path) == GetPath(w, path)
  {
    assert Get(v, path[0]) == Get(w, path[0]);
  }

  /** The node the result holds at depth `i` along the path is the copy of
      the original node there, updated along the rest of the path. */
  lemma {:induction false} NodeOnPath(c: Value, path: seq<string>, x: Value, i: nat)
    requires |path| >= 1 && Writable(c, path[0]) && ArrayKeysIndexed(c, path)
    requires 1 <= i < |path|
    ensures var o := GetPath(c, path[..i]);
      Writable(CopyNode(o), path[i]) && ArrayKeysIndexed(CopyNode(o), path[i..]) &&
      GetPath(SetIn(c, path, x), path[..i]) == SetIn(CopyNode(o), path[i..], x)
    decreases i
  {
    var child := Get(c, path[0]);
    var next := CopyNode(child);
    var rest := path[1..];
    ArrayKeysIndexedReads(child, next, rest);
    var r := SetIn(c, path, x);
    assert r == Assign(c, path[0], SetIn(next, rest, x));
    assert Get(r, path[0]) == SetIn(next, rest, x);
    assert path[..i][1..] == rest[..i - 1];
    assert GetPath(r, path[..i]) == GetPath(SetIn(next, rest, x), rest[..i - 1]);
    assert GetPath(c, path[..i]) == GetPath(child, rest[..i - 1]);
    assert rest[i - 1..] == path[i..];
    if i == 1 {
      assert rest[..0] == [];
    } else {
      NodeOnPath(next, rest, x, i - 1);
      GetPathReads(next, child, rest[..i - 1]);
    }
  }

  /** The root of the result is a fresh object; reading the whole path
      from it yields the new value. */
  lemma {:induction false} SetInReadsBack(c: Value, path: seq<string>, x: Value)
    requires |path| >= 1 && Writable(c, path[0]) && ArrayKeysIndexed(c, path)
    ensures GetPath(SetIn(c, path, x), path) == x
  {
    var n := |path|;
    var r := SetIn(c, path, x);
    assert path == path[..n - 1] + [path[n - 1]];
    GetPathAppend(r, path[..n - 1], path[n - 1]);
    if n == 1 {
      assert path[..0] == [];
    } else {
      NodeOnPath(c, path, x, n - 1);
      assert path[n - 1..] == [path[n - 1]];
    }
  }

  /** After `setAtPath(obj, path, x)`, reading the same dotted path from the
      result yields `x`. */
  lemma SetAtPathReadsBack(obj: Value, path: string, x: Value)
    requires ArrayKeysIndexed(obj, Split(path, '.'))
    ensures GetPath(SetAtPath(obj, path, x), Split(path, '.')) == x
  {
    ArrayKeysIndexedReads(obj, Obj(Spread(obj)), Split(path, '.'));
    SetInReadsBack(Obj(Spread(obj)), Split(path, '.'), x);
  }

  /** Off the path nothing changes: at every depth `i`, every key other
      than the path's own key reads as it did in the input. */
  lemma SetAtPathOffPath(obj: Value, path: string, x: Value, i: nat)
    requires ArrayKeysIndexed(obj, Split(path, '.'))
    requires i < |Split(path, '.')|
    ensures var parts := Split(path, '.');
      SameExcept(GetPath(SetAtPath(obj, path, x), parts[..i]), GetPath(obj, parts[..i]), parts[i])
  {
    var parts := Split(path, '.');
    var c := Obj(Spread(obj));
    ArrayKeysIndexedReads(obj, c, parts);
    var r := SetAtPath(obj, path, x);
    if i == 0 {
      assert parts[..0] == [];
    } else {
      NodeOnPath(c, parts, x, i);
      GetPathReads(c, obj, parts[..i]);
      var o := GetPath(obj, parts[..i]);
      assert parts[i..][0] == parts[i];
      assert GetPath(r, parts[..i]) == SetIn(CopyNode(o), parts[i..], x);
    }
  }

  /** The root of the result is a fresh object holding the original's
      properties plus the path's first key. */
  lemma SetAtPathRootShape(obj: Value, path: string, x: Value)
    requires ArrayKeysIndexed(obj, Split(path, '.'))
    ensures var r := SetAtPath(obj, path, x);
      r.Obj? && r.fields.Keys == Spread(obj).Keys + {Split(path, '.')[0]}
  {
    var parts := Split(path, '.');
    var c := Obj(Spread(obj));
    ArrayKeysIndexedReads(obj, c, parts);
    SetInContainer(c, parts, x);
  }

  /** The shape of the copies below the root: an array on the path stays an
      array (growing only to reach a written index past its end), any other
      node becomes an object holding its spread properties plus the path's
      key, so a missing or primitive intermediate becomes an object holding
      that key alone. */
  lemma SetAtPathShape(obj: Value, path: string, x: Value, i: nat)
    requires ArrayKeysIndexed(obj, Split(path, '.'))
    requires 0 < i < |Split(path, '.')|
    ensures var parts := Split(path, '.');
      var o := GetPath(obj, parts[..i]);
      var n := GetPath(SetAtPath(obj, path, x), parts[..i]);
      && (o.Arr? ==>
            n.Arr? && IsIndexKey(parts[i]) &&
            |n.items| == if ParseNat(parts[i]) < |o.items| then |o.items| else ParseNat(parts[i]) + 1)
      && (!o.Arr? ==> n.Obj? && n.fields.Keys == Spread(o).Keys + {parts[i]})
      && (o.Undefined? || o.Null? || o.Bool? || o.Num? ==> n.Obj? && n.fields.Keys == {parts[i]})
  {
    var parts := Split(path, '.');
    var c := Obj(Spread(obj));
    ArrayKeysIndexedReads(obj, c, parts);
    var r := SetAtPath(obj, path, x);
    NodeOnPath(c, parts, x, i);
    GetPathReads(c, obj, parts[..i]);
    var o := GetPath(obj, parts[..i]);
    assert parts[i..][0] == parts[i];
    assert GetPath(r, parts[..i]) == SetIn(CopyNode(o), parts[i..], x);
    SetInContainer(CopyNode(o), parts[i..], x);
  }

  /** The container `SetIn` starts from keeps its kind and gains the first
      key (an object) or grows to reach it (an array). */
  lemma SetInContainer(c: Value, path: seq<string>, x: Value)
    requires |path| >= 1 && Writable(c, path[0]) && ArrayKeysIndexed(c, path)
    ensures var n := SetIn(c, path, x);
      && n.Obj? == c.Obj? && n.Arr? == c.Arr?
      && (c.Obj? ==> n.fields.Keys == c.fields.Keys + {path[0]})
      && (c.Arr? ==> |n.items| == if ParseNat(path[0]) < |c.items| then |c.items| else ParseNat(path[0]) + 1)
  {
  }
}
