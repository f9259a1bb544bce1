/** The collection edits the builder's handlers perform on a copy of a
    list before dispatching it whole (components/PromptBuilder.tsx:141-316,
    341-345): remove at an index, replace one field of one record, append a
    fresh character, location or shot, and rebuild a list from
    comma-separated text. */
module Lists {
  import opened Text
  import opened Values

  // ---------------------------------------------------------------------
  // Remove and edit at an index

  /** `copy = [...s]; copy.splice(idx, 1)`: the element at `idx` is dropped
      and the others keep their relative order; an index past the end
      changes nothing. */
  function RemoveAt(s: seq<Value>, idx: nat): (r: seq<Value>)
    ensures idx < |s| ==> |r| == |s| - 1 && multiset(r) + multiset{s[idx]} == multiset(s)
    ensures idx < |s| ==> forall j :: 0 <= j < |r| ==> r[j] == s[if j < idx then j else j + 1]
    ensures idx >= |s| ==> r == s
  {
    if idx < |s| then
      assert s == s[..idx] + [s[idx]] + s[idx + 1..];
      s[..idx] + s[idx + 1..]
    else s
  }

  /** `{...v, [field]: x}`: a fresh object that reads `x` at `field` and
      as `v` everywhere else. */
  function WithField(v: Value, field: string, x: Value): (r: Value)
    ensures r.Obj? && Get(r, field) == x && SameExcept(r, v, field)
  {
    Obj(Spread(v)[field := x])
  }

  /** `copy = [...s]; copy[idx] = {...s[idx], [field]: x}`: only element
      `idx` changes, and in it only `field`. */
  function EditAt(s: seq<Value>, idx: nat, field: string, x: Value): (r: seq<Value>)
    requires idx < |s|
    ensures |r| == |s| && forall j :: 0 <= j < |s| && j != idx ==> r[j] == s[j]
    ensures Get(r[idx], field) == x && SameExcept(r[idx], s[idx], field)
  {
    s[idx := WithField(s[idx], field, x)]
  }

  // ---------------------------------------------------------------------
  // New records

  /** `{id, name, description, wardrobe}`. */
  function Character(id: string, name: string, description: string, wardrobe: string): Value
  {
    Obj(map["id" := Str(id), "name" := Str(name), "description" := Str(description), "wardrobe" := Str(wardrobe)])
  }

  /** `char_${n}`. */
  function CharacterId(n: nat): string
  {
    "char_" + NatToString(n)
  }

  /** The "Add character" button: append one blank character whose id is
      `char_<old length + 1>`; the existing characters stay as they were,
      in order. */
  function AddCharacter(chars: seq<Value>): (r: seq<Value>)
    ensures |r| == |chars| + 1 && r[..|chars|] == chars
    ensures Get(r[|chars|], "id") == Str(CharacterId(|chars| + 1))
    ensures Get(r[|chars|], "name") == Str("") && Get(r[|chars|], "description") == Str("")
    ensures Get(r[|chars|], "wardrobe") == Str("")
  {
    chars + [Character(CharacterId(|chars| + 1), "", "", "")]
  }

  /** The "Add location" button: append `{name: "", description: "", timeOfDay: ""}`. */
  function AddLocation(locations: seq<Value>): (r: seq<Value>)
    ensures |r| == |locations| + 1 && r[..|locations|] == locations
    ensures Get(r[|locations|], "name") == Str("") && Get(r[|locations|], "description") == Str("")
    ensures Get(r[|locations|], "timeOfDay") == Str("")
  {
    locations + [Obj(map["name" := Str(""), "description" := Str(""), "timeOfDay" := Str("")])]
  }

  /** `{id: "S" + n, duration: 3, type: "WS", movement: "static", action: "", notes: ""}`. */
  function NewShot(n: nat): Value
  {
    Obj(map["id" := Str("S" + NatToString(n)), "duration" := Num(3.0), "type" := Str("WS"),
            "movement" := Str("static"), "action" := Str(""), "notes" := Str("")])
  }

  /** The "Add shot" button: append shot `S<old length + 1>` with the fixed
      defaults (3 seconds, wide shot, static). */
  function AddShot(shots: seq<Value>): (r: seq<Value>)
    ensures |r| == |shots| + 1 && r[..|shots|] == shots
    ensures Get(r[|shots|], "id") == Str("S" + NatToString(|shots| + 1))
    ensures Get(r[|shots|], "duration") == Num(3.0) && Get(r[|shots|], "type") == Str("WS")
    ensures Get(r[|shots|], "movement") == Str("static")
    ensures Get(r[|shots|], "action") == Str("") && Get(r[|shots|], "notes") == Str("")
  {
    shots + [NewShot(|shots| + 1)]
  }

  // ---------------------------------------------------------------------
  // Character ids

  /** No two characters share an id. */
  ghost predicate UniqueIds(chars: seq<Value>) {
    forall i, j :: 0 <= i < j < |chars| ==> Get(chars[i], "id") != Get(chars[j], "id")
  }

  /** The ids a list built only by "Add character" has: char_1, char_2, … */
  ghost predicate SequentialIds(chars: seq<Value>) {
    forall i :: 0 <= i < |chars| ==> Get(chars[i], "id") == Str(CharacterId(i + 1))
  }

  /** The number in an id of the form `char_<n>`, and 0 for any other id. */
  function IdNumber(id: Value): nat
  {
    if id.Str? && |id.s| > 5 && id.s[..5] == "char_" && IsIndexKey(id.s[5..]) then ParseNat(id.s[5..]) else 0
  }

  lemma IdNumberOf(n: nat)
    ensures IdNumber(Str(CharacterId(n))) == n
  {
    var s := CharacterId(n);
    assert s[..5] == "char_" && s[5..] == NatToString(n);
    IndexKeyOfNat(n);
  }

  lemma CharacterIdInjective(a: nat, b: nat)
    ensures CharacterId(a) == CharacterId(b) ==> a == b
  {
    IdNumberOf(a);
    IdNumberOf(b);
  }

  /** Ids allocated by "Add character" alone never collide. */
  lemma SequentialIdsUnique(chars: seq<Value>)
    requires SequentialIds(chars)
    ensures UniqueIds(chars)
  {
    forall i, j | 0 <= i < j < |chars| ensures Get(chars[i], "id") != Get(chars[j], "id") {
      CharacterIdInjective(i + 1, j + 1);
    }
  }

  /** Adding to a list of sequential ids keeps them sequential, hence unique. */
  lemma AddCharacterKeepsSequential(chars: seq<Value>)
    requires SequentialIds(chars)
    ensures SequentialIds(AddCharacter(chars)) && UniqueIds(AddCharacter(chars))
  {
    var r := AddCharacter(chars);
    forall i | 0 <= i < |r| ensures Get(r[i], "id") == Str(CharacterId(i + 1)) {
      if i < |chars| { assert r[i] == r[..|chars|][i]; }
    }
    SequentialIdsUnique(r);
  }

  /** Removing a character keeps ids unique. */
  lemma RemoveAtKeepsUnique(chars: seq<Value>, idx: nat)
    requires UniqueIds(chars)
    ensures UniqueIds(RemoveAt(chars, idx))
  {
    var r := RemoveAt(chars, idx);
    if idx < |chars| {
      forall i, j | 0 <= i < j < |r| ensures Get(r[i], "id") != Get(r[j], "id") {
        var i' := if i < idx then i else i + 1;
        var j' := if j < idx then j else j + 1;
        assert r[i] == chars[i'] && r[j] == chars[j'];
      }
    }
  }

  /** Editing a field other than `id` keeps every id. */
  lemma EditAtKeepsIds(chars: seq<Value>, idx: nat, field: string, x: Value)
    requires idx < |chars| && field != "id"
    ensures var r := EditAt(chars, idx, field, x);
      forall i :: 0 <= i < |r| ==> Get(r[i], "id") == Get(chars[i], "id")
  {
  }

  /** The allocation rule `char_<length + 1>` does not keep ids unique:
      remove any character but the last from a list built by "Add
      character", then add one, and the new character gets the id of the
      last survivor. */
  lemma {:induction false} RemoveThenAddRepeatsId(chars: seq<Value>, idx: nat)
    requires SequentialIds(chars) && idx + 1 < |chars|
    ensures var r := AddCharacter(RemoveAt(chars, idx));
      |r| == |chars| && Get(r[|r| - 2], "id") == Get(r[|r| - 1], "id") && !UniqueIds(r)
  {
    var n := |chars|;
    var removed := RemoveAt(chars, idx);
    var r := AddCharacter(removed);
    assert removed[n - 2] == chars[n - 1];
    assert r[n - 2] == r[..n - 1][n - 2];
    assert Get(r[n - 2], "id") == Str(CharacterId(n));
  }

  /** The smallest case: remove `char_1` from `[char_1, char_2]`, then add;
      both characters are now `char_2`. */
  lemma DuplicateIdExample()
    ensures var before := [Character("char_1", "Aya", "", ""), Character("char_2", "", "", "")];
      var after := AddCharacter(RemoveAt(before, 0));
      |after| == 2 && Get(after[0], "id") == Str("char_2") && Get(after[1], "id") == Str("char_2")
  {
    var before := [Character("char_1", "Aya", "", ""), Character("char_2", "", "", "")];
    assert NatToString(2) == "2";
    var removed := RemoveAt(before, 0);
    assert removed == [before[1]];
  }

  /** The largest `char_<n>` number among the ids (0 when there is none). */
  function MaxIdNumber(chars: seq<Value>): (m: nat)
    ensures forall i :: 0 <= i < |chars| ==> IdNumber(Get(chars[i], "id")) <= m
  {
    if chars == [] then 0
    else
      var rest := MaxIdNumber(chars[1..]);
      assert forall i :: 1 <= i < |chars| ==> chars[i] == chars[1..][i - 1];
      var first := IdNumber(Get(chars[0], "id"));
      if first > rest then first else rest
  }

  lemma {:induction false} MaxIdNumberAtMost(chars: seq<Value>, bound: nat)
    requires forall i :: 0 <= i < |chars| ==> IdNumber(Get(chars[i], "id")) <= bound
    ensures MaxIdNumber(chars) <= bound
  {
    if chars != [] {
      assert forall i :: 1 <= i < |chars| ==> chars[i] == chars[1..][i - 1];
      MaxIdNumberAtMost(chars[1..], bound);
    }
  }

  /** Add a blank character under an id no existing character holds: one
      past both the length and the largest `char_<n>` in use. */
  function AddCharacterFresh(chars: seq<Value>): (r: seq<Value>)
    ensures |r| == |chars| + 1 && r[..|chars|] == chars
    ensures forall i :: 0 <= i < |chars| ==> Get(chars[i], "id") != Get(r[|chars|], "id")
    ensures UniqueIds(chars) ==> UniqueIds(r)
  {
    var m := MaxIdNumber(chars);
    var n := (if m > |chars| then m else |chars|) + 1;
    IdNumberOf(n);
    var r := chars + [Character(CharacterId(n), "", "", "")];
    assert forall i :: 0 <= i < |chars| ==> r[i] == chars[i];
    r
  }

  /** Wherever `char_<length + 1>` is safe (ids allocated in order, none
      removed), the fresh allocation picks the same id. */
  lemma FreshAgreesWhenSequential(chars: seq<Value>)
    requires SequentialIds(chars)
    ensures AddCharacterFresh(chars) == AddCharacter(chars)
  {
    forall i | 0 <= i < |chars| ensures IdNumber(Get(chars[i], "id")) <= |chars| {
      IdNumberOf(i + 1);
    }
    MaxIdNumberAtMost(chars, |chars|);
  }

  // ---------------------------------------------------------------------
  // Comma-separated lists

  /** `.map(s => s.trim()).filter(Boolean)`: every piece trimmed, the empty
      ones dropped. */
  function CleanEntries(pieces: seq<string>): (r: seq<string>)
    ensures |r| <= |pieces|
    ensures forall i :: 0 <= i < |r| ==> r[i] != "" && IsTrimmed(r[i])
    ensures (forall j :: 0 <= j < |pieces| ==> ',' !in pieces[j]) ==> forall i :: 0 <= i < |r| ==> ',' !in r[i]
  {
    if pieces == [] then []
    else
      TrimKeepsOut(pieces[0], ',');
      assert forall j :: 1 <= j < |pieces| ==> pieces[j] == pieces[1..][j - 1];
      var t := Trim(pieces[0]);
      (if t == "" then [] else [t]) + CleanEntries(pieces[1..])
  }

  lemma TrimKeepsOut(s: string, c: char)
    ensures c !in s ==> c !in Trim(s)
  {
  }

  /** Entries as a parsed list holds them: non-empty, trimmed, comma-free. */
  predicate ValidEntries(xs: seq<string>) {
    forall i :: 0 <= i < |xs| ==> xs[i] != "" && IsTrimmed(xs[i]) && ',' !in xs[i]
  }

  /** `text.split(',').map(s => s.trim()).filter(Boolean)`: every entry is
      non-empty, trimmed and free of commas. */
  function ParseList(text: string): (r: seq<string>)
    ensures ValidEntries(r)
  {
    CleanEntries(Split(text, ','))
  }

  /** Cleaning keeps source order: the pieces of a concatenation clean to
      the concatenation of their cleaned entries. */
  lemma {:induction false} CleanEntriesConcat(a: seq<string>, b: seq<string>)
    ensures CleanEntries(a + b) == CleanEntries(a) + CleanEntries(b)
  {
    if a == [] {
      assert a + b == b;
    } else {
      var head := if Trim(a[0]) == "" then [] else [Trim(a[0])];
      assert (a + b)[0] == a[0] && (a + b)[1..] == a[1..] + b;
      assert CleanEntries(a + b) == head + CleanEntries(a[1..] + b);
      CleanEntriesConcat(a[1..], b);
      assert head + (CleanEntries(a[1..]) + CleanEntries(b)) == (head + CleanEntries(a[1..])) + CleanEntries(b);
    }
  }

  /** Each piece contributes its trimmed text, unless that is empty. */
  lemma CleanEntriesSingle(p: string)
    ensures CleanEntries([p]) == if Trim(p) == "" then [] else [Trim(p)]
  {
    assert [p][1..] == [];
  }

  /** The inputs show a list as `list.join(', ')`; parsing that text back
      gives the same list whenever its entries are non-empty, trimmed and
      comma-free, which is what parsing produces. */
  lemma ParseListOfJoin(xs: seq<string>)
    requires ValidEntries(xs)
    ensures ParseList(Join(xs, ", ")) == xs
  {
    ParsePaddedJoin(xs, "");
    assert "" + Join(xs, ", ") == Join(xs, ", ");
  }

  lemma {:induction false} ParsePaddedJoin(xs: seq<string>, w: string)
    requires AllWhitespace(w)
    requires ValidEntries(xs)
    ensures ParseList(w + Join(xs, ", ")) == xs
    decreases |xs|
  {
    WhitespaceHasNoComma(w);
    if |xs| == 0 {
      assert w + Join(xs, ", ") == w;
      ParseListOne(w);
    } else if |xs| == 1 {
      ParsePaddedOne(w, xs[0]);
    } else {
      var head := w + xs[0];
      var rest := Join(xs[1..], ", ");
      JoinStep(xs, w);
      ParseListCons(head, " " + rest);
      ParsePaddedOne(w, xs[0]);
      assert AllWhitespace(" ");
      ParsePaddedJoin(xs[1..], " ");
      assert ParseList(w + Join(xs, ", ")) == [xs[0]] + xs[1..];
    }
  }

  /** `w + xs.join(", ")` starts with the padded first entry, then a comma. */
  lemma JoinStep(xs: seq<string>, w: string)
    requires |xs| >= 2
    ensures w + Join(xs, ", ") == (w + xs[0]) + [','] + (" " + Join(xs[1..], ", "))
  {
    assert Join(xs, ", ") == xs[0] + ", " + Join(xs[1..], ", ");
  }

  /** Whitespace-padded entry `w + x` parses as `[x]`. */
  lemma ParsePaddedOne(w: string, x: string)
    requires AllWhitespace(w) && x != "" && IsTrimmed(x) && ',' !in x
    ensures ',' !in w + x
    ensures ParseList(w + x) == [x] && CleanEntries([w + x]) == [x]
  {
    WhitespaceHasNoComma(w);
    TrimPadded(w, x, "");
    assert w + x + "" == w + x;
    ParseListOne(w + x);
    CleanEntriesSingle(w + x);
  }

  lemma WhitespaceHasNoComma(w: string)
    requires AllWhitespace(w)
    ensures ',' !in w
  {
  }

  /** A comma-free text parses as its single trimmed entry, if any. */
  lemma ParseListOne(p: string)
    requires ',' !in p
    ensures ParseList(p) == if Trim(p) == "" then [] else [Trim(p)]
  {
    SplitNoSeparator(p, ',');
    CleanEntriesSingle(p);
  }

  /** Parsing `head,tail` parses `head` and then `tail`. */
  lemma ParseListCons(head: string, tail: string)
    requires ',' !in head
    ensures ParseList(head + [','] + tail) == CleanEntries([head]) + ParseList(tail)
  {
    SplitAtFirst(head, tail, ',');
    CleanEntriesConcat([head], Split(tail, ','));
  }

  /** The array the handlers dispatch for a parsed list. */
  function StrList(xs: seq<string>): Value
  {
    Arr(seq(|xs|, i requires 0 <= i < |xs| => Str(xs[i])))
  }
}
