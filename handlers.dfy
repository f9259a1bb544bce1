/** What the builder's controls dispatch (components/PromptBuilder.tsx:118-359,
    370, 389-396): every edit is one `set` action on a dotted path, built
    from the current draft, and the reset button dispatches a `reset`
    without a value. */
module Handlers {
  import opened Text
  import opened Values
  import opened Store
  import opened Lists

  datatype Option<T> = None | Some(value: T)

  // ---------------------------------------------------------------------
  // The draft and its fields

  /** The keys of the draft that hold nested objects. */
  const Groups: set<string> := {"style", "cinematography", "audio", "constraints", "consistency"}

  /** The keys of the draft that hold arrays. */
  const ListKeys: set<string> := {"characters", "locations", "shots", "negativePrompts"}

  /** The parts of a draft the handlers rely on: a plain object whose groups
      are objects and whose lists are arrays. */
  predicate IsDraft(s: Value) {
    && s.Obj?
    && (forall g :: g in Groups ==> Get(s, g).Obj?)
    && (forall k :: k in ListKeys ==> Get(s, k).Arr?)
  }

  /** A field a control edits: a top-level key, or a key inside a group. */
  datatype Field = Top(key: string) | Nested(group: string, name: string)

  /** The dotted path a control dispatches for a field. */
  function PathOf(f: Field): string
  {
    match f
    case Top(key) => key
    case Nested(group, name) => group + "." + name
  }

  /** The top-level key a write to the field replaces. */
  function TopKey(f: Field): string
  {
    match f
    case Top(key) => key
    case Nested(group, _) => group
  }

  /** The value the field holds (`state.title`, `state.style.tone`, ...). */
  function ReadField(s: Value, f: Field): Value
  {
    match f
    case Top(key) => Get(s, key)
    case Nested(group, name) => Get(Get(s, group), name)
  }

  /** A field whose keys hold no dot, so its path splits back into them. */
  predicate FieldOk(f: Field) {
    match f
    case Top(key) => '.' !in key
    case Nested(group, name) => '.' !in group && '.' !in name
  }

  /** A field a control may write without breaking the draft's shape: a
      top-level key that is neither a group nor a list, or a key inside a
      group. */
  predicate Editable(f: Field) {
    && FieldOk(f)
    && (f.Top? ==> f.key !in Groups && f.key !in ListKeys)
    && (f.Nested? ==> f.group in Groups)
  }

  /** Writing `w` can change what `f` reads: both lie under the same
      top-level key and one of them is that whole key, or they are the same
      field. */
  predicate Touches(w: Field, f: Field) {
    TopKey(w) == TopKey(f) && (w.Top? || f.Top? || w == f)
  }

  /** The inputs whose text is dispatched as is, or as `Number(...)`. */
  const ScalarFields: set<Field> := {
    Top("title"), Top("durationSeconds"), Top("aspectRatio"), Top("fps"), Top("summary"),
    Nested("style", "tone"), Nested("style", "colorPalette"),
    Nested("cinematography", "cameraBody"), Nested("cinematography", "lenses"),
    Nested("cinematography", "movement"), Nested("cinematography", "lighting"),
    Nested("cinematography", "colorGrade"),
    Nested("audio", "music"), Nested("audio", "soundDesign"), Nested("audio", "voiceover"),
    Nested("consistency", "seed")
  }

  /** The comma-separated inputs. */
  const ListFields: set<Field> := {Nested("style", "inspirations"), Nested("constraints", "avoid"), Top("negativePrompts")}

  /** The JSON input of the character id map. */
  const IdMapField: Field := Nested("consistency", "characterIdMap")

  /** Every input of the form names an editable field. */
  lemma FieldsEditable()
    ensures forall f :: f in ScalarFields ==> Editable(f)
    ensures forall f :: f in ListFields ==> FieldOk(f) && (f.Nested? ==> f.group in Groups)
    ensures Editable(IdMapField)
  {
    TopFieldsEditable();
    StyleFieldsEditable();
    CinematographyFieldsEditable();
    AudioFieldsEditable();
    OtherFieldsEditable();
  }

  lemma ScalarFieldEditable(f: Field)
    requires f in ScalarFields
    ensures Editable(f)
  {
    FieldsEditable();
  }

  lemma ListFieldOk(f: Field)
    requires f in ListFields
    ensures FieldOk(f) && (f.Nested? ==> f.group in Groups)
  {
    FieldsEditable();
  }

  lemma TopFieldsEditable()
    ensures Editable(Top("title")) && Editable(Top("durationSeconds")) && Editable(Top("aspectRatio"))
    ensures Editable(Top("fps")) && Editable(Top("summary")) && FieldOk(Top("negativePrompts"))
  {
    OverviewTextFieldsEditable();
    NumberFieldsEditable();
    NegativePromptsFieldOk();
  }

  lemma OverviewTextFieldsEditable()
    ensures Editable(Top("title")) && Editable(Top("aspectRatio")) && Editable(Top("summary"))
  {
    assert '.' !in "title" && '.' !in "aspectRatio" && '.' !in "summary";
    assert "title" !in Groups && "title" !in ListKeys;
    assert "aspectRatio" !in Groups && "aspectRatio" !in ListKeys;
    assert "summary" !in Groups && "summary" !in ListKeys;
  }

  lemma NumberFieldsEditable()
    ensures Editable(Top("durationSeconds")) && Editable(Top("fps"))
  {
    assert '.' !in "durationSeconds" && '.' !in "fps";
    assert "durationSeconds" !in Groups && "durationSeconds" !in ListKeys;
    assert "fps" !in Groups && "fps" !in ListKeys;
  }

  lemma NegativePromptsFieldOk()
    ensures FieldOk(Top("negativePrompts"))
  {
    assert '.' !in "negativePrompts";
  }

  lemma StyleFieldsEditable()
    ensures Editable(Nested("style", "tone")) && Editable(Nested("style", "colorPalette"))
    ensures Editable(Nested("style", "inspirations"))
  {
    assert '.' !in "style" && '.' !in "tone" && '.' !in "colorPalette" && '.' !in "inspirations";
    assert "style" in Groups;
  }

  lemma CinematographyFieldsEditable()
    ensures Editable(Nested("cinematography", "cameraBody")) && Editable(Nested("cinematography", "lenses"))
    ensures Editable(Nested("cinematography", "movement")) && Editable(Nested("cinematography", "lighting"))
    ensures Editable(Nested("cinematography", "colorGrade"))
  {
    assert '.' !in "cinematography" && '.' !in "cameraBody" && '.' !in "lenses";
    assert '.' !in "movement" && '.' !in "lighting" && '.' !in "colorGrade";
    assert "cinematography" in Groups;
  }

  lemma AudioFieldsEditable()
    ensures Editable(Nested("audio", "music")) && Editable(Nested("audio", "soundDesign"))
    ensures Editable(Nested("audio", "voiceover"))
  {
    assert '.' !in "audio" && '.' !in "music" && '.' !in "soundDesign" && '.' !in "voiceover";
    assert "audio" in Groups;
  }

  lemma OtherFieldsEditable()
    ensures Editable(Nested("consistency", "seed")) && Editable(Nested("consistency", "characterIdMap"))
    ensures Editable(Nested("constraints", "avoid"))
  {
    assert '.' !in "consistency" && '.' !in "seed" && '.' !in "characterIdMap";
    assert '.' !in "constraints" && '.' !in "avoid";
    assert "consistency" in Groups && "constraints" in Groups;
  }

  // ---------------------------------------------------------------------
  // Writing one field

  /** Dispatching `set` on a field writes it and nothing else: the root
      keeps every other top-level key, and a group keeps every other key. */
  lemma WriteField(defaults: Value, state: Value, f: Field, v: Value)
    requires FieldOk(f) && (f.Nested? ==> !Get(state, f.group).Arr?)
    ensures Applicable(state, Set(PathOf(f), v))
    ensures var r := Reduce(defaults, state, Set(PathOf(f), v));
      && r.Obj? && ReadField(r, f) == v && SameExcept(r, state, TopKey(f))
      && (f.Nested? ==> Get(r, f.group).Obj? && SameExcept(Get(r, f.group), Get(state, f.group), f.name))
  {
    match f
    case Top(key) => SetTopField(defaults, state, key, v);
    case Nested(group, name) => SetNestedField(defaults, state, group, name, v);
  }

  /** A field that the write does not touch reads as before. */
  lemma WriteFieldFrame(defaults: Value, state: Value, w: Field, v: Value, f: Field)
    requires FieldOk(w) && (w.Nested? ==> !Get(state, w.group).Arr?)
    requires !Touches(w, f)
    ensures Applicable(state, Set(PathOf(w), v))
    ensures ReadField(Reduce(defaults, state, Set(PathOf(w), v)), f) == ReadField(state, f)
  {
    WriteField(defaults, state, w, v);
    var r := Reduce(defaults, state, Set(PathOf(w), v));
    assert Get(r, TopKey(f)) == Get(state, TopKey(f)) || (w.Nested? && f.Nested? && w.group == f.group);
  }

  /** Writing an editable field, or a list or the id map, keeps the shape
      of the draft. */
  lemma WriteKeepsDraft(defaults: Value, state: Value, f: Field, v: Value)
    requires IsDraft(state) && FieldOk(f)
    requires f.Top? ==> f.key !in Groups && (f.key in ListKeys ==> v.Arr?)
    requires f.Nested? ==> f.group in Groups
    ensures Applicable(state, Set(PathOf(f), v))
    ensures IsDraft(Reduce(defaults, state, Set(PathOf(f), v)))
  {
    WriteField(defaults, state, f, v);
    var r := Reduce(defaults, state, Set(PathOf(f), v));
    forall g | g in Groups ensures Get(r, g).Obj? {
      if g != TopKey(f) { assert Get(r, g) == Get(state, g); }
    }
    forall k | k in ListKeys ensures Get(r, k).Arr? {
      if k != TopKey(f) { assert Get(r, k) == Get(state, k); }
    }
  }

  // ---------------------------------------------------------------------
  // Events

  /** The three record lists. */
  datatype ListName = Characters | Locations | Shots

  function ListKey(l: ListName): (k: string)
    ensures k in ListKeys && '.' !in k
  {
    match l
    case Characters => "characters"
    case Locations => "locations"
    case Shots => "shots"
  }

  /** The fields each record's inputs edit. */
  function RecordFields(l: ListName): set<string>
  {
    match l
    case Characters => {"name", "wardrobe", "description"}
    case Locations => {"name", "timeOfDay", "description"}
    case Shots => {"id", "duration", "type", "movement", "action", "notes"}
  }

  /** What the user does on the builder's form. */
  datatype Event =
    | SetField(field: Field, value: Value)               // a text or number input
    | SetList(field: Field, text: string)                // a comma-separated input
    | EditRecord(list: ListName, idx: nat, name: string, value: Value)
    | RemoveRecord(list: ListName, idx: nat)             // a "Remove" button
    | AddRecord(list: ListName)                          // an "Add ..." button
    | SetIdMap(text: string)                             // the id-map JSON input
    | ResetClicked                                       // the "Reset" button

  /** The events the form can raise on `state`: each input is one of the
      form's own, and a record is edited at an index the list has. */
  predicate Fits(state: Value, e: Event) {
    && IsDraft(state)
    && (e.SetField? ==> e.field in ScalarFields)
    && (e.SetList? ==> e.field in ListFields)
    && (e.EditRecord? ==> e.idx < |Get(state, ListKey(e.list)).items| && e.name in RecordFields(e.list))
  }

  function Items(state: Value, l: ListName): seq<Value>
    requires IsDraft(state)
  {
    Get(state, ListKey(l)).items
  }

  /** The list an "Add ..." button dispatches. */
  function Appended(l: ListName, items: seq<Value>): seq<Value>
  {
    match l
    case Characters => AddCharacter(items)
    case Locations => AddLocation(items)
    case Shots => AddShot(items)
  }

  /** The action a handler dispatches, or none when the id-map text does not
      parse (`JSON.parse` throws and the handler swallows it). `parse` stands
      for `JSON.parse`, and an empty id-map text is read as `{}`. */
  function ActionFor(parse: string -> Option<Value>, state: Value, e: Event): (r: Option<Action>)
    requires Fits(state, e)
    ensures r.None? <==> e.SetIdMap? && parse(if e.text == "" then "{}" else e.text).None?
    ensures e.ResetClicked? ==> r == Some(Reset(Undefined))
    ensures e.SetList? ==> r.Some? && r.value.Set? && r.value.value.Arr?
    ensures r.Some? && r.value.Set? ==> Applicable(state, r.value)
  {
    match e
    case SetField(f, v) =>
      ScalarFieldEditable(f);
      WriteField(Undefined, state, f, v);
      Some(Set(PathOf(f), v))
    case SetList(f, text) =>
      ListFieldOk(f);
      WriteField(Undefined, state, f, StrList(ParseList(text)));
      Some(Set(PathOf(f), StrList(ParseList(text))))
    case EditRecord(l, idx, name, v) =>
      SetTopField(Undefined, state, ListKey(l), Undefined);
      Some(Set(ListKey(l), Arr(EditAt(Items(state, l), idx, name, v))))
    case RemoveRecord(l, idx) =>
      SetTopField(Undefined, state, ListKey(l), Undefined);
      Some(Set(ListKey(l), Arr(RemoveAt(Items(state, l), idx))))
    case AddRecord(l) =>
      SetTopField(Undefined, state, ListKey(l), Undefined);
      Some(Set(ListKey(l), Arr(Appended(l, Items(state, l)))))
    case SetIdMap(text) =>
      OtherFieldsEditable();
      WriteField(Undefined, state, IdMapField, Undefined);
      (match parse(if text == "" then "{}" else text)
       case None => None
       case Some(v) => Some(Set(PathOf(IdMapField), v)))
    case ResetClicked => Some(Reset(Undefined))
  }

  /** The action a handler dispatches keeps the draft's shape, unless it
      is the reset. */
  lemma ActionKeepsDraft(defaults: Value, parse: string -> Option<Value>, state: Value, e: Event)
    requires Fits(state, e) && ActionFor(parse, state, e).Some?
    ensures var a := ActionFor(parse, state, e).value;
      Applicable(state, a) && (!e.ResetClicked? ==> IsDraft(Reduce(defaults, state, a)))
  {
    var a := ActionFor(parse, state, e).value;
    match e
    case SetField(f, v) => ScalarFieldEditable(f); WriteKeepsDraft(defaults, state, f, v);
    case SetList(f, _) => ListFieldOk(f); WriteKeepsDraft(defaults, state, f, a.value);
    case SetIdMap(_) => OtherFieldsEditable(); WriteKeepsDraft(defaults, state, IdMapField, a.value);
    case EditRecord(l, _, _, _) => WriteKeepsDraft(defaults, state, Top(ListKey(l)), a.value);
    case RemoveRecord(l, _) => WriteKeepsDraft(defaults, state, Top(ListKey(l)), a.value);
    case AddRecord(l) => WriteKeepsDraft(defaults, state, Top(ListKey(l)), a.value);
    case ResetClicked =>
  }

  /** The draft after the event's handler has dispatched (or not). Every
      event but the reset keeps the draft's shape; the reset brings back
      `defaultPrompt()`. */
  function Step(defaults: Value, parse: string -> Option<Value>, state: Value, e: Event): (r: Value)
    requires Fits(state, e)
    ensures !e.ResetClicked? ==> IsDraft(r)
    ensures e.ResetClicked? ==> r == defaults
    ensures ActionFor(parse, state, e).None? ==> r == state
  {
    match ActionFor(parse, state, e)
    case None => state
    case Some(a) =>
      ActionKeepsDraft(defaults, parse, state, e);
      Reduce(defaults, state, a)
  }

  // ---------------------------------------------------------------------
  // What each handler does to the draft

  /** The draft after an event whose handler dispatches `a`. */
  lemma StepDispatches(defaults: Value, parse: string -> Option<Value>, state: Value, e: Event, a: Action)
    requires Fits(state, e) && ActionFor(parse, state, e) == Some(a)
    ensures Applicable(state, a) && Step(defaults, parse, state, e) == Reduce(defaults, state, a)
  {
    ActionKeepsDraft(defaults, parse, state, e);
  }

  /** A text or number input writes its field and leaves every field it
      does not touch as it was. */
  lemma SetFieldEffect(defaults: Value, parse: string -> Option<Value>, state: Value, f: Field, v: Value)
    requires Fits(state, SetField(f, v))
    ensures var r := Step(defaults, parse, state, SetField(f, v));
      && ReadField(r, f) == v
      && forall g :: !Touches(f, g) ==> ReadField(r, g) == ReadField(state, g)
  {
    ScalarFieldEditable(f);
    WriteField(defaults, state, f, v);
    StepDispatches(defaults, parse, state, SetField(f, v), Set(PathOf(f), v));
    forall g | !Touches(f, g)
      ensures ReadField(Reduce(defaults, state, Set(PathOf(f), v)), g) == ReadField(state, g)
    {
      WriteFieldFrame(defaults, state, f, v, g);
    }
  }

  /** A comma-separated input stores the parsed entries, in order, each
      trimmed, non-empty and comma-free, and leaves every field it does not
      touch as it was. */
  lemma SetListEffect(defaults: Value, parse: string -> Option<Value>, state: Value, f: Field, text: string)
    requires Fits(state, SetList(f, text))
    ensures var r := Step(defaults, parse, state, SetList(f, text));
      && ReadField(r, f) == StrList(ParseList(text))
      && ValidEntries(ParseList(text))
      && forall g :: !Touches(f, g) ==> ReadField(r, g) == ReadField(state, g)
  {
    ListFieldOk(f);
    var v := StrList(ParseList(text));
    WriteField(defaults, state, f, v);
    StepDispatches(defaults, parse, state, SetList(f, text), Set(PathOf(f), v));
    forall g | !Touches(f, g)
      ensures ReadField(Reduce(defaults, state, Set(PathOf(f), v)), g) == ReadField(state, g)
    {
      WriteFieldFrame(defaults, state, f, v, g);
    }
  }

  /** An object that reads as before under every key, and has the same keys, is the same object. */
  lemma ObjectRewritten(r: Value, s: Value, key: string)
    requires s.Obj? && r.Obj? && r.fields.Keys == s.fields.Keys + {key} && key in s.fields
    requires Get(r, key) == Get(s, key) && SameExcept(r, s, key)
    ensures r == s
  {
    forall k | k in r.fields.Keys ensures r.fields[k] == s.fields[k] {
      assert Get(r, k) == Get(s, k);
    }
  }

  /** Writing back the value a field already holds gives the same draft. */
  lemma WriteSameValue(defaults: Value, state: Value, f: Field)
    requires IsDraft(state) && FieldOk(f) && (f.Nested? ==> f.group in Groups)
    requires ReadField(state, f) != Undefined
    ensures Applicable(state, Set(PathOf(f), ReadField(state, f)))
    ensures Reduce(defaults, state, Set(PathOf(f), ReadField(state, f))) == state
  {
    match f
    case Top(key) => WriteSameTop(defaults, state, key);
    case Nested(group, name) => WriteSameNested(defaults, state, group, name);
  }

  lemma WriteSameTop(defaults: Value, state: Value, key: string)
    requires state.Obj? && '.' !in key && Get(state, key) != Undefined
    ensures Applicable(state, Set(key, Get(state, key)))
    ensures Reduce(defaults, state, Set(key, Get(state, key))) == state
  {
    SetTopField(defaults, state, key, Get(state, key));
    ObjectRewritten(Reduce(defaults, state, Set(key, Get(state, key))), state, key);
  }

  lemma WriteSameNested(defaults: Value, state: Value, group: string, name: string)
    requires state.Obj? && '.' !in group && '.' !in name && Get(state, group).Obj?
    requires Get(Get(state, group), name) != Undefined
    ensures Applicable(state, Set(group + "." + name, Get(Get(state, group), name)))
    ensures Reduce(defaults, state, Set(group + "." + name, Get(Get(state, group), name))) == state
  {
    var g := Get(state, group);
    var v := Get(g, name);
    SetNestedField(defaults, state, group, name, v);
    var r := Reduce(defaults, state, Set(group + "." + name, v));
    ObjectRewritten(Get(r, group), g, name);
    ObjectRewritten(r, state, group);
  }

  /** Re-entering the text a list input shows (`list.join(', ')`) stores the
      same draft again, whenever the list holds what parsing can produce:
      the input round-trips. */
  lemma ListTextRoundTrip(defaults: Value, parse: string -> Option<Value>, state: Value, f: Field, xs: seq<string>)
    requires Fits(state, SetList(f, Join(xs, ", ")))
    requires ReadField(state, f) == StrList(xs)
    requires ValidEntries(xs)
    ensures Step(defaults, parse, state, SetList(f, Join(xs, ", "))) == state
  {
    var text := Join(xs, ", ");
    var a := Set(PathOf(f), StrList(ParseList(text)));
    assert ActionFor(parse, state, SetList(f, text)) == Some(a);
    ListFieldOk(f);
    ListWriteRoundTrip(defaults, state, f, xs);
    StepDispatches(defaults, parse, state, SetList(f, text), a);
  }

  lemma StrListOfJoin(xs: seq<string>)
    requires ValidEntries(xs)
    ensures StrList(ParseList(Join(xs, ", "))) == StrList(xs)
  {
    ParseListOfJoin(xs);
  }

  /** Parsing the shown text of a list and writing the result back gives
      the same draft. */
  lemma ListWriteRoundTrip(defaults: Value, state: Value, f: Field, xs: seq<string>)
    requires IsDraft(state) && FieldOk(f) && (f.Nested? ==> f.group in Groups)
    requires ReadField(state, f) == StrList(xs)
    requires ValidEntries(xs)
    ensures Applicable(state, Set(PathOf(f), StrList(ParseList(Join(xs, ", ")))))
    ensures Reduce(defaults, state, Set(PathOf(f), StrList(ParseList(Join(xs, ", "))))) == state
  {
    StrListOfJoin(xs);
    WriteSameValue(defaults, state, f);
  }

  /** A "Remove" button dispatches the list without the record at `idx`,
      and nothing else changes. */
  lemma RemoveRecordEffect(defaults: Value, parse: string -> Option<Value>, state: Value, l: ListName, idx: nat)
    requires IsDraft(state)
    ensures var r := Step(defaults, parse, state, RemoveRecord(l, idx));
      Get(r, ListKey(l)) == Arr(RemoveAt(Items(state, l), idx)) && SameExcept(r, state, ListKey(l))
  {
    SetTopField(defaults, state, ListKey(l), Arr(RemoveAt(Items(state, l), idx)));
    var a := Set(ListKey(l), Arr(RemoveAt(Items(state, l), idx)));
    StepDispatches(defaults, parse, state, RemoveRecord(l, idx), a);
  }

  /** An input of record `idx` dispatches the list with that record's field
      replaced, and nothing else changes. */
  lemma EditRecordEffect(defaults: Value, parse: string -> Option<Value>, state: Value, l: ListName, idx: nat, name: string, v: Value)
    requires Fits(state, EditRecord(l, idx, name, v))
    ensures var r := Step(defaults, parse, state, EditRecord(l, idx, name, v));
      Get(r, ListKey(l)) == Arr(EditAt(Items(state, l), idx, name, v)) && SameExcept(r, state, ListKey(l))
  {
    SetTopField(defaults, state, ListKey(l), Arr(EditAt(Items(state, l), idx, name, v)));
    var a := Set(ListKey(l), Arr(EditAt(Items(state, l), idx, name, v)));
    StepDispatches(defaults, parse, state, EditRecord(l, idx, name, v), a);
  }

  /** An "Add ..." button dispatches the list with one new record at the
      end, and nothing else changes. */
  lemma AddRecordEffect(defaults: Value, parse: string -> Option<Value>, state: Value, l: ListName)
    requires IsDraft(state)
    ensures var r := Step(defaults, parse, state, AddRecord(l));
      Get(r, ListKey(l)) == Arr(Appended(l, Items(state, l))) && SameExcept(r, state, ListKey(l))
  {
    SetTopField(defaults, state, ListKey(l), Arr(Appended(l, Items(state, l))));
    var a := Set(ListKey(l), Arr(Appended(l, Items(state, l))));
    StepDispatches(defaults, parse, state, AddRecord(l), a);
  }

  /** The id map input stores what `JSON.parse` returns (of `{}` for an
      empty text) and leaves the draft alone when the text does not parse. */
  lemma SetIdMapEffect(defaults: Value, parse: string -> Option<Value>, state: Value, text: string)
    requires IsDraft(state)
    ensures var r := Step(defaults, parse, state, SetIdMap(text));
      match parse(if text == "" then "{}" else text)
      case None => r == state
      case Some(v) =>
        && ReadField(r, IdMapField) == v && SameExcept(r, state, "consistency")
        && forall g :: !Touches(IdMapField, g) ==> ReadField(r, g) == ReadField(state, g)
  {
    OtherFieldsEditable();
    match parse(if text == "" then "{}" else text)
    case None =>
    case Some(v) =>
      WriteField(defaults, state, IdMapField, v);
      StepDispatches(defaults, parse, state, SetIdMap(text), Set(PathOf(IdMapField), v));
      forall g | !Touches(IdMapField, g)
        ensures ReadField(Reduce(defaults, state, Set(PathOf(IdMapField), v)), g) == ReadField(state, g)
      {
        WriteFieldFrame(defaults, state, IdMapField, v, g);
      }
  }

  /** On the form, removing a character and adding one can give two
      characters the same id: on a draft whose characters were all added
      by "Add character", remove any but the last, then add. */
  lemma RemoveThenAddDuplicatesId(defaults: Value, parse: string -> Option<Value>, state: Value, idx: nat)
    requires IsDraft(state) && SequentialIds(Items(state, Characters)) && idx + 1 < |Items(state, Characters)|
    ensures var s1 := Step(defaults, parse, state, RemoveRecord(Characters, idx));
      var s2 := Step(defaults, parse, s1, AddRecord(Characters));
      !UniqueIds(Items(s2, Characters))
  {
    var s1 := Step(defaults, parse, state, RemoveRecord(Characters, idx));
    RemoveRecordEffect(defaults, parse, state, Characters, idx);
    var s2 := Step(defaults, parse, s1, AddRecord(Characters));
    AddRecordEffect(defaults, parse, s1, Characters);
    RemoveThenAddRepeatsId(Items(state, Characters), idx);
  }

  // ---------------------------------------------------------------------
  // A batch of field writes, and the cinematography preset

  /** The `set` actions writing each field of `ws` in turn. */
  function Writes(ws: seq<(Field, Value)>): seq<Action>
  {
    seq(|ws|, i requires 0 <= i < |ws| => Set(PathOf(ws[i].0), ws[i].1))
  }

  /** Writing editable fields that do not touch one another, one dispatch
      after the other: each ends up holding its value, the draft keeps its
      shape, and every field none of them touches is unchanged. */
  lemma {:induction false} WritesEffect(defaults: Value, state: Value, ws: seq<(Field, Value)>)
    requires IsDraft(state)
    requires forall i :: 0 <= i < |ws| ==> Editable(ws[i].0)
    requires forall i, j :: 0 <= i < |ws| && 0 <= j < |ws| && i != j ==> !Touches(ws[i].0, ws[j].0)
    ensures Runs(defaults, state, Writes(ws))
    ensures var r := ApplyAll(defaults, state, Writes(ws));
      && IsDraft(r)
      && (forall i :: 0 <= i < |ws| ==> ReadField(r, ws[i].0) == ws[i].1)
      && (forall f :: (forall i :: 0 <= i < |ws| ==> !Touches(ws[i].0, f)) ==> ReadField(r, f) == ReadField(state, f))
    decreases |ws|
  {
    if |ws| > 0 {
      WritesHead(defaults, state, ws);
      var s1 := Reduce(defaults, state, Set(PathOf(ws[0].0), ws[0].1));
      WritesEffect(defaults, s1, ws[1..]);
      WritesTail(defaults, state, ws);
    }
  }

  /** The first write of `WritesEffect`'s step, and what the rest of the
      batch may assume. */
  lemma WritesHead(defaults: Value, state: Value, ws: seq<(Field, Value)>)
    requires IsDraft(state) && |ws| > 0
    requires forall i :: 0 <= i < |ws| ==> Editable(ws[i].0)
    requires forall i, j :: 0 <= i < |ws| && 0 <= j < |ws| && i != j ==> !Touches(ws[i].0, ws[j].0)
    ensures Applicable(state, Set(PathOf(ws[0].0), ws[0].1))
    ensures var s1 := Reduce(defaults, state, Set(PathOf(ws[0].0), ws[0].1));
      IsDraft(s1) && ReadField(s1, ws[0].0) == ws[0].1
    ensures forall i :: 0 <= i < |ws| - 1 ==> Editable(ws[1..][i].0)
    ensures forall i, j :: 0 <= i < |ws| - 1 && 0 <= j < |ws| - 1 && i != j ==> !Touches(ws[1..][i].0, ws[1..][j].0)
  {
    var w := ws[0];
    assert Editable(w.0);
    assert w.0.Nested? ==> !Get(state, w.0.group).Arr?;
    WriteKeepsDraft(defaults, state, w.0, w.1);
    WriteField(defaults, state, w.0, w.1);
    assert forall i :: 0 <= i < |ws| - 1 ==> ws[1..][i] == ws[i + 1];
  }

  /** The rest of `WritesEffect`'s step: from what the rest of the batch
      does after the first write to what the whole batch does. */
  lemma WritesTail(defaults: Value, state: Value, ws: seq<(Field, Value)>)
    requires IsDraft(state) && |ws| > 0 && Editable(ws[0].0)
    requires forall i, j :: 0 <= i < |ws| && 0 <= j < |ws| && i != j ==> !Touches(ws[i].0, ws[j].0)
    requires Applicable(state, Set(PathOf(ws[0].0), ws[0].1))
    requires var s1 := Reduce(defaults, state, Set(PathOf(ws[0].0), ws[0].1));
      && ReadField(s1, ws[0].0) == ws[0].1
      && Runs(defaults, s1, Writes(ws[1..]))
      && var r := ApplyAll(defaults, s1, Writes(ws[1..]));
      && IsDraft(r)
      && (forall i :: 0 <= i < |ws| - 1 ==> ReadField(r, ws[1..][i].0) == ws[1..][i].1)
      && (forall f :: (forall i :: 0 <= i < |ws| - 1 ==> !Touches(ws[1..][i].0, f)) ==> ReadField(r, f) == ReadField(s1, f))
    ensures Runs(defaults, state, Writes(ws))
    ensures var r := ApplyAll(defaults, state, Writes(ws));
      && IsDraft(r)
      && (forall i :: 0 <= i < |ws| ==> ReadField(r, ws[i].0) == ws[i].1)
      && (forall f :: (forall i :: 0 <= i < |ws| ==> !Touches(ws[i].0, f)) ==> ReadField(r, f) == ReadField(state, f))
  {
    var rest := ws[1..];
    var s1 := Reduce(defaults, state, Set(PathOf(ws[0].0), ws[0].1));
    WritesDrop(ws);
    ApplyAllCons(defaults, state, Writes(ws));
    var r := ApplyAll(defaults, s1, Writes(rest));
    WritesValues(ws, s1, r);
    WritesFrame(defaults, state, ws, r);
  }

  lemma WritesDrop(ws: seq<(Field, Value)>)
    requires |ws| > 0
    ensures Writes(ws)[1..] == Writes(ws[1..])
  {
    forall j | 0 <= j < |ws| - 1 ensures Writes(ws)[1..][j] == Writes(ws[1..])[j] {
      assert ws[1..][j] == ws[j + 1];
    }
  }

  /** Each field of the batch holds its value at the end: the first was
      written into `s1` and none of the later writes touch it. */
  lemma WritesValues(ws: seq<(Field, Value)>, s1: Value, r: Value)
    requires |ws| > 0 && ReadField(s1, ws[0].0) == ws[0].1
    requires forall i, j :: 0 <= i < |ws| && 0 <= j < |ws| && i != j ==> !Touches(ws[i].0, ws[j].0)
    requires forall i :: 0 <= i < |ws| - 1 ==> ReadField(r, ws[1..][i].0) == ws[1..][i].1
    requires forall f :: (forall i :: 0 <= i < |ws| - 1 ==> !Touches(ws[1..][i].0, f)) ==> ReadField(r, f) == ReadField(s1, f)
    ensures forall i :: 0 <= i < |ws| ==> ReadField(r, ws[i].0) == ws[i].1
  {
    var rest := ws[1..];
    forall i | 0 <= i < |ws| ensures ReadField(r, ws[i].0) == ws[i].1 {
      if i == 0 {
        forall j | 0 <= j < |rest| ensures !Touches(rest[j].0, ws[0].0) {
          assert rest[j] == ws[j + 1];
        }
      } else {
        assert ws[i] == rest[i - 1];
      }
    }
  }

  /** The frame part of `WritesEffect`'s step: a field that none of `ws`
      touches reads in `r` as in `state`, given that it reads in `r` as
      after the first write. */
  lemma WritesFrame(defaults: Value, state: Value, ws: seq<(Field, Value)>, r: Value)
    requires IsDraft(state) && |ws| > 0 && Editable(ws[0].0)
    requires Applicable(state, Set(PathOf(ws[0].0), ws[0].1))
    requires var s1 := Reduce(defaults, state, Set(PathOf(ws[0].0), ws[0].1));
      forall f :: (forall i :: 0 <= i < |ws| - 1 ==> !Touches(ws[1..][i].0, f)) ==> ReadField(r, f) == ReadField(s1, f)
    ensures forall f :: (forall i :: 0 <= i < |ws| ==> !Touches(ws[i].0, f)) ==> ReadField(r, f) == ReadField(state, f)
  {
    forall f | (forall i :: 0 <= i < |ws| ==> !Touches(ws[i].0, f))
      ensures ReadField(r, f) == ReadField(state, f)
    {
      assert forall j :: 0 <= j < |ws| - 1 ==> !Touches(ws[1..][j].0, f) by {
        assert forall j :: 0 <= j < |ws| - 1 ==> ws[1..][j] == ws[j + 1];
      }
      WriteFieldFrame(defaults, state, ws[0].0, ws[0].1, f);
    }
  }

  /** The "Apply preset" button's fields and values, in dispatch order. */
  const Preset: seq<(Field, Value)> := [
    (Top("fps"), Num(24.0)),
    (Top("aspectRatio"), Str("2.39:1")),
    (Nested("cinematography", "cameraBody"), Str("ARRI Alexa LF")),
    (Nested("cinematography", "lenses"), Str("Cooke S4/i, 32/50/85mm")),
    (Nested("cinematography", "movement"), Str("Dolly and slow gimbal push-ins")),
    (Nested("cinematography", "lighting"), Str("Soft key, motivated practicals, high contrast")),
    (Nested("cinematography", "colorGrade"), Str("Filmic contrast, subtle teal/orange, Kodak 2393 vibe"))
  ]

  /** The actions the preset dispatches, with their dotted paths. */
  lemma PresetActions()
    ensures Writes(Preset) == [
      Set("fps", Num(24.0)),
      Set("aspectRatio", Str("2.39:1")),
      Set("cinematography.cameraBody", Str("ARRI Alexa LF")),
      Set("cinematography.lenses", Str("Cooke S4/i, 32/50/85mm")),
      Set("cinematography.movement", Str("Dolly and slow gimbal push-ins")),
      Set("cinematography.lighting", Str("Soft key, motivated practicals, high contrast")),
      Set("cinematography.colorGrade", Str("Filmic contrast, subtle teal/orange, Kodak 2393 vibe"))]
  {
    assert "cinematography" + "." + "cameraBody" == "cinematography.cameraBody";
    assert "cinematography" + "." + "lenses" == "cinematography.lenses";
    assert "cinematography" + "." + "movement" == "cinematography.movement";
    assert "cinematography" + "." + "lighting" == "cinematography.lighting";
    assert "cinematography" + "." + "colorGrade" == "cinematography.colorGrade";
  }

  /** The preset's seven fields are editable and pairwise independent. */
  lemma PresetFieldsIndependent()
    ensures forall i :: 0 <= i < |Preset| ==> Editable(Preset[i].0)
    ensures forall i, j :: 0 <= i < |Preset| && 0 <= j < |Preset| && i != j ==> !Touches(Preset[i].0, Preset[j].0)
  {
    FieldsEditable();
    assert "fps" != "aspectRatio" && "fps" != "cinematography" && "aspectRatio" != "cinematography";
    assert "cameraBody" != "lenses" && "cameraBody" != "movement" && "cameraBody" != "lighting";
    assert "cameraBody" != "colorGrade" && "lenses" != "movement" && "lenses" != "lighting";
    assert "lenses" != "colorGrade" && "movement" != "lighting" && "movement" != "colorGrade";
    assert "lighting" != "colorGrade";
  }

  /** The preset sets frame rate 24, aspect ratio 2.39:1 and the five
      cinematography fields, keeps the draft's shape, and changes no other
      top-level key and no other cinematography field. */
  lemma PresetEffect(defaults: Value, state: Value)
    requires IsDraft(state)
    ensures Runs(defaults, state, Writes(Preset))
    ensures var r := ApplyAll(defaults, state, Writes(Preset));
      var cine := Get(r, "cinematography");
      && IsDraft(r)
      && Get(r, "fps") == Num(24.0) && Get(r, "aspectRatio") == Str("2.39:1")
      && Get(cine, "cameraBody") == Str("ARRI Alexa LF")
      && Get(cine, "lenses") == Str("Cooke S4/i, 32/50/85mm")
      && Get(cine, "movement") == Str("Dolly and slow gimbal push-ins")
      && Get(cine, "lighting") == Str("Soft key, motivated practicals, high contrast")
      && Get(cine, "colorGrade") == Str("Filmic contrast, subtle teal/orange, Kodak 2393 vibe")
      && (forall k :: k !in {"fps", "aspectRatio", "cinematography"} ==> Get(r, k) == Get(state, k))
      && (forall n :: n !in {"cameraBody", "lenses", "movement", "lighting", "colorGrade"} ==>
            Get(cine, n) == Get(Get(state, "cinematography"), n))
  {
    PresetFieldsIndependent();
    WritesEffect(defaults, state, Preset);
    var r := ApplyAll(defaults, state, Writes(Preset));
    PresetReads(state, r);
  }

  /** The preset's fields, read one by one, and the fields it leaves. */
  lemma PresetReads(state: Value, r: Value)
    requires forall i :: 0 <= i < |Preset| ==> ReadField(r, Preset[i].0) == Preset[i].1
    requires forall f :: (forall i :: 0 <= i < |Preset| ==> !Touches(Preset[i].0, f)) ==> ReadField(r, f) == ReadField(state, f)
    ensures var cine := Get(r, "cinematography");
      && Get(r, "fps") == Num(24.0) && Get(r, "aspectRatio") == Str("2.39:1")
      && Get(cine, "cameraBody") == Str("ARRI Alexa LF")
      && Get(cine, "lenses") == Str("Cooke S4/i, 32/50/85mm")
      && Get(cine, "movement") == Str("Dolly and slow gimbal push-ins")
      && Get(cine, "lighting") == Str("Soft key, motivated practicals, high contrast")
      && Get(cine, "colorGrade") == Str("Filmic contrast, subtle teal/orange, Kodak 2393 vibe")
      && (forall k :: k !in {"fps", "aspectRatio", "cinematography"} ==> Get(r, k) == Get(state, k))
      && (forall n :: n !in {"cameraBody", "lenses", "movement", "lighting", "colorGrade"} ==>
            Get(cine, n) == Get(Get(state, "cinematography"), n))
  {
    PresetValues(r);
    PresetShape();
    forall k | k !in {"fps", "aspectRatio", "cinematography"} ensures Get(r, k) == Get(state, k) {
      assert ReadField(r, Top(k)) == ReadField(state, Top(k));
    }
    forall n | n !in {"cameraBody", "lenses", "movement", "lighting", "colorGrade"}
      ensures Get(Get(r, "cinematography"), n) == Get(Get(state, "cinematography"), n)
    {
      assert ReadField(r, Nested("cinematography", n)) == ReadField(state, Nested("cinematography", n));
    }
  }

  lemma PresetValues(r: Value)
    requires forall i :: 0 <= i < |Preset| ==> ReadField(r, Preset[i].0) == Preset[i].1
    ensures var cine := Get(r, "cinematography");
      && Get(r, "fps") == Num(24.0) && Get(r, "aspectRatio") == Str("2.39:1")
      && Get(cine, "cameraBody") == Str("ARRI Alexa LF")
      && Get(cine, "lenses") == Str("Cooke S4/i, 32/50/85mm")
      && Get(cine, "movement") == Str("Dolly and slow gimbal push-ins")
      && Get(cine, "lighting") == Str("Soft key, motivated practicals, high contrast")
      && Get(cine, "colorGrade") == Str("Filmic contrast, subtle teal/orange, Kodak 2393 vibe")
  {
    assert ReadField(r, Preset[0].0) == Preset[0].1;
    assert ReadField(r, Preset[1].0) == Preset[1].1;
    assert ReadField(r, Preset[2].0) == Preset[2].1;
    assert ReadField(r, Preset[3].0) == Preset[3].1;
    assert ReadField(r, Preset[4].0) == Preset[4].1;
    assert ReadField(r, Preset[5].0) == Preset[5].1;
    assert ReadField(r, Preset[6].0) == Preset[6].1;
  }

  /** The preset touches only `fps`, `aspectRatio` and five fields of
      `cinematography`. */
  lemma PresetShape()
    ensures forall k :: k !in {"fps", "aspectRatio", "cinematography"} ==>
      forall i :: 0 <= i < |Preset| ==> !Touches(Preset[i].0, Top(k))
    ensures forall n :: n !in {"cameraBody", "lenses", "movement", "lighting", "colorGrade"} ==>
      forall i :: 0 <= i < |Preset| ==> !Touches(Preset[i].0, Nested("cinematography", n))
  {
    forall i | 0 <= i < |Preset|
      ensures Preset[i].0 in {Top("fps"), Top("aspectRatio"), Nested("cinematography", "cameraBody"),
        Nested("cinematography", "lenses"), Nested("cinematography", "movement"),
        Nested("cinematography", "lighting"), Nested("cinematography", "colorGrade")}
    {
    }
  }
}
