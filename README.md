# Prompt builder draft editing, in Dafny

A model of the draft-editing state machine of the `PromptBuilder` React
component (`components/PromptBuilder.tsx`). The draft is a video-prompt record
held by `useReducer`, and every control on the form edits it by dispatching
one of three actions:

- a `set` action writes a value at a dotted path (`"style.tone"`, `"characters"`);
- a `reset` action carries a value, which replaces the draft;
- a `reset` action without a value restores the default draft.

The model covers the following:

- **`setAtPath`** (module `Values`). JavaScript values are a datatype:
  `undefined`, `null`, booleans, numbers, strings, arrays and plain objects.
  `Get` reads own properties only: an object's keys and the indices of an
  array or a string (see "## Left out" for what that leaves aside). Object
  spread `{...x}` and array spread `[...x]` are modelled (`Spread`,
  `CopyNode`).
  - `SetAtPath` is the recursive definition of the update: copy each node on
    the path, then assign the leaf.
  - `SetAtPathLoop` is the loop the source runs. It copies the nodes on the
    way down, then stores each copy into its parent. It is proved equal to
    `SetAtPath`.
  - Lemmas prove that the leaf reads back, that nothing off the path changes,
    and what shape each node on the path takes.
- **`reducer`** (module `Store`). It has three cases; sequences of dispatches
  (`ApplyAll`) are modelled too.
- **The form's handlers** (modules `Lists` and `Handlers`):
  - remove-at-index, which is `splice(idx, 1)` on a copy;
  - edit one field of record `idx`;
  - the three "Add ..." buttons, with the ids they allocate;
  - the comma-separated inputs (`split(',').map(trim).filter(Boolean)`,
    the same pipeline at lines 236, 341 and 345);
  - the id-map JSON input;
  - the reset button;
  - the seven-dispatch cinematography preset.

  Each control is an `Event`. `ActionFor` gives the action the control
  dispatches, and `Step` gives the draft that results.
- **The component** (module `Component`). `Builder` is a class holding the
  reducer's state and the "messy ideas" text. Its methods dispatch exactly
  as the handlers do.

`defaultPrompt()`, `ideaToDraft` and `JSON.parse` are defined in files that are
not part of this model. They are parameters here:

- `defaults` is a value;
- `ideaToDraft` is a function `(string, Value) -> Value`;
- `parse` is a function `string -> Option<Value>`, where `None` stands for a
  thrown `SyntaxError`.

## Model

| member | source | states |
|---|---|---|
| Text.Split | components/PromptBuilder.tsx:14 | `path.split(".")` gives at least one part, and no part contains the separator |
| Text.JoinSplit | components/PromptBuilder.tsx:14 | joining the parts of a split with the separator gives back the original string |
| Text.SplitJoin | components/PromptBuilder.tsx:14 | splitting a join of separator-free parts gives back the parts |
| Text.SplitAtFirst | components/PromptBuilder.tsx:14 | a path `a.rest` with no dot in `a` splits into `a` followed by the parts of `rest` |
| Text.Trim | components/PromptBuilder.tsx:236 | `s.trim()` is trimmed, empty exactly when `s` is all whitespace, and is `s` with its leading and trailing whitespace cut |
| Text.TrimPadded | components/PromptBuilder.tsx:236 | trimming a trimmed string padded with whitespace gives the string back |
| Text.NatToString | components/PromptBuilder.tsx:175 | the decimal text of a number in a template literal is non-empty digits, without a leading zero from 1 on |
| Text.ParseNatToString | components/PromptBuilder.tsx:175 | reading the decimal text of `n` back gives `n` |
| Text.NatToStringInjective | components/PromptBuilder.tsx:175 | different numbers have different decimal texts |
| Values.Spread | components/PromptBuilder.tsx:15 | `{...v}` reads the same as `v` under every key, and is `{}` for `undefined`, `null`, booleans and numbers |
| Values.CopyNode | components/PromptBuilder.tsx:19 | the copy of an intermediate node reads like the node; an array stays an array and anything else becomes a plain object |
| Values.Assign | components/PromptBuilder.tsx:20-23 | `cur[p] = x` makes `p` read `x` and leaves every other key alone; an object gains `p`, and an array grows to cover index `p` |
| Values.SetIn | components/PromptBuilder.tsx:17-23 | writing along a path keeps the kind of the container it starts from |
| Values.SetAtPath | components/PromptBuilder.tsx:13-25 | `setAtPath` returns a plain object |
| Values.SetAtPathLoop | components/PromptBuilder.tsx:13-25 | the loop that copies nodes down the path and assigns the leaf returns exactly `SetAtPath` |
| Values.CopyPath | components/PromptBuilder.tsx:15-22 | the descending loop copies the root with `{...obj}`, and each next node is the copy of the child named by the path |
| Values.WriteBack | components/PromptBuilder.tsx:20-23 | storing each copy into its parent, leaf first, builds the recursive update of the copied root |
| Values.CopyChainExtend | components/PromptBuilder.tsx:19-21 | one more loop iteration extends the chain of copied nodes |
| Values.SetAtPathReadsBack | components/PromptBuilder.tsx:13-25 | reading the same dotted path from the result yields the written value |
| Values.SetAtPathOffPath | components/PromptBuilder.tsx:15-20 | at each depth of the path, every sibling key reads as before |
| Values.SetAtPathRootShape | components/PromptBuilder.tsx:15-20 | the result's keys are the keys of `{...obj}` plus the first part of the path |
| Values.SetAtPathShape | components/PromptBuilder.tsx:19 | an array on the path stays an array with an index key, and anything else becomes an object with one more key; a missing or primitive node becomes an object holding only the next part |
| Values.NodeOnPath | components/PromptBuilder.tsx:17-22 | the node at depth `i` of the result is the write into the copy of the original node at that depth |
| Values.SetInReadsBack | components/PromptBuilder.tsx:17-23 | a write along a path reads back along that path |
| Values.GetPathAppend | components/PromptBuilder.tsx:17-23 | reading a path one key longer reads that key of the node the path reaches |
| Store.Reduce | components/PromptBuilder.tsx:27-36 | `set` gives an object where the path reads the value; `reset` gives its value unless that is `undefined` or `null`, and then the defaults; any other action leaves the state alone |
| Store.SetTopField | components/PromptBuilder.tsx:27-30 | a `set` on a dot-free key writes that key and changes no other key |
| Store.SetNestedField | components/PromptBuilder.tsx:27-30 | a `set` on `group.field` copies the group into an object and writes `field` there; no other key of the root or the group changes |
| Store.RunsFrom | components/PromptBuilder.tsx:27-36 | a run of dispatches is its first dispatch followed by the rest |
| Store.ResetForgetsHistory | components/PromptBuilder.tsx:31-32 | after a reset, the draft does not depend on anything dispatched before it |
| Lists.RemoveAt | components/PromptBuilder.tsx:146-148 | `splice(idx, 1)` removes exactly the element at `idx`, keeps the others in order, and does nothing when `idx` is out of range |
| Lists.WithField | components/PromptBuilder.tsx:156 | `{...c, name: x}` makes the field read `x`, and every other field reads as before |
| Lists.EditAt | components/PromptBuilder.tsx:155-157 | editing record `idx` changes only that record, and only the edited field |
| Lists.AddCharacter | components/PromptBuilder.tsx:173-176 | appends one character with id `char_<length+1>` and empty name, description and wardrobe; the earlier characters are kept in order |
| Lists.AddLocation | components/PromptBuilder.tsx:218-219 | appends one location with empty name, description and time of day; the earlier locations are kept |
| Lists.AddShot | components/PromptBuilder.tsx:313-315 | appends `{id: S<length+1>, duration: 3, type: WS, movement: static, action: "", notes: ""}`; the earlier shots are kept |
| Lists.IdNumberOf | components/PromptBuilder.tsx:175 | the number in `char_<n>` reads back as `n` |
| Lists.CharacterIdInjective | components/PromptBuilder.tsx:175 | different numbers give different character ids |
| Lists.SequentialIdsUnique | components/PromptBuilder.tsx:173-176 | characters numbered `char_1` … `char_n` in order have unique ids |
| Lists.AddCharacterKeepsSequential | components/PromptBuilder.tsx:173-176 | adding characters without removing any keeps the ids sequential and unique |
| Lists.RemoveAtKeepsUnique | components/PromptBuilder.tsx:146-148 | a removal alone never creates a duplicate id |
| Lists.EditAtKeepsIds | components/PromptBuilder.tsx:154-168 | editing a character's name, wardrobe or description leaves every id unchanged |
| Lists.RemoveThenAddRepeatsId | components/PromptBuilder.tsx:146-175 | on sequential ids, removing any character but the last and then adding one gives the new character the id of the last survivor |
| Lists.DuplicateIdExample | components/PromptBuilder.tsx:146-175 | removing `char_1` from `[char_1, char_2]` and adding leaves two characters with id `char_2` |
| Lists.MaxIdNumber | components/PromptBuilder.tsx:175 | bounds the `char_<n>` number of every character |
| Lists.AddCharacterFresh | components/PromptBuilder.tsx:173-176 | the corrected add: the new id differs from every existing id, so unique ids stay unique |
| Lists.FreshAgreesWhenSequential | components/PromptBuilder.tsx:173-176 | with no removal so far, the corrected add allocates the same id as the original |
| Lists.CleanEntries | components/PromptBuilder.tsx:236 | `.map(trim).filter(Boolean)` keeps only non-empty trimmed entries, and adds no comma |
| Lists.CleanEntriesConcat | components/PromptBuilder.tsx:236 | trimming and filtering work piece by piece, so source order is kept |
| Lists.ParseList | components/PromptBuilder.tsx:236 | every entry of the rebuilt list is non-empty, trimmed and free of commas |
| Lists.ParseListOfJoin | components/PromptBuilder.tsx:236 | parsing the text an input shows (`list.join(', ')`) gives the list back, in order, whenever its entries are valid |
| Lists.ParsePaddedJoin | components/PromptBuilder.tsx:236 | the same holds with leading whitespace before the joined text |
| Lists.ParseListCons | components/PromptBuilder.tsx:236 | the entries before the first comma come first, followed by the entries of the rest |
| Lists.ParseListOne | components/PromptBuilder.tsx:236 | a text without a comma gives its trimmed self, or nothing when it is blank |
| Handlers.FieldsEditable | components/PromptBuilder.tsx:118-359 | every path the inputs dispatch is a top-level key or a key inside one of the draft's groups, with no further dot |
| Handlers.WriteField | components/PromptBuilder.tsx:118-354 | an input's `set` makes its field read the value and changes nothing outside its top-level key, nor anything else in its group |
| Handlers.WriteFieldFrame | components/PromptBuilder.tsx:118-354 | a field that the write does not touch reads as before |
| Handlers.WriteKeepsDraft | components/PromptBuilder.tsx:118-359 | a write through one of the form's inputs keeps the groups objects and the lists arrays |
| Handlers.ListKey | components/PromptBuilder.tsx:146-148 | each record list is dispatched under its own dot-free key |
| Handlers.ActionFor | components/PromptBuilder.tsx:118-370 | the id-map input dispatches nothing exactly when `JSON.parse` throws (an empty text counts as `{}`); every other control dispatches; the comma inputs dispatch arrays; reset dispatches a value-less `reset` |
| Handlers.ActionKeepsDraft | components/PromptBuilder.tsx:118-359 | every action the form dispatches, except reset, keeps the draft's shape |
| Handlers.Step | components/PromptBuilder.tsx:118-370 | after any control except reset, the state is still a draft; reset gives the default draft; an unparsable id map leaves the state alone |
| Handlers.StepDispatches | components/PromptBuilder.tsx:27-36 | a control's effect is the reducer applied to the action it dispatches |
| Handlers.SetFieldEffect | components/PromptBuilder.tsx:118-354 | an input stores its value, and every field it does not touch is unchanged |
| Handlers.SetListEffect | components/PromptBuilder.tsx:236 | a comma input stores the parsed list, whose entries are valid, and every other field is unchanged |
| Handlers.WriteSameValue | components/PromptBuilder.tsx:27-30 | writing back the value a field already holds gives the same draft |
| Handlers.ListWriteRoundTrip | components/PromptBuilder.tsx:236 | storing the parse of a list's own shown text gives the same draft |
| Handlers.ListTextRoundTrip | components/PromptBuilder.tsx:236 | re-entering the text a comma input shows leaves the draft unchanged |
| Handlers.RemoveRecordEffect | components/PromptBuilder.tsx:145-149 | "Remove" (also lines 213 and 309) stores the list without record `idx`, and no other key changes |
| Handlers.EditRecordEffect | components/PromptBuilder.tsx:154-168 | a record input (also lines 188-208 and 273-305) stores the list with that record's field replaced, and no other key changes |
| Handlers.AddRecordEffect | components/PromptBuilder.tsx:173-176 | "Add ..." (also lines 218-219 and 313-315) stores the list with the new record appended, and no other key changes |
| Handlers.SetIdMapEffect | components/PromptBuilder.tsx:358-359 | the id-map input stores what `JSON.parse` returns; every field it does not touch, the seed of its own group included, is unchanged; a text that does not parse changes nothing |
| Handlers.RemoveThenAddDuplicatesId | components/PromptBuilder.tsx:145-176 | on the form, "Remove" then "Add character" can leave two characters with the same id |
| Handlers.WritesEffect | components/PromptBuilder.tsx:390-396 | a run of writes to independent editable fields keeps the draft, stores every value, and leaves every untouched field alone |
| Handlers.PresetActions | components/PromptBuilder.tsx:390-396 | the preset dispatches the seven paths and values of the button, in order |
| Handlers.PresetFieldsIndependent | components/PromptBuilder.tsx:390-396 | the preset's seven fields are editable and none of them overwrites another |
| Handlers.PresetEffect | components/PromptBuilder.tsx:389-396 | after the preset, fps is 24, the aspect ratio is 2.39:1 and the five cinematography fields hold the preset's texts; every other key, and every other cinematography field, is unchanged |
| Component.Builder.constructor | components/PromptBuilder.tsx:51-52 | the builder starts from the default draft and empty ideas |
| Component.Builder.Dispatch | components/PromptBuilder.tsx:51 | `dispatch` replaces the state by the reducer's result |
| Component.Builder.SetMessyIdeas | components/PromptBuilder.tsx:107 | the ideas box stores its text, and the draft is unchanged |
| Component.Builder.ClearIdeas | components/PromptBuilder.tsx:110 | "Clear" empties the ideas, and the draft is unchanged |
| Component.Builder.Extract | components/PromptBuilder.tsx:67-70 | the extractor's draft replaces the state (nullish falls back to the defaults) |
| Component.Builder.ResetDraft | components/PromptBuilder.tsx:370 | "Reset" restores the default draft |
| Component.Builder.Handle | components/PromptBuilder.tsx:118-359 | a control's handler leaves the state that `Step` gives, which is still a draft |
| Component.Builder.ApplyPreset | components/PromptBuilder.tsx:389-396 | the preset button's seven dispatches can all run, and leave the draft that `PresetEffect` describes |

## Left out

- Rendering is not modelled: the JSX, the `Section` component and the CSS classes (components/PromptBuilder.tsx:38-48, 103-402) are presentation.
- `loadDraft`/`saveDraft` (lines 56-65) are not modelled. They are localStorage I/O, and `lib/storage` is not part of this model.
- `handleGenerate` (lines 72-85) is not modelled. It uses zod validation, `generateStructuredPrompt`, `JSON.stringify` and the `error` and `jsonOutput` state, and `lib/schema` and `lib/promptGenerator` are not part of this model.
- `copyJSON` and `downloadJSON` (lines 87-101) are not modelled. They are clipboard and file-download browser I/O.
- `defaultPrompt`, `ideaToDraft` and `JSON.parse` are parameters (see above). Their definitions are not part of this model.
- The id-map input's displayed text (`JSON.stringify`, line 358) is not modelled.
- `Number(e.target.value)` (lines 122, 130, 280) is not modelled. A number input's event carries the resulting value directly.
- Values.SetAtPath: `ArrayKeysIndexed` requires every key used on an array along the path to be a canonical index, such as `"0"` or `"12"`. Named properties on arrays and the 2^32-1 array-length bound are not modelled. Every path the form dispatches passes through objects only.
- Values.SetAtPathLoop: the source stores each fresh copy into its parent while descending and then mutates it through the alias `cur`. The model descends first and stores the copies back leaf first. The result is the same, but the aliasing is not modelled.
- Lists.RemoveAt: the source copies the array and splices the copy in place. The model computes the resulting sequence.
- Lists.EditAt: the source copies the array and assigns `copy[idx]`. The model computes the resulting sequence.
- Values.Get: reads own data properties only. An array's or a string's `length` and inherited properties (`constructor`, `toString`) read `undefined`. So `SetAtPathOffPath` does not speak of the `length` of an array that the write grows.
- Values.Chars: strings are indexed and spread by Unicode scalar value, not by UTF-16 code unit. `{..."😀"}` has one key here and two in JavaScript.
- Values.Assign: a key is always an own data property. Assigning `__proto__` (line 20) would set the prototype in JavaScript, and this is not modelled.
- Values.Value: numbers are mathematical reals. NaN, the infinities and -0 are not modelled.
- Values.Value: objects are maps, so the insertion order of keys is not modelled. That order is what `JSON.stringify` of the draft shows.
- Handlers.Step: `IsDraft` requires only the shape the handlers rely on: the groups are objects and the lists are arrays. The field types of the draft schema are not modelled.
- Component.Builder.Handle: React's re-rendering and batching are not modelled. Each handler reads the state that the previous dispatch left.

## Findings

| source | as written | input that shows it | evidently intended | confidence | as-written member | corrected member |
|---|---|---|---|---|---|---|
| components/PromptBuilder.tsx:173-176 | the new character's id is `char_<length+1>`, so it depends only on the current length | characters `[char_1, char_2]`: remove `char_1`, then add; both characters now have id `char_2` | a new character's id differs from every existing id (ids are React keys, line 142) | not executed | Lists.RemoveThenAddRepeatsId | Lists.AddCharacterFresh |
