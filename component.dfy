/** The `PromptBuilder` component (components/PromptBuilder.tsx:50-70, 107-110,
    370, 389-397): the draft held by `useReducer`, the "messy ideas" text
    held by `useState`, and the handlers that dispatch to the reducer. */
module Component {
  import opened Values
  import opened Store
  import opened Handlers

  class Builder {
    /** `defaultPrompt()`, the draft the builder starts from and resets to. */
    const defaults: Value
    /** `JSON.parse`, as the id-map input uses it. */
    const parse: string -> Option<Value>
    /** The reducer's state. */
    var state: Value
    /** The text of the "Messy Ideas" box. */
    var messyIdeas: string

    /** `useReducer(reducer, undefined, defaultPrompt)` and `useState("")`. */
    constructor (defaults: Value, parse: string -> Option<Value>)
      ensures this.defaults == defaults && this.parse == parse
      ensures state == defaults && messyIdeas == ""
    {
      this.defaults := defaults;
      this.parse := parse;
      state := defaults;
      messyIdeas := "";
    }

    /** `dispatch(action)`: the state becomes what the reducer returns. */
    method Dispatch(action: Action)
      requires Applicable(state, action)
      modifies this
      ensures state == Reduce(defaults, old(state), action) && messyIdeas == old(messyIdeas)
    {
      state := Reduce(defaults, state, action);
    }

    /** The textarea's `onChange`. */
    method SetMessyIdeas(text: string)
      modifies this
      ensures messyIdeas == text && state == old(state)
    {
      messyIdeas := text;
    }

    /** The "Clear" button. */
    method ClearIdeas()
      modifies this
      ensures messyIdeas == "" && state == old(state)
    {
      messyIdeas := "";
    }

    /** `handleExtract`: the extractor's draft, built from the ideas and the
        current draft, replaces the state (`ideaToDraft` is passed in). */
    method Extract(ideaToDraft: (string, Value) -> Value)
      modifies this
      ensures var d := ideaToDraft(old(messyIdeas), old(state));
        state == (if d.Undefined? || d.Null? then defaults else d)
      ensures messyIdeas == old(messyIdeas)
    {
      var draft := ideaToDraft(messyIdeas, state);
      Dispatch(Reset(draft));
    }

    /** The "Reset" button: `dispatch({type: "reset"})`. */
    method ResetDraft()
      modifies this
      ensures state == defaults && messyIdeas == old(messyIdeas)
    {
      Dispatch(Reset(Undefined));
    }

    /** A form control's handler: dispatch the action it builds, if any. */
    method Handle(e: Event)
      requires Fits(state, e)
      modifies this
      ensures state == Step(defaults, parse, old(state), e) && messyIdeas == old(messyIdeas)
      ensures !e.ResetClicked? ==> IsDraft(state)
    {
      match ActionFor(parse, state, e)
      case None =>
      case Some(a) =>
        ActionKeepsDraft(defaults, parse, state, e);
        Dispatch(a);
    }

    /** The "Apply preset" button: seven `set` dispatches in a row. */
    method ApplyPreset()
      requires IsDraft(state)
      modifies this
      ensures Runs(defaults, old(state), Writes(Preset))
      ensures state == ApplyAll(defaults, old(state), Writes(Preset)) && messyIdeas == old(messyIdeas)
    {
      // `Preset` lists the seven writes in the order the button makes them.
      var w := Writes(Preset);
      PresetEffect(defaults, state);
      assert w[0..] == w;
      RunsFrom(defaults, state, w, 0);
      Dispatch(w[0]);
      RunsFrom(defaults, state, w, 1);
      Dispatch(w[1]);
      RunsFrom(defaults, state, w, 2);
      Dispatch(w[2]);
      RunsFrom(defaults, state, w, 3);
      Dispatch(w[3]);
      RunsFrom(defaults, state, w, 4);
      Dispatch(w[4]);
      RunsFrom(defaults, state, w, 5);
      Dispatch(w[5]);
      RunsFrom(defaults, state, w, 6);
      Dispatch(w[6]);
      assert w[7..] == [];
    }
  }
}
