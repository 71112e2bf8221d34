/**
 * The state `TextKeyboard` updates in place: its companion object (the
 * shared layout cache and the current input method) and each keyboard's
 * caps state, punctuation mapping and key labels.
 */
module TextKeyboardView {

  import opened Wrappers
  import opened Actions
  import opened LayoutCache
  import opened KeyLabels
  import Caps

  /** The sub-mode of an input method; `subLabel` is its `label`. */
  datatype SubMode = SubMode(name: string, subLabel: string)

  datatype InputMethodEntry = InputMethodEntry(uniqueName: string, displayName: string, subMode: SubMode)

  /** The space bar's label: the display name, then the sub-mode's label, or else its name, in parentheses. */
  function SpaceLabel(ime: InputMethodEntry): string {
    var sub := if ime.subMode.subLabel != "" then ime.subMode.subLabel else ime.subMode.name;
    ime.displayName + (if sub != "" then " (" + sub + ")" else "")
  }

  /** The label always starts with the display name; it is exactly the display name only when the sub-mode has neither label nor name. */
  lemma SpaceLabelShape(ime: InputMethodEntry)
    ensures SpaceLabel(ime)[..|ime.displayName|] == ime.displayName
    ensures SpaceLabel(ime) == ime.displayName <==> ime.subMode.subLabel == "" && ime.subMode.name == ""
    ensures ime.subMode.subLabel != "" ==> SpaceLabel(ime) == ime.displayName + " (" + ime.subMode.subLabel + ")"
    ensures ime.subMode.subLabel == "" && ime.subMode.name != "" ==> SpaceLabel(ime) == ime.displayName + " (" + ime.subMode.name + ")"
  {
    if ime.subMode.subLabel != "" || ime.subMode.name != "" {
      assert |SpaceLabel(ime)| > |ime.displayName|;
    }
  }

  /** The companion object: process-wide layout cache and current input method. */
  class Companion {
    var table: Option<LayoutTable>
    var lastModifiedTimestamp: int
    var ime: Option<InputMethodEntry>

    constructor ()
      ensures State() == Initial && ime == None
    {
      table := None;
      lastModifiedTimestamp := 0;
      ime := None;
    }

    function State(): CacheState
      reads this
    {
      CacheState(table, lastModifiedTimestamp)
    }

    /** One run of `loadLayoutsIfNeededAsync`, against what the file system and parser report. */
    method LoadLayoutsIfNeeded(env: Environment)
      modifies this`table, this`lastModifiedTimestamp
      ensures State() == Refresh(old(State()), env)
    {
      match env
      case DirNull =>
        table := Some(map[]);
      case Missing =>
        if table != None || lastModifiedTimestamp != 0 {
          table := Some(map[]);
          lastModifiedTimestamp := 0;
        }
      case Present(mtime, parsed) =>
        if table == None || lastModifiedTimestamp != mtime {
          var newMap := if parsed.Some? then parsed.value else map[];
          table := Some(newMap);
          lastModifiedTimestamp := mtime;
        }
    }

    /** `getTextLayoutJsonForIme`. */
    function GetTextLayoutJsonForIme(displayName: string): (r: Option<Rows>)
      reads this
      ensures r.Some? <==> table.Some? && displayName in table.value
      ensures r.Some? ==> r.value == table.value[displayName]
    {
      Lookup(State(), displayName)
    }
  }

  class TextKeyboard {
    const companion: Companion
    /** `textKeys`: every text key view of the keyboard. */
    const textKeys: array<TextKeyView>
    const keepLettersUppercase: bool
    var capsState: Caps.CapsState
    var punctuationMapping: map<string, string>
    /** The space bar's main label. */
    var spaceText: string

    constructor (companion: Companion, textKeys: array<TextKeyView>, keepLettersUppercase: bool)
      ensures this.companion == companion && this.textKeys == textKeys
      ensures this.keepLettersUppercase == keepLettersUppercase
      ensures capsState == Caps.CapsState.None && punctuationMapping == map[] && spaceText == ""
    {
      this.companion := companion;
      this.textKeys := textKeys;
      this.keepLettersUppercase := keepLettersUppercase;
      capsState := Caps.CapsState.None;
      punctuationMapping := map[];
      spaceText := "";
    }

    /** What `updateAlphabetKeys` reads under a caps state; `None` while no input method is known. */
    function LabelContextFor(caps: Caps.CapsState): Option<LabelContext>
      reads this, companion
    {
      match companion.ime
      case None => None
      case Some(ime) =>
        Some(LabelContext(
          companion.GetTextLayoutJsonForIme(ime.uniqueName), ime.subMode.subLabel, keepLettersUppercase, caps))
    }

    /**
     * `updateAlphabetKeys`. Returns false when resolving a display text
     * raised; the keys before the one that raised are already relabelled.
     */
    method UpdateAlphabetKeys() returns (ok: bool)
      modifies textKeys
      ensures textKeys[..] == RefreshAlphabet(old(textKeys[..]), LabelContextFor(capsState))
      ensures ok == AlphabetSucceeds(old(textKeys[..]), LabelContextFor(capsState))
    {
      var currentIme := companion.ime;
      if currentIme == None {
        return true;
      }
      var ctx := LabelContext(
        companion.GetTextLayoutJsonForIme(currentIme.value.uniqueName),
        currentIme.value.subMode.subLabel, keepLettersUppercase, capsState);
      ghost var before := textKeys[..];
      var i := 0;
      while i < textKeys.Length
        invariant 0 <= i <= textKeys.Length
        invariant i <= FirstThrow(before, ctx)
        invariant forall j :: 0 <= j < i ==> textKeys[j] == RelabelKey(before[j], ctx)
        invariant forall j :: i <= j < textKeys.Length ==> textKeys[j] == before[j]
      {
        var outcome := AlphabetLabel(textKeys[i], ctx);
        if outcome.Throws? {
          assert textKeys[..] == RelabelAlphabet(before, ctx);
          return false;
        }
        textKeys[i] := Apply(textKeys[i], outcome);
        i := i + 1;
      }
      assert textKeys[..] == RelabelAlphabet(before, ctx);
      return true;
    }

    /** `updatePunctuationKeys`. */
    method UpdatePunctuationKeys()
      modifies textKeys
      ensures forall i :: 0 <= i < textKeys.Length ==> textKeys[i] == PunctuationLabel(old(textKeys[i]), punctuationMapping)
    {
      var i := 0;
      while i < textKeys.Length
        invariant 0 <= i <= textKeys.Length
        invariant forall j :: 0 <= j < i ==> textKeys[j] == PunctuationLabel(old(textKeys[j]), punctuationMapping)
        invariant forall j :: i <= j < textKeys.Length ==> textKeys[j] == old(textKeys[j])
      {
        textKeys[i] := PunctuationLabel(textKeys[i], punctuationMapping);
        i := i + 1;
      }
    }

    /** `onPunctuationUpdate`. */
    method OnPunctuationUpdate(mapping: map<string, string>)
      modifies this`punctuationMapping, textKeys
      ensures punctuationMapping == mapping
      ensures forall i :: 0 <= i < textKeys.Length ==> textKeys[i] == PunctuationLabel(old(textKeys[i]), mapping)
    {
      punctuationMapping := mapping;
      UpdatePunctuationKeys();
    }

    /** `switchCapsState`: the new caps state, then the alphabet labels for it. */
    method SwitchCapsState(lock: bool) returns (ok: bool)
      modifies this`capsState, textKeys
      ensures capsState == Caps.NextCapsState(old(capsState), lock)
      ensures textKeys[..] == RefreshAlphabet(old(textKeys[..]), LabelContextFor(capsState))
      ensures ok == AlphabetSucceeds(old(textKeys[..]), LabelContextFor(capsState))
    {
      capsState := Caps.NextCapsState(capsState, lock);
      ok := UpdateAlphabetKeys();
    }

    /**
     * `onAction`: the action handed on to the base keyboard, or `None`
     * when the caps switch it triggered raised before it was handed on.
     */
    method OnAction(action: KeyAction, source: Source) returns (forwarded: Option<KeyAction>)
      modifies this`capsState, textKeys
      ensures var e := Caps.OnActionEffect(old(capsState), action, source);
        && capsState == Caps.CapsAfter(old(capsState), e)
        && (e.switchLock.None? ==> textKeys[..] == old(textKeys[..]) && forwarded == Some(e.forwarded))
        && (e.switchLock.Some? ==>
              textKeys[..] == RefreshAlphabet(old(textKeys[..]), LabelContextFor(capsState))
              && forwarded == (if AlphabetSucceeds(old(textKeys[..]), LabelContextFor(capsState))
                               then Some(e.forwarded) else None))
    {
      var e := Caps.OnActionEffect(capsState, action, source);
      forwarded := Some(e.forwarded);
      if e.switchLock.Some? {
        var ok := SwitchCapsState(e.switchLock.value);
        if !ok {
          forwarded := None;
        }
      }
    }

    /** The caps reset and relabel of `onAttach`. */
    method OnAttach() returns (ok: bool)
      modifies this`capsState, textKeys
      ensures capsState == Caps.CapsState.None
      ensures textKeys[..] == RefreshAlphabet(old(textKeys[..]), LabelContextFor(Caps.CapsState.None))
      ensures ok == AlphabetSucceeds(old(textKeys[..]), LabelContextFor(Caps.CapsState.None))
    {
      capsState := Caps.CapsState.None;
      ok := UpdateAlphabetKeys();
    }

    /**
     * `onInputMethodUpdate`: remember the input method, relabel the
     * alphabet, set the space label and reset caps. Returns false when a
     * relabel raised (the remaining steps are then skipped).
     */
    method OnInputMethodUpdate(imeUpdate: InputMethodEntry) returns (ok: bool)
      modifies companion`ime, this`spaceText, this`capsState, textKeys
      ensures companion.ime == Some(imeUpdate)
      ensures ok == AlphabetSucceeds(old(textKeys[..]), LabelContextFor(old(capsState)))
      ensures ok ==> capsState == Caps.CapsState.None && spaceText == SpaceLabel(imeUpdate)
      ensures ok ==> textKeys[..] == RefreshAlphabet(old(textKeys[..]), LabelContextFor(Caps.CapsState.None))
      ensures !ok ==> capsState == old(capsState) && spaceText == old(spaceText)
      ensures !ok ==> textKeys[..] == RefreshAlphabet(old(textKeys[..]), LabelContextFor(old(capsState)))
    {
      companion.ime := Some(imeUpdate);
      ghost var before := textKeys[..];
      ok := UpdateAlphabetKeys();
      if !ok {
        return;
      }
      spaceText := SpaceLabel(imeUpdate);
      if capsState != Caps.CapsState.None {
        ghost var ctx := LabelContextFor(capsState).value;
        ok := SwitchCapsState(false);
        RelabelTwice(before, ctx, Caps.CapsState.None);
      } else {
        assert textKeys[..] == RefreshAlphabet(before, LabelContextFor(Caps.CapsState.None));
      }
    }
  }
}
