/**
 * The caps-lock automaton of `TextKeyboard` and the rewriting of key
 * actions and labels that depends on it (`switchCapsState`,
 * `transformAlphabet`, `transformPunctuation`, `transformPopupPreview`,
 * `onAction`), as pure functions over the caps state.
 */
module Caps {

  import opened Ascii
  import opened Actions
  import W = Wrappers

  datatype CapsState = None | Once | Lock

  /** The new state `switchCapsState(lock)` assigns. */
  function NextCapsState(s: CapsState, lock: bool): CapsState {
    if lock then (if s == Lock then CapsState.None else Lock)
    else (if s == CapsState.None then Once else CapsState.None)
  }

  /** `transformAlphabet`. */
  function TransformAlphabet(caps: CapsState, c: string): string {
    if caps == CapsState.None then Lower(c) else Upper(c)
  }

  /** `transformPunctuation`: the mapped symbol, or the symbol itself when it has no mapping. */
  function TransformPunctuation(mapping: map<string, string>, p: string): string {
    if p in mapping then mapping[p] else p
  }

  /** `transformPopupPreview`. */
  function TransformPopupPreview(caps: CapsState, mapping: map<string, string>, c: string): string {
    if |c| != 1 then c
    else if IsLetter(c[0]) then TransformAlphabet(caps, c)
    else TransformPunctuation(mapping, c)
  }

  /** The label `onPopupAction` gives a popup keyboard: a one-letter label follows the caps state, any other is kept. */
  function TransformPopupKeyboardLabel(caps: CapsState, name: string): string {
    if |name| == 1 && IsLetter(name[0]) then TransformAlphabet(caps, name) else name
  }

  /**
   * What `onAction` does with one action before handing it on: the action
   * it forwards and, when it calls `switchCapsState`, the `lock` argument.
   */
  datatype ActionEffect = ActionEffect(forwarded: KeyAction, switchLock: W.Option<bool>)

  function OnActionEffect(caps: CapsState, action: KeyAction, source: Source): ActionEffect {
    match action
    case FcitxKeyAction(act, states) =>
      if source == Popup then
        ActionEffect(action, if caps == Once then W.Some(false) else W.None)
      else if caps == CapsState.None then
        ActionEffect(FcitxKeyAction(Lower(act), states), W.None)
      else if caps == Once then
        ActionEffect(FcitxKeyAction(Upper(act), States({Virtual, Shift})), W.Some(false))
      else
        ActionEffect(FcitxKeyAction(Upper(act), States({Virtual, CapsLock})), W.None)
    case CapsAction(lock) => ActionEffect(action, W.Some(lock))
    case OtherAction(_) => ActionEffect(action, W.None)
  }

  /** The caps state after the action's effect. */
  function CapsAfter(caps: CapsState, e: ActionEffect): CapsState {
    if e.switchLock.Some? then NextCapsState(caps, e.switchLock.value) else caps
  }

  /** The full transition table of `switchCapsState`. */
  lemma SwitchTransitions()
    ensures NextCapsState(Lock, true) == CapsState.None
    ensures NextCapsState(CapsState.None, true) == Lock && NextCapsState(Once, true) == Lock
    ensures NextCapsState(CapsState.None, false) == Once
    ensures NextCapsState(Once, false) == CapsState.None && NextCapsState(Lock, false) == CapsState.None
  {
  }

  /** The reset an input-method change performs leaves caps off from every state. */
  lemma ResetLeavesNone(s: CapsState)
    ensures (if s != CapsState.None then NextCapsState(s, false) else s) == CapsState.None
  {
  }

  /** A keyboard key: lower-cased when caps is off, upper-cased with shift for one key, upper-cased with caps lock while locked. */
  lemma OnActionKeyboardKey(caps: CapsState, act: string, states: KeyStates)
    ensures var e := OnActionEffect(caps, FcitxKeyAction(act, states), Keyboard);
      && e.forwarded.FcitxKeyAction?
      && e.forwarded.act == TransformAlphabet(caps, act)
      && (caps == CapsState.None ==> e.forwarded.states == states && CapsAfter(caps, e) == CapsState.None)
      && (caps == Once ==> e.forwarded.states == States({Virtual, Shift}) && CapsAfter(caps, e) == CapsState.None)
      && (caps == Lock ==> e.forwarded.states == States({Virtual, CapsLock}) && CapsAfter(caps, e) == Lock)
  {
  }

  /** A popup key is forwarded unchanged and only uses up a one-shot shift. */
  lemma OnActionPopupKey(caps: CapsState, act: string, states: KeyStates)
    ensures var e := OnActionEffect(caps, FcitxKeyAction(act, states), Popup);
      && e.forwarded == FcitxKeyAction(act, states)
      && CapsAfter(caps, e) == (if caps == Once then CapsState.None else caps)
  {
  }

  /** Whatever the source, a key action leaves the one-shot shift used up, and locked caps locked. */
  lemma OnceLastsOneKey(caps: CapsState, act: string, states: KeyStates, source: Source)
    ensures var after := CapsAfter(caps, OnActionEffect(caps, FcitxKeyAction(act, states), source));
      after != Once && (after == Lock <==> caps == Lock)
  {
  }

  /** Caps actions only drive the automaton; other actions pass through untouched. */
  lemma OnActionNonKey(caps: CapsState, action: KeyAction, source: Source)
    requires !action.FcitxKeyAction?
    ensures OnActionEffect(caps, action, source).forwarded == action
    ensures action.CapsAction? ==> CapsAfter(caps, OnActionEffect(caps, action, source)) == NextCapsState(caps, action.lock)
    ensures action.OtherAction? ==> CapsAfter(caps, OnActionEffect(caps, action, source)) == caps
  {
  }

  /** An alphabet label holds no upper-case letter while caps is off and no lower-case letter otherwise. */
  lemma TransformAlphabetCase(caps: CapsState, c: string)
    ensures |TransformAlphabet(caps, c)| == |c|
    ensures caps == CapsState.None ==> forall i :: 0 <= i < |c| ==> !IsUpper(TransformAlphabet(caps, c)[i])
    ensures caps != CapsState.None ==> forall i :: 0 <= i < |c| ==> !IsLower(TransformAlphabet(caps, c)[i])
  {
    UpperAt(c);
    LowerAt(c);
    LowerIdempotent(c);
    UpperIdempotent(c);
  }

  /**
   * A preview label of one letter follows the caps state, one other symbol
   * goes through the punctuation mapping, and anything longer is kept.
   */
  lemma PopupPreviewCases(caps: CapsState, mapping: map<string, string>, c: string)
    ensures |c| == 1 && IsLetter(c[0]) ==>
      |TransformPopupPreview(caps, mapping, c)| == 1
      && IsLetter(TransformPopupPreview(caps, mapping, c)[0])
      && Lower(TransformPopupPreview(caps, mapping, c)) == Lower(c)
    ensures |c| == 1 && IsLetter(c[0]) ==> TransformPopupPreview(caps, mapping, c) == TransformAlphabet(caps, c)
    ensures |c| == 1 && !IsLetter(c[0]) && c !in mapping ==> TransformPopupPreview(caps, mapping, c) == c
    ensures |c| == 1 && !IsLetter(c[0]) && c in mapping ==> TransformPopupPreview(caps, mapping, c) == mapping[c]
    ensures |c| != 1 ==> TransformPopupPreview(caps, mapping, c) == c
  {
    if |c| == 1 && IsLetter(c[0]) {
      SingleLetterCase(c);
      LowerOfUpper(c);
      LowerIdempotent(c);
    }
  }

  /**
   * A popup keyboard's label and a preview agree on single letters; a
   * one-letter label stays one letter of the same letter case-insensitively,
   * and with caps off it is lower-case, otherwise upper-case.
   */
  lemma PopupKeyboardLabelCases(caps: CapsState, mapping: map<string, string>, name: string)
    ensures |name| == 1 && IsLetter(name[0]) ==>
      TransformPopupKeyboardLabel(caps, name) == TransformPopupPreview(caps, mapping, name)
      && |TransformPopupKeyboardLabel(caps, name)| == 1
      && Lower(TransformPopupKeyboardLabel(caps, name)) == Lower(name)
      && (caps == CapsState.None <==> IsLower(TransformPopupKeyboardLabel(caps, name)[0]))
    ensures !(|name| == 1 && IsLetter(name[0])) ==> TransformPopupKeyboardLabel(caps, name) == name
  {
    if |name| == 1 && IsLetter(name[0]) {
      PopupPreviewCases(caps, mapping, name);
      TransformAlphabetCase(caps, name);
    }
  }
}
