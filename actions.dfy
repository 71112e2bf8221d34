/**
 * The key actions the keyboard hands to the input dispatch layer
 * (`KeyAction`), and the key-state flags they carry (`KeyStates`).
 */
module Actions {

  /** The key-state flags this core sets. */
  datatype KeyState = Ctrl | Shift | CapsLock | Virtual

  /**
   * The states of a `FcitxKeyAction`: either the constructor's default
   * (whose value is defined outside this model) or an explicit flag set.
   */
  datatype KeyStates = DefaultStates | States(flags: set<KeyState>)

  datatype KeyAction =
    | FcitxKeyAction(act: string, states: KeyStates)
    | CapsAction(lock: bool)
    /** Any other kind of key action; the keyboard passes these on untouched. */
    | OtherAction(tag: nat)

  /** The source an action was produced by (`KeyActionListener.Source`). */
  datatype Source = Keyboard | Popup
}
