/** Normalised key events: the modifier keys, the modifier mask, and every other key by number. */
module KeyEvents {

  datatype KeyCode =
    | LeftShift | RightShift | LeftCtrl | RightCtrl | LeftAlt | RightAlt | LeftCmd | RightCmd | Fn | CapsLock
    | Plain(code: nat)

  datatype Modifier = CTRL | SHIFT | ALT | CMD | FN
                    | LEFT_CTRL | RIGHT_CTRL | LEFT_SHIFT | RIGHT_SHIFT | LEFT_ALT | RIGHT_ALT | LEFT_CMD | RIGHT_CMD

  /** A modifier mask is the set of its set bits. */
  type Modifiers = set<Modifier>

  datatype EventKind = KeyDown | KeyUp | ModifiersChanged

  datatype KeyEvent = KeyEvent(code: KeyCode, kind: EventKind, mods: Modifiers)

  predicate IsModifier(k: KeyCode) {
    !k.Plain?
  }

  /** The side-specific bit of a modifier key; Caps Lock has none. */
  function ModifierBit(k: KeyCode): Modifiers {
    match k
    case LeftShift => {LEFT_SHIFT} case RightShift => {RIGHT_SHIFT}
    case LeftCtrl => {LEFT_CTRL} case RightCtrl => {RIGHT_CTRL}
    case LeftAlt => {LEFT_ALT} case RightAlt => {RIGHT_ALT}
    case LeftCmd => {LEFT_CMD} case RightCmd => {RIGHT_CMD}
    case Fn => {FN}
    case _ => {}
  }

  function GenericBit(k: KeyCode): Modifiers {
    match k
    case LeftShift => {SHIFT} case RightShift => {SHIFT}
    case LeftCtrl => {CTRL} case RightCtrl => {CTRL}
    case LeftAlt => {ALT} case RightAlt => {ALT}
    case LeftCmd => {CMD} case RightCmd => {CMD}
    case Fn => {FN}
    case _ => {}
  }
}
