/** The logical actions a physical mouse button can be remapped to (`enum Action`, `Action::from`). */
module Actions {

  datatype Action = Default | Disabled | Back | Forward | MiddleClick | DoubleClick

  /** The string the settings use for each action; the one the configuration UI writes. */
  function ActionName(a: Action): string {
    match a
    case Default => "Default"
    case Disabled => "Disabled"
    case Back => "Back"
    case Forward => "Forward"
    case MiddleClick => "Middle Click"
    case DoubleClick => "Double Click"
  }

  /**
   * `Action::from`: a total parse. A string names a non-`Default` action exactly when it is
   * that action's canonical name; every other string, recognized or not, folds to `Default`.
   */
  function ParseAction(value: string): (a: Action)
    ensures a != Default ==> ActionName(a) == value
    ensures forall b: Action :: b != Default && ActionName(b) == value ==> a == b
  {
    match value
    case "Disabled" => Disabled
    case "Back" => Back
    case "Forward" => Forward
    case "Middle Click" => MiddleClick
    case "Double Click" => DoubleClick
    case _ => Default
  }

  /** Every action survives writing out its canonical name and parsing it back. */
  lemma ParseActionName(a: Action)
    ensures ParseAction(ActionName(a)) == a
  {
  }

  /** Parsing is idempotent under printing: re-parsing the printed result changes nothing. */
  lemma ParseActionIdempotent(value: string)
    ensures ParseAction(ActionName(ParseAction(value))) == ParseAction(value)
  {
    ParseActionName(ParseAction(value));
  }

  /** The match is exact: near misses (no space, wrong case, the name "Default") all fold to `Default`. */
  lemma NearMissesFoldToDefault()
    ensures ParseAction("MiddleClick") == Default
    ensures ParseAction("DoubleClick") == Default
    ensures ParseAction("back") == Default
    ensures ParseAction("Default") == Default
    ensures ParseAction("") == Default
  {
  }
}
