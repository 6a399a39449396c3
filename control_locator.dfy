/** Finding the "Top Traders" control by its visible text rather than by a selector. */
module ControlLocator {
  import opened Wrappers
  import opened JsStrings
  import Search

  const ButtonLabel := "Top Traders"
  const ButtonNotFound := "'Top Traders' button not found."

  /** The text of a button names the control when it contains "Top Traders" anywhere, case-sensitively. */
  predicate NamesControl(text: string) {
    Contains(text, ButtonLabel)
  }

  /** What `page.evaluate(el => el.textContent, btn)` settles to for one button: its text, or a rejection. */
  datatype ButtonText = Read(text: string) | Unreadable(message: string)

  /** How the button loop ends: on the index it clicks, with no match, or on a rejected text read. */
  datatype Located = Found(index: nat) | NotFound | ReadFailed(message: string)

  /** The loop stops at a button: its text read was rejected, or its text names the control. */
  predicate Stops(button: ButtonText) {
    button.Unreadable? || NamesControl(button.text)
  }

  /** The first `k` buttons were read, and none of their texts names the control. */
  ghost predicate PassedBefore(buttons: seq<ButtonText>, k: int) {
    && 0 <= k <= |buttons|
    && forall j :: 0 <= j < k ==> buttons[j].Read? && !NamesControl(buttons[j].text)
  }

  /** Where the button loop ends: at the first button it stops at, in document order. */
  function Locate(buttons: seq<ButtonText>): Located {
    match Search.FindFirst(buttons, Stops)
    case None => NotFound
    case Some(k) =>
      match buttons[k]
      case Unreadable(m) => ReadFailed(m)
      case Read(_) => Found(k)
  }

  /**
   * The loop clicks the first button whose text names the control, provided every
   * earlier text was read; it finds nothing exactly when every text was read and none
   * names it; otherwise the first rejected read ends it, after only readable
   * non-matching buttons.
   */
  lemma LocateSpec(buttons: seq<ButtonText>)
    ensures match Locate(buttons)
      case Found(k) =>
        && k < |buttons| && buttons[k].Read? && NamesControl(buttons[k].text)
        && PassedBefore(buttons, k)
      case NotFound =>
        PassedBefore(buttons, |buttons|)
      case ReadFailed(m) =>
        exists k :: 0 <= k < |buttons| && buttons[k] == Unreadable(m) && PassedBefore(buttons, k)
  {
    match Search.FindFirst(buttons, Stops)
    case None =>
    case Some(k) =>
      assert PassedBefore(buttons, k);
  }

  /**
   * The button loop: reads the buttons' texts in order, clicks the first one whose
   * text contains "Top Traders" and stops there. A rejected read throws out of the loop.
   */
  method LocateButton(buttons: seq<ButtonText>) returns (result: Located)
    ensures result == Locate(buttons)
  {
    var i := 0;
    while i < |buttons|
      invariant 0 <= i <= |buttons|
      invariant forall j :: 0 <= j < i ==> !Stops(buttons[j])
    {
      var button := buttons[i];
      if button.Unreadable? {
        return ReadFailed(button.message);
      }
      if NamesControl(button.text) {
        return Found(i);
      }
      i := i + 1;
    }
    return NotFound;
  }

  /**
   * Stated with the substring occurrence itself: the clicked button shows "Top Traders"
   * at some position of its text, and no earlier button shows it anywhere. When no
   * button shows it, nothing is clicked.
   */
  lemma ClickedButtonShowsLabel(buttons: seq<ButtonText>)
    ensures match Locate(buttons)
      case Found(k) =>
        && k < |buttons|
        && (exists i :: OccursAt(buttons[k].text, ButtonLabel, i))
        && forall j, i :: 0 <= j < k ==> buttons[j].Read? && !OccursAt(buttons[j].text, ButtonLabel, i)
      case NotFound =>
        forall j, i :: 0 <= j < |buttons| ==> buttons[j].Read? && !OccursAt(buttons[j].text, ButtonLabel, i)
      case ReadFailed(_) => true
  {
    LocateSpec(buttons);
    forall j | 0 <= j < |buttons| && buttons[j].Read? {
      ContainsIff(buttons[j].text, ButtonLabel);
    }
  }
}
