/** The status control of one ingredient row (frontend/src/components/IngredientStatusButton.tsx):
    which buttons each status renders and which statuses a click on them can report. */
module StatusButton {
  import opened Wrappers
  import opened Availability

  /** A rendered button: the status its click reports, and whether it is disabled. */
  datatype Button = Button(event: Status, disabled: bool)

  /** The buttons for each status. Only the available state's button takes the
      `disabled` flag; the unavailable and unknown states ignore it. */
  function Buttons(status: Status, disabled: bool): seq<Button> {
    match status
    case Available => [Button(Available, disabled)]
    case Unavailable => [Button(Unavailable, false)]
    case Unknown => [Button(Available, false), Button(Unavailable, false)]
  }

  /** What a click reports: nothing on a disabled button (the available button both
      carries the disabled attribute and checks the flag in its handler). */
  function Click(b: Button): Option<Status> {
    if b.disabled then None else Some(b.event)
  }

  /** The statuses some click on the control can report: the available state reports only
      "available" and only when enabled, the unavailable state reports only "unavailable"
      whatever the flag, the unknown state offers both, and "unknown" is never reported. */
  function Emittable(status: Status, disabled: bool): (r: set<Status>)
    ensures Unknown !in r
    ensures status == Available ==> r == if disabled then {} else {Available}
    ensures status == Unavailable ==> r == {Unavailable}
    ensures status == Unknown ==> r == {Available, Unavailable}
  {
    var buttons := Buttons(status, disabled);
    var r := set i | 0 <= i < |buttons| && Click(buttons[i]).Some? :: Click(buttons[i]).value;
    assert status == Unknown ==> Click(buttons[0]) == Some(Available) && Click(buttons[1]) == Some(Unavailable);
    assert status != Unknown && Click(buttons[0]).Some? ==> r == {Click(buttons[0]).value};
    r
  }
}
