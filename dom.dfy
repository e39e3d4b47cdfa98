/**
 * The parts of the page the controllers change, as values: a `<select>` with
 * its options, selected value and disabled flag, and the result panel with its
 * content, class and visibility.
 */
module Dom {

  /** `<option value="...">text</option>` */
  datatype Choice = Choice(value: string, text: string)

  /** A `<select>` element: its options in order, its current value, whether it is disabled. */
  datatype Select = Select(options: seq<Choice>, value: string, disabled: bool)

  /** An option whose value and text are both `v`, as the controllers create them. */
  function ChoiceOf(v: string): Choice { Choice(v, v) }

  predicate HasValue(options: seq<Choice>, v: string) {
    exists i :: 0 <= i < |options| && options[i].value == v
  }

  /**
   * `select.innerHTML = ...`: the options are replaced; none of them is marked
   * selected, so the first one becomes the selected one and gives the value.
   */
  function Replaced(sel: Select, options: seq<Choice>): (r: Select)
    ensures options != [] ==> HasValue(r.options, r.value)
    ensures options == [] ==> r.value == ""
  {
    sel.(options := options, value := if options == [] then "" else options[0].value)
  }

  /** `select.appendChild(option)`: the option goes last; the selected one stays selected. */
  function Appended(sel: Select, c: Choice): (r: Select)
    ensures HasValue(r.options, c.value)
    ensures forall v :: HasValue(sel.options, v) ==> HasValue(r.options, v)
    ensures HasValue(sel.options, sel.value) ==> HasValue(r.options, r.value)
  {
    var r := sel.(options := sel.options + [c]);
    assert r.options[|sel.options|] == c;
    assert forall i :: 0 <= i < |sel.options| ==> r.options[i] == sel.options[i];
    r
  }

  /**
   * `select.value = v`: the first option with value `v` becomes selected; when
   * there is none, no option is selected and the value reads as "".
   */
  function Assigned(sel: Select, v: string): (r: Select)
    ensures r.options == sel.options && r.disabled == sel.disabled
    ensures r.value == v <==> v == "" || HasValue(sel.options, v)
    ensures r.value == v || r.value == ""
  {
    if HasValue(sel.options, v) then sel.(value := v) else sel.(value := "")
  }

  /** The `type` argument of `showResult`. */
  datatype Kind = Error | Loading | Success

  /** `type === 'error' ? 'error' : (type === 'loading' ? 'loading' : '')` */
  function ClassNameFor(kind: Kind): string {
    match kind
    case Error => "error"
    case Loading => "loading"
    case Success => ""
  }

  /** What the result panel shows: a message, or one of the two result cards. */
  datatype Content =
    | Message(text: string)
    | AnalysisCard(englishName: string, scientificName: string, sound: string, emotionLabel: string, contextTrigger: string)
    | CallForCard(animal: string, sound: string, callFor: string)

  /** The result panel: its content, its class name apart from `result-visible`, and whether it has `result-visible`. */
  datatype Panel = Panel(content: Content, className: string, visible: bool)

  /** `showResult(content, type)`: new content and class, and the panel is visible. */
  function Shown(content: Content, kind: Kind): Panel {
    Panel(content, ClassNameFor(kind), true)
  }

  /** `classList.remove('result-visible')`: only the visibility changes. */
  function Hidden(p: Panel): Panel {
    p.(visible := false)
  }
}
