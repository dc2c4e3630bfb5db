/** The three-step booking wizard: a step counter moved by Next and Back, and
    form data kept as sections of named fields. */
module MultiStepForm {
  import opened Wrappers
  import opened Catalog

  /** A field value: typed text, or a package chosen in step 1. */
  datatype FieldValue = Text(text: string) | Chosen(pkg: Package)

  /** A section of the form data: `null`, or an object of fields. */
  datatype Section = Null | Fields(fields: map<string, FieldValue>)

  type FormData = map<string, Section>

  /** The initial form data: no package, empty car and user fields. */
  const InitialData: FormData := map[
    "package" := Null,
    "carDetails" := Fields(map["model" := Text(""), "color" := Text(""), "plate" := Text("")]),
    "userInfo" := Fields(map["name" := Text(""), "email" := Text(""), "phone" := Text("")])
  ]

  /** `{ ...prev[section] }`: the section's fields, none for a missing or null section. */
  function FieldsOf(data: FormData, section: string): map<string, FieldValue>
  {
    if section in data && data[section].Fields? then data[section].fields else map[]
  }

  /** `handleInputChange(section, field, value)`: that field set, everything else kept. */
  function WithInput(data: FormData, section: string, field: string, value: FieldValue): (r: FormData)
    ensures r.Keys == data.Keys + {section}
    ensures r[section].Fields? && field in r[section].fields && r[section].fields[field] == value
    ensures r[section].fields.Keys == FieldsOf(data, section).Keys + {field}
    ensures forall f :: f in FieldsOf(data, section) && f != field ==>
      r[section].fields[f] == FieldsOf(data, section)[f]
    ensures forall s :: s in data && s != section ==> r[s] == data[s]
  {
    data[section := Fields(FieldsOf(data, section)[field := value])]
  }

  /** Setting a field twice keeps only the second value. */
  lemma InputOverwrites(data: FormData, section: string, field: string, v: FieldValue, w: FieldValue)
    ensures WithInput(WithInput(data, section, field, v), section, field, w) == WithInput(data, section, field, w)
  {
    var once := FieldsOf(data, section);
    assert FieldsOf(WithInput(data, section, field, v), section) == once[field := v];
    assert once[field := v][field := w] == once[field := w];
  }

  /** A button the wizard renders. */
  datatype Button = Next | Back | Submit

  /** The buttons rendered at each step. */
  function Buttons(step: int): (bs: set<Button>)
    ensures Next in bs <==> step == 1 || step == 2
    ensures Back in bs <==> step == 2 || step == 3
    ensures Submit in bs <==> step == 3
  {
    if step == 1 then {Next}
    else if step == 2 then {Back, Next}
    else if step == 3 then {Back, Submit}
    else {}
  }

  /** The step after a button press: Next adds 1, Back subtracts 1, Submit only alerts. */
  function Press(step: int, b: Button): (r: int)
    ensures 1 <= step <= 3 && b in Buttons(step) ==> 1 <= r <= 3
    ensures r - step in {-1, 0, 1}
    ensures b == Submit ==> r == step
  {
    match b
    case Next => step + 1
    case Back => step - 1
    case Submit => step
  }

  /** The step after a sequence of presses, or None when a press finds its button
      not rendered. Through the rendered buttons the step never leaves 1, 2, 3,
      and each press moves it by at most one. */
  function PressAll(step: int, bs: seq<Button>): (r: Option<int>)
    ensures 1 <= step <= 3 && r.Some? ==> 1 <= r.value <= 3
    ensures r.Some? ==> step - |bs| <= r.value <= step + |bs|
    decreases |bs|
  {
    if bs == [] then Some(step)
    else if bs[0] !in Buttons(step) then None
    else PressAll(Press(step, bs[0]), bs[1..])
  }

  /** Every step is reached from the first through the buttons. */
  lemma AllStepsReachable()
    ensures PressAll(1, []) == Some(1)
    ensures PressAll(1, [Next]) == Some(2)
    ensures PressAll(1, [Next, Next]) == Some(3)
  {
    assert [Next, Next][1..] == [Next];
  }

  /** The wizard's state. */
  class Form {
    var step: int
    var formData: FormData

    constructor ()
      ensures step == 1 && formData == InitialData
    {
      step := 1;
      formData := InitialData;
    }

    /** `handleNext`: no bound of its own. */
    method HandleNext()
      modifies this
      ensures step == old(step) + 1 && formData == old(formData)
    {
      step := step + 1;
    }

    /** `handleBack`: no bound of its own. */
    method HandleBack()
      modifies this
      ensures step == old(step) - 1 && formData == old(formData)
    {
      step := step - 1;
    }

    method HandleInputChange(section: string, field: string, value: FieldValue)
      modifies this
      ensures formData == WithInput(old(formData), section, field, value) && step == old(step)
    {
      formData := formData[section := Fields(FieldsOf(formData, section)[field := value])];
    }

    /** A click on a rendered button. */
    method Click(b: Button)
      requires b in Buttons(step)
      modifies this
      ensures step == Press(old(step), b) && formData == old(formData)
      ensures 1 <= step <= 3
    {
      match b
      case Next => HandleNext();
      case Back => HandleBack();
      case Submit =>
    }
  }
}
