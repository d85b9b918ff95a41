/** The deploy-configuration dialog of src/components/ConfigModal.tsx: the
    configuration it seeds from the options' defaults, the per-key edits its
    inputs make, what its inputs display, and what it submits. */
module ConfigModal {
  import opened Types

  /** A configuration value: a string, a number or a boolean. Numbers are
      reals; IEEE-754 rounding and NaN are not modelled. */
  datatype ConfigValue = Text(s: string) | Number(n: real) | Flag(b: bool)

  /** One configuration option of an app. `kind` is the option's `type`
      string: "boolean" renders a checkbox, "number" a number field, and
      anything else a text field. */
  datatype ConfigOption = ConfigOption(
    key: string,
    name: string,
    kind: string,
    default: Option<ConfigValue>,
    required: bool,
    description: string)

  /** `AppConfig`: option key to current value. */
  type AppConfig = map<string, ConfigValue>

  /** The option contributes `key` to the seeded configuration. */
  predicate SeedsKey(option: ConfigOption, key: string)
  {
    option.key == key && option.default.Some?
  }

  /** Option `i` is the last option that seeds `key`: it seeds it and no later one does. */
  predicate LastSeederOf(options: seq<ConfigOption>, key: string, i: int)
  {
    && 0 <= i < |options|
    && SeedsKey(options[i], key)
    && forall j :: i < j < |options| ==> !SeedsKey(options[j], key)
  }

  /** The initial configuration: the options are visited in order and each
      option with a default writes it under its key, so a later duplicate
      overwrites an earlier one and options without a default add nothing. */
  function InitialConfig(options: seq<ConfigOption>): (c: AppConfig)
    ensures forall k :: k in c <==> exists i :: 0 <= i < |options| && SeedsKey(options[i], k)
    ensures forall k, i :: LastSeederOf(options, k, i) ==> k in c && c[k] == options[i].default.value
    decreases |options|
  {
    if options == [] then map[]
    else
      var n := |options| - 1;
      var prefix := options[..n];
      var before := InitialConfig(prefix);
      assert forall i :: 0 <= i < n ==> prefix[i] == options[i];
      var last := options[n];
      if last.default.Some? then before[last.key := last.default.value] else before
  }

  /** The checkbox's `onChange`: stores the checked state under the option's key. */
  function ToggleFlag(c: AppConfig, option: ConfigOption, checked: bool): (c': AppConfig)
    ensures c'.Keys == c.Keys + {option.key}
    ensures c'[option.key] == Flag(checked)
    ensures c' - {option.key} == c - {option.key}
  {
    c[option.key := Flag(checked)]
  }

  /** The text or number field's `onChange`: stores the converted number for a
      "number" option and the raw text otherwise. `toNumber` stands for the
      `Number(...)` conversion. */
  function EditValue(c: AppConfig, option: ConfigOption, raw: string, toNumber: string -> real): (c': AppConfig)
    ensures c'.Keys == c.Keys + {option.key}
    ensures option.kind == "number" ==> c'[option.key] == Number(toNumber(raw))
    ensures option.kind != "number" ==> c'[option.key] == Text(raw)
    ensures c' - {option.key} == c - {option.key}
  {
    var v := if option.kind == "number" then Number(toNumber(raw)) else Text(raw);
    c[option.key := v]
  }

  /** The configuration values JavaScript treats as false. */
  const FalsyValues: set<ConfigValue> := {Text(""), Number(0.0), Flag(false)}

  /** JavaScript truthiness of a configuration value. */
  predicate Truthy(v: ConfigValue): (b: bool)
    ensures b <==> v !in FalsyValues
  {
    match v
    case Text(s) => s != ""
    case Number(n) => n != 0.0
    case Flag(b) => b
  }

  /** The checkbox's `checked`: `Boolean(config[key])`; a missing key is `undefined`, so false. */
  predicate Checked(c: AppConfig, key: string): (b: bool)
    ensures !b <==> key !in c || c[key] in FalsyValues
  {
    key in c && Truthy(c[key])
  }

  /** The field's `value` as written: `config[key] || ''`, which falls back to
      the empty string for every falsy value, a stored number 0 included. */
  function DisplayedValue(c: AppConfig, key: string): (v: ConfigValue)
    ensures key in c && Truthy(c[key]) ==> v == c[key]
    ensures v == Text("") <==> key !in c || c[key] in FalsyValues
    ensures Truthy(v) ==> key in c && v == c[key]
    ensures !Truthy(v) ==> v == Text("")
  {
    if key in c && Truthy(c[key]) then c[key] else Text("")
  }

  /** The field's `value` with the fallback applied only to a missing key
      (`config[key] ?? ''`): every stored value is shown. */
  function DisplayedValueIfSet(c: AppConfig, key: string): (v: ConfigValue)
    ensures key in c ==> v == c[key]
    ensures key !in c ==> v == Text("")
  {
    if key in c then c[key] else Text("")
  }

  /** The checkbox shows what was last clicked. */
  lemma ToggleIsDisplayed(c: AppConfig, option: ConfigOption, checked: bool)
    ensures Checked(ToggleFlag(c, option, checked), option.key) == checked
  {
  }

  /** A text field shows exactly the text last typed, the empty text included. */
  lemma TextEditIsDisplayed(c: AppConfig, option: ConfigOption, raw: string, toNumber: string -> real)
    requires option.kind != "number"
    ensures DisplayedValue(EditValue(c, option, raw, toNumber), option.key) == Text(raw)
    ensures DisplayedValueIfSet(EditValue(c, option, raw, toNumber), option.key) == Text(raw)
  {
  }

  /** As written, a number field whose input converts to 0 displays the empty
      string instead of the number just stored. */
  lemma ZeroNumberDisplaysBlank(c: AppConfig, option: ConfigOption, raw: string, toNumber: string -> real)
    requires option.kind == "number" && toNumber(raw) == 0.0
    ensures EditValue(c, option, raw, toNumber)[option.key] == Number(0.0)
    ensures DisplayedValue(EditValue(c, option, raw, toNumber), option.key) == Text("")
  {
  }

  /** With the fallback limited to a missing key, a number field shows the
      number just stored, 0 included, so a required number field holding 0
      no longer stops the submit. */
  lemma NumberEditIsDisplayed(c: AppConfig, option: ConfigOption, raw: string, toNumber: string -> real)
    requires option.kind == "number"
    ensures DisplayedValueIfSet(EditValue(c, option, raw, toNumber), option.key) == Number(toNumber(raw))
    ensures !BlocksSubmit(option, DisplayedValueIfSet(EditValue(c, option, raw, toNumber), option.key))
  {
  }

  /** Edits to two different keys commute. */
  lemma EditsOnDistinctKeysCommute(c: AppConfig, o1: ConfigOption, r1: string,
                                   o2: ConfigOption, r2: string, toNumber: string -> real)
    requires o1.key != o2.key
    ensures EditValue(EditValue(c, o1, r1, toNumber), o2, r2, toNumber)
         == EditValue(EditValue(c, o2, r2, toNumber), o1, r1, toNumber)
  {
  }

  /** What the user can do in the dialog. */
  datatype DialogEvent =
    | Toggle(option: ConfigOption, checked: bool)
    | Edit(option: ConfigOption, raw: string)
    | Submit

  /** One event: the configuration afterwards and, for a submit, the
      configuration handed to `onDeploy`. */
  datatype StepResult = StepResult(config: AppConfig, deployed: Option<AppConfig>)

  /** The browser's `required` check on one field: a required text or number
      input whose displayed value is empty stops the form's submit event.
      The checkbox carries no `required` attribute. */
  predicate BlocksSubmit(option: ConfigOption, shown: ConfigValue): (b: bool)
    ensures b ==> option.required
    ensures option.kind == "boolean" ==> !b
    ensures shown != Text("") ==> !b
  {
    option.required && option.kind != "boolean" && shown == Text("")
  }

  /** No rendered field stops the submit event. */
  predicate FormValid(options: seq<ConfigOption>, c: AppConfig): (b: bool)
    ensures b <==> forall i :: 0 <= i < |options| && options[i].required && options[i].kind != "boolean"
                     ==> options[i].key in c && Truthy(c[options[i].key])
  {
    forall i :: 0 <= i < |options| ==> !BlocksSubmit(options[i], DisplayedValue(c, options[i].key))
  }

  /** One event in a dialog rendered from `options`. A submit reaches
      `handleSubmit`, and so `onDeploy`, only when the form is valid. */
  function Step(options: seq<ConfigOption>, c: AppConfig, event: DialogEvent, toNumber: string -> real)
    : (r: StepResult)
    ensures event.Submit? ==> r.config == c
    ensures event.Submit? ==> (r.deployed.Some? <==> FormValid(options, c))
    ensures r.deployed.Some? ==> r.deployed.value == c
    ensures !event.Submit? ==> r.deployed == None
    ensures !event.Submit? ==> r.config - {event.option.key} == c - {event.option.key}
    ensures event.Toggle? ==>
      event.option.key in r.config && r.config[event.option.key] == Flag(event.checked)
    ensures event.Edit? ==>
      (event.option.key in r.config &&
       r.config[event.option.key] == if event.option.kind == "number" then Number(toNumber(event.raw)) else Text(event.raw))
  {
    match event
    case Toggle(option, checked) => StepResult(ToggleFlag(c, option, checked), None)
    case Edit(option, raw) => StepResult(EditValue(c, option, raw, toNumber), None)
    case Submit => if FormValid(options, c) then StepResult(c, Some(c)) else StepResult(c, None)
  }

  /** A required text or number field that was never filled in stops the submit. */
  lemma MissingRequiredBlocksSubmit(options: seq<ConfigOption>, c: AppConfig, i: int, toNumber: string -> real)
    requires 0 <= i < |options|
    requires options[i].required && options[i].kind != "boolean" && options[i].key !in c
    ensures Step(options, c, Submit, toNumber).deployed == None
  {
  }

  /** As written, typing a value that converts to 0 into a required number
      field makes the form impossible to submit until it is changed. */
  lemma ZeroRequiredNumberBlocksSubmit(options: seq<ConfigOption>, c: AppConfig, i: int,
                                       raw: string, toNumber: string -> real)
    requires 0 <= i < |options|
    requires options[i].required && options[i].kind == "number" && toNumber(raw) == 0.0
    ensures Step(options, EditValue(c, options[i], raw, toNumber), Submit, toNumber).deployed == None
  {
  }

  /** The keys of the rendered options. */
  function OptionKeys(options: seq<ConfigOption>): (keys: set<string>)
    ensures forall k :: k in keys <==> exists i :: 0 <= i < |options| && options[i].key == k
  {
    set i | 0 <= i < |options| :: options[i].key
  }

  /** The dialog's inputs are rendered from the options, so every event names
      one of them; a "boolean" option renders a checkbox, which toggles, and
      any other option a field, which edits. */
  predicate FromOptions(events: seq<DialogEvent>, options: seq<ConfigOption>)
  {
    forall i :: 0 <= i < |events| && !events[i].Submit? ==>
      events[i].option in options && (events[i].Toggle? <==> events[i].option.kind == "boolean")
  }

  /** Runs a session of events from configuration `c`; returns the final
      configuration and every configuration submitted, in order. */
  function Session(options: seq<ConfigOption>, c: AppConfig, events: seq<DialogEvent>, toNumber: string -> real)
    : (r: (AppConfig, seq<AppConfig>))
    decreases |events|
  {
    if events == [] then (c, [])
    else
      var step := Step(options, c, events[0], toNumber);
      var rest := Session(options, step.config, events[1..], toNumber);
      match step.deployed
      case Some(d) => (rest.0, [d] + rest.1)
      case None => rest
  }

  /** The seeded configuration only holds keys of the options. */
  lemma InitialKeysAreOptionKeys(options: seq<ConfigOption>)
    ensures InitialConfig(options).Keys <= OptionKeys(options)
  {
  }

  /** Throughout a session started from the seeded configuration, every key in
      the configuration, and in anything submitted, belongs to an option. */
  lemma {:induction false} SessionKeysAreOptionKeys(c: AppConfig, options: seq<ConfigOption>,
                                                    events: seq<DialogEvent>, toNumber: string -> real)
    requires c.Keys <= OptionKeys(options)
    requires FromOptions(events, options)
    ensures Session(options, c, events, toNumber).0.Keys <= OptionKeys(options)
    ensures forall j :: 0 <= j < |Session(options, c, events, toNumber).1| ==>
              Session(options, c, events, toNumber).1[j].Keys <= OptionKeys(options)
    decreases |events|
  {
    if events != [] {
      var step := Step(options, c, events[0], toNumber);
      if !events[0].Submit? {
        assert events[0].option in options;
        assert step.config.Keys <= c.Keys + {events[0].option.key};
      }
      assert FromOptions(events[1..], options) by {
        forall i | 0 <= i < |events[1..]| && !events[1..][i].Submit?
          ensures events[1..][i].option in options
        {
          assert events[1..][i] == events[i + 1];
        }
      }
      SessionKeysAreOptionKeys(step.config, options, events[1..], toNumber);
      var rest := Session(options, step.config, events[1..], toNumber);
      if step.deployed.Some? {
        var out := Session(options, c, events, toNumber).1;
        assert out == [c] + rest.1;
        forall j | 0 <= j < |out| ensures out[j].Keys <= OptionKeys(options) {
          if j > 0 {
            assert out[j] == rest.1[j - 1];
          }
        }
      }
    }
  }

  /** An edit followed by a submit deploys the configuration with the edited
      value in place, provided the form is then valid. */
  lemma EditThenSubmitDeploysEdit(options: seq<ConfigOption>, c: AppConfig, option: ConfigOption,
                                  raw: string, toNumber: string -> real)
    requires FormValid(options, EditValue(c, option, raw, toNumber))
    ensures var out := Session(options, c, [Edit(option, raw), Submit], toNumber).1;
            |out| == 1 && option.key in out[0] &&
            out[0][option.key] == if option.kind == "number" then Number(toNumber(raw)) else Text(raw)
  {
    var c' := EditValue(c, option, raw, toNumber);
    assert [Edit(option, raw), Submit][1..] == [Submit];
    assert Session(options, c', [Submit], toNumber).1 == [c'];
  }

  /** Submitting right after opening deploys the seeded configuration
      unchanged when the form is valid, and deploys nothing otherwise. */
  lemma SubmitDeploysCurrent(options: seq<ConfigOption>, toNumber: string -> real)
    ensures var c := InitialConfig(options);
            Session(options, c, [Submit], toNumber).1 == if FormValid(options, c) then [c] else []
  {
  }
}
