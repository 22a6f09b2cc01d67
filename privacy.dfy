/** The privacy-preferences context and its modal. The context holds a
    preferences object and an open flag, replaced wholesale by its five
    actions; the modal turns toggle clicks into the partial objects it passes
    to `set`. Preferences are kept as the JavaScript object they are, since
    the stored copy is spread over the defaults and may carry any field with
    any value. */
module Privacy {
  import opened JsValues

  /** `defaultPrefs`. */
  function DefaultPrefs(): map<string, JsVal> {
    map["hasChoice" := Bool(false), "analytics" := Bool(false), "ads" := Bool(false), "personalizedAds" := Bool(false)]
  }

  /** `prefs.<key>`. */
  function Field(prefs: map<string, JsVal>, key: string): JsVal {
    Get(Obj(prefs), key)
  }

  /** The four defaults are all false. */
  lemma DefaultsAllFalse()
    ensures forall key :: key in DefaultPrefs() <==> key in {"hasChoice", "analytics", "ads", "personalizedAds"}
    ensures forall key :: key in DefaultPrefs() ==> !Truthy(Field(DefaultPrefs(), key))
  {
  }

  /** The lazy initial state. `raw` is what `localStorage.getItem` returned
      (None for null or when storage throws); `parsed` is `JSON.parse(raw)`
      (None when it throws). */
  function LoadPrefs(raw: Option<string>, parsed: Option<JsVal>): (prefs: map<string, JsVal>)
    ensures raw.None? || raw.value == "" || parsed.None? ==> prefs == DefaultPrefs()
    ensures raw.Some? && raw.value != "" && parsed.Some? ==>
              forall key :: (key in prefs <==> key in DefaultPrefs() || key in Spread(parsed.value)) &&
                            Field(prefs, key) == (if key in Spread(parsed.value) then Spread(parsed.value)[key] else Field(DefaultPrefs(), key))
  {
    if raw.None? || raw.value == "" || parsed.None? then DefaultPrefs()
    else DefaultPrefs() + Spread(parsed.value)
  }

  /** The object `acceptAll` stores. */
  function AcceptedPrefs(): map<string, JsVal> {
    map["hasChoice" := Bool(true), "analytics" := Bool(true), "ads" := Bool(true), "personalizedAds" := Bool(true)]
  }

  /** The object `rejectAll` stores. */
  function RejectedPrefs(): map<string, JsVal> {
    map["hasChoice" := Bool(true), "analytics" := Bool(false), "ads" := Bool(false), "personalizedAds" := Bool(false)]
  }

  /** `{ ...prev, ...partial, hasChoice: true }`. */
  function SetPrefs(prev: map<string, JsVal>, partial: map<string, JsVal>): (next: map<string, JsVal>)
    ensures next.Keys == prev.Keys + partial.Keys + {"hasChoice"}
    ensures Field(next, "hasChoice") == Bool(true)
    ensures forall key :: key != "hasChoice" ==>
              Field(next, key) == (if key in partial then partial[key] else Field(prev, key))
  {
    (prev + partial)["hasChoice" := Bool(true)]
  }

  /** `Boolean(prefs.hasChoice)`. */
  predicate HasChoice(prefs: map<string, JsVal>) {
    Truthy(Field(prefs, "hasChoice"))
  }

  /** `canServeAds`. */
  function CanServeAds(prefs: map<string, JsVal>): bool {
    Truthy(Field(prefs, "ads"))
  }

  /** `a && b` on JavaScript values: `a` when it is falsy, else `b`. */
  function JsAnd(a: JsVal, b: JsVal): JsVal {
    if Truthy(a) then b else a
  }

  /** `allowPersonalizedAds`. */
  function AllowPersonalizedAds(prefs: map<string, JsVal>): bool {
    Truthy(JsAnd(Field(prefs, "ads"), Field(prefs, "personalizedAds")))
  }

  /** Personalised ads are allowed exactly when ads and personalisation are
      both on, so they are never allowed without ads. */
  lemma ConsentFlags(prefs: map<string, JsVal>)
    ensures AllowPersonalizedAds(prefs) <==> Truthy(Field(prefs, "ads")) && Truthy(Field(prefs, "personalizedAds"))
    ensures AllowPersonalizedAds(prefs) ==> CanServeAds(prefs)
  {
  }

  /** The provider's state and actions. */
  class PrivacyPreferences {
    var prefs: map<string, JsVal>
    var isOpen: bool

    constructor (raw: Option<string>, parsed: Option<JsVal>)
      ensures prefs == LoadPrefs(raw, parsed) && !isOpen
    {
      prefs := LoadPrefs(raw, parsed);
      isOpen := false;
    }

    method Open()
      modifies this
      ensures isOpen && prefs == old(prefs)
    {
      isOpen := true;
    }

    /** `close`; the modal's Save button calls only this. */
    method Close()
      modifies this
      ensures !isOpen && prefs == old(prefs)
    {
      isOpen := false;
    }

    /** Replaces the preferences by the four fields all true; any other
        field loaded from storage is dropped. */
    method AcceptAll()
      modifies this
      ensures prefs == AcceptedPrefs() && isOpen == old(isOpen)
      ensures HasChoice(prefs) && CanServeAds(prefs) && AllowPersonalizedAds(prefs)
    {
      prefs := AcceptedPrefs();
    }

    method RejectAll()
      modifies this
      ensures prefs == RejectedPrefs() && isOpen == old(isOpen)
      ensures HasChoice(prefs) && !CanServeAds(prefs) && !AllowPersonalizedAds(prefs)
    {
      prefs := RejectedPrefs();
    }

    method Set(partial: map<string, JsVal>)
      modifies this
      ensures prefs == SetPrefs(old(prefs), partial) && isOpen == old(isOpen)
      ensures HasChoice(prefs)
    {
      prefs := SetPrefs(prefs, partial);
    }
  }

  /** The context's actions as values, for reasoning about runs of them. */
  datatype Action = OpenAction | CloseAction | AcceptAllAction | RejectAllAction | SetAction(partial: map<string, JsVal>)

  /** The preferences after one action; the class methods above produce
      exactly these states. */
  function Step(prefs: map<string, JsVal>, a: Action): map<string, JsVal> {
    match a
    case OpenAction => prefs
    case CloseAction => prefs
    case AcceptAllAction => AcceptedPrefs()
    case RejectAllAction => RejectedPrefs()
    case SetAction(partial) => SetPrefs(prefs, partial)
  }

  function Run(prefs: map<string, JsVal>, actions: seq<Action>): map<string, JsVal>
    decreases |actions|
  {
    if actions == [] then prefs else Run(Step(prefs, actions[0]), actions[1..])
  }

  /** Open and close leave the preferences alone; every other action records
      a choice. */
  lemma StepMeaning(prefs: map<string, JsVal>, a: Action)
    ensures a.OpenAction? || a.CloseAction? ==> Step(prefs, a) == prefs
    ensures !(a.OpenAction? || a.CloseAction?) ==> HasChoice(Step(prefs, a))
  {
  }

  /** Once a choice is recorded, no run of actions takes it back. */
  lemma {:induction false} HasChoiceMonotone(prefs: map<string, JsVal>, actions: seq<Action>)
    requires HasChoice(prefs)
    ensures HasChoice(Run(prefs, actions))
    decreases |actions|
  {
    if actions != [] {
      StepMeaning(prefs, actions[0]);
      HasChoiceMonotone(Step(prefs, actions[0]), actions[1..]);
    }
  }

  // ---------------------------------------------------------------------
  // The modal

  /** `ToggleRow`'s click: `onChange(!checked)` unless the row is disabled;
      the result is the value passed to `onChange`. */
  function ToggleClick(checked: JsVal, disabled: bool): (v: Option<bool>)
    ensures v.Some? <==> !disabled
    ensures v.Some? ==> v.value == !Truthy(checked)
  {
    if disabled then None else Some(!Truthy(checked))
  }

  datatype Control = Necessary | Analytics | Ads | PersonalizedAds

  /** One toggle row as rendered: its `checked` value and whether it is
      disabled. */
  datatype Row = Row(checked: JsVal, disabled: bool)

  function RowOf(prefs: map<string, JsVal>, c: Control): Row {
    match c
    case Necessary => Row(Bool(true), true)
    case Analytics => Row(Field(prefs, "analytics"), false)
    case Ads => Row(Field(prefs, "ads"), false)
    case PersonalizedAds => Row(Field(prefs, "personalizedAds"), !Truthy(Field(prefs, "ads")))
  }

  /** The partial object each row's `onChange(v)` passes to `set`. */
  function Partial(prefs: map<string, JsVal>, c: Control, v: bool): map<string, JsVal> {
    match c
    case Necessary => map[]
    case Analytics => map["analytics" := Bool(v)]
    case Ads => map["ads" := Bool(v), "personalizedAds" := if v then Field(prefs, "personalizedAds") else Bool(false)]
    case PersonalizedAds => map["personalizedAds" := Bool(v)]
  }

  /** The preferences after clicking a row; a disabled row changes nothing. */
  function Click(prefs: map<string, JsVal>, c: Control): map<string, JsVal> {
    match ToggleClick(RowOf(prefs, c).checked, RowOf(prefs, c).disabled)
    case None => prefs
    case Some(v) => SetPrefs(prefs, Partial(prefs, c, v))
  }

  /** Personalisation is on only while ads are on. */
  predicate Consistent(prefs: map<string, JsVal>) {
    Truthy(Field(prefs, "personalizedAds")) ==> Truthy(Field(prefs, "ads"))
  }

  /** The Necessary row is always on and clicking it changes nothing. */
  lemma NecessaryFixed(prefs: map<string, JsVal>)
    ensures Truthy(RowOf(prefs, Necessary).checked) && RowOf(prefs, Necessary).disabled
    ensures Click(prefs, Necessary) == prefs
  {
  }

  /** Turning ads off also clears personalisation; turning them on keeps the
      previous personalisation value. */
  lemma AdsToggle(prefs: map<string, JsVal>)
    ensures Truthy(Field(prefs, "ads")) ==>
              Field(Click(prefs, Ads), "ads") == Bool(false) && Field(Click(prefs, Ads), "personalizedAds") == Bool(false)
    ensures !Truthy(Field(prefs, "ads")) ==>
              Field(Click(prefs, Ads), "ads") == Bool(true) &&
              Field(Click(prefs, Ads), "personalizedAds") == Field(prefs, "personalizedAds")
  {
  }

  /** The personalisation row is disabled while ads are off, so it can only
      change while ads are on; then it flips. */
  lemma PersonalizedToggle(prefs: map<string, JsVal>)
    ensures !Truthy(Field(prefs, "ads")) ==> Click(prefs, PersonalizedAds) == prefs
    ensures Truthy(Field(prefs, "ads")) ==>
              Field(Click(prefs, PersonalizedAds), "personalizedAds") == Bool(!Truthy(Field(prefs, "personalizedAds")))
  {
  }

  /** Clicking any row keeps personalisation within ads, and only the clicked
      row's fields (and hasChoice) change. */
  lemma ClickPreservesConsistent(prefs: map<string, JsVal>, c: Control)
    requires Consistent(prefs)
    ensures Consistent(Click(prefs, c))
    ensures forall key :: key !in {"hasChoice", "analytics", "ads", "personalizedAds"} ==>
              Field(Click(prefs, c), key) == Field(prefs, key)
  {
  }

  /** What the modal shows: nothing while closed, else its four rows. */
  function Modal(isOpen: bool, prefs: map<string, JsVal>): (view: Option<seq<Row>>)
    ensures view.None? <==> !isOpen
    ensures view.Some? ==> |view.value| == 4 && view.value[0].disabled && view.value[3].disabled == !CanServeAds(prefs)
  {
    if !isOpen then None
    else Some([RowOf(prefs, Necessary), RowOf(prefs, Analytics), RowOf(prefs, Ads), RowOf(prefs, PersonalizedAds)])
  }
}
