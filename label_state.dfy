/** The HelloPCF control's observable state as a value, and each entry point as a function
    from the old state to the new one. The class in module HelloPcf is proved to follow these
    functions; the lemmas here say what the functions, and any sequence of host and user
    events, keep true. */
module LabelState {
  import opened JsValues

  /** The mode flag, the tracked `name`, the displayed properties of the three elements
      (span text, input value and display style, button caption), whether init attached
      those elements to the container, and how often `notifyOutputChanged` was called. */
  datatype State = State(
    isEditMode: bool,
    name: NameValue,
    messageText: string,
    textboxValue: string,
    textboxDisplay: string,
    buttonText: string,
    uiBuilt: bool,
    notifyCount: nat)

  /** An attached button and input agree with the mode: "Save" and a visible input while
      editing, "Edit" and a hidden input while displaying. */
  predicate Synced(s: State)
  {
    s.uiBuilt ==>
      && s.buttonText == (if s.isEditMode then "Save" else "Edit")
      && s.textboxDisplay == (if s.isEditMode then "inline" else "none")
  }

  /** What `getOutputs` hands to the host: `name ?? undefined`. */
  function Outputs(s: State): (o: Option<string>)
    ensures o.Some? <==> s.name.Str?
    ensures o.Some? ==> o.value == s.name.s
  {
    match s.name
    case Str(t) => Some(t)
    case _ => None
  }

  /** `init`: display mode, `name` left undefined, and the elements attached only when the
      bound value is truthy. The span and input are created either way; the button only
      inside the truthiness guard, so its caption stays empty otherwise. */
  function Init(raw: Option<string>): (r: State)
    ensures !r.isEditMode && r.name == Unset && r.notifyCount == 0
    ensures Outputs(r) == None
    ensures r.uiBuilt <==> Truthy(raw)
    ensures r.uiBuilt ==> r.textboxDisplay == "none" && r.textboxValue == TextInputValue(raw.value)
    ensures r.uiBuilt ==> r.buttonText == "Edit" && r.messageText == "Hello " + raw.value
    ensures Synced(r)
  {
    var editMode := false;
    var message := "Hello " + (if editMode then "" else Interpolate(FromRaw(raw)));
    var display := if editMode then "block" else "none";
    if Truthy(raw) then
      State(editMode, Unset, message, TextInputValue(raw.value), display, if editMode then "Save" else "Edit", true, 0)
    else
      State(editMode, Unset, message, "", display, "", false, 0)
  }

  /** `buttonClick`: on entering edit mode copy `name ?? ""` into the input; on leaving it
      commit the input and notify when it is loosely unequal to `name`; flip the mode; then
      re-render all three elements from the new mode and `name`. Without attached elements
      the first element access throws and nothing changes. */
  function Click(s: State): (r: State)
    ensures r.uiBuilt == s.uiBuilt
    ensures !s.uiBuilt ==> r == s
    ensures s.uiBuilt ==> r.isEditMode == !s.isEditMode
    ensures s.uiBuilt ==> Synced(r)
    ensures s.uiBuilt ==> r.textboxValue == TextInputValue(Coalesce(r.name))
    ensures s.uiBuilt ==> r.messageText == "Hello " + (if r.isEditMode then "" else Interpolate(r.name))
    // entering edit mode neither commits nor notifies
    ensures !s.isEditMode ==> r.name == s.name && r.notifyCount == s.notifyCount
    // leaving edit mode commits exactly a changed input, and announces it once
    ensures s.uiBuilt && s.isEditMode && LooseEquals(s.textboxValue, s.name) ==>
              r.name == s.name && r.notifyCount == s.notifyCount
    ensures s.uiBuilt && s.isEditMode && !LooseEquals(s.textboxValue, s.name) ==>
              r.name == Str(s.textboxValue) && r.notifyCount == s.notifyCount + 1
    // the host is notified exactly when the output it reads back has changed
    ensures r.notifyCount == s.notifyCount + (if Outputs(r) == Outputs(s) then 0 else 1)
  {
    if !s.uiBuilt then s
    else
      var textbox := if !s.isEditMode then TextInputValue(Coalesce(s.name)) else s.textboxValue;
      var commit := s.isEditMode && !LooseEquals(textbox, s.name);
      var name := if commit then Str(textbox) else s.name;
      var notified := if commit then s.notifyCount + 1 else s.notifyCount;
      var editMode := !s.isEditMode;
      State(
        editMode,
        name,
        "Hello " + (if editMode then "" else Interpolate(name)),
        TextInputValue(Coalesce(name)),
        if editMode then "inline" else "none",
        if editMode then "Save" else "Edit",
        true,
        notified)
  }

  /** `updateView`: take the host's value, then re-render the span whatever the mode. The
      assignment to `name` happens before the span is looked up, so it survives the
      TypeError thrown when no span is attached. */
  function Update(s: State, raw: Option<string>): (r: State)
    ensures r.name == FromRaw(raw)
    ensures Outputs(r) == raw
    ensures r.messageText == if s.uiBuilt then "Hello " + Interpolate(r.name) else s.messageText
    ensures r.(name := s.name, messageText := s.messageText) == s
  {
    var name := FromRaw(raw);
    if s.uiBuilt then s.(name := name, messageText := "Hello " + Interpolate(name))
    else s.(name := name)
  }

  /** The user typing into the input, which is only possible while it is attached and shown. */
  function Type(s: State, text: string): (r: State)
  {
    if s.uiBuilt && s.isEditMode then s.(textboxValue := TextInputValue(text)) else s
  }

  /** What drives the control after init: a button click, a host update, or user typing. */
  datatype Event = Clicked | Updated(raw: Option<string>) | Typed(text: string)

  function Step(s: State, e: Event): (r: State)
  {
    match e
    case Clicked => Click(s)
    case Updated(raw) => Update(s, raw)
    case Typed(text) => Type(s, text)
  }

  function Run(s: State, events: seq<Event>): (r: State)
    decreases |events|
  {
    if events == [] then s else Run(Step(s, events[0]), events[1..])
  }

  function Clicks(events: seq<Event>): (n: nat)
    decreases |events|
  {
    if events == [] then 0 else (if events[0].Clicked? then 1 else 0) + Clicks(events[1..])
  }

  predicate NoUpdates(events: seq<Event>)
  {
    forall i :: 0 <= i < |events| ==> !events[i].Updated?
  }

  /** Two clicks with no typing in between return to display mode. The input then holds
      `name ?? ""` with its line breaks stripped. A string `name` without line breaks equals
      that and is kept, with nothing announced. Any other `name` is loosely unequal to it: a
      nullish `name` becomes `""`, a string with line breaks loses them, and the host is
      notified once. */
  lemma ClickTwice(s: State)
    requires s.uiBuilt && !s.isEditMode
    ensures Click(Click(s)).isEditMode == s.isEditMode
    ensures s.name.Str? && NoLineBreaks(s.name.s) ==>
              Click(Click(s)).name == s.name && Click(Click(s)).notifyCount == s.notifyCount
    ensures !s.name.Str? ==> Click(Click(s)).name == Str("") && Click(Click(s)).notifyCount == s.notifyCount + 1
    ensures s.name.Str? && !NoLineBreaks(s.name.s) ==>
              Click(Click(s)).name == Str(TextInputValue(s.name.s)) &&
              Click(Click(s)).notifyCount == s.notifyCount + 1
  {
  }

  /** Whether the elements are attached never changes, and attached elements always agree
      with the mode. */
  lemma {:induction false} RunKeepsSynced(s: State, events: seq<Event>)
    requires Synced(s)
    ensures Run(s, events).uiBuilt == s.uiBuilt
    ensures Synced(Run(s, events))
    decreases |events|
  {
    if events != [] {
      RunKeepsSynced(Step(s, events[0]), events[1..]);
    }
  }

  /** With the elements attached, the mode is the initial mode flipped once per click. */
  lemma {:induction false} RunModeParity(s: State, events: seq<Event>)
    requires s.uiBuilt
    ensures Run(s, events).isEditMode == (s.isEditMode != (Clicks(events) % 2 == 1))
    decreases |events|
  {
    if events != [] {
      RunModeParity(Step(s, events[0]), events[1..]);
    }
  }

  /** The host is notified at most once per click, and the count never goes down. */
  lemma {:induction false} RunNotifyBounds(s: State, events: seq<Event>)
    ensures s.notifyCount <= Run(s, events).notifyCount <= s.notifyCount + Clicks(events)
    decreases |events|
  {
    if events != [] {
      RunNotifyBounds(Step(s, events[0]), events[1..]);
    }
  }

  /** Without host updates, an output that differs at the end was announced: the control
      never changes what `getOutputs` returns silently. */
  lemma {:induction false} ChangesAreAnnounced(s: State, events: seq<Event>)
    requires NoUpdates(events)
    ensures Outputs(Run(s, events)) != Outputs(s) ==> Run(s, events).notifyCount > s.notifyCount
    decreases |events|
  {
    if events != [] {
      var next := Step(s, events[0]);
      assert NoUpdates(events[1..]) by {
        forall i | 0 <= i < |events[1..]| ensures !events[1..][i].Updated? {
          assert events[1..][i] == events[i + 1];
        }
      }
      RunNotifyBounds(next, events[1..]);
      ChangesAreAnnounced(next, events[1..]);
    }
  }

  /** Without attached elements, clicks and typing do nothing and host updates only set
      `name`: nothing is ever shown or announced. */
  lemma {:induction false} UnbuiltRunIsInert(s: State, events: seq<Event>)
    requires !s.uiBuilt
    ensures Run(s, events) == s.(name := Run(s, events).name)
    decreases |events|
  {
    if events != [] {
      UnbuiltRunIsInert(Step(s, events[0]), events[1..]);
    }
  }

  /** The whole lifecycle from init: the elements exist exactly for a truthy bound value, they
      stay in step with the mode, the control is editing exactly after an odd number of clicks,
      and a control that built nothing has never notified the host. */
  lemma Lifecycle(raw: Option<string>, events: seq<Event>)
    ensures Run(Init(raw), events).uiBuilt <==> Truthy(raw)
    ensures Synced(Run(Init(raw), events))
    ensures Run(Init(raw), events).isEditMode <==> Truthy(raw) && Clicks(events) % 2 == 1
    ensures !Truthy(raw) ==> Run(Init(raw), events).notifyCount == 0
  {
    RunKeepsSynced(Init(raw), events);
    if Truthy(raw) {
      RunModeParity(Init(raw), events);
    } else {
      UnbuiltRunIsInert(Init(raw), events);
    }
  }
}
