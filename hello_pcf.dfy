/** The HelloPCF control: a greeting label with an Edit/Save button that toggles a text input.
    The elements it creates are represented by the properties it writes; the host's
    `notifyOutputChanged` callback by a count of its calls. */
module HelloPcf {
  import opened JsValues
  import LabelState

  class HelloPCF {
    var isEditMode: bool
    var name: NameValue
    /** `innerText` of the greeting span */
    var messageText: string
    /** `value` of the input, which never holds a line break */
    var textboxValue: string
    /** `style.display` of the input */
    var textboxDisplay: string
    /** `textContent` of the button */
    var buttonText: string
    /** whether init attached the span, input and button to the container */
    var uiBuilt: bool
    /** calls of the host's `notifyOutputChanged` */
    var notifyCount: nat

    function Snapshot(): LabelState.State
      reads this
    {
      LabelState.State(isEditMode, name, messageText, textboxValue, textboxDisplay, buttonText,
                       uiBuilt, notifyCount)
    }

    /** `init` (the class's own constructor is empty, and the host calls `init` once, first).
        `raw` is the bound Name value. */
    constructor Init(raw: Option<string>)
      ensures Snapshot() == LabelState.Init(raw)
      ensures !isEditMode && name == Unset && notifyCount == 0
      ensures uiBuilt <==> Truthy(raw)
    {
      isEditMode := false;
      name := Unset;  // init never assigns name, so it is still undefined
      notifyCount := 0;
      new;
      messageText := "Hello " + (if isEditMode then "" else Interpolate(FromRaw(raw)));
      textboxDisplay := if isEditMode then "block" else "none";
      textboxValue := "";
      buttonText := "";
      uiBuilt := false;
      if Truthy(raw) {
        textboxValue := TextInputValue(raw.value);
        buttonText := if isEditMode then "Save" else "Edit";
        uiBuilt := true;
      }
    }

    /** `buttonClick`, the button's click listener. */
    method ButtonClick() returns (c: Completion)
      modifies this
      ensures Snapshot() == LabelState.Click(old(Snapshot()))
      ensures c == if old(uiBuilt) then Normal else Threw
    {
      if !uiBuilt {
        // the looked-up input is null: reading or writing its value throws
        return Threw;
      }
      if !isEditMode {
        textboxValue := TextInputValue(Coalesce(name));
      } else if !LooseEquals(textboxValue, name) {
        name := Str(textboxValue);
        notifyCount := notifyCount + 1;
      }
      isEditMode := !isEditMode;
      messageText := "Hello " + (if isEditMode then "" else Interpolate(name));
      textboxDisplay := if isEditMode then "inline" else "none";
      textboxValue := TextInputValue(Coalesce(name));
      buttonText := if isEditMode then "Save" else "Edit";
      c := Normal;
    }

    /** `updateView`, with the host's current bound value `raw`. */
    method UpdateView(raw: Option<string>) returns (c: Completion)
      modifies this
      ensures Snapshot() == LabelState.Update(old(Snapshot()), raw)
      ensures c == if old(uiBuilt) then Normal else Threw
    {
      name := FromRaw(raw);
      if !uiBuilt {
        // the looked-up span is null: setting its text throws
        return Threw;
      }
      messageText := "Hello " + Interpolate(name);
      c := Normal;
    }

    /** `getOutputs`: the Name output, `undefined` when `name` is null or undefined. */
    method GetOutputs() returns (o: Option<string>)
      ensures o == LabelState.Outputs(Snapshot())
      ensures o.Some? <==> name.Str?
      ensures o.Some? ==> o.value == name.s
    {
      o := if name.Str? then Some(name.s) else None;
    }
  }

  /** Entering edit mode shows the input holding the current name and drops it from the
      greeting. */
  method EnterEditScenario()
  {
    assert NoLineBreaks("Ada");
    var control := new HelloPCF.Init(Some("Ada"));
    assert control.uiBuilt && control.messageText == "Hello Ada" && control.textboxDisplay == "none";
    var c := control.UpdateView(Some("Ada"));
    c := control.ButtonClick();
    assert control.isEditMode && control.textboxDisplay == "inline" && control.textboxValue == "Ada";
    assert control.messageText == "Hello " && control.buttonText == "Save";
  }

  /** Saving a changed input commits it and notifies once; saving an unchanged one notifies
      nobody. */
  method SaveScenario()
  {
    assert NoLineBreaks("Grace");
    var control := new HelloPCF.Init(Some("Ada"));
    var c := control.UpdateView(Some("Ada"));
    c := control.ButtonClick();
    control.textboxValue := "Grace";
    c := control.ButtonClick();
    var out := control.GetOutputs();
    assert !control.isEditMode && out == Some("Grace") && control.notifyCount == 1;
    c := control.ButtonClick();
    c := control.ButtonClick();
    assert !control.isEditMode && control.notifyCount == 1;
  }

  /** A host update while editing changes name and greeting but not the mode or the pending
      input. */
  method UpdateWhileEditingScenario()
  {
    var control := new HelloPCF.Init(Some("Ada"));
    var c := control.UpdateView(Some("Ada"));
    c := control.ButtonClick();
    control.textboxValue := "Grace";
    c := control.UpdateView(Some("Zoe"));
    assert control.isEditMode && control.name == Str("Zoe") && control.messageText == "Hello Zoe";
    assert control.textboxValue == "Grace";
  }

  /** A bound value that is absent or empty builds nothing; the following host update still
      sets `name` but throws, and there is no button to click. */
  method AbsentValueScenario()
  {
    var control := new HelloPCF.Init(None);
    var out := control.GetOutputs();
    assert !control.uiBuilt && out == None;
    var c := control.UpdateView(Some(""));
    assert c == Threw && control.name == Str("");
    c := control.ButtonClick();
    assert c == Threw && !control.isEditMode && control.notifyCount == 0;
  }
}
