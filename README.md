# HelloPCF: an editable greeting label, modelled in Dafny

HelloPCF is a standard control for the Power Apps component framework. It shows
"Hello <Name>" for a bound Name property and offers an Edit/Save button that toggles a
text input. The host calls `init` once. It then calls `updateView` whenever any value in the
property bag changes, which includes container size, offline status and metadata, so
the call may carry an unchanged Name at any time and in either mode. The host calls
`getOutputs` after the control calls `notifyOutputChanged`.

The model has three modules:

- `JsValues` (`js_values.dfy`): the JavaScript semantics the control depends on. The
  `name` field is a three-way value `Unset | Null | Str(s)`, because `init` never assigns
  it (it stays `undefined`) and the host may deliver `null`. The module also defines the
  nullish-coalescing `??`, loose `!=` between a string and that field, template
  interpolation (`"undefined"`, `"null"` or the string), truthiness, the line breaks a
  text input strips from each value assigned to it, and `Completion`, which marks a call
  that ended in an uncaught TypeError.
- `LabelState` (`label_state.dfy`): the control's observable state as a value. It holds
  the mode flag, `name`, the span text, the input's value and display style, the button
  caption, whether the elements were attached, and the number of `notifyOutputChanged`
  calls. Each entry point is a function on that value. Traces of events (clicks, host
  updates, user typing) are folded over those functions, and lemmas are proved about
  any such trace.
- `HelloPcf` (`hello_pcf.dfy`): the class `HelloPCF`. Its fields are the state above, and
  its constructor and methods change them step by step, in the order the TypeScript
  does. Each is proved to produce exactly the state the matching `LabelState` function
  gives. Four client methods drive the class through the intended interactions.

Behaviour kept from the code as written:

- `init` always creates the span and the input, but creates the button and attaches the
  elements to the container only when the bound value is truthy. So an empty string
  attaches nothing, just as `null` does.
- The input has `type="text"`, so the browser strips carriage returns and line feeds from
  every value assigned to it. A `name` that contains a line break therefore never equals
  the input's value. Two clicks in a row then commit the stripped name and notify the host.
- Without attached elements, `querySelector(...)!` yields `null` and the next property
  access throws. `buttonClick` then changes nothing. `updateView` has already assigned
  `name` when it throws.
- `init` does not set `name`. `getOutputs` returns `undefined` until the first
  `updateView` or the first Save, whichever comes first. A click before any update edits
  an empty input, and saving that commits `""` and notifies the host.
- `updateView` rewrites the greeting even in edit mode, and it leaves the pending input
  alone. The next Save therefore compares the input with the host's new value.
- The initial greeting interpolates the raw value, so a `null` renders "Hello null". That
  text is never attached, because `null` is falsy.

## Model

| member | source | states |
|---|---|---|
| JsValues.FromRaw | component/hello-pcf/HelloPCF/index.ts:101 | assigning the host's string-or-null value never leaves `name` undefined; a string is kept as it is, null becomes null |
| JsValues.Coalesce | component/hello-pcf/HelloPCF/index.ts:77 | `name ?? ""` is the string itself when `name` is a string and `""` when it is null or undefined; the result is loosely equal to `name` exactly when `name` is a string |
| JsValues.Interpolate | component/hello-pcf/HelloPCF/index.ts:88 | `${name}` renders `"undefined"` for an unset name, `"null"` for null, and the string itself otherwise |
| JsValues.Truthy | component/hello-pcf/HelloPCF/index.ts:51 | the guard rejects `null` and the empty string and accepts every other string |
| JsValues.TextInputValue | component/hello-pcf/HelloPCF/index.ts:48 | a text input strips line breaks from an assigned value: the stored value has no CR or LF, is no longer than the assigned one, and equals it exactly when it had none |
| JsValues.TextInputValueOfChar | component/hello-pcf/HelloPCF/index.ts:48 | a single character is kept unless it is a carriage return or line feed |
| JsValues.TextInputValueAppend | component/hello-pcf/HelloPCF/index.ts:48 | stripping distributes over concatenation, so with the single-character case every character other than CR and LF is kept, in order |
| JsValues.LooseEquals | component/hello-pcf/HelloPCF/index.ts:78 | a string is loosely equal to `name` exactly when `name` is that same string, never when it is null or undefined |
| LabelState.Outputs | component/hello-pcf/HelloPCF/index.ts:110-115 | the output is present exactly when `name` is a string, and is then that string; null and undefined both give undefined |
| LabelState.Init | component/hello-pcf/HelloPCF/index.ts:34-67 | display mode, `name` unset, no notification, no output; elements attached exactly when the raw value is truthy, and then with a hidden input holding the raw value without line breaks, caption "Edit" and greeting "Hello " + raw |
| LabelState.Click | component/hello-pcf/HelloPCF/index.ts:69-92 | with elements attached: the mode flips; the caption, the input's display, the input's value (`name ?? ""` without line breaks) and the greeting ("Hello " while editing, "Hello " + interpolated name otherwise) follow the new mode. Entering edit mode keeps `name` and does not notify. Leaving it commits the input and notifies once exactly when the input is loosely unequal to `name`. The host is notified exactly when the output changes. Without elements nothing changes |
| LabelState.Update | component/hello-pcf/HelloPCF/index.ts:99-104 | `name` becomes the raw value, so the output read back is the value delivered, with a delivered `null` read back as `undefined`; the greeting becomes "Hello " + interpolated name in either mode when attached; mode, input, button and notify count are unchanged |
| LabelState.ClickTwice | component/hello-pcf/HelloPCF/index.ts:76-91 | from display mode, two clicks without typing return to display mode; a string `name` without line breaks is kept with no notification; a nullish `name` becomes "", and a string with line breaks loses them, each with one notification |
| LabelState.RunKeepsSynced | component/hello-pcf/HelloPCF/index.ts:85-91 | over any sequence of clicks, host updates and typing, attachment never changes and attached button and input always agree with the mode |
| LabelState.RunModeParity | component/hello-pcf/HelloPCF/index.ts:85 | with elements attached, the mode after any event sequence is the initial mode flipped once per click |
| LabelState.RunNotifyBounds | component/hello-pcf/HelloPCF/index.ts:78-82 | the notify count never decreases and grows by at most the number of clicks |
| LabelState.ChangesAreAnnounced | component/hello-pcf/HelloPCF/index.ts:78-82 | without host updates, if the output differs at the end then the host was notified at least once |
| LabelState.UnbuiltRunIsInert | component/hello-pcf/HelloPCF/index.ts:51-66 | when init attached nothing, every later event leaves everything but `name` as it was: no edit mode, no rendering, no notification |
| LabelState.Lifecycle | component/hello-pcf/HelloPCF/index.ts:34-104 | from init, after any events: elements exist exactly for a truthy raw value, stay in step with the mode, the control edits exactly after an odd number of clicks, and an unbuilt control never notified |
| HelloPcf.HelloPCF.Init | component/hello-pcf/HelloPCF/index.ts:34-67 | the fields after init are exactly `LabelState.Init` of the raw value |
| HelloPcf.HelloPCF.ButtonClick | component/hello-pcf/HelloPCF/index.ts:69-92 | the fields after the click are exactly `LabelState.Click` of those before; it throws exactly when nothing was attached |
| HelloPcf.HelloPCF.UpdateView | component/hello-pcf/HelloPCF/index.ts:99-104 | the fields after the update are exactly `LabelState.Update` of those before; it throws exactly when nothing was attached |
| HelloPcf.HelloPCF.GetOutputs | component/hello-pcf/HelloPCF/index.ts:110-115 | returns `name` when it is a string and undefined otherwise, changing nothing |

## Left out

- `destroy` and the listener wiring (`bind`, `addEventListener`, `removeEventListener`) are
  browser plumbing. The model assumes the click listener is exactly what `ButtonClick` does.
- The element tree is not modelled: the wrapping div, the order of `appendChild` calls, and
  lookup by tag name. Each element is reduced to the properties the control writes.
- The stored `context`, `container` and `notifyOutputChanged` fields, and `init`'s unused
  `state` argument, are left out. The host's context is reduced to the raw `string | null`
  value of Name, and the callback to a call counter.
- The empty TypeScript constructor is merged into `Init`, because the host always calls
  `init` exactly once, before anything else. A second `init` is not modelled.
- User typing is not part of the control. It appears only as the `Typed` event of a trace,
  and as a direct field write in the client methods.
- For elements that were never attached, the model keeps the properties `init` gave them.
  Nothing can observe them.
