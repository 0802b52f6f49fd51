# asd-colors: child-profile form and gallery focus mode in Dafny

This project models the two stateful UI components of the asd-colors
application and proves properties of them.

- **Child-profile form.** `ChildProfileForm.jsx` is a class component. Its
  state holds the child's name, age, sensory level, favourite colours,
  challenges and guardian email, an `isSubmitted` flag and an `errors`
  dictionary. Four handlers change the state: editing an input, ticking or
  clearing a colour checkbox, submitting (which runs `validateForm`), and
  resetting. The model is the class `ProfileForm.ChildProfileForm`, with one
  field per state entry and one method per handler. Each handler is one
  atomic transition.
- **Validation.** `validateForm` has three rules:
  - the trimmed name must not be empty;
  - the age must be present and within 2..18;
  - the email must be present and must contain a match of `/\S+@\S+\.\S+/`.

  The declarative specification is `ProfileForm.ValidationErrors`: one message
  per broken rule. The method `ValidateForm` builds the map rule by rule, as
  the source does, and is proved equal to that specification.
- **JavaScript built-ins** (module `JsString`). `trim` and `\s` are modelled
  on the exact ECMAScript set of WhiteSpace and LineTerminator code points.
  `Number(s)`, which the comparisons `age < 2` and `age > 18` apply, is
  modelled only for the empty or all-whitespace string and, after trimming,
  an optional sign followed by ASCII decimal digits.
- **Email pattern** (module `EmailPattern`). The regular expression is given
  in two forms:
  - literal matching semantics (`PatternOccurs`): some substring is
    `\S+ @ \S+ . \S+`;
  - an executable search (`ContainsEmailPattern`).

  A lemma proves the two forms equivalent.
- **Gallery focus mode.** `ImageGallery.jsx` holds `focusedId` (`null` or
  one of the three item ids). Clicking an item toggles its focus. Whether an
  item is focused, whether it is dimmed, and whether the "Focus Mode Active"
  banner shows all follow from `focusedId`. The model is the class
  `ImageGallery.Gallery`, plus pure functions of `focusedId`.

The form's age input has `type="number"`, so it holds either the empty string
or the browser's spelling of a number. The model keeps the age as that string,
so one handler covers every input. It interprets the string the way
`Number()` does only for the empty or all-whitespace string and, after
trimming, an optional sign followed by ASCII decimal digits.
`AgeAcceptedExactly` states the rule for every integer typed in.

## Model

| member | source | states |
|---|---|---|
| JsString.IsSpace | asd-colors/src/components/ChildProfileForm.jsx:65-75 | the whitespace that `trim` strips and `\s` matches: space, tab, line feed and carriage return are whitespace, and no printable ASCII character other than the space is |
| JsString.Trim | asd-colors/src/components/ChildProfileForm.jsx:65 | `trim` returns the slice of the input with only whitespace around it, starting and ending with non-whitespace; it is empty exactly when the input is all whitespace; a string with non-whitespace ends is unchanged |
| JsString.TrimStart | asd-colors/src/components/ChildProfileForm.jsx:65 | the leading whitespace run is removed and the rest is a suffix of the input |
| JsString.TrimEnd | asd-colors/src/components/ChildProfileForm.jsx:65 | the trailing whitespace run is removed and the rest is a prefix of the input |
| JsString.DecimalRoundTrip | asd-colors/src/components/ChildProfileForm.jsx:69 | the number comparison reads back the decimal spelling of every integer as that integer |
| JsString.ToWholeNumber | asd-colors/src/components/ChildProfileForm.jsx:69 | the number comparison reads an empty or all-whitespace string as 0 |
| JsString.SignedDigitsValue | asd-colors/src/components/ChildProfileForm.jsx:69 | a string of decimal digits reads as the number it spells, negated after a leading '-', unchanged after a leading '+' |
| JsString.DigitsRoundTrip | asd-colors/src/components/ChildProfileForm.jsx:69 | a digit string reads back as the natural number it spells |
| EmailPattern.PatternOccurs | asd-colors/src/components/ChildProfileForm.jsx:75 | a string the regular expression matches contains an '@' and a '.' and has at least five characters |
| EmailPattern.PatternIffWitness | asd-colors/src/components/ChildProfileForm.jsx:75 | the regular expression matches somewhere exactly when the string has an '@' with a non-whitespace character before it, then a later '.' with only non-whitespace (at least one character) between them, then a non-whitespace character |
| EmailPattern.DotFollows | asd-colors/src/components/ChildProfileForm.jsx:75 | the scan after an '@' finds a completing '.' iff a shortest match with that '@' exists from the current position on |
| EmailPattern.AtFrom | asd-colors/src/components/ChildProfileForm.jsx:75 | the scan finds a match iff some '@' at or after the current position starts one |
| EmailPattern.ContainsEmailPattern | asd-colors/src/components/ChildProfileForm.jsx:75 | the executable test is true iff the pattern `\S+@\S+\.\S+` occurs in the string |
| ProfileForm.Profile.With | asd-colors/src/components/ChildProfileForm.jsx:41-47 | writing input `f` sets exactly that field; every other field, including the colour list, keeps its value |
| ProfileForm.Without | asd-colors/src/components/ChildProfileForm.jsx:56 | the filter leaves no occurrence of the colour; every other colour keeps its count; the result keeps the input's order (a subsequence) |
| ProfileForm.WithoutAbsent | asd-colors/src/components/ChildProfileForm.jsx:56 | filtering out a colour that is not in the list leaves the list unchanged |
| ProfileForm.WithoutIsUnique | asd-colors/src/components/ChildProfileForm.jsx:56 | any list that lacks the colour, keeps every other entry with its count, and keeps input order is the filter's result |
| ProfileForm.Toggled | asd-colors/src/components/ChildProfileForm.jsx:52-58 | a check appends the colour at the end and keeps all earlier entries in order; an uncheck removes every occurrence and keeps the rest in order with their counts |
| ProfileForm.UncheckUndoesCheck | asd-colors/src/components/ChildProfileForm.jsx:52-58 | checking then unchecking a colour that was not listed restores the list |
| ProfileForm.WithoutKeepsDistinct | asd-colors/src/components/ChildProfileForm.jsx:56 | removing a colour from a list without repeats leaves a list without repeats |
| ProfileForm.ToggleKeepsDistinct | asd-colors/src/components/ChildProfileForm.jsx:229-233 | driven by checkboxes that show membership (a check only for a missing colour), the list never repeats a colour, and it holds the colour exactly when its box is checked |
| ProfileForm.AgeRejected | asd-colors/src/components/ChildProfileForm.jsx:69 | an empty or all-whitespace age is rejected; an age that does not read as a number passes unless it is empty; an age that reads as a number is rejected iff it lies outside 2..18 |
| ProfileForm.ValidationErrors | asd-colors/src/components/ChildProfileForm.jsx:62-80 | the validation result has keys only among the child name, the age and the guardian email |
| ProfileForm.ValidationRules | asd-colors/src/components/ChildProfileForm.jsx:62-80 | keys only among name, age and email; a name error iff the name is all whitespace; an age error iff the age is rejected; an email error iff the email is blank or has no pattern match, "required" when blank and "invalid" otherwise |
| ProfileForm.ErrorsFromRules | asd-colors/src/components/ChildProfileForm.jsx:63-79 | the rule-by-rule construction of the error map yields the specified errors, given each test's outcome |
| ProfileForm.AgeAcceptedExactly | asd-colors/src/components/ChildProfileForm.jsx:69 | a whole number in the age input passes exactly when it lies within 2..18 |
| ProfileForm.SubmitAccepted | asd-colors/src/components/ChildProfileForm.jsx:88 | validation returns no errors iff the name is not blank, the age is accepted, and the email is not blank and matches the pattern |
| ProfileForm.ValidationIgnoresOtherFields | asd-colors/src/components/ChildProfileForm.jsx:62-80 | the sensory level, challenges and colours never affect the validation result |
| ProfileForm.InitialProfileRejected | asd-colors/src/components/ChildProfileForm.jsx:22-31 | submitting the initial form reports exactly the three required-field messages |
| ProfileForm.ChildProfileForm.constructor | asd-colors/src/components/ChildProfileForm.jsx:22-31 | the initial state: empty text fields, sensory level "moderate", no colours, not submitted, no errors |
| ProfileForm.ChildProfileForm.HandleInputChange | asd-colors/src/components/ChildProfileForm.jsx:41-47 | the named field takes the value, that field's error becomes the empty string, and every other field, error entry and the submitted flag are unchanged |
| ProfileForm.ChildProfileForm.HandleCheckboxChange | asd-colors/src/components/ChildProfileForm.jsx:50-59 | the colour list is toggled; every other field, the errors and the submitted flag are unchanged; when the list had no repeats and the box showed membership (checked only for a missing colour), the list still has no repeats and holds the colour exactly when the box is checked |
| ProfileForm.ChildProfileForm.ValidateForm | asd-colors/src/components/ChildProfileForm.jsx:62-80 | the map built step by step equals the specified validation errors, and the state is not changed |
| ProfileForm.ChildProfileForm.HandleSubmit | asd-colors/src/components/ChildProfileForm.jsx:83-94 | with any validation error, the errors become the validation result and the submitted flag is kept; otherwise the form becomes submitted and the errors are kept; the data fields never change |
| ProfileForm.ChildProfileForm.ResetForm | asd-colors/src/components/ChildProfileForm.jsx:108-119 | afterwards the state is exactly the constructor's state, whatever it was before, so a second reset changes nothing |
| ImageGallery.IsFocused | src/components/ImageGallery.jsx:24 | when an item is focused, the focus holds no other item's id, so at most one item is focused; nothing is focused when the focus is `null` |
| ImageGallery.IsDimmed | src/components/ImageGallery.jsx:25 | an item is dimmed iff some other item is focused |
| ImageGallery.NextFocus | src/components/ImageGallery.jsx:30 | after a click on an item, an item is focused iff it is the clicked one and the clicked one was not focused before |
| ImageGallery.BannerShown | src/components/ImageGallery.jsx:45 | the banner shows iff `focusedId` is truthy (neither `null` nor 0); with the focus empty or one of the items, it shows exactly when some item is focused |
| ImageGallery.NonzeroIds | src/components/ImageGallery.jsx:9-13 | the item ids are exactly 1, 2 and 3, so none of them is the falsy 0 |
| ImageGallery.AtMostOneFocused | src/components/ImageGallery.jsx:24 | two items that are both focused are the same item |
| ImageGallery.FocusDimsOthers | src/components/ImageGallery.jsx:24-25 | with an item focused, every other item is dimmed and the focused one is not |
| ImageGallery.NothingFocusedNothingDimmed | src/components/ImageGallery.jsx:6 | in the initial, unfocused state no item is focused or dimmed and the banner is hidden |
| ImageGallery.ClickTwice | src/components/ImageGallery.jsx:30 | two clicks on the same item end unfocused, unless that item was focused at the start |
| ImageGallery.Gallery.constructor | src/components/ImageGallery.jsx:6 | the gallery starts with no item focused |
| ImageGallery.Gallery.Click | src/components/ImageGallery.jsx:30 | clicking the focused item clears the focus; clicking any other item makes exactly that item focused; the focus stays empty or one of the items |

## Left out

- Rendering is not modelled: the JSX, the CSS class strings and the `isLowStim` theme only decide presentation.
- `src/App.jsx` is not modelled. It composes the components and sets a one-way `showGallery` flag.
- The `console.log` of the submitted data is not modelled, because it is output only; neither is `event.preventDefault()`, which is browser plumbing.
- React's asynchronous, batched `setState` and its updater-function form are not modelled. Each handler is one atomic transition.
- AgeRejected: `Number()` is modelled only for the empty or all-whitespace string (0) and, after trimming, an optional sign followed by ASCII decimal digits. Every other spelling that JavaScript reads as a number is treated like `NaN`, which passes the range test: a decimal point ("1.0", "1.", "1.5"), an exponent ("1e1"), the `0x`, `0b` and `0o` prefixes ("0b1"), and `Infinity`. So "1.5" and "1.0" are accepted here but rejected by the source.
- JsString.ToWholeNumber: trims its input first, as `Number()` does, and then gives `None` for every string other than the empty string and an optional sign followed by ASCII decimal digits, including the decimal-point, exponent, `0x`/`0b`/`0o` and `Infinity` spellings listed above; `SignedDigitsValue` states what it gives for the digit strings.
- ProfileForm.ChildProfileForm.HandleInputChange: input names are limited to the five named inputs of the form. A computed key outside that set, which `setState` would accept, is not modelled.
- ImageGallery.Gallery.Click: requires the id of one of the three items, because each click handler belongs to one item's button.
- `IsSpace` lists the space separators of the current Unicode version. Later changes to the Unicode database are not tracked.
