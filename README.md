# Registration form validation

A Dafny model of the client-side validation of the Kargahpage registration
form (`js/js.js`). The form has four inputs: username, full name, email and
password. Each input has a live handler. `validateUsername`,
`validateFullName` and `validateEmail` each write one error message under
their field. `validatePassword` drives a four-line checklist, a Strong/Weak
strength line and the colour of the password box. The submit handler runs all
four handlers once more. It then adds a single "Account Created
Successfully!" message when no error is shown, the password box is not red,
and the username and password are filled in.

The project has four modules:

- `Wrappers` (`wrappers.dfy`): the `Option` type. `None` means "no message".
- `JsText` (`js_text.dfy`): the JavaScript string built-ins the rules use,
  over Dafny strings:
  - `length`, counted in UTF-16 code units;
  - the `\s` class;
  - `trim` and `split(/\s+/)`;
  - `toLowerCase`;
  - `includes`.
- `Validation` (`validation.dfy`): the rules as pure functions. Each field's
  rule returns `Option<Message>`. The password's rule returns the four flags
  it computes (`PasswordCheck`). Each rule has a lemma that reads its regular
  expression and its `if`/`else if` chain as plain predicates.
- `RegistrationForm` (`registration_form.dfy`): the page state as the class
  `Form`. Its parts:
  - one error slot per text field;
  - the checklist, as an `array<Mark>` of four lines;
  - the strength text;
  - the password box's `Mark`;
  - the number of success messages.

  The handlers are methods whose contracts tie the new state to the rules.

`validatePassword` lower-cases and trims the full name but keeps its inner
space, so "John Doe" is searched for as "john doe". That string does not
occur in "johndoe99!", and that password is valid.
`Validation.SpacedNameNotRevealed` proves the general case: a password
without whitespace never reveals a name that has a first and a last part.

## Model

| member | source | states |
|---|---|---|
| JsText.JsLength | js/js.js:69 | `length` counts UTF-16 units: between one and two per character, zero only for the empty string, and equal to the character count when there are no astral characters |
| JsText.TrimSlice | js/js.js:90 | `Trim` (JavaScript `trim`, with whitespace as `IsJsSpace`, the `\s` class of ECMAScript WhiteSpace and LineTerminator code points) keeps a slice `s[a..b]`; everything before `a` and from `b` on is whitespace; a non-empty result starts and ends with non-whitespace |
| JsText.TrimKeepsNonSpace | js/js.js:118-119 | a string with a non-whitespace character does not trim to "" |
| JsText.TrimOccursIn | js/js.js:118-119 | the trimmed string occurs inside the original |
| JsText.SplitOnSpaceRuns | js/js.js:90 | `split(/\s+/)` gives at least one piece; it gives two or more exactly when the input has a whitespace character; no piece contains whitespace |
| JsText.ToLowerAscii | js/js.js:118-119 | `toLowerCase` keeps the length and maps each character on its own (ASCII `A`-`Z` to `a`-`z`) |
| JsText.Includes | js/js.js:135-136 | `includes` is true exactly when the needle occurs at some index of the haystack |
| Validation.Message.Text | js/js.js:70-109 | the five error texts (js/js.js lines 70, 72, 89, 91 and 109) are each non-empty, so a slot's text is "" exactly when it holds no message |
| Validation.TestAlphanumeric | js/js.js:59 | `/^[a-z0-9]+$/i` accepts exactly the non-empty strings of ASCII letters and digits |
| Validation.UsernameRule | js/js.js:57-76 | for `UsernameError` (the message `validateUsername` sets): an empty username gets no message; a non-empty one whose length is outside 3..15 gets the length message, whatever its characters; within 3..15 it gets the charset message exactly when some character is not an ASCII letter or digit; it gets no message exactly when it is empty or has 3..15 letters or digits |
| Validation.TestAlphaSpace | js/js.js:80 | `/^[a-zA-Z\s]+$/` accepts exactly the non-empty strings of ASCII letters and whitespace |
| Validation.TokenCount | js/js.js:90 | `trim().split(/\s+/).length >= 2` holds exactly when some whitespace stands between two non-whitespace characters (a first and a last name) |
| Validation.TrimmedSpaceIsTwoWords | js/js.js:90 | whitespace is left after `trim` exactly when the name has two words |
| Validation.FullNameRule | js/js.js:78-95 | for `FullNameError` (the message `validateFullName` sets): an empty name gets no message; any character that is neither an ASCII letter nor whitespace gets the charset message, before the token count is looked at; a name of letters and whitespace gets the first-and-last message exactly when it lacks two words; no message exactly when it is empty or has two words of letters |
| Validation.AllWhitespaceNameFails | js/js.js:88-91 | a non-empty, all-whitespace name passes the charset test and gets the first-and-last message |
| Validation.TestNotSpaceOrAt | js/js.js:99 | a run of `[^\s@]+` is a non-empty string with no whitespace and no `@` |
| Validation.IndexOf | js/js.js:99 | locates the first `@` (or reports there is none) |
| Validation.EmailPattern | js/js.js:99 | `TestEmail`, the regex test read by cases on the first `@`, accepts exactly the strings `X@Y.Z` with `X`, `Y`, `Z` non-empty and free of whitespace and `@` (`Y` and `Z` may hold dots) |
| Validation.EmailRule | js/js.js:97-114 | for `EmailError` (the message `validateEmail` sets): an email gets no message exactly when it is empty or has the shape `X@Y.Z`; otherwise it gets the email message |
| Validation.TestNumOrSymbol | js/js.js:134 | the number-or-symbol class matches exactly when some character is a digit or one of the listed symbols |
| Validation.PasswordRule | js/js.js:133-154 | for the flags `CheckPassword` computes (js/js.js lines 118-154): long enough is at least 8 UTF-16 units; Strong is more than 8 units plus a digit or symbol, so Strong implies long enough; sensitive means the trimmed, lower-cased, non-empty name or email occurs in the lower-cased password; valid is long enough, a digit or symbol, and not sensitive |
| Validation.NoContextNoOverlap | js/js.js:118-136 | with a blank name and a blank email, nothing is sensitive |
| Validation.BlankNormalizesToEmpty | js/js.js:118-119 | an all-whitespace value lower-cases and trims to "" (the `name &&` and `email &&` guards) |
| Validation.LowerKeepsSpaces | js/js.js:118-119 | lower-casing neither adds nor removes whitespace |
| Validation.RevealsItself | js/js.js:135-136 | a value with a non-whitespace character is revealed by a password equal to it |
| Validation.SensitiveWhenRevealed | js/js.js:135-136 | a password revealing the name or the email is flagged as sensitive |
| Validation.NumOrSymbolIsNotSpace | js/js.js:134 | digits and the listed symbols are never whitespace |
| Validation.StrongDoesNotImplyValid | js/js.js:141-154 | Strong does not imply valid: a password equal to the full name is never valid, however strong |
| Validation.SpacedNameNotRevealed | js/js.js:118-136 | a password without whitespace never reveals a full name that has two words (the name keeps its inner space) |
| Validation.SpaceBlocksOccurrence | js/js.js:135-136 | a needle with whitespace occurs nowhere in a haystack without whitespace |
| Validation.SubmitAcceptedMeans | js/js.js:172-188 | `SubmitAccepted`, the success gate on freshly validated fields (non-empty username and password, no field message, a valid password), holds exactly for: a 3..15-character username of letters and digits; a name that is empty or two words of letters; an email that is empty or `X@Y.Z`; a password that is long enough, has a digit or symbol, and reveals neither the name nor the email |
| RegistrationForm.EmptyTextIsNoMessage | js/js.js:26-37 | `setError` leaves the slot text "" exactly when there is no message |
| RegistrationForm.AnyErrorShown | js/js.js:182-183 | the scan over the error slots for a non-empty text finds one exactly when some slot holds a message |
| RegistrationForm.Form.constructor | js/js.js:1-7 | the untouched page: no messages, a neutral checklist and box, no success message; the page invariant `Valid` holds (four checklist lines, the box neutral exactly when every line is, otherwise green exactly when lines 1-3 pass, at most one success message) |
| RegistrationForm.Form.ValidateUsername | js/js.js:57-76 | the username slot shows `UsernameError` of the current username; the invariant is kept |
| RegistrationForm.Form.ValidateFullName | js/js.js:78-95 | the full-name slot shows `FullNameError` of the current name; the invariant is kept |
| RegistrationForm.Form.ValidateEmail | js/js.js:97-114 | the email slot shows `EmailError` of the current email; the invariant is kept |
| RegistrationForm.Form.UpdateChecklistLine | js/js.js:41-53 | line `index` becomes pass or fail and no other line changes |
| RegistrationForm.Form.ResetChecklist | js/js.js:122-126 | every checklist line is back to neutral |
| RegistrationForm.Form.ShowPasswordCheck | js/js.js:138-161 | the lines show Strong, no overlap, long enough and number-or-symbol, in that order; the strength text is Strong or Weak; the box is green exactly when the password is valid; the invariant holds |
| RegistrationForm.Form.ValidatePassword | js/js.js:116-162 | an empty password leaves all four lines and the box neutral and the strength text as it was; otherwise the display shows the flags of `CheckPassword`; the error slots are untouched |
| RegistrationForm.Form.Revalidate | js/js.js:175-179 | after the four handlers run again, every slot, the checklist lines and the password box agree with the current fields; the strength text shows the flags for a non-empty password and is kept as it was for an empty one |
| RegistrationForm.Form.ShowSuccess | js/js.js:190-200 | the success message is added only when none is on the page, so afterwards there is exactly one |
| RegistrationForm.Form.SuccessGate | js/js.js:181-188 | the handler's test is true exactly when no slot shows a message, the box is not red, and the username and password are non-empty |
| RegistrationForm.Form.GateIsAccepted | js/js.js:181-188 | on a freshly validated page, that test passes exactly when the rule-level gate `SubmitAccepted` holds |
| RegistrationForm.Form.Submit | js/js.js:172-201 | after submit every slot, the checklist lines and the password box agree with the fields; the strength text shows the flags for a non-empty password and is kept for an empty one; when the gate holds there is exactly one success message; otherwise the count is unchanged; the invariant (at most one success message) is kept |

## Left out

- DOM lookup and element creation (`getElementById`, `querySelector`, `createElement`, `appendChild`) are left out. The page is the fields of `Form`.
- Colours, font settings, icon paths and input text colours are left out. A checklist line or the password box is recorded only as `Neutral`, `Pass` or `Fail`. The username, full name and email borders are not modelled.
- Submit reads password validity from the border colour string `rgb(255, 77, 77)`. The model reads it from the box's `Mark`, where `Fail` is the red border.
- The error div is found through the input's `parentElement`. The HTML is not part of this model, so the model has one slot per field. `document.querySelector('.error-text') &&` is true because all three slots exist after revalidation.
- Event wiring, `preventDefault` and the final `console.log` are event plumbing and I/O.
- `ToLowerAscii` lower-cases the ASCII letters only. Full Unicode case mapping belongs to the JavaScript engine.
- `IsJsSpace` is the fixed list of ECMAScript WhiteSpace and LineTerminator code points. The Unicode space-separator table is not consulted beyond that list.
- A JavaScript input value may hold a lone UTF-16 surrogate; a Dafny `string` holds Unicode scalar values only, so such values are not represented.
- `Form.constructor` starts the strength text as "". The page's initial strength text comes from HTML that is not part of this model.
- An error slot holds the `Message` it shows. Its text is `ErrorText(slot)`, and `AnyErrorShown` scans those texts. The literal strings appear once, in `Message.Text`.
