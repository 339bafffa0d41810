/**
 * The form's live state and its handlers: one error slot per text field
 * (holding the message shown, `None` when its text is ""), the four-line
 * password checklist, the strength label, the password box's state, and the
 * count of success messages on the page. Each
 * handler re-reads the current field values and rewrites the state from the
 * pure rules of `Validation`.
 */
module RegistrationForm {
  import opened Wrappers
  import opened Validation

  /** How a checklist line or the password box is shown: the grey default, passed (green), failed (red). */
  datatype Mark = Neutral | Pass | Fail

  function MarkOf(ok: bool): Mark
  {
    if ok then Pass else Fail
  }

  const NeutralChecklist: seq<Mark> := [Neutral, Neutral, Neutral, Neutral]

  /** The text `setError` writes into a field's error slot: the message, or "" when there is none. */
  function ErrorText(m: Option<Message>): string
  {
    if m.Some? then m.value.Text() else ""
  }

  /** The strength line's text for a non-empty password. */
  function StrengthLabelOf(r: PasswordCheck): string
  {
    if r.strong then StrongLabel else WeakLabel
  }

  /** A slot's text is empty exactly when it holds no message. */
  lemma EmptyTextIsNoMessage(m: Option<Message>)
    ensures ErrorText(m) == "" <==> m == None
  {
  }

  /**
   * The scan for an error slot whose text is not "": since every message has a
   * non-empty text, it finds one exactly when some slot holds a message.
   */
  method AnyErrorShown(slots: seq<Option<Message>>) returns (shown: bool)
    ensures shown <==> exists i :: 0 <= i < |slots| && slots[i] != None
  {
    var i := 0;
    while i < |slots|
      invariant 0 <= i <= |slots|
      invariant forall k :: 0 <= k < i ==> slots[k] == None
    {
      EmptyTextIsNoMessage(slots[i]);
      if ErrorText(slots[i]) != "" {
        return true;
      }
      i := i + 1;
    }
    return false;
  }

  class Form {
    // the current field values, owned by the page and read by every handler
    var username: string
    var fullName: string
    var email: string
    var password: string

    // one error slot per text field
    var usernameError: Option<Message>
    var fullNameError: Option<Message>
    var emailError: Option<Message>

    // the password display: strength text, the four checklist lines, the box itself
    var strengthLabel: string
    const checklist: array<Mark>
    var passwordMark: Mark

    // how many success messages the page shows
    var successMessages: nat

    /**
     * The checklist has four lines; the password box is neutral exactly when
     * the lines are, and otherwise it is green exactly when the last three
     * lines (no overlap, length, number or symbol) are; there is at most one
     * success message.
     */
    ghost predicate Valid()
      reads this`passwordMark, this`successMessages, checklist
    {
      && checklist.Length == 4
      && successMessages <= 1
      && (passwordMark == Neutral <==> checklist[..] == NeutralChecklist)
      && (passwordMark != Neutral ==>
            && Neutral !in checklist[..]
            && (passwordMark == Pass <==> checklist[1] == Pass && checklist[2] == Pass && checklist[3] == Pass))
    }

    /** The password display agrees with the current password, full name and email. */
    ghost predicate ShowsPassword()
      reads this`password, this`fullName, this`email, this`strengthLabel, this`passwordMark, checklist
      requires checklist.Length == 4
    {
      if password == [] then
        checklist[..] == NeutralChecklist && passwordMark == Neutral
      else
        var r := CheckPassword(password, fullName, email);
        && checklist[..] == [MarkOf(r.strong), MarkOf(!r.containsSensitive), MarkOf(r.longEnough), MarkOf(r.hasNumSymbol)]
        && strengthLabel == StrengthLabelOf(r)
        && passwordMark == MarkOf(r.IsValid())
    }

    /** Each error slot shows the message its rule gives for the field's current value. */
    ghost predicate ShowsErrors()
      reads this`username, this`fullName, this`email, this`usernameError, this`fullNameError, this`emailError
    {
      ShowsUsernameError() && ShowsFullNameError() && ShowsEmailError()
    }

    /** The username slot shows the message its rule gives for the current username. */
    ghost predicate ShowsUsernameError()
      reads this`username, this`usernameError
    {
      usernameError == UsernameError(username)
    }

    /** The full name slot shows the message its rule gives for the current full name. */
    ghost predicate ShowsFullNameError()
      reads this`fullName, this`fullNameError
    {
      fullNameError == FullNameError(fullName)
    }

    /** The email slot shows the message its rule gives for the current email. */
    ghost predicate ShowsEmailError()
      reads this`email, this`emailError
    {
      emailError == EmailError(email)
    }

    /** An untouched page: empty fields, no messages, a grey checklist, no success message. */
    constructor ()
      ensures Valid() && fresh(checklist)
      ensures username == fullName == email == password == ""
      ensures usernameError == fullNameError == emailError == None
      ensures checklist[..] == NeutralChecklist && passwordMark == Neutral
      ensures successMessages == 0
    {
      username, fullName, email, password := "", "", "", "";
      usernameError, fullNameError, emailError := None, None, None;
      strengthLabel := "";
      checklist := new Mark[4](_ => Neutral);
      passwordMark := Neutral;
      successMessages := 0;
      new;
      assert checklist[..] == NeutralChecklist;
    }

    /** `validateUsername` */
    method ValidateUsername()
      requires Valid()
      modifies this`usernameError
      ensures Valid()
      ensures usernameError == UsernameError(username)
    {
      usernameError := UsernameError(username);
    }

    /** `validateFullName` */
    method ValidateFullName()
      requires Valid()
      modifies this`fullNameError
      ensures Valid()
      ensures fullNameError == FullNameError(fullName)
    {
      fullNameError := FullNameError(fullName);
    }

    /** `validateEmail` */
    method ValidateEmail()
      requires Valid()
      modifies this`emailError
      ensures Valid()
      ensures emailError == EmailError(email)
    {
      emailError := EmailError(email);
    }

    /** `updateChecklistLine`: line `index` shows pass or fail. */
    method UpdateChecklistLine(index: nat, isValid: bool)
      requires index < checklist.Length
      modifies checklist
      ensures checklist[..] == old(checklist[..])[index := MarkOf(isValid)]
    {
      checklist[index] := MarkOf(isValid);
    }

    /** The `forEach` over the checklist lines that puts each back to its grey default. */
    method ResetChecklist()
      requires checklist.Length == 4
      modifies checklist
      ensures checklist[..] == NeutralChecklist
    {
      for i := 0 to checklist.Length
        invariant forall k :: 0 <= k < i ==> checklist[k] == Neutral
      {
        checklist[i] := Neutral;
      }
      assert checklist[..] == NeutralChecklist;
    }

    /**
     * `validatePassword`: an empty password resets the four lines and the box
     * to neutral and leaves the strength text as it was; otherwise the lines,
     * the strength text and the box show the rule flags.
     */
    method ValidatePassword()
      requires Valid()
      modifies checklist, this`strengthLabel, this`passwordMark
      ensures Valid() && ShowsPassword()
      ensures password == [] ==> strengthLabel == old(strengthLabel)
      ensures old(ShowsErrors()) ==> ShowsErrors()
    {
      if |password| == 0 {
        ResetChecklist();
        passwordMark := Neutral;
        return;
      }
      ShowPasswordCheck(CheckPassword(password, fullName, email));
    }

    /** The non-empty branch of `validatePassword`: the strength text, the four lines and the box show `r`. */
    method ShowPasswordCheck(r: PasswordCheck)
      requires Valid()
      modifies checklist, this`strengthLabel, this`passwordMark
      ensures Valid()
      ensures checklist[..] == [MarkOf(r.strong), MarkOf(!r.containsSensitive), MarkOf(r.longEnough), MarkOf(r.hasNumSymbol)]
      ensures strengthLabel == StrengthLabelOf(r)
      ensures passwordMark == MarkOf(r.IsValid())
    {
      strengthLabel := StrengthLabelOf(r);
      UpdateChecklistLine(0, r.strong);
      UpdateChecklistLine(1, !r.containsSensitive);
      UpdateChecklistLine(2, r.longEnough);
      UpdateChecklistLine(3, r.hasNumSymbol);
      passwordMark := MarkOf(r.IsValid());
      assert checklist[..][0] != NeutralChecklist[0];
    }

    /** The submit handler's first step: every field is validated once more, in page order. */
    method Revalidate()
      requires Valid()
      modifies this`usernameError, this`fullNameError, this`emailError
      modifies checklist, this`strengthLabel, this`passwordMark
      ensures Valid() && ShowsPassword() && ShowsErrors()
      ensures password == [] ==> strengthLabel == old(strengthLabel)
    {
      ValidateUsername();
      assert ShowsUsernameError();
      ValidateFullName();
      assert ShowsFullNameError();
      ValidateEmail();
      assert ShowsEmailError();
      ValidatePassword();
    }

    /** Adds the success message unless one is already on the page. */
    method ShowSuccess()
      requires successMessages <= 1
      modifies this`successMessages
      ensures successMessages == 1
    {
      if successMessages == 0 {
        successMessages := successMessages + 1;
      }
    }

    /**
     * The submit handler's test of the page: no error slot shows a message,
     * the password box is not red, and the username and password are
     * non-empty.
     */
    method SuccessGate() returns (open: bool)
      ensures open <==> PageAcceptable()
    {
      var slots := [usernameError, fullNameError, emailError];
      var hasErrors := AnyErrorShown(slots);
      var passInvalid := passwordMark == Fail;
      assert !hasErrors <==> usernameError == fullNameError == emailError == None by {
        assert slots[0] == usernameError && slots[1] == fullNameError && slots[2] == emailError;
      }
      open := !hasErrors && !passInvalid && username != "" && password != "";
    }

    /** What the submit handler reads off the page before showing the success message. */
    predicate PageAcceptable()
      reads this
    {
      usernameError == fullNameError == emailError == None && passwordMark != Fail && username != "" && password != ""
    }

    /**
     * Once every field has been re-validated, what the page shows passes the
     * submit handler's test exactly when the rule-level gate `SubmitAccepted`
     * holds.
     */
    lemma GateIsAccepted()
      requires Valid() && ShowsPassword() && ShowsErrors()
      ensures PageAcceptable() <==> SubmitAccepted(username, fullName, email, password)
    {
    }

    /**
     * The submit handler: re-validates every field, then shows the success
     * message when the gate is open. The message is added once and stays.
     */
    method Submit()
      requires Valid()
      modifies this`usernameError, this`fullNameError, this`emailError
      modifies checklist, this`strengthLabel, this`passwordMark, this`successMessages
      ensures Valid() && ShowsPassword() && ShowsErrors()
      ensures password == [] ==> strengthLabel == old(strengthLabel)
      ensures SubmitAccepted(username, fullName, email, password) ==> successMessages == 1
      ensures !SubmitAccepted(username, fullName, email, password) ==> successMessages == old(successMessages)
    {
      Revalidate();
      var open := SuccessGate();
      GateIsAccepted();
      if open {
        ShowSuccess();
      }
    }
  }
}
