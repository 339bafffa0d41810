/**
 * The registration form's rules: one pure function per field mapping the
 * field's current text (and, for the password, the current full name and
 * email) to its verdict. `None` is "no message": the field is valid or still
 * empty. Each rule is proved equal to a reference reading of its regular
 * expression and its `if`/`else if` chain.
 */
module Validation {
  import opened Wrappers
  import opened JsText

  /** The error messages a text field can show. */
  datatype Message = UsernameLength | UsernameCharset | FullNameCharset | FullNameTokens | InvalidEmail
  {
    /** The text shown under the field. */
    function Text(): (t: string)
      ensures t != ""
    {
      match this
      case UsernameLength => "Username must be between 3 and 15 characters"
      case UsernameCharset => "Username can only contain letters and numbers"
      case FullNameCharset => "Full name must contain only letters and spaces"
      case FullNameTokens => "Please enter your full name (First & Last)"
      case InvalidEmail => "Please enter a valid email address"
    }
  }

  const StrongLabel := " Password Strength : Strong"
  const WeakLabel := " Password Strength : Weak"

  /** The punctuation accepted by the password's number-or-symbol class. */
  predicate IsSymbol(c: char)
  {
    c == '!' || c == '@' || c == '#' || c == '$' || c == '%' || c == '^' || c == '&' || c == '*' ||
    c == '(' || c == ')' || c == '_' || c == '+' || c == '-' || c == '=' || c == '[' || c == ']' ||
    c == '{' || c == '}' || c == ';' || c == '\'' || c == ':' || c == '"' || c == '\\' || c == '|' ||
    c == ',' || c == '.' || c == '<' || c == '>' || c == '/' || c == '?'
  }

  // ---------------------------------------------------------------- username

  /** The class `[a-z0-9]` under the `i` flag: ASCII letters of either case and digits. */
  predicate IsAlphanumeric(c: char)
  {
    IsAsciiLetter(c) || IsAsciiDigit(c)
  }

  /** `/^[a-z0-9]+$/i.test(s)` */
  function TestAlphanumeric(s: string): (b: bool)
    ensures b <==> s != [] && forall i :: 0 <= i < |s| ==> IsAlphanumeric(s[i])
  {
    s != [] && IsAlphanumeric(s[0]) && (|s| == 1 || TestAlphanumeric(s[1..]))
  }

  /**
   * `validateUsername`: an empty username has no message; otherwise the length
   * is checked before the characters.
   */
  function UsernameError(val: string): Option<Message>
  {
    if |val| == 0 then None
    else if JsLength(val) < 3 || JsLength(val) > 15 then Some(UsernameLength)
    else if !TestAlphanumeric(val) then Some(UsernameCharset)
    else None
  }

  /**
   * An empty username gets no message; a length outside 3..15 gets the length
   * message whatever the characters; within that range the charset message
   * comes exactly when some character is not an ASCII letter or digit.
   */
  lemma UsernameRule(val: string)
    ensures val == [] ==> UsernameError(val) == None
    ensures val != [] && (JsLength(val) < 3 || JsLength(val) > 15) ==> UsernameError(val) == Some(UsernameLength)
    ensures UsernameError(val) == Some(UsernameCharset) <==>
              3 <= JsLength(val) <= 15 && exists i :: 0 <= i < |val| && !IsAlphanumeric(val[i])
    ensures UsernameError(val) == None <==>
              val == [] || (3 <= |val| <= 15 && forall i :: 0 <= i < |val| ==> IsAlphanumeric(val[i]))
    ensures UsernameError(val) in {None, Some(UsernameLength), Some(UsernameCharset)}
  {
  }

  // --------------------------------------------------------------- full name

  /** The class `[a-zA-Z\s]`. */
  predicate IsLetterOrSpace(c: char)
  {
    IsAsciiLetter(c) || IsJsSpace(c)
  }

  /** `/^[a-zA-Z\s]+$/.test(s)` */
  function TestAlphaSpace(s: string): (b: bool)
    ensures b <==> s != [] && forall i :: 0 <= i < |s| ==> IsLetterOrSpace(s[i])
  {
    s != [] && IsLetterOrSpace(s[0]) && (|s| == 1 || TestAlphaSpace(s[1..]))
  }

  /** The whitespace at `j` stands between the non-whitespace characters at `i` and `k`. */
  ghost predicate WordBreak(s: string, i: int, j: int, k: int)
  {
    0 <= i < j < k < |s| && !IsJsSpace(s[i]) && IsJsSpace(s[j]) && !IsJsSpace(s[k])
  }

  /** There is a first and a last name: some whitespace stands between two non-whitespace characters. */
  ghost predicate HasTwoWords(s: string)
  {
    exists i, j, k :: WordBreak(s, i, j, k)
  }

  /** `s.trim().split(/\s+/).length >= 2` holds exactly when `s` has two words. */
  lemma TokenCount(s: string)
    ensures |SplitOnSpaceRuns(Trim(s))| >= 2 <==> HasTwoWords(s)
  {
    TrimmedSpaceIsTwoWords(s);
  }

  /** After trimming, a whitespace character is left exactly when `s` has two words. */
  lemma TrimmedSpaceIsTwoWords(s: string)
    ensures (exists p :: 0 <= p < |Trim(s)| && IsJsSpace(Trim(s)[p])) <==> HasTwoWords(s)
  {
    var a, b := TrimSlice(s);
    if p :| 0 <= p < |Trim(s)| && IsJsSpace(Trim(s)[p]) {
      InnerSpaceGivesTwoWords(s, a, b, p);
    }
    if HasTwoWords(s) {
      var i, j, k :| WordBreak(s, i, j, k);
      TwoWordsSurviveTrim(s, a, b, i, j, k);
      assert IsJsSpace(Trim(s)[j - a]);
    }
  }

  lemma TwoWordsSurviveTrim(s: string, a: nat, b: nat, i: nat, j: nat, k: nat)
    requires a <= b <= |s|
    requires forall n :: 0 <= n < a ==> IsJsSpace(s[n])
    requires forall n :: b <= n < |s| ==> IsJsSpace(s[n])
    requires WordBreak(s, i, j, k)
    ensures a < j < b - 1 && IsJsSpace(s[a..b][j - a])
  {
  }

  lemma InnerSpaceGivesTwoWords(s: string, a: nat, b: nat, p: nat)
    requires a <= b <= |s| && p < b - a && IsJsSpace(s[a..b][p])
    requires !IsJsSpace(s[a]) && !IsJsSpace(s[b - 1])
    ensures HasTwoWords(s)
  {
    assert s[a..b][p] == s[a + p];
    assert WordBreak(s, a, a + p, b - 1);
  }

  /**
   * `validateFullName`: an empty name has no message; a character other than
   * an ASCII letter or whitespace gives the charset message, which takes
   * precedence over the first-and-last check.
   */
  function FullNameError(val: string): Option<Message>
  {
    if |val| == 0 then None
    else if !TestAlphaSpace(val) then Some(FullNameCharset)
    else if |SplitOnSpaceRuns(Trim(val))| < 2 then Some(FullNameTokens)
    else None
  }

  /**
   * An empty name gets no message; any character that is neither an ASCII
   * letter nor whitespace gets the charset message, before the token count is
   * looked at; a name of letters and whitespace gets the first-and-last
   * message exactly when it does not have two words.
   */
  lemma FullNameRule(val: string)
    ensures val == [] ==> FullNameError(val) == None
    ensures (exists i :: 0 <= i < |val| && !IsLetterOrSpace(val[i])) ==> FullNameError(val) == Some(FullNameCharset)
    ensures FullNameError(val) == Some(FullNameTokens) <==>
              val != [] && (forall i :: 0 <= i < |val| ==> IsLetterOrSpace(val[i])) && !HasTwoWords(val)
    ensures FullNameError(val) == None <==>
              val == [] || ((forall i :: 0 <= i < |val| ==> IsLetterOrSpace(val[i])) && HasTwoWords(val))
    ensures FullNameError(val) in {None, Some(FullNameCharset), Some(FullNameTokens)}
  {
    TokenCount(val);
  }

  /** A non-empty name made only of whitespace gets the first-and-last message. */
  lemma AllWhitespaceNameFails(val: string)
    requires val != [] && forall i :: 0 <= i < |val| ==> IsJsSpace(val[i])
    ensures FullNameError(val) == Some(FullNameTokens)
  {
    assert forall i :: 0 <= i < |val| ==> IsLetterOrSpace(val[i]);
    FullNameRule(val);
  }

  // ------------------------------------------------------------------- email

  /** The class `[^\s@]`. */
  predicate IsNotSpaceOrAt(c: char)
  {
    !IsJsSpace(c) && c != '@'
  }

  ghost predicate AllNotSpaceOrAt(s: string)
  {
    forall k :: 0 <= k < |s| ==> IsNotSpaceOrAt(s[k])
  }

  /** `/^[^\s@]+$/.test(s)` */
  function TestNotSpaceOrAt(s: string): (b: bool)
    ensures b <==> s != [] && AllNotSpaceOrAt(s)
  {
    s != [] && IsNotSpaceOrAt(s[0]) && (|s| == 1 || TestNotSpaceOrAt(s[1..]))
  }

  /** The index of the first occurrence of `c` in `s`, if any. */
  function IndexOf(s: string, c: char): (r: Option<nat>)
    ensures r.None? <==> c !in s
    ensures r.Some? ==> r.value < |s| && s[r.value] == c && c !in s[..r.value]
  {
    if s == [] then None
    else if s[0] == c then Some(0)
    else match IndexOf(s[1..], c)
      case None => None
      case Some(i) =>
        assert s[..i + 1] == [s[0]] + s[1..][..i];
        Some(i + 1)
  }

  /**
   * `/^[^\s@]+@[^\s@]+\.[^\s@]+$/.test(s)`, by cases on the first `@`: before
   * it one or more `[^\s@]`; after it `[^\s@]` only, with a dot that is
   * neither its first nor its last character.
   */
  function TestEmail(s: string): bool
  {
    match IndexOf(s, '@')
    case None => false
    case Some(i) =>
      var d := s[i + 1..];
      TestNotSpaceOrAt(s[..i]) && TestNotSpaceOrAt(d) && |d| >= 3 && '.' in d[1..|d| - 1]
  }

  /**
   * The email pattern read literally: `X@Y.Z` where `X`, `Y` and `Z` are
   * non-empty and hold no whitespace and no `@`; `Y` and `Z` may hold dots.
   */
  ghost predicate EmailShape(s: string)
  {
    exists i, j :: 0 < i && i + 1 < j && j + 1 < |s| && s[i] == '@' && s[j] == '.' &&
      AllNotSpaceOrAt(s[..i]) && AllNotSpaceOrAt(s[i + 1..j]) && AllNotSpaceOrAt(s[j + 1..])
  }

  lemma EmailPattern(s: string)
    ensures TestEmail(s) <==> EmailShape(s)
  {
    if TestEmail(s) {
      EmailTestGivesShape(s);
    }
    if EmailShape(s) {
      var i, j :| 0 < i && i + 1 < j && j + 1 < |s| && s[i] == '@' && s[j] == '.' &&
        AllNotSpaceOrAt(s[..i]) && AllNotSpaceOrAt(s[i + 1..j]) && AllNotSpaceOrAt(s[j + 1..]);
      EmailShapePassesTest(s, i, j);
    }
  }

  lemma EmailTestGivesShape(s: string)
    requires TestEmail(s)
    ensures EmailShape(s)
  {
    var i := IndexOf(s, '@').value;
    var d := s[i + 1..];
    assert TestNotSpaceOrAt(s[..i]) && TestNotSpaceOrAt(d) && |d| >= 3 && '.' in d[1..|d| - 1];
    var q :| 0 <= q < |d| - 2 && d[1..|d| - 1][q] == '.';
    var j := i + 2 + q;
    forall k | i + 1 <= k < |s| ensures IsNotSpaceOrAt(s[k]) {
      assert s[k] == d[k - i - 1];
    }
    assert s[j] == d[q + 1];
    assert 0 < i && i + 1 < j && j + 1 < |s| && s[i] == '@' && s[j] == '.' &&
      AllNotSpaceOrAt(s[..i]) && AllNotSpaceOrAt(s[i + 1..j]) && AllNotSpaceOrAt(s[j + 1..]);
  }

  lemma EmailShapePassesTest(s: string, i: nat, j: nat)
    requires 0 < i && i + 1 < j && j + 1 < |s| && s[i] == '@' && s[j] == '.'
    requires AllNotSpaceOrAt(s[..i]) && AllNotSpaceOrAt(s[i + 1..j]) && AllNotSpaceOrAt(s[j + 1..])
    ensures TestEmail(s)
  {
    assert '@' !in s[..i] by {
      forall k | 0 <= k < i ensures s[..i][k] != '@' {
        assert IsNotSpaceOrAt(s[..i][k]);
      }
    }
    var at := IndexOf(s, '@');
    assert at == Some(i);
    var d := s[i + 1..];
    forall k | 0 <= k < |d| ensures IsNotSpaceOrAt(d[k]) {
      if k < j - i - 1 { assert d[k] == s[i + 1..j][k]; }
      else if k > j - i - 1 { assert d[k] == s[j + 1..][k - (j - i)]; }
    }
    assert d[1..|d| - 1][j - i - 2] == '.';
  }

  /** `validateEmail`: an empty email has no message; otherwise the pattern decides. */
  function EmailError(val: string): Option<Message>
  {
    if |val| == 0 then None
    else if |val| > 0 && TestEmail(val) then None
    else Some(InvalidEmail)
  }

  /** An email gets no message exactly when it is empty or has the shape `X@Y.Z`; otherwise it gets the email message. */
  lemma EmailRule(val: string)
    ensures EmailError(val) == None <==> val == [] || EmailShape(val)
    ensures EmailError(val) in {None, Some(InvalidEmail)}
  {
    EmailPattern(val);
  }

  // ---------------------------------------------------------------- password

  predicate IsNumOrSymbol(c: char)
  {
    IsAsciiDigit(c) || IsSymbol(c)
  }

  /** `/[0-9!@#$%^&*()_+\-=\[\]{};':"\\|,.<>\/?]/.test(s)`: some character is a digit or a listed symbol. */
  function TestNumOrSymbol(s: string): (b: bool)
    ensures b <==> exists i :: 0 <= i < |s| && IsNumOrSymbol(s[i])
  {
    s != [] && (IsNumOrSymbol(s[0]) || TestNumOrSymbol(s[1..]))
  }

  /**
   * The flags `validatePassword` computes for a non-empty password. The
   * checklist shows `strong`, `!containsSensitive`, `longEnough` and
   * `hasNumSymbol`; the password box is valid on `IsValid()`, which does not
   * look at `strong`.
   */
  datatype PasswordCheck = PasswordCheck(longEnough: bool, hasNumSymbol: bool, containsSensitive: bool, strong: bool)
  {
    predicate IsValid()
    {
      longEnough && hasNumSymbol && !containsSensitive
    }
  }

  /** The trimmed, lower-cased `value`, when non-empty, occurs in the lower-cased password. */
  ghost predicate Reveals(pass: string, value: string)
  {
    Trim(ToLowerAscii(value)) != [] && exists i :: OccursAt(ToLowerAscii(pass), Trim(ToLowerAscii(value)), i)
  }

  /** The rule flags of `validatePassword`. */
  function CheckPassword(pass: string, fullName: string, email: string): PasswordCheck
  {
    var name := Trim(ToLowerAscii(fullName));
    var mail := Trim(ToLowerAscii(email));
    var lowered := ToLowerAscii(pass);
    var isLongEnough := JsLength(pass) >= 8;
    var hasNumSymbol := TestNumOrSymbol(pass);
    var containsSensitive := (name != [] && Includes(lowered, name)) || (mail != [] && Includes(lowered, mail));
    PasswordCheck(isLongEnough, hasNumSymbol, containsSensitive, JsLength(pass) > 8 && hasNumSymbol)
  }

  /**
   * The password rules: long enough is at least 8 UTF-16 units; Strong is more
   * than 8 units and a digit or symbol, so Strong implies long enough; valid
   * is long enough, a digit or symbol, and no overlap with the trimmed,
   * lower-cased name or email.
   */
  lemma PasswordRule(pass: string, fullName: string, email: string)
    ensures var r := CheckPassword(pass, fullName, email);
      && (r.longEnough <==> JsLength(pass) >= 8)
      && (r.hasNumSymbol <==> exists i :: 0 <= i < |pass| && IsNumOrSymbol(pass[i]))
      && (r.containsSensitive <==> Reveals(pass, fullName) || Reveals(pass, email))
      && (r.strong <==> JsLength(pass) > 8 && r.hasNumSymbol)
      && (r.strong ==> r.longEnough)
      && (r.IsValid() <==> JsLength(pass) >= 8 && r.hasNumSymbol && !r.containsSensitive)
  {
  }

  /** Lower-casing maps whitespace to whitespace and nothing else to whitespace. */
  lemma LowerKeepsSpaces(s: string)
    ensures forall i :: 0 <= i < |s| ==> (IsJsSpace(ToLowerAscii(s)[i]) <==> IsJsSpace(s[i]))
  {
    forall i | 0 <= i < |s| ensures IsJsSpace(ToLowerAscii(s)[i]) <==> IsJsSpace(s[i]) {
      assert ToLowerAscii(s)[i] == LowerChar(s[i]);
    }
  }

  /** With an empty (or all-whitespace) name and email nothing counts as sensitive. */
  lemma NoContextNoOverlap(pass: string, fullName: string, email: string)
    requires forall i :: 0 <= i < |fullName| ==> IsJsSpace(fullName[i])
    requires forall i :: 0 <= i < |email| ==> IsJsSpace(email[i])
    ensures !CheckPassword(pass, fullName, email).containsSensitive
  {
    BlankNormalizesToEmpty(fullName);
    BlankNormalizesToEmpty(email);
  }

  lemma BlankNormalizesToEmpty(value: string)
    requires forall i :: 0 <= i < |value| ==> IsJsSpace(value[i])
    ensures Trim(ToLowerAscii(value)) == []
  {
    LowerKeepsSpaces(value);
    var a, b := TrimSlice(ToLowerAscii(value));
  }

  /** A value with a non-whitespace character is revealed by a password equal to it. */
  lemma RevealsItself(pass: string, i: nat)
    requires i < |pass| && !IsJsSpace(pass[i])
    ensures Reveals(pass, pass)
  {
    var lowered := ToLowerAscii(pass);
    LowerKeepsSpaces(pass);
    TrimKeepsNonSpace(lowered, i);
    TrimOccursIn(lowered);
  }

  /**
   * Strong does not imply valid: a password that repeats the full name is
   * never valid, however strong it is.
   */
  lemma StrongDoesNotImplyValid(pass: string, email: string)
    requires CheckPassword(pass, pass, email).strong
    ensures !CheckPassword(pass, pass, email).IsValid()
  {
    assert TestNumOrSymbol(pass);
    var i :| 0 <= i < |pass| && IsNumOrSymbol(pass[i]);
    NumOrSymbolIsNotSpace(pass[i]);
    RevealsItself(pass, i);
    SensitiveWhenRevealed(pass, pass, email);
  }

  /** Digits and the listed symbols are printable ASCII, so never whitespace. */
  lemma NumOrSymbolIsNotSpace(c: char)
    requires IsNumOrSymbol(c)
    ensures !IsJsSpace(c)
  {
    assert 0x21 <= c as int <= 0x7E;
  }

  /** A password that reveals the name or the email is flagged as containing sensitive data. */
  lemma SensitiveWhenRevealed(pass: string, fullName: string, email: string)
    requires Reveals(pass, fullName) || Reveals(pass, email)
    ensures CheckPassword(pass, fullName, email).containsSensitive
  {
  }

  /**
   * The name is matched with its inner whitespace: a password without
   * whitespace never reveals a first-and-last name ("johndoe99!" does not
   * reveal "John Doe").
   */
  lemma SpacedNameNotRevealed(pass: string, fullName: string)
    requires forall i :: 0 <= i < |pass| ==> !IsJsSpace(pass[i])
    requires HasTwoWords(fullName)
    ensures !Reveals(pass, fullName)
  {
    var name := ToLowerAscii(fullName);
    LowerKeepsSpaces(fullName);
    LowerKeepsSpaces(pass);
    var i, j, k :| WordBreak(fullName, i, j, k);
    assert WordBreak(name, i, j, k);
    TrimmedSpaceIsTwoWords(name);
    var p :| 0 <= p < |Trim(name)| && IsJsSpace(Trim(name)[p]);
    SpaceBlocksOccurrence(ToLowerAscii(pass), Trim(name), p);
  }

  /** A needle with whitespace occurs nowhere in a haystack without whitespace. */
  lemma SpaceBlocksOccurrence(hay: string, needle: string, p: nat)
    requires forall i :: 0 <= i < |hay| ==> !IsJsSpace(hay[i])
    requires p < |needle| && IsJsSpace(needle[p])
    ensures forall o :: !OccursAt(hay, needle, o)
  {
  }

  // ------------------------------------------------------------------ submit

  /** The submit handler's success gate, evaluated on freshly validated fields. */
  predicate SubmitAccepted(username: string, fullName: string, email: string, password: string)
  {
    username != [] && password != [] &&
    UsernameError(username).None? && FullNameError(fullName).None? && EmailError(email).None? &&
    CheckPassword(password, fullName, email).IsValid()
  }

  /** What the gate admits, in terms of the reference readings of each rule. */
  lemma SubmitAcceptedMeans(username: string, fullName: string, email: string, password: string)
    ensures SubmitAccepted(username, fullName, email, password) <==>
      && 3 <= |username| <= 15 && (forall i :: 0 <= i < |username| ==> IsAlphanumeric(username[i]))
      && (fullName == [] || ((forall i :: 0 <= i < |fullName| ==> IsLetterOrSpace(fullName[i])) && HasTwoWords(fullName)))
      && (email == [] || EmailShape(email))
      && JsLength(password) >= 8 && (exists i :: 0 <= i < |password| && IsNumOrSymbol(password[i]))
      && !Reveals(password, fullName) && !Reveals(password, email)
  {
    UsernameRule(username);
    FullNameRule(fullName);
    EmailRule(email);
    PasswordRule(password, fullName, email);
  }
}
