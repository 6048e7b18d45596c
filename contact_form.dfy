/**
 * The contact form's client-side checks: the e-mail pattern, the whole-form
 * check run on submit, the per-field check run when an input loses focus, and
 * the error state (`form-error` class and `.error-message` label) they set.
 */
module ContactForm {
  import opened Text
  import opened Wrappers

  // ---------------------------------------------------------------------------
  // isValidEmail: the pattern ^[^\s@]+@[^\s@]+\.[^\s@]+$
  // ---------------------------------------------------------------------------

  /** A run of the class `[^\s@]`: no character is white space or `@`. */
  predicate PlainRun(s: string)
  {
    forall k :: 0 <= k < |s| ==> !IsWhitespace(s[k]) && s[k] != '@'
  }

  /**
   * `isValidEmail(email)`: the pattern matches the whole string, that is, the
   * string splits at an `@` (index `at`) and a later `.` (index `dot`) into
   * three non-empty runs of `[^\s@]`.
   */
  predicate IsValidEmail(email: string)
    ensures IsValidEmail(email) ==>
      |email| >= 5 && '@' in email && !IsWhitespace(email[0]) && !IsWhitespace(email[|email| - 1])
  {
    exists at, dot | 0 < at < dot < |email| ::
      at + 1 < dot && dot + 1 < |email| && email[at] == '@' && email[dot] == '.' &&
      PlainRun(email[..at]) && PlainRun(email[at + 1..dot]) && PlainRun(email[dot + 1..])
  }

  /** The only `@` in `s` is the one at index `at`. */
  predicate SoleAtSign(s: string, at: nat)
  {
    at < |s| && s[at] == '@' && forall k :: 0 <= k < |s| && k != at ==> s[k] != '@'
  }

  /** The domain after index `at` has a `.` that is neither its first nor its last character. */
  predicate DomainHasInnerDot(s: string, at: nat)
  {
    exists dot :: at + 1 < dot < |s| - 1 && s[dot] == '.'
  }

  /**
   * The pattern, in words: no white space, exactly one `@`, something before
   * it, and a domain with a `.` that neither starts nor ends it.
   */
  lemma ValidEmailCharacterised(email: string)
    ensures IsValidEmail(email) <==>
      NoWhitespace(email) &&
      exists at :: 0 < at && SoleAtSign(email, at) && DomainHasInnerDot(email, at)
  {
    if IsValidEmail(email) {
      MatchHasShape(email);
    }
    if NoWhitespace(email) && exists at :: 0 < at && SoleAtSign(email, at) && DomainHasInnerDot(email, at) {
      var at :| 0 < at && SoleAtSign(email, at) && DomainHasInnerDot(email, at);
      ShapeMatches(email, at);
    }
  }

  /** A match puts the only `@` at the end of the first run and a `.` inside the domain. */
  lemma MatchHasShape(email: string)
    requires IsValidEmail(email)
    ensures NoWhitespace(email)
    ensures exists at :: 0 < at && SoleAtSign(email, at) && DomainHasInnerDot(email, at)
  {
    var at, dot :| 0 < at < dot < |email| &&
      at + 1 < dot && dot + 1 < |email| && email[at] == '@' && email[dot] == '.' &&
      PlainRun(email[..at]) && PlainRun(email[at + 1..dot]) && PlainRun(email[dot + 1..]);
    forall k | 0 <= k < |email|
      ensures !IsWhitespace(email[k]) && (k != at ==> email[k] != '@')
    {
      if k < at {
        assert email[k] == email[..at][k];
      } else if at < k < dot {
        assert email[k] == email[at + 1..dot][k - at - 1];
      } else if dot < k {
        assert email[k] == email[dot + 1..][k - dot - 1];
      }
    }
    assert SoleAtSign(email, at) && DomainHasInnerDot(email, at);
  }

  /** A string of that shape splits into the three runs the pattern asks for. */
  lemma ShapeMatches(email: string, at: nat)
    requires NoWhitespace(email) && 0 < at && SoleAtSign(email, at) && DomainHasInnerDot(email, at)
    ensures IsValidEmail(email)
  {
    var dot :| at + 1 < dot < |email| - 1 && email[dot] == '.';
    assert PlainRun(email[..at]);
    assert PlainRun(email[at + 1..dot]);
    assert PlainRun(email[dot + 1..]);
  }

  // ---------------------------------------------------------------------------
  // Error state of a field: showError / clearError
  // ---------------------------------------------------------------------------

  /** The `.error-message` element next to an input: its text and whether it has `hidden`. */
  datatype ErrorLabel = ErrorLabel(text: string, hidden: bool)

  /** An input's error state: the `form-error` class and its error label, when the page has one. */
  datatype FieldView = FieldView(flagged: bool, errorLabel: Option<ErrorLabel>)

  /** `showError(field, message)`: flag the input; write and reveal the label, if any. */
  function WithError(v: FieldView, message: string): (r: FieldView)
    ensures r.flagged
    ensures r.errorLabel.Some? <==> v.errorLabel.Some?
    ensures r.errorLabel.Some? ==> r.errorLabel.value.text == message && !r.errorLabel.value.hidden
  {
    FieldView(true, if v.errorLabel.Some? then Some(ErrorLabel(message, false)) else None)
  }

  /** `clearError(field)`: unflag the input; hide the label, if any, keeping its text. */
  function WithoutError(v: FieldView): (r: FieldView)
    ensures !r.flagged
    ensures r.errorLabel.Some? <==> v.errorLabel.Some?
    ensures r.errorLabel.Some? ==>
      r.errorLabel.value.hidden && r.errorLabel.value.text == v.errorLabel.value.text
  {
    FieldView(false, if v.errorLabel.Some? then Some(v.errorLabel.value.(hidden := true)) else None)
  }

  /** The error a field shows: flagged, and its label, if any, visible with that text. */
  ghost predicate ShowsError(v: FieldView, message: string)
  {
    v.flagged && (v.errorLabel.Some? ==> v.errorLabel.value == ErrorLabel(message, false))
  }

  /** A field that shows no error: unflagged, and its label, if any, hidden. */
  ghost predicate ShowsNoError(v: FieldView)
  {
    !v.flagged && (v.errorLabel.Some? ==> v.errorLabel.value.hidden)
  }

  /** Whatever the field showed before, showing then clearing an error leaves it error-free, and vice versa. */
  lemma ErrorStateOverwrites(v: FieldView, message: string)
    ensures ShowsError(WithError(v, message), message)
    ensures ShowsNoError(WithoutError(v))
    ensures WithError(WithoutError(v), message) == WithError(v, message)
    ensures WithoutError(WithError(v, message)).errorLabel.Some? ==>
      WithoutError(WithError(v, message)).errorLabel.value.text == message
    ensures v.errorLabel.Some? ==>
      WithoutError(v).errorLabel.Some? && WithoutError(v).errorLabel.value.text == v.errorLabel.value.text
  {
  }

  // ---------------------------------------------------------------------------
  // validateForm and validateField
  // ---------------------------------------------------------------------------

  const NameId := "name"
  const EmailId := "email"
  const SubjectId := "subject"
  const MessageId := "message"
  const FormIds: set<string> := {NameId, EmailId, SubjectId, MessageId}

  const NameMissing := "Please enter your name"
  const EmailMissing := "Please enter your email address"
  const EmailInvalid := "Please enter a valid email address"
  const SubjectMissing := "Please enter a subject"
  const MessageMissing := "Please enter your message"

  /** A required form value passes `!v || v.trim() === ''` when it is present and not blank. */
  predicate Filled(v: Option<string>)
    ensures Filled(v) <==> v.Some? && exists k :: 0 <= k < |v.value| && !IsWhitespace(v.value[k])
  {
    v.Some? && Trim(v.value) != ""
  }

  /** The e-mail value passes `!email || !isValidEmail(email)`; it is not trimmed first. */
  predicate EmailAccepted(v: Option<string>)
    ensures EmailAccepted(v) ==> Filled(v)
  {
    v.Some? && IsValidEmail(v.value)
  }

  /** The error map for the four outcomes of the checks, in the order `validateForm` runs them. */
  function ErrorsFor(nameOk: bool, emailOk: bool, subjectOk: bool, messageOk: bool): (errors: map<string, string>)
    ensures errors.Keys <= FormIds
    ensures (NameId in errors <==> !nameOk) && (EmailId in errors <==> !emailOk)
    ensures (SubjectId in errors <==> !subjectOk) && (MessageId in errors <==> !messageOk)
    ensures NameId in errors ==> errors[NameId] == NameMissing
    ensures EmailId in errors ==> errors[EmailId] == EmailInvalid
    ensures SubjectId in errors ==> errors[SubjectId] == SubjectMissing
    ensures MessageId in errors ==> errors[MessageId] == MessageMissing
  {
    var e0: map<string, string> := if nameOk then map[] else map[NameId := NameMissing];
    var e1 := if emailOk then e0 else e0[EmailId := EmailInvalid];
    var e2 := if subjectOk then e1 else e1[SubjectId := SubjectMissing];
    if messageOk then e2 else e2[MessageId := MessageMissing]
  }

  /**
   * The errors `validateForm` shows, by field id: every failing field gets its
   * message, and no other field is touched.
   */
  function SubmitErrors(name: Option<string>, email: Option<string>, subject: Option<string>, message: Option<string>)
    : (errors: map<string, string>)
    ensures errors.Keys <= FormIds
    ensures NameId in errors <==> !Filled(name)
    ensures EmailId in errors <==> !EmailAccepted(email)
    ensures SubjectId in errors <==> !Filled(subject)
    ensures MessageId in errors <==> !Filled(message)
    ensures NameId in errors ==> errors[NameId] == NameMissing
    ensures EmailId in errors ==> errors[EmailId] == EmailInvalid
    ensures SubjectId in errors ==> errors[SubjectId] == SubjectMissing
    ensures MessageId in errors ==> errors[MessageId] == MessageMissing
    ensures errors == map[] <==> Filled(name) && EmailAccepted(email) && Filled(subject) && Filled(message)
  {
    var errors := ErrorsFor(Filled(name), EmailAccepted(email), Filled(subject), Filled(message));
    assert errors == map[] <==> NameId !in errors && EmailId !in errors && SubjectId !in errors && MessageId !in errors;
    errors
  }

  /**
   * The error `validateField` shows for an input with id `id` and raw value
   * `value`, or None when it passes. The value is trimmed first, and an input
   * whose id is none of the four form fields always passes.
   */
  function BlurError(id: string, value: string): (error: Option<string>)
    ensures error.None? <==>
      ((id == NameId || id == SubjectId || id == MessageId) ==> Trim(value) != "") &&
      (id == EmailId ==> IsValidEmail(Trim(value)))
    ensures id !in FormIds ==> error.None?
    ensures id == NameId && error.Some? ==> error.value == NameMissing
    ensures id == EmailId && Trim(value) == "" ==> error == Some(EmailMissing)
    ensures id == EmailId && Trim(value) != "" && !IsValidEmail(Trim(value)) ==> error == Some(EmailInvalid)
    ensures id == SubjectId && error.Some? ==> error.value == SubjectMissing
    ensures id == MessageId && error.Some? ==> error.value == MessageMissing
  {
    var v := Trim(value);
    if id == NameId && v == "" then Some(NameMissing)
    else if id == EmailId && v == "" then Some(EmailMissing)
    else if id == EmailId && !IsValidEmail(v) then Some(EmailInvalid)
    else if id == SubjectId && v == "" then Some(SubjectMissing)
    else if id == MessageId && v == "" then Some(MessageMissing)
    else None
  }

  /**
   * The two checks disagree on padded addresses: a valid address with a leading
   * space passes when the e-mail input loses focus, but fails on submit.
   */
  lemma PaddedEmailPassesBlurOnly(e: string)
    requires IsValidEmail(e)
    ensures BlurError(EmailId, " " + e).None?
    ensures !EmailAccepted(Some(" " + e))
  {
    ValidEmailUnpadded(e);
    TrimLeadingSpace(e);
    var padded := " " + e;
    if IsValidEmail(padded) {
      ValidEmailUnpadded(padded);
      assert false;
    }
  }

  /** A valid address is non-empty and has no white space in it. */
  lemma ValidEmailUnpadded(e: string)
    requires IsValidEmail(e)
    ensures e != [] && NoWhitespace(e)
  {
    ValidEmailCharacterised(e);
  }

  /** The error state of every input after `errors` (field id to message) have been shown. */
  function Annotated(views: map<string, FieldView>, errors: map<string, string>): map<string, FieldView>
  {
    map id | id in views :: if id in errors then WithError(views[id], errors[id]) else views[id]
  }

  /** Showing one more error on top of `errors` is annotating with the larger map. */
  lemma AnnotatedStep(views: map<string, FieldView>, errors: map<string, string>, id: string, message: string)
    requires id in views
    ensures var before := Annotated(views, errors);
      before[id := WithError(before[id], message)] == Annotated(views, errors[id := message])
  {
  }

  /** The contact form's inputs and textareas, by element id, with their error state. */
  class Form {
    var views: map<string, FieldView>

    /** The four inputs `validateForm` looks up by id are on the page. */
    ghost predicate Valid()
      reads this
    {
      FormIds <= views.Keys
    }

    constructor (views: map<string, FieldView>)
      requires FormIds <= views.Keys
      ensures Valid() && this.views == views
    {
      this.views := views;
    }

    /** `showError(field, message)` on the input with id `id`. */
    method ShowError(id: string, message: string)
      requires id in views
      modifies this
      ensures views == old(views)[id := WithError(old(views)[id], message)]
    {
      views := views[id := WithError(views[id], message)];
    }

    /** `clearError(field)` on the input with id `id`; also the handler of its `input` event. */
    method ClearError(id: string)
      requires id in views
      modifies this
      ensures views == old(views)[id := WithoutError(old(views)[id])]
    {
      views := views[id := WithoutError(views[id])];
    }

    /**
     * `validateForm(name, email, subject, message)`: all four checks run, each
     * failing field shows its error, the others keep their state, and the form
     * is valid exactly when no check failed.
     */
    method ValidateForm(name: Option<string>, email: Option<string>, subject: Option<string>, message: Option<string>)
      returns (isValid: bool)
      requires Valid()
      modifies this
      ensures Valid()
      ensures isValid <==> Filled(name) && EmailAccepted(email) && Filled(subject) && Filled(message)
      ensures views == Annotated(old(views), SubmitErrors(name, email, subject, message))
    {
      ghost var shown: map<string, string> := map[];
      assert views == Annotated(old(views), shown);
      isValid := true;
      if !Filled(name) {
        AnnotatedStep(old(views), shown, NameId, NameMissing);
        ShowError(NameId, NameMissing);
        shown := shown[NameId := NameMissing];
        isValid := false;
      }
      if !EmailAccepted(email) {
        AnnotatedStep(old(views), shown, EmailId, EmailInvalid);
        ShowError(EmailId, EmailInvalid);
        shown := shown[EmailId := EmailInvalid];
        isValid := false;
      }
      if !Filled(subject) {
        AnnotatedStep(old(views), shown, SubjectId, SubjectMissing);
        ShowError(SubjectId, SubjectMissing);
        shown := shown[SubjectId := SubjectMissing];
        isValid := false;
      }
      if !Filled(message) {
        AnnotatedStep(old(views), shown, MessageId, MessageMissing);
        ShowError(MessageId, MessageMissing);
        shown := shown[MessageId := MessageMissing];
        isValid := false;
      }
    }

    /**
     * `validateField(field)` on the input with id `id` holding `value`: it shows
     * the field's error and fails, or clears the field's error and passes.
     */
    method ValidateField(id: string, value: string) returns (ok: bool)
      requires id in views
      modifies this
      ensures ok <==> BlurError(id, value).None?
      ensures ok ==> views == old(views)[id := WithoutError(old(views)[id])]
      ensures !ok ==> views == old(views)[id := WithError(old(views)[id], BlurError(id, value).value)]
    {
      var v := Trim(value);
      if id == NameId && v == "" {
        ShowError(id, NameMissing);
        return false;
      }
      if id == EmailId {
        if v == "" {
          ShowError(id, EmailMissing);
          return false;
        } else if !IsValidEmail(v) {
          ShowError(id, EmailInvalid);
          return false;
        }
      }
      if id == SubjectId && v == "" {
        ShowError(id, SubjectMissing);
        return false;
      }
      if id == MessageId && v == "" {
        ShowError(id, MessageMissing);
        return false;
      }
      ClearError(id);
      ok := true;
    }
  }
}
