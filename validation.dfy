/** `validateUserForm` (src/utils/helpers.jsx:48-73): required fields and the
    email pattern of the user form. */
module Validation {
  import opened Wrappers
  import opened JsText
  import opened UserModel

  /** The errors object: one message per failing field, absent otherwise. */
  datatype FormErrors = FormErrors(name: Option<string>, email: Option<string>, phone: Option<string>, website: Option<string>)

  const NoErrors := FormErrors(None, None, None, None)

  datatype FormValidation = FormValidation(isValid: bool, errors: FormErrors)

  /** `!field?.trim()`: the field is absent or trims to the empty string. */
  predicate Blank(field: Option<string>)
  {
    field.None? || Trim(field.value) == ""
  }

  /** `s[i..j]` is a non-empty run of characters outside `\s`. */
  predicate NonBlankRun(s: string, i: int, j: int)
  {
    0 <= i < j <= |s| && forall k | i <= k < j :: !IsWhitespace(s[k])
  }

  /** `/\S+@\S+\.\S+/.test(s)`: the pattern is not anchored, so it matches
      when some stretch of `s` reads a non-blank run, '@', a non-blank run,
      '.', and a non-blank run. */
  predicate EmailPatternMatches(s: string)
  {
    exists i, p, q, j | 0 <= i < p < q < j <= |s| :: MatchAt(s, i, p, q, j)
  }

  /** `s[i..j]` matches the pattern with the '@' at `p` and the '.' at `q`. */
  predicate MatchAt(s: string, i: int, p: int, q: int, j: int)
    requires 0 <= i < p < q < j <= |s|
  {
    NonBlankRun(s, i, p) && s[p] == '@' && NonBlankRun(s, p + 1, q) && s[q] == '.' && NonBlankRun(s, q + 1, j)
  }

  function ValidateUserForm(input: UserInput): (r: FormValidation)
    ensures r.isValid <==> r.errors == NoErrors
    ensures r.errors.name.Some? <==> input.name.None? || AllWhitespace(input.name.value)
    ensures r.errors.name.Some? ==> r.errors.name.value == "Name is required"
    ensures r.errors.phone.Some? <==> input.phone.None? || AllWhitespace(input.phone.value)
    ensures r.errors.phone.Some? ==> r.errors.phone.value == "Phone is required"
    ensures r.errors.website.Some? <==> input.website.None? || AllWhitespace(input.website.value)
    ensures r.errors.website.Some? ==> r.errors.website.value == "Website is required"
    ensures r.errors.email == Some("Email is required") <==> input.email.None? || AllWhitespace(input.email.value)
    ensures r.errors.email == Some("Email is invalid") <==>
      input.email.Some? && !AllWhitespace(input.email.value) && !EmailPatternMatches(input.email.value)
    ensures r.errors.email.None? <==> input.email.Some? && EmailPatternMatches(input.email.value)
  {
    BlankIffWhitespace(input.name);
    BlankIffWhitespace(input.email);
    BlankIffWhitespace(input.phone);
    BlankIffWhitespace(input.website);
    if input.email.Some? then MatchingEmailNotBlank(input.email.value); ValidateFields(input) else ValidateFields(input)
  }

  function ValidateFields(input: UserInput): FormValidation
  {
    var errors := FormErrors(
      if Blank(input.name) then Some("Name is required") else None,
      if Blank(input.email) then Some("Email is required")
      else if !EmailPatternMatches(input.email.value) then Some("Email is invalid")
      else None,
      if Blank(input.phone) then Some("Phone is required") else None,
      if Blank(input.website) then Some("Website is required") else None);
    FormValidation(errors == NoErrors, errors)
  }

  lemma BlankIffWhitespace(field: Option<string>)
    ensures Blank(field) <==> field.None? || AllWhitespace(field.value)
  {
    if field.Some? {
      TrimEmptyIffBlank(field.value);
    }
  }

  lemma MatchingEmailNotBlank(s: string)
    ensures EmailPatternMatches(s) ==> !AllWhitespace(s)
  {
    if EmailPatternMatches(s) {
      var i, p, q, j :| 0 <= i < p < q < j <= |s| && MatchAt(s, i, p, q, j);
      assert !IsWhitespace(s[p]);
    }
  }

  lemma NonBlankRunShift(s: string, t: string, o: nat, i: int, j: int)
    requires o + |s| <= |t|
    requires forall k :: 0 <= k < |s| ==> t[o + k] == s[k]
    requires NonBlankRun(s, i, j)
    ensures NonBlankRun(t, o + i, o + j)
  {
    forall k | o + i <= k < o + j ensures !IsWhitespace(t[k]) {
      assert t[o + (k - o)] == s[k - o];
    }
  }

  /** The pattern is unanchored: text around an address does not stop it
      from matching. */
  lemma PatternIgnoresSurroundings(pre: string, s: string, post: string)
    requires EmailPatternMatches(s)
    ensures EmailPatternMatches(pre + s + post)
  {
    var i, p, q, j :| 0 <= i < p < q < j <= |s| && MatchAt(s, i, p, q, j);
    var t := pre + s + post;
    var o := |pre|;
    assert forall k :: 0 <= k < |s| ==> t[o + k] == s[k];
    NonBlankRunShift(s, t, o, i, p);
    NonBlankRunShift(s, t, o, p + 1, q);
    NonBlankRunShift(s, t, o, q + 1, j);
    assert MatchAt(t, o + i, o + p, o + q, o + j);
  }

  /** "a@b.c" is accepted; "a@b" (no dot after the '@' part) and "a@.c"
      (nothing between '@' and '.') are "Email is invalid". */
  lemma EmailExamples()
    ensures EmailPatternMatches("a@b.c")
    ensures !EmailPatternMatches("a@b")
    ensures !EmailPatternMatches("a@.c")
  {
    var s := "a@b.c";
    assert MatchAt(s, 0, 1, 3, 5);
  }
}
