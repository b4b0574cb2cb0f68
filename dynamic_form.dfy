/** The contact form: the validation rules of its four fields, the condition that enables the
    submit button, and the submitting / submitted flags around the simulated request. */
module DynamicForm {
  import opened Common

  const Categories: seq<string> :=
    ["General Inquiry", "Technical Support", "Feature Request", "Bug Report", "Partnership"]

  /** `required` then `minLength: 2`; the length rule alone already excludes the empty name. */
  function NameValid(name: string): (valid: bool)
    ensures valid <==> |name| >= 2
  {
    name != "" && |name| >= 2
  }

  /** `required` then `minLength: 10`; the length rule alone already excludes the empty message. */
  function MessageValid(message: string): (valid: bool)
    ensures valid <==> |message| >= 10
  {
    message != "" && |message| >= 10
  }

  /** `required` on the select, whose placeholder option has the value `""`. */
  predicate CategoryValid(category: string) {
    category != ""
  }

  /** Among the values the select offers, exactly the five categories pass `required`. */
  lemma SelectedCategoryValid(value: string)
    requires value == "" || value in Categories
    ensures CategoryValid(value) <==> value in Categories
  {
  }

  // ---------------------------------------------------------------------------------------------
  // The email pattern /^[A-Z0-9._%+-]+@[A-Z0-9.-]+\.[A-Z]{2,}$/i

  /** `[A-Z]` under the `i` flag (without `u`, no non-ASCII letter folds onto an ASCII one). */
  predicate IsAsciiLetter(c: char) {
    'A' <= c <= 'Z' || 'a' <= c <= 'z'
  }

  predicate IsAsciiDigit(c: char) {
    '0' <= c <= '9'
  }

  /** `[A-Z0-9._%+-]` */
  predicate IsLocalChar(c: char) {
    IsAsciiLetter(c) || IsAsciiDigit(c) || c in {'.', '_', '%', '+', '-'}
  }

  /** `[A-Z0-9.-]` */
  predicate IsDomainChar(c: char) {
    IsAsciiLetter(c) || IsAsciiDigit(c) || c == '.' || c == '-'
  }

  /** `s` splits as local `@` domain `.` tld with the `@` at `at` and the `.` at `dot`. */
  predicate EmailSplit(s: string, at: int, dot: int) {
    && 0 < at && at + 1 < dot && dot + 2 < |s|
    && s[at] == '@' && s[dot] == '.'
    && (forall k :: 0 <= k < at ==> IsLocalChar(s[k]))
    && (forall k :: at < k < dot ==> IsDomainChar(s[k]))
    && (forall k :: dot < k < |s| ==> IsAsciiLetter(s[k]))
  }

  /** What the regular expression accepts, as written: some way of cutting the address. */
  ghost predicate MatchesEmailPattern(s: string) {
    exists at, dot :: EmailSplit(s, at, dot)
  }

  function IndexOf(s: string, c: char): (r: Option<nat>)
    ensures r.Some? ==> r.value < |s| && s[r.value] == c && forall k :: 0 <= k < r.value ==> s[k] != c
    ensures r.None? ==> c !in s
  {
    if s == [] then None
    else if s[0] == c then Some(0)
    else match IndexOf(s[1..], c)
      case None => None
      case Some(k) => Some(k + 1)
  }

  function LastIndexOf(s: string, c: char): (r: Option<nat>)
    ensures r.Some? ==> r.value < |s| && s[r.value] == c && forall k :: r.value < k < |s| ==> s[k] != c
    ensures r.None? ==> c !in s
  {
    if s == [] then None
    else if s[|s| - 1] == c then Some(|s| - 1)
    else LastIndexOf(s[..|s| - 1], c)
  }

  /** A split, when there is one, is the first `@` and the last `.`: the local part holds no `@`
      and the top-level domain no `.`. */
  lemma SplitIsUnique(s: string)
    ensures forall at, dot :: EmailSplit(s, at, dot) ==> IndexOf(s, '@') == Some(at) && LastIndexOf(s, '.') == Some(dot)
  {
    forall at, dot | EmailSplit(s, at, dot)
      ensures IndexOf(s, '@') == Some(at) && LastIndexOf(s, '.') == Some(dot)
    {
      assert forall k :: 0 <= k < at ==> s[k] != '@';
      assert forall k :: dot < k < |s| ==> s[k] != '.';
    }
  }

  /** The check the form runs: the only possible `@` is the first one and the only possible `.`
      before the top-level domain is the last one. */
  function EmailValid(s: string): (r: bool)
    ensures r <==> MatchesEmailPattern(s)
  {
    var at := IndexOf(s, '@');
    var dot := LastIndexOf(s, '.');
    SplitIsUnique(s);
    at.Some? && dot.Some? && EmailSplit(s, at.value, dot.value)
  }

  /** A cut of the address has its `@` as the only one. */
  lemma SplitHasOneAt(s: string, at: int, dot: int)
    requires EmailSplit(s, at, dot)
    ensures multiset(s)['@'] == 1
  {
    var before, after := s[..at], s[at + 1..];
    assert s == before + [s[at]] + after;
    assert multiset(before)['@'] == 0 by {
      forall k | 0 <= k < |before| ensures before[k] != '@' {
        assert IsLocalChar(s[k]);
      }
    }
    assert multiset(after)['@'] == 0 by {
      forall k | 0 <= k < |after| ensures after[k] != '@' {
        var c := s[at + 1 + k];
        assert IsDomainChar(c) || IsAsciiLetter(c) || c == '.';
      }
    }
  }

  /** Every accepted address has exactly one `@`. */
  lemma ValidEmailHasOneAt(s: string)
    requires EmailValid(s)
    ensures multiset(s)['@'] == 1
  {
    var at, dot :| EmailSplit(s, at, dot);
    SplitHasOneAt(s, at, dot);
  }

  // ---------------------------------------------------------------------------------------------
  // The value sanitisation of an `<input type="email">`: strip newlines, then strip leading and
  // trailing ASCII whitespace (HTML Living Standard, section 4.10.5.1.5, "Email" state).

  predicate IsNewline(c: char) {
    c == '\n' || c == '\r'
  }

  /** ASCII whitespace: tab, line feed, form feed, carriage return and space. */
  predicate IsAsciiWhitespace(c: char) {
    c == '\t' || c == '\n' || c == '\U{000C}' || c == '\r' || c == ' '
  }

  /** Every line feed and carriage return removed, the other characters kept in order. */
  function WithoutNewlines(s: string): (r: string)
    ensures forall k :: 0 <= k < |r| ==> !IsNewline(r[k])
    ensures |r| <= |s|
  {
    if s == [] then [] else (if IsNewline(s[0]) then [] else [s[0]]) + WithoutNewlines(s[1..])
  }

  lemma NoNewlineInSlice(s: string, i: nat, j: nat)
    requires i <= j <= |s|
    requires forall k :: 0 <= k < |s| ==> !IsNewline(s[k])
    ensures forall k :: 0 <= k < j - i ==> !IsNewline(s[i..j][k])
  {
  }

  /** A character survives the removal of newlines exactly when it is not one. */
  lemma {:induction false} WithoutNewlinesMembers(s: string, c: char)
    ensures c in WithoutNewlines(s) <==> c in s && !IsNewline(c)
  {
    if s != [] {
      assert s == [s[0]] + s[1..];
      WithoutNewlinesMembers(s[1..], c);
    }
  }

  lemma {:induction false} WithoutNewlinesKeepsPlain(s: string)
    requires forall k :: 0 <= k < |s| ==> !IsNewline(s[k])
    ensures WithoutNewlines(s) == s
  {
    if s != [] {
      WithoutNewlinesKeepsPlain(s[1..]);
    }
  }

  /** The suffix that starts at the first character that is not ASCII whitespace. */
  function StripLeading(s: string): (r: string)
    ensures |r| <= |s| && r == s[|s| - |r|..]
    ensures forall k :: 0 <= k < |s| - |r| ==> IsAsciiWhitespace(s[k])
    ensures r == [] || !IsAsciiWhitespace(r[0])
  {
    if s != [] && IsAsciiWhitespace(s[0]) then StripLeading(s[1..]) else s
  }

  /** The prefix that ends at the last character that is not ASCII whitespace. */
  function StripTrailing(s: string): (r: string)
    ensures |r| <= |s| && r == s[..|r|]
    ensures forall k :: |r| <= k < |s| ==> IsAsciiWhitespace(s[k])
    ensures r == [] || !IsAsciiWhitespace(r[|r| - 1])
  {
    if s != [] && IsAsciiWhitespace(s[|s| - 1]) then StripTrailing(s[..|s| - 1]) else s
  }

  /** The value an email input holds after the user typed `typed`: no newline, and no blank at
      either end. */
  function SanitizedEmail(typed: string): (v: string)
    ensures forall k :: 0 <= k < |v| ==> !IsNewline(v[k])
    ensures v == [] || (!IsAsciiWhitespace(v[0]) && !IsAsciiWhitespace(v[|v| - 1]))
  {
    var w := WithoutNewlines(typed);
    var l := StripLeading(w);
    NoNewlineInSlice(w, |w| - |l|, |w|);
    var v := StripTrailing(l);
    NoNewlineInSlice(l, 0, |v|);
    v
  }

  lemma StripLeadingKeeps(s: string, k: nat)
    requires k < |s| && !IsAsciiWhitespace(s[k])
    ensures |s| - |StripLeading(s)| <= k
    ensures StripLeading(s)[k - (|s| - |StripLeading(s)|)] == s[k]
  {
  }

  lemma StripTrailingKeeps(s: string, k: nat)
    requires k < |s| && !IsAsciiWhitespace(s[k])
    ensures k < |StripTrailing(s)| && StripTrailing(s)[k] == s[k]
  {
  }

  lemma SanitizedEmailSteps(typed: string)
    ensures SanitizedEmail(typed) == StripTrailing(StripLeading(WithoutNewlines(typed)))
  {
  }

  /** Sanitising drops only newlines and blanks: every other typed character is kept ... */
  lemma SanitizeKeepsNonBlank(typed: string, c: char)
    requires c in typed && !IsAsciiWhitespace(c)
    ensures c in SanitizedEmail(typed)
  {
    var w := WithoutNewlines(typed);
    assert c in w by {
      WithoutNewlinesMembers(typed, c);
    }
    var k :| 0 <= k < |w| && w[k] == c;
    var l := StripLeading(w);
    StripLeadingKeeps(w, k);
    var m := k - (|w| - |l|);
    var v := StripTrailing(l);
    StripTrailingKeeps(l, m);
    assert v[m] == c;
    SanitizedEmailSteps(typed);
  }

  /** ... and no character is added. */
  lemma SanitizeAddsNothing(typed: string, c: char)
    requires c in SanitizedEmail(typed)
    ensures c in typed
  {
    var w := WithoutNewlines(typed);
    var l := StripLeading(w);
    var v := StripTrailing(l);
    assert c in v by {
      SanitizedEmailSteps(typed);
    }
    var k :| 0 <= k < |v| && v[k] == c;
    assert l[k] == c;
    assert w[|w| - |l| + k] == c;
    WithoutNewlinesMembers(typed, c);
  }

  /** Sanitising an address the pattern accepts leaves it as it is: the clean-up only drops blanks
      around an address, never changes one. */
  lemma SanitizeKeepsValidEmail(s: string)
    requires EmailValid(s)
    ensures SanitizedEmail(s) == s
  {
    var at, dot :| EmailSplit(s, at, dot);
    forall k | 0 <= k < |s|
      ensures !IsNewline(s[k]) && !IsAsciiWhitespace(s[k])
    {
      if k < at {
        assert IsLocalChar(s[k]);
      } else if at < k < dot {
        assert IsDomainChar(s[k]);
      } else if dot < k {
        assert IsAsciiLetter(s[k]);
      }
    }
    WithoutNewlinesKeepsPlain(s);
  }

  /** Sanitising twice is sanitising once. */
  lemma SanitizeIdempotent(typed: string)
    ensures SanitizedEmail(SanitizedEmail(typed)) == SanitizedEmail(typed)
  {
    var v := SanitizedEmail(typed);
    assert forall k :: 0 <= k < |v| ==> v[k] in v;
    WithoutNewlinesKeepsPlain(v);
  }

  /** Every accepted address has at least six characters and ends in a `.` after the `@`
      followed only by (at least two) letters. */
  lemma ValidEmailShape(s: string)
    requires EmailValid(s)
    ensures |s| >= 6
    ensures IsAsciiLetter(s[|s| - 1]) && IsAsciiLetter(s[|s| - 2])
    ensures IndexOf(s, '@').Some? && LastIndexOf(s, '.').Some?
    ensures IndexOf(s, '@').value < LastIndexOf(s, '.').value
    ensures forall k :: LastIndexOf(s, '.').value < k < |s| ==> IsAsciiLetter(s[k])
  {
    var at, dot :| EmailSplit(s, at, dot);
    SplitIsUnique(s);
  }

  /** The form's state: the four field values, the flags around the request, and whether the
      thank-you panel is shown. */
  class ContactForm {
    var name: string
    var email: string
    var message: string
    var category: string
    var isSubmitting: bool
    var isSubmitted: bool

    constructor ()
      ensures name == "" && email == "" && message == "" && category == ""
      ensures !isSubmitting && !isSubmitted
    {
      name, email, message, category := "", "", "", "";
      isSubmitting, isSubmitted := false, false;
    }

    /** `isValid`: every rule holds for the current values. */
    predicate FieldsValid()
      reads this
    {
      NameValid(name) && EmailValid(email) && CategoryValid(category) && MessageValid(message)
    }

    /** The submit button is enabled exactly when it is not `disabled={!isValid || isSubmitting}`. */
    function SubmitEnabled(): (enabled: bool)
      reads this
      ensures enabled <==>
        && |name| >= 2 && MatchesEmailPattern(email) && category != "" && |message| >= 10
        && !isSubmitting
    {
      FieldsValid() && !isSubmitting
    }

    method EditName(value: string) returns (event: string)
      modifies this
      ensures name == value && email == old(email) && message == old(message) && category == old(category)
      ensures isSubmitting == old(isSubmitting) && isSubmitted == old(isSubmitted)
      ensures event == "form-input"
    {
      name := value;
      event := "form-input";
    }

    /** The email input holds the typed text after the browser's value sanitisation. */
    method EditEmail(value: string) returns (event: string)
      modifies this
      ensures email == SanitizedEmail(value) && name == old(name) && message == old(message) && category == old(category)
      ensures isSubmitting == old(isSubmitting) && isSubmitted == old(isSubmitted)
      ensures event == "form-input"
    {
      email := SanitizedEmail(value);
      event := "form-input";
    }

    method SelectCategory(value: string) returns (event: string)
      requires value == "" || value in Categories
      modifies this
      ensures category == value && name == old(name) && email == old(email) && message == old(message)
      ensures isSubmitting == old(isSubmitting) && isSubmitted == old(isSubmitted)
      ensures event == "form-select"
    {
      category := value;
      event := "form-select";
    }

    method EditMessage(value: string) returns (event: string)
      modifies this
      ensures message == value && name == old(name) && email == old(email) && category == old(category)
      ensures isSubmitting == old(isSubmitting) && isSubmitted == old(isSubmitted)
      ensures event == "form-textarea"
    {
      message := value;
      event := "form-textarea";
    }

    /** `handleSubmit(onSubmit)`: with every rule satisfied the request starts; otherwise nothing
        happens but the error messages. While a request is in flight the button is disabled, so
        submitting does nothing. */
    method Submit() returns (event: Option<string>)
      modifies this
      ensures old(SubmitEnabled()) ==> isSubmitting && event == Some("form-submit")
      ensures !old(SubmitEnabled()) ==> isSubmitting == old(isSubmitting) && event == None
      ensures isSubmitted == old(isSubmitted)
      ensures name == old(name) && email == old(email) && message == old(message) && category == old(category)
    {
      if FieldsValid() && !isSubmitting {
        isSubmitting := true;
        event := Some("form-submit");
      } else {
        event := None;
      }
    }

    /** The simulated request's 1.5 second wait is over. */
    method RequestDone()
      modifies this
      ensures !isSubmitting && isSubmitted
      ensures name == old(name) && email == old(email) && message == old(message) && category == old(category)
    {
      isSubmitting := false;
      isSubmitted := true;
    }

    /** Three seconds after the thank-you panel: hide it and `reset()` the fields. */
    method ThankYouTimeout()
      modifies this
      ensures !isSubmitted && isSubmitting == old(isSubmitting)
      ensures name == "" && email == "" && message == "" && category == ""
    {
      isSubmitted := false;
      name, email, message, category := "", "", "", "";
    }
  }
}
