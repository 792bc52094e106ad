/** Client-side validation of the sign-up form (`validateInputs` and the
    early return of `handleSubmit`). The three regular expressions are
    written out as predicates over characters; the email expression, which
    needs backtracking, also has its language stated directly and the two
    are proved to agree. */
module SignUpForm {
  import opened Strings

  const NameError := "Name should start with a letter and be 2-30 characters (letters, numbers, spaces allowed)."
  const EmailError := "Please enter a valid email address."
  const PasswordError := "Password must be at least 6 characters."

  predicate IsAsciiLetter(c: char)
  {
    'a' <= c <= 'z' || 'A' <= c <= 'Z'
  }

  /** The class `\s` of JavaScript regular expressions. */
  predicate IsWhitespace(c: char)
  {
    || c == '\t' || c == '\n' || c == '\U{B}' || c == '\U{C}' || c == '\r' || c == ' '
    || c == '\U{A0}' || c == '\U{1680}' || '\U{2000}' <= c <= '\U{200A}'
    || c == '\U{2028}' || c == '\U{2029}' || c == '\U{202F}' || c == '\U{205F}'
    || c == '\U{3000}' || c == '\U{FEFF}'
  }

  /** The characters that `.` does not match without the `s` flag. */
  predicate IsLineTerminator(c: char)
  {
    c == '\n' || c == '\r' || c == '\U{2028}' || c == '\U{2029}'
  }

  predicate IsNameChar(c: char)
  {
    IsAsciiLetter(c) || IsAsciiDigit(c) || c == ' '
  }

  /** `/^[a-zA-Z][a-zA-Z0-9 ]{1,29}$/.test(name)` */
  predicate NameMatches(name: string)
  {
    && 2 <= |name| <= 30
    && IsAsciiLetter(name[0])
    && forall i :: 1 <= i < |name| ==> IsNameChar(name[i])
  }

  /** `/^.{6,}$/.test(password)` */
  predicate PasswordMatches(password: string)
  {
    |password| >= 6 && forall i :: 0 <= i < |password| ==> !IsLineTerminator(password[i])
  }

  /** One match of `[^\s@]+`. */
  predicate Atom(t: string)
  {
    |t| > 0 && forall i :: 0 <= i < |t| ==> !IsWhitespace(t[i]) && t[i] != '@'
  }

  /** The language of `/^[^\s@]+@[^\s@]+\.[^\s@]+$/`: the string splits
      into three atoms, the first two separated by `@`, the last two by `.`. */
  ghost predicate EmailLanguage(s: string)
  {
    exists i, j :: 0 <= i < j < |s| && s[i] == '@' && s[j] == '.'
                   && Atom(s[..i]) && Atom(s[i + 1..j]) && Atom(s[j + 1..])
  }

  /** A `.` that is neither the first nor the last character. */
  predicate HasInnerDot(d: string)
  {
    exists p :: 1 <= p < |d| - 1 && d[p] == '.'
  }

  /** The same test without backtracking: one `@`, something before it, no
      whitespace anywhere, and an inner `.` after the `@`. */
  predicate EmailMatches(s: string)
  {
    var at := Find(s, '@');
    && 0 < at < |s|
    && (forall i :: 0 <= i < |s| ==> !IsWhitespace(s[i]))
    && '@' !in s[at + 1..]
    && HasInnerDot(s[at + 1..])
  }

  lemma EmailMatchesGivesLanguage(s: string)
    requires EmailMatches(s)
    ensures EmailLanguage(s)
  {
    var at := Find(s, '@');
    var d := s[at + 1..];
    var p :| 1 <= p < |d| - 1 && d[p] == '.';
    var j := at + 1 + p;
    assert s[j] == '.';
    var local, domain, top := s[..at], s[at + 1..j], s[j + 1..];
    assert Atom(local) by {
      forall k | 0 <= k < |local| ensures !IsWhitespace(local[k]) && local[k] != '@' {
        assert local[k] == s[k];
      }
    }
    assert Atom(domain) by {
      forall k | 0 <= k < |domain| ensures !IsWhitespace(domain[k]) && domain[k] != '@' {
        assert domain[k] == s[at + 1 + k] == d[k];
      }
    }
    assert Atom(top) by {
      forall k | 0 <= k < |top| ensures !IsWhitespace(top[k]) && top[k] != '@' {
        assert top[k] == s[j + 1 + k] == d[p + 1 + k];
      }
    }
  }

  /** The characters of an atom cut out of `s` are neither whitespace nor `@`. */
  lemma AtomChars(s: string, lo: nat, hi: nat)
    requires lo <= hi <= |s| && Atom(s[lo..hi])
    ensures lo < hi
    ensures forall k :: lo <= k < hi ==> !IsWhitespace(s[k]) && s[k] != '@'
  {
    forall k | lo <= k < hi ensures !IsWhitespace(s[k]) && s[k] != '@' {
      assert s[k] == s[lo..hi][k - lo];
    }
  }

  lemma FindIs(s: string, c: char, i: nat)
    requires i < |s| && s[i] == c
    requires forall k :: 0 <= k < i ==> s[k] != c
    ensures Find(s, c) == i
  {
  }

  /** The three-atom split at `i` and `j` passes the backtracking-free test. */
  lemma SplitGivesEmailMatches(s: string, i: nat, j: nat)
    requires i < j < |s| && s[i] == '@' && s[j] == '.'
    requires Atom(s[..i]) && Atom(s[i + 1..j]) && Atom(s[j + 1..])
    ensures EmailMatches(s)
  {
    assert s[..i] == s[0..i];
    assert s[j + 1..] == s[j + 1..|s|];
    AtomChars(s, 0, i);
    AtomChars(s, i + 1, j);
    AtomChars(s, j + 1, |s|);
    FindIs(s, '@', i);
    assert !IsWhitespace('@') && !IsWhitespace('.');
    assert forall k :: 0 <= k < |s| ==> !IsWhitespace(s[k]);
    var d := s[i + 1..];
    assert forall k :: 0 <= k < |d| ==> d[k] == s[i + 1 + k];
    assert '@' !in d;
    assert d[j - i - 1] == '.';
    assert HasInnerDot(d);
  }

  lemma LanguageGivesEmailMatches(s: string)
    requires EmailLanguage(s)
    ensures EmailMatches(s)
  {
    var i, j :| 0 <= i < j < |s| && s[i] == '@' && s[j] == '.'
                && Atom(s[..i]) && Atom(s[i + 1..j]) && Atom(s[j + 1..]);
    SplitGivesEmailMatches(s, i, j);
  }

  /** The backtracking-free test accepts exactly the language of the
      regular expression. */
  lemma EmailMatchesIffLanguage(s: string)
    ensures EmailMatches(s) <==> EmailLanguage(s)
  {
    if EmailMatches(s) { EmailMatchesGivesLanguage(s); }
    if EmailLanguage(s) { LanguageGivesEmailMatches(s); }
  }

  datatype Form = Form(name: string, email: string, password: string)

  /** The checks run in the order name, email, password; the message of
      the first one that fails is returned, and `''` when all pass. */
  function ValidateInputs(form: Form): (message: string)
    ensures message == "" <==> NameMatches(form.name) && EmailLanguage(form.email) && PasswordMatches(form.password)
    ensures !NameMatches(form.name) ==> message == NameError
    ensures NameMatches(form.name) && !EmailLanguage(form.email) ==> message == EmailError
    ensures NameMatches(form.name) && EmailLanguage(form.email) && !PasswordMatches(form.password) ==> message == PasswordError
  {
    EmailMatchesIffLanguage(form.email);
    if !NameMatches(form.name) then NameError
    else if !EmailMatches(form.email) then EmailError
    else if !PasswordMatches(form.password) then PasswordError
    else ""
  }

  /** What `handleSubmit` does before any request: show the validation
      message, or post the form unchanged. */
  datatype Submission = Rejected(message: string) | Posted(form: Form)

  function HandleSubmit(form: Form): (s: Submission)
    ensures s.Posted? <==> NameMatches(form.name) && EmailLanguage(form.email) && PasswordMatches(form.password)
    ensures s.Posted? ==> s.form == form
    ensures s.Rejected? ==> s.message != "" && s.message == ValidateInputs(form)
  {
    var validationError := ValidateInputs(form);
    if validationError != "" then Rejected(validationError) else Posted(form)
  }
}
