/**
  The contact form's submit handler: it trims the three fields, checks the
  name's length, the e-mail address's shape and the message's length, and
  shows either one error toast listing every failed check or a success
  toast (after which the form is reset).
 */
module ContactForm {
  import opened Text

  const MinNameLength: nat := 2
  const MinMessageLength: nat := 15

  const NameError: string := "Name must be at least 2 characters long."
  const EmailError: string := "Please enter a valid email address."
  const MessageError: string := "Message should be at least 15 characters long."
  const SuccessText: string := "Message sent! I'll reply within 2 business days."

  // ---------------------------------------------------------------------
  // The e-mail address check.

  /** A character the pattern's class `[^\s@]` accepts. */
  predicate Plain(c: char) {
    !IsWhitespace(c) && c != '@'
  }

  /** `[^\s@]+`: one or more plain characters. */
  predicate PlainRun(s: string) {
    |s| >= 1 && forall k :: 0 <= k < |s| ==> Plain(s[k])
  }

  /** The language of `^[^\s@]+@[^\s@]+\.[^\s@]+$`, read off the pattern:
      the text splits at `i` (the `@`) and `j` (the escaped dot) into three
      plain runs. */
  ghost predicate MatchesEmailPattern(s: string) {
    exists i, j :: 0 < i < j < |s| - 1
                   && PlainRun(s[..i]) && s[i] == '@'
                   && PlainRun(s[i + 1..j]) && s[j] == '.' && PlainRun(s[j + 1..])
  }

  /** Number of occurrences of `c` in `s`. */
  function Count(s: string, c: char): (n: nat)
    ensures n <= |s|
    ensures n == 0 <==> c !in s
  {
    if s == [] then 0
    else (if s[0] == c then 1 else 0) + Count(s[1..], c)
  }

  /** A dot that is neither the first nor the last character of `t`. */
  predicate HasInnerDot(t: string) {
    |t| >= 3 && '.' in t[1..|t| - 1]
  }

  /** `isValidEmail`: no whitespace, exactly one `@` with something before
      it, and after it a dot that is neither first nor last. */
  predicate IsValidEmail(s: string) {
    && NoWhitespace(s)
    && Count(s, '@') == 1
    && var i := IndexOf(s, '@');
       i > 0 && HasInnerDot(s[i + 1..])
  }

  /** With `s[i] == c` the first occurrence, `c` occurs once exactly when
      it does not occur after `i`. */
  lemma {:induction false} CountAfterFirst(s: string, c: char, i: nat)
    requires i < |s| && s[i] == c && c !in s[..i]
    ensures Count(s, c) == 1 + Count(s[i + 1..], c)
  {
    if i > 0 {
      assert s[0] != c by { assert s[0] == s[..i][0]; }
      assert s[1..][..i - 1] == s[..i][1..];
      CountAfterFirst(s[1..], c, i - 1);
      assert s[1..][i..] == s[i + 1..];
    }
  }

  /** A slice of a text with no whitespace, and no `@` in the slice, is a
      plain run when it is not empty. */
  lemma PlainSlice(s: string, a: nat, b: nat)
    requires a < b <= |s| && NoWhitespace(s) && '@' !in s[a..b]
    ensures PlainRun(s[a..b])
  {
    assert forall k :: 0 <= k < b - a ==> s[a..b][k] == s[a + k];
  }

  /** The parts of a match are plain, so the whole text is plain except for
      its one `@`. */
  lemma PatternParts(s: string, i: nat, j: nat)
    requires 0 < i < j < |s| - 1
    requires PlainRun(s[..i]) && s[i] == '@'
    requires PlainRun(s[i + 1..j]) && s[j] == '.' && PlainRun(s[j + 1..])
    ensures forall k :: 0 <= k < |s| && k != i ==> Plain(s[k])
  {
    forall k | 0 <= k < |s| && k != i ensures Plain(s[k]) {
      if k < i {
        assert s[k] == s[..i][k];
      } else if k < j {
        assert s[k] == s[i + 1..j][k - i - 1];
      } else if k > j {
        assert s[k] == s[j + 1..][k - j - 1];
      }
    }
  }

  lemma ValidEmailMatches(s: string)
    requires IsValidEmail(s)
    ensures MatchesEmailPattern(s)
  {
    var i := IndexOf(s, '@');
    var rest := s[i + 1..];
    CountAfterFirst(s, '@', i);
    assert '@' !in rest;
    var m := IndexOf(rest[1..|rest| - 1], '.');
    var j := i + 2 + m;
    assert s[j] == '.' by { assert rest[1..|rest| - 1][m] == rest[m + 1]; }
    assert '@' !in s[i + 1..j] by { assert s[i + 1..j] == rest[..m + 1]; }
    assert '@' !in s[j + 1..] by { assert s[j + 1..] == rest[m + 2..]; }
    PlainSlice(s, 0, i);
    PlainSlice(s, i + 1, j);
    PlainSlice(s, j + 1, |s|);
    assert s[..i] == s[0..i] && s[j + 1..] == s[j + 1..|s|];
  }

  lemma MatchIsValidEmail(s: string)
    requires MatchesEmailPattern(s)
    ensures IsValidEmail(s)
  {
    var i, j :| 0 < i < j < |s| - 1
                && PlainRun(s[..i]) && s[i] == '@'
                && PlainRun(s[i + 1..j]) && s[j] == '.' && PlainRun(s[j + 1..]);
    PatternParts(s, i, j);
    assert NoWhitespace(s);
    assert '@' !in s[..i] by {
      assert forall k :: 0 <= k < i ==> s[..i][k] == s[k];
    }
    assert IndexOf(s, '@') == i;
    var rest := s[i + 1..];
    assert '@' !in rest by {
      assert forall k :: 0 <= k < |rest| ==> rest[k] == s[i + 1 + k];
    }
    CountAfterFirst(s, '@', i);
    assert Count(s, '@') == 1;
    assert HasInnerDot(rest) by {
      assert rest[1..|rest| - 1][j - i - 2] == s[j];
    }
  }

  /** The check the handler runs accepts exactly the pattern's language. */
  lemma IsValidEmailMatchesPattern(s: string)
    ensures IsValidEmail(s) <==> MatchesEmailPattern(s)
  {
    if IsValidEmail(s) {
      ValidEmailMatches(s);
    }
    if MatchesEmailPattern(s) {
      MatchIsValidEmail(s);
    }
  }

  // Short addresses on either side of the check.

  lemma EmailAccepted() ensures IsValidEmail("a@b.c") { }

  lemma EmailWithoutDotRejected() ensures !IsValidEmail("a@bc") { }

  lemma EmailWithoutLocalPartRejected() ensures !IsValidEmail("@b.c") { }

  lemma EmailDotAfterAtRejected() ensures !IsValidEmail("a@.c") { }

  lemma EmailDotLastRejected() ensures !IsValidEmail("a@b.") { }

  lemma EmailTwoAtsRejected() ensures !IsValidEmail("a@b@c.d") { }

  lemma EmailWithSpaceRejected() ensures !IsValidEmail("a b@c.d") { }

  // ---------------------------------------------------------------------
  // The three checks and the outcome of a submission.

  datatype Check = NameCheck | EmailCheck | MessageCheck

  /** The order in which the handler runs the checks. */
  const CheckOrder: seq<Check> := [NameCheck, EmailCheck, MessageCheck]

  function Rank(c: Check): nat {
    match c
    case NameCheck => 0
    case EmailCheck => 1
    case MessageCheck => 2
  }

  function ErrorText(c: Check): string {
    match c
    case NameCheck => NameError
    case EmailCheck => EmailError
    case MessageCheck => MessageError
  }

  /** Whether check `c` fails for the trimmed fields. */
  predicate Fails(c: Check, name: string, email: string, message: string) {
    match c
    case NameCheck => |name| < MinNameLength
    case EmailCheck => !IsValidEmail(email)
    case MessageCheck => |message| < MinMessageLength
  }

  /** Each check of `s` ranks strictly below every later one. */
  predicate StrictlyRanked(s: seq<Check>) {
    forall a, b :: 0 <= a < b < |s| ==> Rank(s[a]) < Rank(s[b])
  }

  /** The checks of `cs` that fail, keeping their order. */
  function FailingOf(cs: seq<Check>, name: string, email: string, message: string): seq<Check> {
    if cs == [] then []
    else if Fails(cs[0], name, email, message) then [cs[0]] + FailingOf(cs[1..], name, email, message)
    else FailingOf(cs[1..], name, email, message)
  }

  /** Filtering keeps exactly the failing checks and keeps their order. */
  lemma {:induction false} FailingOfIsFilter(cs: seq<Check>, name: string, email: string, message: string)
    ensures forall c :: c in FailingOf(cs, name, email, message) <==> c in cs && Fails(c, name, email, message)
    ensures StrictlyRanked(cs) ==> StrictlyRanked(FailingOf(cs, name, email, message))
  {
    if cs != [] {
      FailingOfIsFilter(cs[1..], name, email, message);
      assert StrictlyRanked(cs) ==> forall c :: c in cs[1..] ==> Rank(cs[0]) < Rank(c);
    }
  }

  /** The checks that fail for the trimmed fields, in the handler's order. */
  function Failing(name: string, email: string, message: string): seq<Check> {
    FailingOf(CheckOrder, name, email, message)
  }

  /** The failing checks are listed exactly once each, name before e-mail
      before message. */
  lemma FailingIsExact(name: string, email: string, message: string)
    ensures forall c :: c in Failing(name, email, message) <==> Fails(c, name, email, message)
    ensures StrictlyRanked(Failing(name, email, message))
  {
    FailingOfIsFilter(CheckOrder, name, email, message);
    assert StrictlyRanked(CheckOrder);
    forall c ensures c in CheckOrder {
      match c
      case NameCheck => assert CheckOrder[0] == c;
      case EmailCheck => assert CheckOrder[1] == c;
      case MessageCheck => assert CheckOrder[2] == c;
    }
  }

  function Messages(cs: seq<Check>): (r: seq<string>)
    ensures |r| == |cs| && forall k :: 0 <= k < |cs| ==> r[k] == ErrorText(cs[k])
  {
    seq(|cs|, k requires 0 <= k < |cs| => ErrorText(cs[k]))
  }

  /** What the visitor sees after pressing submit. A success toast also
      resets the form. */
  datatype Outcome = ErrorToast(text: string) | SuccessToast(text: string)

  /** The checks on the trimmed fields: the message of every check that
      fails, pushed in the order name, e-mail, message. */
  method CollectErrors(name: string, email: string, message: string) returns (errors: seq<string>)
    ensures errors == Messages(Failing(name, email, message))
    ensures errors == [] <==>
              |name| >= MinNameLength && IsValidEmail(email) && |message| >= MinMessageLength
  {
    errors := [];
    ghost var failed: seq<Check> := [];
    if name == [] || |name| < MinNameLength {
      MessagesPush(failed, NameCheck);
      errors, failed := errors + [NameError], failed + [NameCheck];
    }
    assert errors == Messages(failed);
    if email == [] || !IsValidEmail(email) {
      MessagesPush(failed, EmailCheck);
      errors, failed := errors + [EmailError], failed + [EmailCheck];
    }
    assert errors == Messages(failed);
    if message == [] || |message| < MinMessageLength {
      MessagesPush(failed, MessageCheck);
      errors, failed := errors + [MessageError], failed + [MessageCheck];
    }
    FailingInOrder(name, email, message);
  }

  lemma MessagesPush(cs: seq<Check>, c: Check)
    ensures Messages(cs + [c]) == Messages(cs) + [ErrorText(c)]
  {
  }

  /** The submit handler, given the raw values of the name, email and
      message fields. */
  method Submit(nameField: string, emailField: string, messageField: string) returns (outcome: Outcome)
    ensures outcome.SuccessToast? <==>
              |Trim(nameField)| >= MinNameLength && IsValidEmail(Trim(emailField))
              && |Trim(messageField)| >= MinMessageLength
    ensures outcome.SuccessToast? ==> outcome.text == SuccessText
    ensures outcome.ErrorToast? ==>
              outcome.text == Join(Messages(Failing(Trim(nameField), Trim(emailField), Trim(messageField))), '\n')
  {
    var name := Trim(nameField);
    var email := Trim(emailField);
    var message := Trim(messageField);

    var errors := CollectErrors(name, email, message);
    if |errors| > 0 {
      outcome := ErrorToast(Join(errors, '\n'));
      return;
    }
    outcome := SuccessToast(SuccessText);
  }

  /** `Failing` spelled out check by check. */
  lemma FailingInOrder(name: string, email: string, message: string)
    ensures Failing(name, email, message)
            == (if Fails(NameCheck, name, email, message) then [NameCheck] else [])
             + (if Fails(EmailCheck, name, email, message) then [EmailCheck] else [])
             + (if Fails(MessageCheck, name, email, message) then [MessageCheck] else [])
  {
    var last := [MessageCheck];
    assert last[1..] == [];
    assert FailingOf(last, name, email, message)
           == if Fails(MessageCheck, name, email, message) then [MessageCheck] else [];
    var two := [EmailCheck, MessageCheck];
    assert two[1..] == last;
    assert FailingOf(two, name, email, message)
           == (if Fails(EmailCheck, name, email, message) then [EmailCheck] else [])
            + FailingOf(last, name, email, message);
    assert CheckOrder[1..] == two;
  }

  // None of the error messages holds a line break.

  lemma NameErrorSingleLine() ensures '\n' !in NameError {
    var head, tail := "Name must be at ", "least 2 characters long.";
    assert NameError == head + tail;
    assert '\n' !in head && '\n' !in tail;
  }

  lemma EmailErrorSingleLine() ensures '\n' !in EmailError {
    var head, tail := "Please enter a ", "valid email address.";
    assert EmailError == head + tail;
    assert '\n' !in head && '\n' !in tail;
  }

  lemma MessageErrorSingleLine() ensures '\n' !in MessageError {
    var head, tail := "Message should be at ", "least 15 characters long.";
    assert MessageError == head + tail;
    assert '\n' !in head && '\n' !in tail;
  }

  /** The error toast's lines are exactly the messages of the failed
      checks: none of the messages holds a line break. */
  lemma ErrorToastLines(name: string, email: string, message: string)
    requires Failing(name, email, message) != []
    ensures Split(Join(Messages(Failing(name, email, message)), '\n'), '\n') == Messages(Failing(name, email, message))
  {
    var ms := Messages(Failing(name, email, message));
    NameErrorSingleLine();
    EmailErrorSingleLine();
    MessageErrorSingleLine();
    SplitJoin(ms, '\n');
  }
}
