/**
 * The sign-in form: `onSubmit` clears the error, rejects a blank email or
 * password, then rejects an email that does not match
 * `^[^@\s]+@[^@\s]+\.[^@\s]+$`, and otherwise routes by the chosen role.
 */
module Login {
  import opened Wrappers
  import opened Text

  datatype Role = Student | Professor

  /** What one submit ends in: an error message shown, or a navigation. */
  datatype SubmitOutcome = Rejected(message: string) | Navigated(route: string)

  const BlankMessage: string := "Please enter your email and password."
  const InvalidEmailMessage: string := "Please enter a valid email address."

  /** `[^@\s]`: a character the email pattern allows inside its three parts. */
  predicate Plain(c: char) {
    c != '@' && !IsWhitespace(c)
  }

  ghost predicate AllPlain(s: string) {
    forall k :: 0 <= k < |s| ==> Plain(s[k])
  }

  /**
   * The regular expression itself: the whole string is a non-empty plain
   * run, '@', a non-empty plain run, '.', and a non-empty plain run.
   */
  ghost predicate EmailPatternSplit(s: string, i: int, j: int) {
    0 < i && i + 1 < j && j + 1 < |s| && s[i] == '@' && s[j] == '.'
    && AllPlain(s[..i]) && AllPlain(s[i + 1..j]) && AllPlain(s[j + 1..])
  }

  ghost predicate MatchesEmailPattern(s: string) {
    exists i, j :: EmailPatternSplit(s, i, j)
  }

  /**
   * The same rule stated on the parts: no white space, exactly one '@' with
   * something before it, and a '.' in the domain that is neither its first
   * nor its last character.
   */
  predicate IsValidEmail(s: string) {
    && (forall k | 0 <= k < |s| :: !IsWhitespace(s[k]))
    && exists i | 0 < i < |s| ::
         && s[i] == '@'
         && (forall k | 0 <= k < |s| && k != i :: s[k] != '@')
         && (exists j | i + 1 < j < |s| - 1 :: s[j] == '.')
  }

  /** The part-wise rule accepts exactly the strings the regular expression matches. */
  lemma ValidEmailIffPattern(s: string)
    ensures IsValidEmail(s) <==> MatchesEmailPattern(s)
  {
    if IsValidEmail(s) {
      var i :| 0 < i < |s| && s[i] == '@' && (forall k | 0 <= k < |s| && k != i :: s[k] != '@')
               && (exists j | i + 1 < j < |s| - 1 :: s[j] == '.');
      var j :| i + 1 < j < |s| - 1 && s[j] == '.';
      assert forall k :: 0 <= k < |s| && k != i ==> Plain(s[k]);
      assert AllPlain(s[..i]) by {
        forall k | 0 <= k < |s[..i]| ensures Plain(s[..i][k]) {
          assert s[..i][k] == s[k];
        }
      }
      var mid, domainTail := s[i + 1..j], s[j + 1..];
      assert AllPlain(mid) by {
        forall k | 0 <= k < |mid| ensures Plain(mid[k]) {
          assert mid[k] == s[i + 1 + k];
        }
      }
      assert AllPlain(domainTail) by {
        forall k | 0 <= k < |domainTail| ensures Plain(domainTail[k]) {
          assert domainTail[k] == s[j + 1 + k];
        }
      }
      assert EmailPatternSplit(s, i, j);
    }
    if MatchesEmailPattern(s) {
      var i, j :| EmailPatternSplit(s, i, j);
      forall k | 0 <= k < |s| && k != i ensures Plain(s[k]) || k == j {
        if k < i {
          assert s[..i][k] == s[k];
        } else if i < k < j {
          assert s[i + 1..j][k - i - 1] == s[k];
        } else if k > j {
          assert s[j + 1..][k - j - 1] == s[k];
        }
      }
      assert s[j] == '.' && s[i] == '@';
    }
  }

  /** Leading or trailing white space around an otherwise well-formed email is rejected. */
  lemma SurroundingWhitespaceRejected(s: string)
    requires s != [] && (IsWhitespace(s[0]) || IsWhitespace(s[|s| - 1]))
    ensures !IsValidEmail(s)
  {
  }

  /** Where a successful sign-in goes. */
  function RouteFor(role: Role): (route: string)
    ensures route == "/" <==> role == Student
    ensures route == "/professor" <==> role == Professor
  {
    match role
    case Student => "/"
    case Professor => "/professor"
  }

  /** `onSubmit`: the blank check first, then the email pattern (on the untrimmed email), then the route. */
  function Submit(role: Role, email: string, password: string): (r: SubmitOutcome)
    ensures r.Navigated? <==> !IsBlank(email) && !IsBlank(password) && IsValidEmail(email)
    ensures r.Navigated? ==> r.route == RouteFor(role)
    ensures r.Rejected? ==> r.message == BlankMessage || r.message == InvalidEmailMessage
    ensures r == Rejected(BlankMessage) <==> IsBlank(email) || IsBlank(password)
  {
    assert BlankMessage != InvalidEmailMessage by {
      assert BlankMessage[13] == 'y' && InvalidEmailMessage[13] == 'a';
    }
    if IsBlank(email) || IsBlank(password) then Rejected(BlankMessage)
    else if !IsValidEmail(email) then Rejected(InvalidEmailMessage)
    else Navigated(RouteFor(role))
  }

  /** The email pattern is checked only once both fields are filled in: a blank email never gets the format message. */
  lemma BlankNeverInvalidFormat(role: Role, email: string, password: string)
    requires IsBlank(email) || IsBlank(password)
    ensures Submit(role, email, password) != Rejected(InvalidEmailMessage)
  {
  }

  /** The password has no rule beyond being non-blank: any two non-blank passwords are treated alike. */
  lemma PasswordOnlyNonBlank(role: Role, email: string, p1: string, p2: string)
    requires !IsBlank(p1) && !IsBlank(p2)
    ensures Submit(role, email, p1) == Submit(role, email, p2)
  {
  }

  /** Blank means white space only: the trimmed-emptiness test of either field. */
  lemma BlankFieldRejected(role: Role, email: string, password: string)
    requires forall k :: 0 <= k < |password| ==> IsWhitespace(password[k])
    ensures Submit(role, email, password) == Rejected(BlankMessage)
  {
    BlankIffAllWhitespace(password);
  }

  /**
   * The form's state: its inputs, the error shown, the loading flag that
   * disables the submit button, and the route a successful submit will
   * navigate to once its delay has elapsed.
   */
  class LoginForm {
    var role: Role
    var email: string
    var password: string
    var error: Option<string>
    var loading: bool
    var pending: Option<string>

    ghost predicate Valid()
      reads this
    {
      && (loading <==> pending.Some?)
      && (pending.Some? ==> pending.value == RouteFor(Student) || pending.value == RouteFor(Professor))
    }

    constructor ()
      ensures Valid()
      ensures role == Student && email == "" && password == "" && error == None && !loading
    {
      role, email, password := Student, "", "";
      error, loading, pending := None, false, None;
    }

    /**
     * `onSubmit` while the button is enabled: the error is reset, then set to
     * the rejection message if there is one; otherwise loading starts and the
     * route of the role chosen at submit time is remembered.
     */
    method OnSubmit()
      requires Valid() && !loading
      modifies this`error, this`loading, this`pending
      ensures Valid()
      ensures Submit(role, email, password).Rejected? ==>
        error == Some(Submit(role, email, password).message) && !loading
      ensures Submit(role, email, password).Navigated? ==>
        error == None && pending == Some(RouteFor(role))
    {
      error := None;
      var outcome := Submit(role, email, password);
      match outcome
      case Rejected(message) =>
        error := Some(message);
      case Navigated(route) =>
        loading, pending := true, Some(route);
    }

    /** The sign-in delay has elapsed: loading stops and the form navigates. */
    method DelayElapsed() returns (route: string)
      requires Valid() && loading
      modifies this`loading, this`pending
      ensures Valid() && !loading
      ensures route == old(pending).value
      ensures route == "/" || route == "/professor"
    {
      route := pending.value;
      loading, pending := false, None;
    }
  }
}
