/** The contact form (app/contact/page.tsx): the e-mail address check and the guards around
    sending the message. */
module Contact {
  import opened Wrappers
  import opened Text

  // ---------------------------------------------------------------------------------------
  // `/^[^\s@]+@[^\s@]+\.[^\s@]+$/`
  // ---------------------------------------------------------------------------------------

  /** Every character is matched by `[^\s@]`. */
  predicate Plain(s: string) {
    forall i :: 0 <= i < |s| ==> !IsSpace(s[i]) && s[i] != '@'
  }

  /** The position of the first '@', if any. */
  function FirstAt(s: string): (r: Option<nat>)
    ensures r.Some? ==> r.value < |s| && s[r.value] == '@' && forall j :: 0 <= j < r.value ==> s[j] != '@'
    ensures r.None? ==> forall j :: 0 <= j < |s| ==> s[j] != '@'
  {
    if s == [] then None
    else if s[0] == '@' then Some(0)
    else
      match FirstAt(s[1..])
      case None => None
      case Some(k) => Some(k + 1)
  }

  /** The first '@' is the one with none before it. */
  lemma FirstAtIs(s: string, i: nat)
    requires i < |s| && s[i] == '@' && forall j :: 0 <= j < i ==> s[j] != '@'
    ensures FirstAt(s) == Some(i)
  {
  }

  /** A '.' somewhere strictly inside `d`, with at least one character on either side. */
  predicate HasInnerDot(d: string) {
    |d| >= 3 && '.' in d[1..|d| - 1]
  }

  /** The check the form runs: split at the first '@'; the part before must be non-empty and
      plain, the part after plain with an inner '.'. */
  predicate IsValidEmail(email: string) {
    match FirstAt(email)
    case None => false
    case Some(i) => i > 0 && Plain(email[..i]) && Plain(email[i + 1..]) && HasInnerDot(email[i + 1..])
  }

  /** The pattern read literally: one or more plain characters, '@', one or more plain characters,
      '.', one or more plain characters, and nothing else. */
  ghost predicate MatchesEmailPattern(email: string) {
    exists i, j ::
      && 0 < i && i + 1 < j < |email| - 1
      && email[i] == '@' && email[j] == '.'
      && Plain(email[..i]) && Plain(email[i + 1..j]) && Plain(email[j + 1..])
  }

  /** What the scanner accepts, the pattern matches. */
  lemma ValidEmailMatches(email: string)
    requires IsValidEmail(email)
    ensures MatchesEmailPattern(email)
  {
    var i := FirstAt(email).value;
    var d := email[i + 1..];
    var k :| 0 <= k < |d[1..|d| - 1]| && d[1..|d| - 1][k] == '.';
    var j := i + 2 + k;
    assert email[j] == '.';
    assert email[i + 1..j] == d[..k + 1];
    assert email[j + 1..] == d[k + 2..];
    PlainSlice(d, 0, k + 1);
    PlainSlice(d, k + 2, |d|);
    assert d[0..k + 1] == d[..k + 1] && d[k + 2..|d|] == d[k + 2..];
    assert 0 < i && i + 1 < j < |email| - 1 && email[i] == '@'
           && Plain(email[..i]) && Plain(email[i + 1..j]) && Plain(email[j + 1..]);
  }

  /** A piece of a plain string is plain. */
  lemma PlainSlice(s: string, a: int, b: int)
    requires Plain(s) && 0 <= a <= b <= |s|
    ensures Plain(s[a..b])
  {
    forall m | 0 <= m < b - a ensures !IsSpace(s[a..b][m]) && s[a..b][m] != '@' {
      assert s[a..b][m] == s[a + m];
    }
  }

  /** What the pattern matches, the scanner accepts. */
  lemma PatternMatchesValid(email: string, i: int, j: int)
    requires 0 < i && i + 1 < j < |email| - 1
    requires email[i] == '@' && email[j] == '.'
    requires Plain(email[..i]) && Plain(email[i + 1..j]) && Plain(email[j + 1..])
    ensures IsValidEmail(email)
  {
    forall m | 0 <= m < i ensures email[m] != '@' {
      assert email[..i][m] == email[m];
    }
    FirstAtIs(email, i);
    var d := email[i + 1..];
    forall m | 0 <= m < |d| ensures !IsSpace(d[m]) && d[m] != '@' {
      if m < j - i - 1 {
        assert d[m] == email[i + 1..j][m];
      } else if m > j - i - 1 {
        assert d[m] == email[j + 1..][m - (j - i)];
      }
    }
    assert d[1..|d| - 1][j - i - 2] == d[j - i - 1] == '.';
  }

  /** The scanner accepts exactly the strings the pattern matches. */
  lemma ValidEmailIff(email: string)
    ensures IsValidEmail(email) <==> MatchesEmailPattern(email)
  {
    if IsValidEmail(email) {
      ValidEmailMatches(email);
    }
    if MatchesEmailPattern(email) {
      var i, j :| && 0 < i && i + 1 < j < |email| - 1
                  && email[i] == '@' && email[j] == '.'
                  && Plain(email[..i]) && Plain(email[i + 1..j]) && Plain(email[j + 1..]);
      PatternMatchesValid(email, i, j);
    }
  }

  /** An accepted address has exactly one '@', before which something stands, and no white
      space anywhere. */
  lemma ValidEmailShape(email: string)
    requires IsValidEmail(email)
    ensures exists i :: 0 < i < |email| && email[i] == '@' && forall j :: 0 <= j < |email| && email[j] == '@' ==> j == i
    ensures forall j :: 0 <= j < |email| ==> !IsSpace(email[j])
  {
    var i := FirstAt(email).value;
    var d := email[i + 1..];
    forall j | 0 <= j < |email|
      ensures !IsSpace(email[j])
    {
      if j < i {
        assert email[..i][j] == email[j];
      } else if j > i {
        assert d[j - i - 1] == email[j];
      }
    }
  }

  /** An ordinary address is accepted. */
  lemma OrdinaryEmailAccepted()
    ensures IsValidEmail("jane@example.com")
  {
    var e := "jane@example.com";
    assert e[..4] == "jane" && e[5..12] == "example" && e[13..] == "com";
    PatternMatchesValid(e, 4, 12);
  }

  /** An address without any '.' is refused. */
  lemma DotlessEmailsRefused(email: string)
    requires forall m :: 0 <= m < |email| ==> email[m] != '.'
    ensures !IsValidEmail(email)
  {
  }

  /** With nothing between the '@' and the dot, an address is refused. */
  lemma EmptyDomainLabelRefused()
    ensures !IsValidEmail("jane@.com")
  {
    var e := "jane@.com";
    FirstAtIs(e, 4);
    assert e[5..] == ".com";
    assert ".com"[1..3] == "co";
  }

  /** An address with nothing before the '@' is refused. */
  lemma NamelessEmailRefused()
    ensures !IsValidEmail("@example.com")
  {
    assert FirstAt("@example.com") == Some(0);
  }

  /** A second '@' is refused. */
  lemma DoubleAtEmailRefused()
    ensures !IsValidEmail("jane@@example.com")
  {
    var twice := "jane@@example.com";
    FirstAtIs(twice, 4);
    assert twice[5..][0] == '@';
  }

  /** A space is refused. */
  lemma SpacedEmailRefused()
    ensures !IsValidEmail("jane doe@example.com")
  {
    var spaced := "jane doe@example.com";
    FirstAtIs(spaced, 8);
    assert spaced[..8][4] == ' ';
  }

  // ---------------------------------------------------------------------------------------
  // The form
  // ---------------------------------------------------------------------------------------

  const InvalidEmailMessage: string := "Please enter a valid email address."

  /** The three settings the sending service needs; an empty one is missing. */
  datatype SendConfig = SendConfig(serviceId: string, templateId: string, publicKey: string)

  predicate ConfigComplete(c: SendConfig) {
    c.serviceId != "" && c.templateId != "" && c.publicKey != ""
  }

  /** What is handed to the sending service. */
  datatype TemplateParams = TemplateParams(fromName: string, fromEmail: string, replyTo: string, subject: string, message: string)

  class ContactForm {
    var name: string
    var email: string
    var subject: string
    var message: string
    var showSuccess: bool
    var emailError: string
    var loading: bool
    /** The messages handed to the sending service, oldest first. */
    var sent: seq<TemplateParams>

    constructor ()
      ensures name == "" && email == "" && subject == "" && message == ""
      ensures !showSuccess && emailError == "" && !loading && sent == []
    {
      name, email, subject, message := "", "", "", "";
      showSuccess, emailError, loading := false, "", false;
      sent := [];
    }

    /** Typing in the e-mail field replaces the address and clears any error shown. */
    method EditEmail(text: string)
      modifies this
      ensures email == text && emailError == ""
      ensures name == old(name) && subject == old(subject) && message == old(message)
      ensures showSuccess == old(showSuccess) && loading == old(loading) && sent == old(sent)
    {
      email := text;
      if emailError != "" {
        emailError := "";
      }
    }

    /** "Send". An invalid address only sets the error. A missing setting aborts with loading
        cleared and nothing sent. Otherwise the form's contents are sent once; `delivered` is the
        service's answer, and only a delivery shows the success panel and empties the four
        fields. */
    method Submit(config: SendConfig, delivered: bool)
      modifies this
      ensures name == old(name) || name == ""
      ensures !IsValidEmail(old(email)) ==>
                && emailError == InvalidEmailMessage && loading == old(loading) && sent == old(sent)
                && name == old(name) && email == old(email) && subject == old(subject) && message == old(message)
                && showSuccess == old(showSuccess)
      ensures IsValidEmail(old(email)) ==> emailError == old(emailError) && !loading
      ensures IsValidEmail(old(email)) && !ConfigComplete(config) ==>
                && sent == old(sent) && showSuccess == old(showSuccess)
                && name == old(name) && email == old(email) && subject == old(subject) && message == old(message)
      ensures IsValidEmail(old(email)) && ConfigComplete(config) ==>
                && sent == old(sent) + [TemplateParams(old(name), old(email), old(email), old(subject), old(message))]
                && (delivered ==> showSuccess && name == "" && email == "" && subject == "" && message == "")
                && (!delivered ==> showSuccess == old(showSuccess)
                                   && name == old(name) && email == old(email)
                                   && subject == old(subject) && message == old(message))
    {
      if !IsValidEmail(email) {
        emailError := InvalidEmailMessage;
        return;
      }
      loading := true;
      if config.serviceId == "" || config.templateId == "" || config.publicKey == "" {
        loading := false;
        return;
      }
      sent := sent + [TemplateParams(name, email, email, subject, message)];
      if delivered {
        showSuccess := true;
        name, email, subject, message := "", "", "", "";
      }
      loading := false;
    }
  }
}
