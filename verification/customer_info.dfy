/**
 * The customer-information schema of the booking form: a name of 2 to 50
 * letters and spaces, a phone of at least 10 characters drawn from digits,
 * '+', whitespace, parentheses and '-', and an email that may be absent,
 * empty, or must pass the email-format check.
 */
module CustomerInfo {
  import opened Wrappers

  /** The form's three fields; an email left undefined is `None`. */
  datatype CustomerInfo = CustomerInfo(name: string, phone: string, email: Option<string>)

  /** One failed rule, in the order the schema lists its rules. */
  datatype Issue =
    | NameTooShort | NameTooLong | NameNotLetters
    | PhoneTooShort | PhoneBadFormat
    | EmailInvalid

  datatype Field = Name | Phone | Email

  /** The field a rule belongs to. */
  function FieldOf(issue: Issue): Field {
    match issue
    case NameTooShort | NameTooLong | NameNotLetters => Name
    case PhoneTooShort | PhoneBadFormat => Phone
    case EmailInvalid => Email
  }

  const NameMinLength: nat := 2
  const NameMaxLength: nat := 50
  const PhoneMinLength: nat := 10

  predicate IsAsciiLetter(c: char) {
    'a' <= c <= 'z' || 'A' <= c <= 'Z'
  }

  /** The JavaScript regular-expression class `\s`: ECMAScript white space and line terminators. */
  predicate IsSpace(c: char) {
    || c == '\t' || c == '\n' || c == '\U{000B}' || c == '\U{000C}' || c == '\r' || c == ' '
    || c == '\U{00A0}' || c == '\U{1680}' || '\U{2000}' <= c <= '\U{200A}'
    || c == '\U{2028}' || c == '\U{2029}' || c == '\U{202F}' || c == '\U{205F}'
    || c == '\U{3000}' || c == '\U{FEFF}'
  }

  /** The class `[a-zA-Z\s]` of the name pattern. */
  predicate NameChar(c: char) {
    IsAsciiLetter(c) || IsSpace(c)
  }

  /** The class `[0-9+\s()-]` of the phone pattern. */
  predicate PhoneChar(c: char) {
    '0' <= c <= '9' || c == '+' || c == '(' || c == ')' || c == '-' || IsSpace(c)
  }

  /** Whether `s` matches `^[C]+$` for the class `cls`: one character of the class, then more of them. */
  function MatchesClassPlus(cls: char -> bool, s: string): bool {
    |s| > 0 && cls(s[0]) && (|s| == 1 || MatchesClassPlus(cls, s[1..]))
  }

  /** The name rules that `name` fails: `.min(2)`, `.max(50)`, `.regex(/^[a-zA-Z\s]+$/)`. */
  function NameIssues(name: string): seq<Issue> {
    (if |name| < NameMinLength then [NameTooShort] else [])
    + (if |name| > NameMaxLength then [NameTooLong] else [])
    + (if !MatchesClassPlus(NameChar, name) then [NameNotLetters] else [])
  }

  /** The phone rules that `phone` fails: `.min(10)`, `.regex(/^[0-9+\s()-]+$/)`. */
  function PhoneIssues(phone: string): seq<Issue> {
    (if |phone| < PhoneMinLength then [PhoneTooShort] else [])
    + (if !MatchesClassPlus(PhoneChar, phone) then [PhoneBadFormat] else [])
  }

  /**
   * The email rule `string().email().optional().or(literal(''))`: an absent
   * email passes the first alternative, '' the second, and any other string
   * passes only if the format check `isEmail` accepts it.
   */
  function EmailIssues(email: Option<string>, isEmail: string -> bool): seq<Issue> {
    match email
    case None => []
    case Some(e) => if isEmail(e) || e == "" then [] else [EmailInvalid]
  }

  /** All failed rules of the form, field by field in schema order. */
  function Validate(info: CustomerInfo, isEmail: string -> bool): seq<Issue> {
    NameIssues(info.name) + PhoneIssues(info.phone) + EmailIssues(info.email, isEmail)
  }

  predicate Accepts(info: CustomerInfo, isEmail: string -> bool) {
    Validate(info, isEmail) == []
  }

  /** The failed rules that belong to `field`, in order. */
  function IssuesOf(issues: seq<Issue>, field: Field): (r: seq<Issue>)
    ensures forall i | 0 <= i < |r| :: FieldOf(r[i]) == field
    ensures forall x | x in issues && FieldOf(x) == field :: x in r
  {
    if |issues| == 0 then []
    else (if FieldOf(issues[0]) == field then [issues[0]] else []) + IssuesOf(issues[1..], field)
  }

  /** The one-or-more pattern matches exactly the non-empty strings whose every character is in the class. */
  lemma {:induction false} MatchesClassPlusAll(cls: char -> bool, s: string)
    ensures MatchesClassPlus(cls, s) <==> |s| > 0 && forall i | 0 <= i < |s| :: cls(s[i])
    decreases |s|
  {
    if |s| > 1 {
      MatchesClassPlusAll(cls, s[1..]);
      assert forall i | 1 <= i < |s| :: s[i] == s[1..][i - 1];
    }
  }

  /** A name is accepted exactly when it has 2 to 50 characters, all ASCII letters or whitespace. */
  lemma NameRule(name: string)
    ensures NameIssues(name) == [] <==>
      NameMinLength <= |name| <= NameMaxLength && forall i | 0 <= i < |name| :: NameChar(name[i])
  {
    MatchesClassPlusAll(NameChar, name);
  }

  /** A phone is accepted exactly when it has at least 10 characters, each a digit, '+', whitespace, '(', ')' or '-'. */
  lemma PhoneRule(phone: string)
    ensures PhoneIssues(phone) == [] <==>
      PhoneMinLength <= |phone| && forall i | 0 <= i < |phone| :: PhoneChar(phone[i])
  {
    MatchesClassPlusAll(PhoneChar, phone);
  }

  /** An absent or empty email is accepted whatever the format check says; any other is accepted exactly when the check passes. */
  lemma EmailRule(email: Option<string>, isEmail: string -> bool)
    ensures email.None? || email.value == "" ==> EmailIssues(email, isEmail) == []
    ensures email.Some? && email.value != "" ==> (EmailIssues(email, isEmail) == [] <==> isEmail(email.value))
  {
  }

  /** The form is accepted exactly when each field passes its own rules. */
  lemma AcceptsIff(info: CustomerInfo, isEmail: string -> bool)
    ensures Accepts(info, isEmail) <==>
      && NameMinLength <= |info.name| <= NameMaxLength
      && (forall i | 0 <= i < |info.name| :: NameChar(info.name[i]))
      && PhoneMinLength <= |info.phone|
      && (forall i | 0 <= i < |info.phone| :: PhoneChar(info.phone[i]))
      && (info.email.None? || info.email.value == "" || isEmail(info.email.value))
  {
    NameRule(info.name);
    PhoneRule(info.phone);
  }

  lemma {:induction false} IssuesOfAppend(a: seq<Issue>, b: seq<Issue>, field: Field)
    ensures IssuesOf(a + b, field) == IssuesOf(a, field) + IssuesOf(b, field)
    decreases |a|
  {
    if |a| == 0 {
      assert a + b == b;
    } else {
      assert (a + b)[0] == a[0];
      assert (a + b)[1..] == a[1..] + b;
      IssuesOfAppend(a[1..], b, field);
    }
  }

  lemma {:induction false} IssuesOfOwn(issues: seq<Issue>, field: Field)
    requires forall i | 0 <= i < |issues| :: FieldOf(issues[i]) == field
    ensures IssuesOf(issues, field) == issues
    decreases |issues|
  {
    if |issues| > 0 {
      IssuesOfOwn(issues[1..], field);
      assert issues == [issues[0]] + issues[1..];
    }
  }

  lemma {:induction false} IssuesOfOther(issues: seq<Issue>, field: Field)
    requires forall i | 0 <= i < |issues| :: FieldOf(issues[i]) != field
    ensures IssuesOf(issues, field) == []
    decreases |issues|
  {
    if |issues| > 0 {
      IssuesOfOther(issues[1..], field);
    }
  }

  /** The issues of one field within the whole list are that field's own, whatever the other fields hold. */
  lemma {:induction false} IssuesOfThree(n: seq<Issue>, p: seq<Issue>, e: seq<Issue>, field: Field)
    requires forall i | 0 <= i < |n| :: FieldOf(n[i]) == Name
    requires forall i | 0 <= i < |p| :: FieldOf(p[i]) == Phone
    requires forall i | 0 <= i < |e| :: FieldOf(e[i]) == Email
    ensures IssuesOf(n + p + e, field) == match field
      case Name => n
      case Phone => p
      case Email => e
  {
    IssuesOfAppend(n + p, e, field);
    IssuesOfAppend(n, p, field);
    match field
    case Name =>
      IssuesOfOwn(n, Name);
      IssuesOfOther(p, Name);
      IssuesOfOther(e, Name);
    case Phone =>
      IssuesOfOther(n, Phone);
      IssuesOfOwn(p, Phone);
      IssuesOfOther(e, Phone);
    case Email =>
      IssuesOfOther(n, Email);
      IssuesOfOther(p, Email);
      IssuesOfOwn(e, Email);
  }

  /**
   * No cross-field rules: the issues reported for each field are exactly
   * those of that field's own rules, whatever the other fields hold.
   */
  lemma FieldsIndependent(info: CustomerInfo, isEmail: string -> bool)
    ensures IssuesOf(Validate(info, isEmail), Name) == NameIssues(info.name)
    ensures IssuesOf(Validate(info, isEmail), Phone) == PhoneIssues(info.phone)
    ensures IssuesOf(Validate(info, isEmail), Email) == EmailIssues(info.email, isEmail)
  {
    var n := NameIssues(info.name);
    var p := PhoneIssues(info.phone);
    var e := EmailIssues(info.email, isEmail);
    IssuesOfThree(n, p, e, Name);
    IssuesOfThree(n, p, e, Phone);
    IssuesOfThree(n, p, e, Email);
  }

  /** "John Smith" is a valid name. */
  lemma NameAcceptedExample()
    ensures NameIssues("John Smith") == []
  {
    var name := "John Smith";
    assert forall i | 0 <= i < |name| :: IsAsciiLetter(name[i]) || name[i] == ' ';
    NameRule(name);
  }

  /** "John3" is not a valid name, for its digit. */
  lemma NameRejectedExample()
    ensures NameIssues("John3") == [NameNotLetters]
  {
    NameRule("John3");
    assert !NameChar("John3"[4]);
  }

  /** A name of exactly 50 letters is accepted; one more letter makes it too long. */
  lemma NameLengthBoundary(name: string)
    requires |name| == NameMaxLength && forall i | 0 <= i < |name| :: IsAsciiLetter(name[i])
    ensures NameIssues(name) == []
    ensures NameIssues(name + "a") == [NameTooLong]
  {
    NameRule(name);
    var longer := name + "a";
    MatchesClassPlusAll(NameChar, longer);
    assert forall i | 0 <= i < |longer| :: NameChar(longer[i]) by {
      forall i | 0 <= i < |longer|
        ensures NameChar(longer[i])
      {
        if i < |name| {
          assert longer[i] == name[i];
        }
      }
    }
  }

  /** "555-123-4567" is a valid phone. */
  lemma PhoneAcceptedExample()
    ensures PhoneIssues("555-123-4567") == []
  {
    var phone := "555-123-4567";
    assert forall i | 0 <= i < |phone| :: '0' <= phone[i] <= '9' || phone[i] == '-';
    PhoneRule(phone);
  }

  /** "abc" fails both phone rules. */
  lemma PhoneRejectedExample()
    ensures PhoneIssues("abc") == [PhoneTooShort, PhoneBadFormat]
  {
    PhoneRule("abc");
    assert !PhoneChar("abc"[0]);
  }

  /** The length rule counts characters, not digits: ten characters of punctuation pass. */
  lemma PhonePunctuationOnly()
    ensures PhoneIssues("(+) - ()-+") == []
  {
    var phone := "(+) - ()-+";
    assert forall i | 0 <= i < |phone| :: phone[i] in "(+) -";
    PhoneRule(phone);
  }
}
