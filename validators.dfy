/** The four string validators used on user input.  Each one is a
    regular-expression test; here each expression is stated as the
    structure of the strings it accepts. */
module Validators {
  import opened JsText

  // ---------------------------------------------------------------------
  // isValidEmail: /^[^\s@]+@[^\s@]+\.[^\s@]+$/ on email.trim().toLowerCase()

  /** The class `[^\s@]`. */
  predicate EmailChar(c: char) {
    !IsWhitespace(c) && c != '@'
  }

  predicate EmailChars(s: string) {
    forall k :: 0 <= k < |s| ==> EmailChar(s[k])
  }

  /** The strings the e-mail expression accepts: a non-empty local part, one
      '@', and a domain that splits at some '.' into two non-empty parts;
      no part holds white space or another '@'. */
  ghost predicate EmailShape(t: string) {
    exists local, domain, tld ::
      && |local| > 0 && |domain| > 0 && |tld| > 0
      && EmailChars(local) && EmailChars(domain) && EmailChars(tld)
      && t == local + "@" + domain + "." + tld
  }

  /** Index of the first occurrence of `c` in `s`, or -1. */
  function IndexOf(s: string, c: char): (i: int)
    ensures -1 <= i < |s|
    ensures i >= 0 ==> s[i] == c && forall k :: 0 <= k < i ==> s[k] != c
    ensures i == -1 ==> forall k :: 0 <= k < |s| ==> s[k] != c
  {
    if s == [] then -1
    else if s[0] == c then 0
    else
      var j := IndexOf(s[1..], c);
      if j == -1 then -1 else j + 1
  }

  /** A '.' with at least one character on either side. */
  predicate HasInnerDot(d: string) {
    exists k :: 0 < k < |d| - 1 && d[k] == '.'
  }

  /** The matcher: split at the first '@' and look for an inner '.'. */
  function MatchesEmail(t: string): bool {
    var at := IndexOf(t, '@');
    at > 0 && EmailChars(t[..at]) && EmailChars(t[at + 1..]) && HasInnerDot(t[at + 1..])
  }

  lemma MatchesEmailShape(t: string)
    ensures MatchesEmail(t) <==> EmailShape(t)
  {
    if MatchesEmail(t) {
      MatchedHasShape(t);
    }
    if EmailShape(t) {
      var local, domain, tld :|
        && |local| > 0 && |domain| > 0 && |tld| > 0
        && EmailChars(local) && EmailChars(domain) && EmailChars(tld)
        && t == local + "@" + domain + "." + tld;
      ShapeIsMatched(t, local, domain, tld);
    }
  }

  lemma MatchedHasShape(t: string)
    requires MatchesEmail(t)
    ensures EmailShape(t)
  {
    var at := IndexOf(t, '@');
    var d := t[at + 1..];
    var k :| 0 < k < |d| - 1 && d[k] == '.';
    var local, domain, tld := t[..at], d[..k], d[k + 1..];
    assert d == domain + "." + tld;
    assert t == local + "@" + d;
    assert EmailChars(domain) && EmailChars(tld);
    assert t == local + "@" + domain + "." + tld;
  }

  lemma ShapeIsMatched(t: string, local: string, domain: string, tld: string)
    requires |local| > 0 && |domain| > 0 && |tld| > 0
    requires EmailChars(local) && EmailChars(domain) && EmailChars(tld)
    requires t == local + "@" + domain + "." + tld
    ensures MatchesEmail(t)
  {
    var at := IndexOf(t, '@');
    assert t[|local|] == '@';
    assert forall k :: 0 <= k < |local| ==> t[k] == local[k];
    assert at == |local|;
    var d := t[at + 1..];
    assert d == domain + "." + tld;
    assert t[..at] == local;
    assert d[|domain|] == '.';
    assert EmailChars(d);
  }

  /** `isValidEmail`: the trimmed, lower-cased text has the e-mail shape. */
  function IsValidEmail(email: string): (r: bool)
    ensures r <==> EmailShape(ToLower(Trim(email)))
  {
    var t := ToLower(Trim(email));
    MatchesEmailShape(t);
    MatchesEmail(t)
  }

  /** Letter case and surrounding white space do not affect `isValidEmail`. */
  lemma EmailIgnoresCaseAndPadding(email: string, w1: string, w2: string)
    requires AllWhitespace(w1) && AllWhitespace(w2)
    ensures IsValidEmail(w1 + email + w2) == IsValidEmail(email)
    ensures IsValidEmail(ToLower(email)) == IsValidEmail(email)
  {
    TrimOfPadded(w1, email, w2);
    TrimToLowerCommute(email);
    ToLowerIdempotent(Trim(email));
  }

  // ---------------------------------------------------------------------
  // isValidName: /^[A-Za-zÁÉÍÓÚáéíóúÑñ\s]+$/ on name.trim()

  predicate NameChar(c: char) {
    ('A' <= c <= 'Z') || ('a' <= c <= 'z') || c in "ÁÉÍÓÚáéíóúÑñ" || IsWhitespace(c)
  }

  /** `isValidName`: since white space is itself allowed, this is: some
      character is not white space, and every character is a letter of the
      class or white space. */
  function IsValidName(name: string): (r: bool)
    ensures r <==> ((exists k :: 0 <= k < |name| && !IsWhitespace(name[k]))
                    && (forall k :: 0 <= k < |name| ==> NameChar(name[k])))
  {
    var t := Trim(name);
    NameOfTrim(name);
    t != [] && forall k :: 0 <= k < |t| ==> NameChar(t[k])
  }

  lemma NameOfTrim(name: string)
    ensures var t := Trim(name);
      (t != [] && forall k :: 0 <= k < |t| ==> NameChar(t[k])) <==>
      ((exists k :: 0 <= k < |name| && !IsWhitespace(name[k]))
       && (forall k :: 0 <= k < |name| ==> NameChar(name[k])))
  {
    var p, q := TrimSplit(name);
    NameCore(name, p, Trim(name), q);
  }

  /** Where the characters of `p + t + q` come from. */
  lemma SplitIndex(s: string, p: string, t: string, q: string, k: int)
    requires s == p + t + q && 0 <= k < |s|
    ensures k < |p| ==> s[k] == p[k]
    ensures |p| <= k < |p| + |t| ==> s[k] == t[k - |p|]
    ensures |p| + |t| <= k ==> s[k] == q[k - |p| - |t|]
  {
  }

  lemma NameCore(name: string, p: string, t: string, q: string)
    requires AllWhitespace(p) && AllWhitespace(q) && IsTrimmed(t) && name == p + t + q
    ensures (t != [] && forall k :: 0 <= k < |t| ==> NameChar(t[k])) <==>
            ((exists k :: 0 <= k < |name| && !IsWhitespace(name[k]))
             && (forall k :: 0 <= k < |name| ==> NameChar(name[k])))
  {
    forall k | 0 <= k < |name| && !IsWhitespace(name[k])
      ensures |p| <= k < |p| + |t|
    {
      SplitIndex(name, p, t, q, k);
    }
    if t != [] {
      SplitIndex(name, p, t, q, |p|);
    }
    if forall k :: 0 <= k < |t| ==> NameChar(t[k]) {
      forall k | 0 <= k < |name| ensures NameChar(name[k]) {
        SplitIndex(name, p, t, q, k);
      }
    }
    if forall k :: 0 <= k < |name| ==> NameChar(name[k]) {
      forall k | 0 <= k < |t| ensures NameChar(t[k]) {
        SplitIndex(name, p, t, q, |p| + k);
      }
    }
  }

  // ---------------------------------------------------------------------
  // isValidUsername: /^[a-zA-Z0-9_.]+$/ on username.trim()

  predicate UsernameChar(c: char) {
    ('a' <= c <= 'z') || ('A' <= c <= 'Z') || ('0' <= c <= '9') || c == '_' || c == '.'
  }

  /** `isValidUsername`: the text is a non-empty run of letters, digits,
      '_' and '.', possibly surrounded by white space. */
  function IsValidUsername(username: string): (r: bool)
    ensures r <==> exists i, j :: 0 <= i < j <= |username|
                    && AllWhitespace(username[..i]) && AllWhitespace(username[j..])
                    && forall k :: i <= k < j ==> UsernameChar(username[k])
  {
    var t := Trim(username);
    UsernameOfTrim(username);
    t != [] && forall k :: 0 <= k < |t| ==> UsernameChar(t[k])
  }

  lemma UsernameOfTrim(username: string)
    ensures var t := Trim(username);
      (t != [] && forall k :: 0 <= k < |t| ==> UsernameChar(t[k])) <==>
      exists i, j :: 0 <= i < j <= |username|
        && AllWhitespace(username[..i]) && AllWhitespace(username[j..])
        && forall k :: i <= k < j ==> UsernameChar(username[k])
  {
    var p, q := TrimSplit(username);
    UsernameCore(username, Trim(username), p, q);
  }

  lemma UsernameCore(username: string, t: string, p: string, q: string)
    requires IsTrimmed(t)
    requires AllWhitespace(p) && AllWhitespace(q) && username == p + t + q
    ensures (t != [] && forall k :: 0 <= k < |t| ==> UsernameChar(t[k])) <==>
            exists i, j :: 0 <= i < j <= |username|
              && AllWhitespace(username[..i]) && AllWhitespace(username[j..])
              && forall k :: i <= k < j ==> UsernameChar(username[k])
  {
    if t != [] && forall k :: 0 <= k < |t| ==> UsernameChar(t[k]) {
      var i, j := |p|, |p| + |t|;
      assert username[..i] == p;
      assert username[j..] == q;
      forall k | i <= k < j ensures UsernameChar(username[k]) {
        SplitIndex(username, p, t, q, k);
      }
    }
    if exists i, j :: 0 <= i < j <= |username|
         && AllWhitespace(username[..i]) && AllWhitespace(username[j..])
         && forall k :: i <= k < j ==> UsernameChar(username[k]) {
      var i, j :| 0 <= i < j <= |username|
         && AllWhitespace(username[..i]) && AllWhitespace(username[j..])
         && forall k :: i <= k < j ==> UsernameChar(username[k]);
      CoreIsTrimmed(username, i, j);
      SameCore(username, p, t, q, username[..i], username[i..j], username[j..]);
    }
  }

  /** A run of username characters between white-space padding is a
      trimmed core of the text. */
  lemma CoreIsTrimmed(username: string, i: int, j: int)
    requires 0 <= i < j <= |username|
    requires forall k :: i <= k < j ==> UsernameChar(username[k])
    ensures username == username[..i] + username[i..j] + username[j..]
    ensures IsTrimmed(username[i..j])
    ensures forall k :: 0 <= k < j - i ==> UsernameChar(username[i..j][k])
  {
    var core := username[i..j];
    assert core[0] == username[i] && core[|core| - 1] == username[j - 1];
  }

  /** Two splits of one text into padding and a trimmed core agree. */
  lemma SameCore(s: string, p: string, t: string, q: string, p2: string, t2: string, q2: string)
    requires AllWhitespace(p) && AllWhitespace(q) && IsTrimmed(t) && s == p + t + q
    requires AllWhitespace(p2) && AllWhitespace(q2) && IsTrimmed(t2) && s == p2 + t2 + q2
    ensures t == t2
  {
    TrimUnique(p, t, q);
    TrimUnique(p2, t2, q2);
  }

  // ---------------------------------------------------------------------
  // isStrongPassword: /^(?=.*[a-z])(?=.*[A-Z])(?=.*\d)(?=.*[\W_]).{8,}$/ on the raw text

  /** The character classes the four look-aheads search for; `[\W_]` is
      every character outside [A-Za-z0-9]. */
  datatype CharClass = LowerLetter | UpperLetter | Digit | NonWordOrUnderscore

  predicate InClass(cls: CharClass, c: char) {
    match cls
    case LowerLetter => 'a' <= c <= 'z'
    case UpperLetter => 'A' <= c <= 'Z'
    case Digit => '0' <= c <= '9'
    case NonWordOrUnderscore => !(('a' <= c <= 'z') || ('A' <= c <= 'Z') || ('0' <= c <= '9'))
  }

  /** The look-ahead `(?=.*[cls])` at the start of `s`: `.*` crosses no line
      terminator, then one character of the class must follow. */
  function Lookahead(s: string, cls: CharClass): (r: bool)
    ensures r <==> exists k :: 0 <= k < |s| && InClass(cls, s[k])
                             && forall j :: 0 <= j < k ==> !IsLineTerminator(s[j])
  {
    if s == [] then false
    else if InClass(cls, s[0]) then true
    else if IsLineTerminator(s[0]) then false
    else
      var r := Lookahead(s[1..], cls);
      assert r ==> exists k :: 0 <= k < |s| && InClass(cls, s[k])
                            && forall j :: 0 <= j < k ==> !IsLineTerminator(s[j]) by {
        if r {
          var k :| 0 <= k < |s[1..]| && InClass(cls, s[1..][k])
                   && forall j :: 0 <= j < k ==> !IsLineTerminator(s[1..][j]);
          assert forall j :: 0 <= j < k + 1 ==> !IsLineTerminator(s[j]) by {
            forall j | 0 <= j < k + 1 ensures !IsLineTerminator(s[j]) {
              if j > 0 { assert s[j] == s[1..][j - 1]; }
            }
          }
        }
      }
      r
  }

  predicate NoLineTerminator(s: string) {
    forall k :: 0 <= k < |s| ==> !IsLineTerminator(s[k])
  }

  predicate HasClass(s: string, cls: CharClass) {
    exists k :: 0 <= k < |s| && InClass(cls, s[k])
  }

  /** `isStrongPassword`: at least eight characters, none of them a line
      terminator (the `.{8,}$` part), and at least one lower-case letter,
      one capital, one digit and one character outside [A-Za-z0-9]. */
  function IsStrongPassword(password: string): (r: bool)
    ensures r <==> (&& |password| >= 8 && NoLineTerminator(password)
                    && HasClass(password, LowerLetter) && HasClass(password, UpperLetter)
                    && HasClass(password, Digit) && HasClass(password, NonWordOrUnderscore))
  {
    var looks := Lookahead(password, LowerLetter) && Lookahead(password, UpperLetter)
              && Lookahead(password, Digit) && Lookahead(password, NonWordOrUnderscore);
    looks && |password| >= 8 && NoLineTerminator(password)
  }

  /** A password with all four classes and eight characters passes. */
  lemma StrongPasswordExample()
    ensures IsStrongPassword("Cocina#1")
  {
    var good := "Cocina#1";
    assert NoLineTerminator(good);
    assert HasClass(good, LowerLetter) by { assert InClass(LowerLetter, good[1]); }
    assert HasClass(good, UpperLetter) by { assert InClass(UpperLetter, good[0]); }
    assert HasClass(good, Digit) by { assert InClass(Digit, good[7]); }
    assert HasClass(good, NonWordOrUnderscore) by { assert InClass(NonWordOrUnderscore, good[6]); }
  }

  /** Without a capital the same password fails, and so does one of four
      characters. */
  lemma WeakPasswordExamples()
    ensures !IsStrongPassword("cocina#1")
    ensures !IsStrongPassword("Co#1")
  {
    assert !HasClass("cocina#1", UpperLetter);
  }
}
