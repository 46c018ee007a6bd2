/**
 * Form validators of the dashboard (web/src/utils/validation.ts). Each
 * regular expression is modelled as a predicate on the string it is tested
 * against; the lemmas state the languages those expressions accept.
 */
module Validation {
  import opened Wrappers

  /** A member of the regular-expression class `\s`: ECMAScript white space and line terminators. */
  predicate IsWhitespace(c: char)
  {
    || c == '\t' || c == '\n' || c == '\U{000B}' || c == '\U{000C}' || c == '\r' || c == ' '
    || c == '\U{00A0}' || c == '\U{1680}' || ('\U{2000}' <= c <= '\U{200A}')
    || c == '\U{2028}' || c == '\U{2029}' || c == '\U{202F}' || c == '\U{205F}'
    || c == '\U{3000}' || c == '\U{FEFF}'
  }

  /** A member of the class `[^\s@]`. */
  predicate IsEmailChar(c: char)
  {
    !IsWhitespace(c) && c != '@'
  }

  /** `t` matches `[^\s@]+`. */
  predicate EmailRun(t: string)
  {
    |t| > 0 && forall k | 0 <= k < |t| :: IsEmailChar(t[k])
  }

  /** `s` matches `[^\s@]+@[^\s@]+\.[^\s@]+` with the `@` at index `at` and the `\.` at index `dot`. */
  predicate EmailSplit(s: string, at: nat, dot: nat)
    requires at < dot < |s|
  {
    && s[at] == '@' && s[dot] == '.'
    && EmailRun(s[..at]) && EmailRun(s[at + 1..dot]) && EmailRun(s[dot + 1..])
  }

  /** `isValidEmail`: the whole string matches `^[^\s@]+@[^\s@]+\.[^\s@]+$`. */
  predicate IsValidEmail(email: string)
    ensures IsValidEmail(email) ==> 5 <= |email| && IsEmailChar(email[0]) && IsEmailChar(email[|email| - 1])
  {
    exists at: nat, dot: nat | at < dot < |email| :: EmailSplit(email, at, dot)
  }

  /** Every character of `s` other than the one at index `at` is outside `\s` and is not `@`. */
  predicate OnlyAtSignAt(s: string, at: nat)
  {
    at < |s| && s[at] == '@' && forall k | 0 <= k < |s| && k != at :: IsEmailChar(s[k])
  }

  /** `d` has a `.` that is neither its first nor its last character. */
  predicate HasInnerDot(d: string)
  {
    exists k: nat | 0 < k < |d| - 1 :: d[k] == '.'
  }

  /**
   * The shape of an address in plain words: one `@`, not first, no white
   * space anywhere, and a domain holding a `.` with characters on both sides.
   */
  ghost predicate EmailShape(s: string)
  {
    exists at: nat | 0 < at < |s| :: OnlyAtSignAt(s, at) && HasInnerDot(s[at + 1..])
  }

  lemma SplitGivesShape(s: string, at: nat, dot: nat)
    requires at < dot < |s| && EmailSplit(s, at, dot)
    ensures 0 < at && OnlyAtSignAt(s, at) && HasInnerDot(s[at + 1..])
  {
    forall k | 0 <= k < |s| && k != at ensures IsEmailChar(s[k]) {
      if k < at {
        assert s[k] == s[..at][k];
      } else if k < dot {
        assert s[k] == s[at + 1..dot][k - at - 1];
      } else if k > dot {
        assert s[k] == s[dot + 1..][k - dot - 1];
      }
    }
    assert s[at + 1..][dot - at - 1] == '.';
  }

  lemma ShapeGivesSplit(s: string, at: nat, k: nat)
    requires 0 < at && OnlyAtSignAt(s, at)
    requires 0 < k < |s[at + 1..]| - 1 && s[at + 1..][k] == '.'
    ensures at < at + 1 + k < |s| && EmailSplit(s, at, at + 1 + k)
  {
    var dot := at + 1 + k;
    assert s[dot] == '.';
    forall j | 0 <= j < |s[..at]| ensures IsEmailChar(s[..at][j]) {
      assert s[..at][j] == s[j];
    }
    var domain, tld := s[at + 1..dot], s[dot + 1..];
    forall j | 0 <= j < |domain| ensures IsEmailChar(domain[j]) {
      assert domain[j] == s[at + 1 + j];
    }
    forall j | 0 <= j < |tld| ensures IsEmailChar(tld[j]) {
      assert tld[j] == s[dot + 1 + j];
    }
  }

  lemma ValidGivesShape(s: string)
    requires IsValidEmail(s)
    ensures EmailShape(s)
  {
    var at: nat, dot: nat :| at < dot < |s| && EmailSplit(s, at, dot);
    SplitGivesShape(s, at, dot);
  }

  lemma ShapeGivesValid(s: string)
    requires EmailShape(s)
    ensures IsValidEmail(s)
  {
    var at: nat :| 0 < at < |s| && OnlyAtSignAt(s, at) && HasInnerDot(s[at + 1..]);
    var k: nat :| 0 < k < |s[at + 1..]| - 1 && s[at + 1..][k] == '.';
    ShapeGivesSplit(s, at, k);
  }

  /** `isValidEmail` accepts exactly the strings of `EmailShape`. */
  lemma EmailValidIff(s: string)
    ensures IsValidEmail(s) <==> EmailShape(s)
  {
    if IsValidEmail(s) {
      ValidGivesShape(s);
    }
    if EmailShape(s) {
      ShapeGivesValid(s);
    }
  }

  /** The empty string is not an address. */
  lemma EmailRejectsEmpty()
    ensures !IsValidEmail("")
  {
  }

  /** A white-space character anywhere makes an address invalid. */
  lemma EmailRejectsWhitespace(s: string, i: nat)
    requires i < |s| && IsWhitespace(s[i])
    ensures !IsValidEmail(s)
  {
    EmailValidIff(s);
  }

  /** An address holds no second `@`. */
  lemma EmailRejectsSecondAtSign(s: string, i: nat, j: nat)
    requires i < j < |s| && s[i] == '@' && s[j] == '@'
    ensures !IsValidEmail(s)
  {
    EmailValidIff(s);
  }

  lemma EmailAcceptsExamples()
    ensures IsValidEmail("ann@example.com")
    ensures IsValidEmail("a@b.c.d")
  {
    assert EmailSplit("ann@example.com", 3, 11);
    assert EmailSplit("a@b.c.d", 1, 3);
  }

  /** A domain needs a dot: no `.` after an `@` makes an address invalid. */
  lemma EmailRejectsDotlessDomain(s: string, at: nat)
    requires at < |s| && s[at] == '@' && forall k | at < k < |s| :: s[k] != '.'
    ensures !IsValidEmail(s)
  {
    EmailValidIff(s);
  }

  /** The local part cannot be empty: a string starting with `@` is not an address. */
  lemma EmailRejectsEmptyLocalPart(s: string)
    requires |s| > 0 && s[0] == '@'
    ensures !IsValidEmail(s)
  {
    EmailValidIff(s);
  }

  /** The label before the domain's dot cannot be empty. */
  lemma EmailRejectsEmptyLabel()
    ensures !IsValidEmail("ann@.com")
  {
    EmailValidIff("ann@.com");
  }

  /** The length below which a password is rejected. */
  const MinPasswordLength: nat := 8

  const PasswordTooShort: string := "Password must be at least 8 characters long"

  /** The `{ valid, message? }` record `isValidPassword` returns. */
  datatype PasswordCheck = PasswordCheck(valid: bool, message: Option<string>)

  /** `isValidPassword`: only the length is checked. */
  function IsValidPassword(password: string): (r: PasswordCheck)
    ensures r.valid <==> |password| >= MinPasswordLength
    ensures r.valid <==> r.message == None
    ensures !r.valid ==> r.message == Some(PasswordTooShort)
  {
    if |password| < MinPasswordLength then PasswordCheck(false, Some(PasswordTooShort))
    else PasswordCheck(true, None)
  }

  /** A member of `[a-z0-9-]`. */
  predicate IsLedgerCodeChar(c: char)
  {
    ('a' <= c <= 'z') || ('0' <= c <= '9') || c == '-'
  }

  /** `isValidLedgerCode`: the whole string matches `^[a-z0-9-]+$`. */
  predicate IsValidLedgerCode(code: string)
    ensures IsValidLedgerCode(code) ==> forall k | 0 <= k < |code| :: !IsWhitespace(code[k])
  {
    |code| > 0 && forall k | 0 <= k < |code| :: IsLedgerCodeChar(code[k])
  }

  /**
   * A member of `[A-Za-z0-9-_]`: after the range `0-9` the `-` cannot start
   * another range, so the class holds letters, digits, `-` and `_`.
   */
  predicate IsAccountCodeChar(c: char)
  {
    ('A' <= c <= 'Z') || ('a' <= c <= 'z') || ('0' <= c <= '9') || c == '-' || c == '_'
  }

  /** `isValidAccountCode`: the whole string matches `^[A-Za-z0-9-_]+$`. */
  predicate IsValidAccountCode(code: string)
    ensures IsValidAccountCode(code) ==> forall k | 0 <= k < |code| :: !IsWhitespace(code[k])
  {
    |code| > 0 && forall k | 0 <= k < |code| :: IsAccountCodeChar(code[k])
  }

  lemma CodesRejectEmpty()
    ensures !IsValidLedgerCode("") && !IsValidAccountCode("")
  {
  }

  /** One upper-case letter anywhere makes a ledger code invalid. */
  lemma LedgerCodeRejectsUppercase(code: string, i: nat)
    requires i < |code| && 'A' <= code[i] <= 'Z'
    ensures !IsValidLedgerCode(code)
  {
  }

  /** A space or `_` is not allowed in a ledger code either. */
  lemma LedgerCodeRejectsUnderscore(code: string, i: nat)
    requires i < |code| && (code[i] == '_' || code[i] == ' ')
    ensures !IsValidLedgerCode(code)
  {
  }

  /** Every valid ledger code is a valid account code. */
  lemma LedgerCodeIsAccountCode(code: string)
    requires IsValidLedgerCode(code)
    ensures IsValidAccountCode(code)
  {
  }

  /** Account codes are not a subset of ledger codes. */
  lemma AccountCodeNotLedgerCode()
    ensures IsValidAccountCode("Cash_01") && !IsValidLedgerCode("Cash_01")
  {
    assert "Cash_01"[0] == 'C';
  }
}
