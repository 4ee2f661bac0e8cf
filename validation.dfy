/**
 * The validation primitives shared by every form: blank-string detection,
 * the e-mail pattern and the four-rule password check.
 */
module Validation {
  import opened Text
  import Seqs

  /** `isEmptyString`: the trimmed value has length zero. */
  predicate IsEmptyString(value: string) {
    |Trim(value)| == 0
  }

  /** A value is blank exactly when it consists of whitespace only (the empty string included). */
  lemma IsEmptyStringIffWhitespace(value: string)
    ensures IsEmptyString(value) <==> AllWhitespace(value)
  {
    TrimEmptyIffAllWhitespace(value);
  }

  /** A character of the class `[^\s@]`. */
  predicate IsEmailChar(c: char) {
    !IsWhitespace(c) && c != '@'
  }

  predicate AllEmailChars(s: string) {
    forall i :: 0 <= i < |s| ==> IsEmailChar(s[i])
  }

  /**
   * The pattern `^[^\s@]+@[^\s@]+\.[^\s@]+$` matches with its '@' at `at` and
   * the '.' it requires at `dot`: three non-empty runs of `[^\s@]` around them.
   */
  predicate EmailMatchAt(email: string, at: int, dot: int) {
    0 < at && at + 1 < dot && dot + 1 < |email|
    && email[at] == '@' && email[dot] == '.'
    && AllEmailChars(email[..at]) && AllEmailChars(email[at + 1..dot]) && AllEmailChars(email[dot + 1..])
  }

  /** `isValidEmail`: the pattern matches somewhere, i.e. for some position of '@' and of '.'. */
  predicate IsValidEmail(email: string) {
    exists at, dot | 0 <= at < |email| && 0 <= dot < |email| :: EmailMatchAt(email, at, dot)
  }

  /** The domain holds a '.' that is neither its first nor its last character. */
  predicate HasInnerDot(domain: string) {
    exists i :: 0 < i < |domain| - 1 && domain[i] == '.'
  }

  lemma AllEmailCharsSplit(s: string, dot: int)
    requires 0 <= dot < |s| && s[dot] == '.'
    ensures AllEmailChars(s) <==> AllEmailChars(s[..dot]) && AllEmailChars(s[dot + 1..])
  {
    if AllEmailChars(s[..dot]) && AllEmailChars(s[dot + 1..]) {
      forall i | 0 <= i < |s| ensures IsEmailChar(s[i]) {
        if i < dot { assert s[i] == s[..dot][i]; }
        else if i > dot { assert s[i] == s[dot + 1..][i - dot - 1]; }
      }
    }
    if AllEmailChars(s) {
      var left, right := s[..dot], s[dot + 1..];
      forall i | 0 <= i < |left| ensures IsEmailChar(left[i]) { assert left[i] == s[i]; }
      forall i | 0 <= i < |right| ensures IsEmailChar(right[i]) { assert right[i] == s[dot + 1 + i]; }
    }
  }

  /**
   * An address is valid exactly when it is `L + "@" + R` with `L` non-empty,
   * neither part holding whitespace or '@', and `R` holding a '.' that is not at either end.
   */
  lemma EmailShape(email: string)
    ensures IsValidEmail(email) <==> exists at :: ShapedAt(email, at)
  {
    if IsValidEmail(email) {
      var at, dot :| 0 <= at < |email| && 0 <= dot < |email| && EmailMatchAt(email, at, dot);
      MatchHasShape(email, at, dot);
    }
    if exists at :: ShapedAt(email, at) {
      var at :| ShapedAt(email, at);
      var d :| 0 < d < |email[at + 1..]| - 1 && email[at + 1..][d] == '.';
      ShapeHasMatch(email, at, d);
    }
  }

  /** The right-hand side of `EmailShape` with its '@' at `at`. */
  predicate ShapedAt(email: string, at: int) {
    0 < at < |email| && email[at] == '@' && AllEmailChars(email[..at])
    && AllEmailChars(email[at + 1..]) && HasInnerDot(email[at + 1..])
  }

  lemma MatchHasShape(email: string, at: int, dot: int)
    requires EmailMatchAt(email, at, dot)
    ensures ShapedAt(email, at)
  {
    var domain := email[at + 1..];
    var d := dot - at - 1;
    assert domain[d] == '.';
    assert domain[..d] == email[at + 1..dot];
    assert domain[d + 1..] == email[dot + 1..];
    AllEmailCharsSplit(domain, d);
  }

  lemma ShapeHasMatch(email: string, at: int, d: int)
    requires ShapedAt(email, at)
    requires 0 < d < |email[at + 1..]| - 1 && email[at + 1..][d] == '.'
    ensures EmailMatchAt(email, at, at + 1 + d)
  {
    var domain := email[at + 1..];
    AllEmailCharsSplit(domain, d);
    assert domain[..d] == email[at + 1..at + 1 + d];
    assert domain[d + 1..] == email[at + 1 + d + 1..];
  }

  /** Two '@' anywhere make an address invalid. */
  lemma TwoAtSignsReject(email: string, i: int, j: int)
    requires 0 <= i < j < |email| && email[i] == '@' && email[j] == '@'
    ensures !IsValidEmail(email)
  {
    if IsValidEmail(email) {
      var at, dot :| 0 <= at < |email| && 0 <= dot < |email| && EmailMatchAt(email, at, dot);
      AtSignOnlyAt(email, at, dot, i);
      AtSignOnlyAt(email, at, dot, j);
    }
  }

  /** Any whitespace character makes an address invalid. */
  lemma WhitespaceRejects(email: string, i: int)
    requires 0 <= i < |email| && IsWhitespace(email[i])
    ensures !IsValidEmail(email)
  {
    if IsValidEmail(email) {
      var at, dot :| 0 <= at < |email| && 0 <= dot < |email| && EmailMatchAt(email, at, dot);
      CharsOfMatch(email, at, dot, i);
    }
  }

  lemma CharsOfMatch(email: string, at: int, dot: int, i: int)
    requires EmailMatchAt(email, at, dot) && 0 <= i < |email|
    ensures i == at || IsEmailChar(email[i])
  {
    if i < at { assert email[i] == email[..at][i]; }
    else if at < i < dot { assert email[i] == email[at + 1..dot][i - at - 1]; }
    else if i > dot { assert email[i] == email[dot + 1..][i - dot - 1]; }
  }

  lemma AtSignOnlyAt(email: string, at: int, dot: int, i: int)
    requires EmailMatchAt(email, at, dot) && 0 <= i < |email| && email[i] == '@'
    ensures i == at
  {
    CharsOfMatch(email, at, dot, i);
  }

  /** Sample addresses: three rejected, one accepted. */
  lemma EmailExamples()
    ensures !IsValidEmail("a@b") && !IsValidEmail("a.b@") && !IsValidEmail("ab")
    ensures IsValidEmail("a@b.com")
  {
    assert EmailMatchAt("a@b.com", 1, 3) by {
      assert "a@b.com"[..1] == "a";
      assert "a@b.com"[2..3] == "b";
      assert "a@b.com"[4..] == "com";
    }
  }

  // ---- validatePassword ----

  /** The four independent password rules, in the order `validatePassword` checks them. */
  datatype PasswordRule = MinLength | Uppercase | Lowercase | Digit

  const PasswordRules: seq<PasswordRule> := [MinLength, Uppercase, Lowercase, Digit]

  predicate HasUpper(p: string) { exists i :: 0 <= i < |p| && 'A' <= p[i] <= 'Z' }
  predicate HasLower(p: string) { exists i :: 0 <= i < |p| && 'a' <= p[i] <= 'z' }
  predicate HasDigit(p: string) { exists i :: 0 <= i < |p| && '0' <= p[i] <= '9' }

  predicate Satisfies(rule: PasswordRule, p: string) {
    match rule
    case MinLength => |p| >= 8
    case Uppercase => HasUpper(p)
    case Lowercase => HasLower(p)
    case Digit => HasDigit(p)
  }

  function RuleMessage(rule: PasswordRule): string {
    match rule
    case MinLength => "Password must be at least 8 characters"
    case Uppercase => "Password must contain at least one uppercase letter"
    case Lowercase => "Password must contain at least one lowercase letter"
    case Digit => "Password must contain at least one number"
  }

  /** The rules `p` breaks, in rule order: the reference definition the method is proved against. */
  function ViolatedRules(p: string): seq<PasswordRule> {
    Seqs.Filter(PasswordRules, BreaksRule(p))
  }

  /** The test "`p` breaks this rule". */
  function BreaksRule(p: string): PasswordRule -> bool {
    rule => !Satisfies(rule, p)
  }

  function Messages(rules: seq<PasswordRule>): (r: seq<string>)
    ensures |r| == |rules|
  {
    if rules == [] then [] else [RuleMessage(rules[0])] + Messages(rules[1..])
  }

  function ViolationMessages(p: string): seq<string> {
    Messages(ViolatedRules(p))
  }

  lemma {:induction false} MessagesMember(rules: seq<PasswordRule>, rule: PasswordRule)
    ensures RuleMessage(rule) in Messages(rules) <==> rule in rules
  {
    if rules != [] {
      MessagesMember(rules[1..], rule);
      if RuleMessage(rules[0]) == RuleMessage(rule) {
        MessagesDistinct(rules[0], rule);
      }
      assert rules == [rules[0]] + rules[1..];
    }
  }

  datatype PasswordCheck = PasswordCheck(valid: bool, errors: seq<string>)

  /** The message a single rule contributes: its own, when broken. */
  function Report(rule: PasswordRule, p: string): seq<string> {
    if Satisfies(rule, p) then [] else [RuleMessage(rule)]
  }

  /** The rule itself when `p` breaks it, nothing otherwise. */
  function Broken(rule: PasswordRule, p: string): seq<PasswordRule> {
    if Satisfies(rule, p) then [] else [rule]
  }

  lemma ViolationMessagesUnfold(p: string)
    ensures ViolationMessages(p) ==
      Report(MinLength, p) + Report(Uppercase, p) + Report(Lowercase, p) + Report(Digit, p)
  {
    ViolatedRulesUnfold(p);
    var a, b, c, d := Broken(MinLength, p), Broken(Uppercase, p), Broken(Lowercase, p), Broken(Digit, p);
    MessagesSingle(MinLength, p);
    MessagesSingle(Uppercase, p);
    MessagesSingle(Lowercase, p);
    MessagesSingle(Digit, p);
    MessagesConcat(a, b);
    MessagesConcat(a + b, c);
    MessagesConcat(a + b + c, d);
  }

  lemma MessagesSingle(rule: PasswordRule, p: string)
    ensures Messages(Broken(rule, p)) == Report(rule, p)
  {
    if !Satisfies(rule, p) {
      assert [rule][1..] == [];
    }
  }

  lemma {:induction false} MessagesConcat(x: seq<PasswordRule>, y: seq<PasswordRule>)
    ensures Messages(x + y) == Messages(x) + Messages(y)
  {
    if x != [] {
      assert (x + y)[0] == x[0];
      assert (x + y)[1..] == x[1..] + y;
      MessagesConcat(x[1..], y);
    } else {
      assert x + y == y;
    }
  }

  /** Filtering the four rules is checking each rule in turn. */
  lemma ViolatedRulesUnfold(p: string)
    ensures ViolatedRules(p) == Broken(MinLength, p) + Broken(Uppercase, p) + Broken(Lowercase, p) + Broken(Digit, p)
  {
    var keep := BreaksRule(p);
    var a, b, c, d := Broken(MinLength, p), Broken(Uppercase, p), Broken(Lowercase, p), Broken(Digit, p);
    assert Seqs.Filter([Digit], keep) == d by { Seqs.FilterSingle(Digit, keep); }
    assert Seqs.Filter([Lowercase, Digit], keep) == c + d by {
      Seqs.FilterSingle(Lowercase, keep);
      assert [Lowercase, Digit][1..] == [Digit];
    }
    assert Seqs.Filter([Uppercase, Lowercase, Digit], keep) == b + (c + d) by {
      Seqs.FilterSingle(Uppercase, keep);
      assert [Uppercase, Lowercase, Digit][1..] == [Lowercase, Digit];
    }
    assert Seqs.Filter(PasswordRules, keep) == a + (b + (c + d)) by {
      Seqs.FilterSingle(MinLength, keep);
      assert PasswordRules[1..] == [Uppercase, Lowercase, Digit];
    }
    Seqs.ConcatAssoc(a, b, c + d);
    Seqs.ConcatAssoc(a + b, c, d);
  }

  /**
   * `validatePassword`: every broken rule is reported, each by its own message,
   * in the order length, upper case, lower case, digit; `valid` is "no message".
   */
  method ValidatePassword(password: string) returns (result: PasswordCheck)
    ensures result.errors == ViolationMessages(password)
    ensures result.valid <==> result.errors == []
  {
    var errors: seq<string> := [];
    if |password| < 8 {
      errors := errors + [RuleMessage(MinLength)];
    }
    assert errors == Report(MinLength, password);
    if !HasUpper(password) {
      errors := errors + [RuleMessage(Uppercase)];
    }
    assert errors == Report(MinLength, password) + Report(Uppercase, password);
    if !HasLower(password) {
      errors := errors + [RuleMessage(Lowercase)];
    }
    assert errors == Report(MinLength, password) + Report(Uppercase, password) + Report(Lowercase, password);
    if !HasDigit(password) {
      errors := errors + [RuleMessage(Digit)];
    }
    ViolationMessagesUnfold(password);
    result := PasswordCheck(|errors| == 0, errors);
  }

  /** A password passes exactly when it has 8 characters or more, an upper-case letter, a lower-case letter and a digit. */
  lemma PasswordValidIff(p: string)
    ensures ViolationMessages(p) == [] <==> |p| >= 8 && HasUpper(p) && HasLower(p) && HasDigit(p)
  {
    var keep := BreaksRule(p);
    Seqs.FilterNone(PasswordRules, keep);
    if ViolationMessages(p) == [] {
      assert ViolatedRules(p) == [];
      assert !keep(PasswordRules[0]) && !keep(PasswordRules[1]) && !keep(PasswordRules[2]) && !keep(PasswordRules[3]);
    }
  }

  /** Each rule's message is reported exactly when that rule is broken, and at most four messages are reported. */
  lemma PasswordReportsEveryViolation(p: string, rule: PasswordRule)
    ensures RuleMessage(rule) in ViolationMessages(p) <==> !Satisfies(rule, p)
    ensures |ViolationMessages(p)| <= 4
  {
    var keep := BreaksRule(p);
    Seqs.FilterMembers(PasswordRules, keep);
    MessagesMember(ViolatedRules(p), rule);
    assert rule in PasswordRules;
  }

  lemma MessagesDistinct(a: PasswordRule, b: PasswordRule)
    requires RuleMessage(a) == RuleMessage(b)
    ensures a == b
  {
  }

  /** The reported rules keep the fixed rule order. */
  lemma PasswordRuleOrder(p: string)
    ensures Seqs.IsSubsequence(ViolatedRules(p), PasswordRules)
  {
    Seqs.FilterIsSubsequence(PasswordRules, BreaksRule(p));
  }
}
