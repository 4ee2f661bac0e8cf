/**
 * What the forms share: the per-field error object (`FormErrors`, whose keys
 * count through `Object.keys`), the rules several forms apply to the same
 * kind of field, and clearing one field's error on edit.
 */
module Forms {
  import opened Wrappers
  import opened Text
  import opened Validation

  type Errors = map<string, string>

  /** Records a failed check in the error object being built; a passed check adds nothing. */
  function Put(errors: Errors, key: string, error: Option<string>): (r: Errors)
    ensures error.None? ==> r == errors
    ensures error.Some? ==> r == errors[key := error.value]
  {
    if error.Some? then errors[key := error.value] else errors
  }

  /** Key by key: a failed check holds its message under its key, a passed one leaves that key alone, and every other entry is kept. */
  lemma PutEffect(errors: Errors, key: string, error: Option<string>)
    ensures var r := Put(errors, key, error);
      && (forall k :: k != key ==> (k in r <==> k in errors) && (k in r ==> r[k] == errors[k]))
      && (key in r <==> error.Some? || key in errors)
      && (key in r ==> r[key] == if error.Some? then error.value else errors[key])
  {
  }

  /** A required text field: blank (empty or whitespace only) gives the message. */
  function Required(value: string, message: string): (error: Option<string>)
    ensures error.Some? <==> AllWhitespace(value)
    ensures error.Some? ==> error.value == message
  {
    IsEmptyStringIffWhitespace(value);
    if IsEmptyString(value) then Some(message) else None
  }

  const NameMessage := "Name is required"
  const NickNameMessage := "Nick name is required"

  /** The e-mail rule of the login, registration and user forms: required first, then the pattern. */
  function EmailError(email: string): (error: Option<string>)
    ensures error == Some("Email is required") <==> AllWhitespace(email)
    ensures error == Some("Invalid email format") <==> !AllWhitespace(email) && !IsValidEmail(email)
    ensures error.None? <==> !AllWhitespace(email) && IsValidEmail(email)
  {
    IsEmptyStringIffWhitespace(email);
    if IsEmptyString(email) then Some("Email is required")
    else if !IsValidEmail(email) then Some("Invalid email format")
    else None
  }

  /** Two more rules recorded after earlier ones: each key reflects its own rule, and the earlier keys are untouched. */
  lemma PutTwo(errors: Errors, k1: string, x1: Option<string>, k2: string, x2: Option<string>)
    requires k1 != k2 && k1 !in errors && k2 !in errors
    ensures var e := Put(Put(errors, k1, x1), k2, x2);
      && (forall k :: k != k1 && k != k2 ==> (k in e <==> k in errors))
      && (k1 in e <==> x1.Some?) && (k1 in e ==> e[k1] == x1.value)
      && (k2 in e <==> x2.Some?)
      && e.Keys <= errors.Keys + {k1, k2}
  {
  }

  /** The profile rules the registration and user forms share, in their order: name, nick name, e-mail. */
  function ProfileErrors(name: string, nickName: string, email: string): Errors {
    Put(Put(Put(map[], "name", Required(name, NameMessage)), "nickName", Required(nickName, NickNameMessage)),
        "email", EmailError(email))
  }

  /** Each profile key is present exactly when its rule fails, and no other key appears. */
  lemma ProfileErrorsIff(name: string, nickName: string, email: string)
    ensures var e := ProfileErrors(name, nickName, email);
      && ("name" in e <==> AllWhitespace(name))
      && ("nickName" in e <==> AllWhitespace(nickName))
      && ("email" in e <==> !IsValidEmail(email))
      && e.Keys <= {"name", "nickName", "email"}
  {
    if AllWhitespace(email) {
      assert !IsValidEmail(email);
    }
  }

  /** A password that fails the strength rules: every rule message, joined with "; ". */
  function StrengthError(password: string): (error: Option<string>)
    ensures error.None? <==> |password| >= 8 && HasUpper(password) && HasLower(password) && HasDigit(password)
    ensures error.Some? ==> error.value == Join(ViolationMessages(password), "; ")
  {
    PasswordValidIff(password);
    if ViolationMessages(password) == [] then None else Some(Join(ViolationMessages(password), "; "))
  }

  /** After an edit of `name`: the field's own error is gone and every other error is kept. */
  function AfterEdit(errors: Errors, name: string): (r: Errors)
    ensures name !in r
    ensures forall k :: k != name ==> (k in r <==> k in errors)
    ensures forall k :: k in r ==> r[k] == errors[k]
  {
    if name in errors then errors - {name} else errors
  }

  /** The joined strength message names each broken rule. */
  lemma JoinedMessagesMention(password: string, rule: PasswordRule)
    requires !Satisfies(rule, password)
    ensures Contains(Join(ViolationMessages(password), "; "), RuleMessage(rule))
  {
    PasswordReportsEveryViolation(password, rule);
    JoinContains(ViolationMessages(password), "; ", RuleMessage(rule));
  }

  lemma {:induction false} JoinContains(parts: seq<string>, sep: string, part: string)
    requires part in parts
    ensures Contains(Join(parts, sep), part)
  {
    if |parts| == 1 {
      assert Join(parts, sep)[0..|part|] == part;
      assert OccursAt(Join(parts, sep), part, 0);
    } else if parts[0] == part {
      var j := Join(parts, sep);
      assert j == part + sep + Join(parts[1..], sep);
      assert j[0..|part|] == part;
      assert OccursAt(j, part, 0);
    } else {
      assert part in parts[1..];
      JoinContains(parts[1..], sep, part);
      var rest := Join(parts[1..], sep);
      var i: nat :| i <= |rest| && OccursAt(rest, part, i);
      var prefix := parts[0] + sep;
      var j := Join(parts, sep);
      assert j == prefix + rest;
      assert j[|prefix| + i..|prefix| + i + |part|] == rest[i..i + |part|];
      assert OccursAt(j, part, |prefix| + i);
    }
  }
}
