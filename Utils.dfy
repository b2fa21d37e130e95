/**
 * The front end's string and object helpers: e-mail and password
 * validation, truncation, and omitting or picking keys of an object.
 * An object is a map from property names to values.
 */
module Utils {
  import opened Wrappers

  // ---------------------------------------------------------------------------
  // validateEmail: the pattern ^[^\s@]+@[^\s@]+\.[^\s@]+$
  // ---------------------------------------------------------------------------

  /** The characters JavaScript's `\s` class matches. */
  predicate IsWhitespace(c: char)
  {
    var n := c as int;
    (9 <= n <= 13) || n == 32 || n == 0xA0 || n == 0x1680 || (0x2000 <= n <= 0x200A)
    || n == 0x2028 || n == 0x2029 || n == 0x202F || n == 0x205F || n == 0x3000 || n == 0xFEFF
  }

  /** A character of the class `[^\s@]`. */
  predicate IsPlainChar(c: char)
  {
    c != '@' && !IsWhitespace(c)
  }

  /** Every character of s is in `[^\s@]`. */
  predicate IsPlain(s: string)
  {
    forall i :: 0 <= i < |s| ==> IsPlainChar(s[i])
  }

  /** What the regular expression denotes: three non-empty plain runs joined by '@' and '.'. */
  ghost predicate MatchesEmailPattern(email: string)
  {
    exists local: string, host: string, tld: string ::
      && |local| > 0 && |host| > 0 && |tld| > 0
      && IsPlain(local) && IsPlain(host) && IsPlain(tld)
      && email == local + "@" + host + "." + tld
  }

  /** The index of the first occurrence of c in s, if any. */
  function IndexOf(s: string, c: char): (r: Option<nat>)
    ensures r.None? ==> forall i :: 0 <= i < |s| ==> s[i] != c
    ensures r.Some? ==> r.value < |s| && s[r.value] == c && forall i :: 0 <= i < r.value ==> s[i] != c
  {
    if |s| == 0 then None
    else if s[0] == c then Some(0)
    else match IndexOf(s[1..], c)
      case None => None
      case Some(k) => Some(k + 1)
  }

  /** A domain part: plain, with a '.' that is neither its first nor its last character. */
  predicate IsDomain(d: string)
  {
    IsPlain(d) && exists k :: 0 < k < |d| - 1 && d[k] == '.'
  }

  /** The check as a scan: split at the first '@', then test both sides. */
  function ValidateEmail(email: string): (r: bool)
    ensures r ==> |email| >= 5 && email[0] != '@'
  {
    match IndexOf(email, '@')
    case None => false
    case Some(at) => at > 0 && IsPlain(email[..at]) && IsDomain(email[at + 1..])
  }

  /** Every string the scan accepts is local '@' host '.' tld with three plain, non-empty runs. */
  lemma ValidateEmailSound(email: string)
    requires ValidateEmail(email)
    ensures MatchesEmailPattern(email)
  {
    var at := IndexOf(email, '@').value;
    var d := email[at + 1..];
    var k :| 0 < k < |d| - 1 && d[k] == '.';
    var local, host, tld := email[..at], d[..k], d[k + 1..];
    assert IsPlain(host) && IsPlain(tld) by {
      forall i | 0 <= i < |host| ensures IsPlainChar(host[i]) { assert host[i] == d[i]; }
      forall i | 0 <= i < |tld| ensures IsPlainChar(tld[i]) { assert tld[i] == d[k + 1 + i]; }
    }
    assert d == host + "." + tld;
    assert email == local + "@" + host + "." + tld by {
      assert email == email[..at] + [email[at]] + d;
    }
  }

  /** Every string of the pattern's shape is accepted by the scan. */
  lemma ValidateEmailComplete(email: string, local: string, host: string, tld: string)
    requires |local| > 0 && |host| > 0 && |tld| > 0
    requires IsPlain(local) && IsPlain(host) && IsPlain(tld)
    requires email == local + "@" + host + "." + tld
    ensures ValidateEmail(email)
  {
    var at := |local|;
    assert email[at] == '@';
    assert forall i :: 0 <= i < at ==> email[i] == local[i];
    assert IndexOf(email, '@') == Some(at);
    var d := email[at + 1..];
    assert d == host + "." + tld;
    assert d[|host|] == '.';
    assert email[..at] == local;
    forall i | 0 <= i < |d| ensures IsPlainChar(d[i]) {
      if i < |host| { assert d[i] == host[i]; }
      else if i > |host| { assert d[i] == tld[i - |host| - 1]; }
    }
  }

  /** The scan accepts exactly the strings the regular expression matches. */
  lemma ValidateEmailMatchesPattern(email: string)
    ensures ValidateEmail(email) <==> MatchesEmailPattern(email)
  {
    if ValidateEmail(email) {
      ValidateEmailSound(email);
    }
    if MatchesEmailPattern(email) {
      var local: string, host: string, tld: string :|
        && |local| > 0 && |host| > 0 && |tld| > 0
        && IsPlain(local) && IsPlain(host) && IsPlain(tld)
        && email == local + "@" + host + "." + tld;
      ValidateEmailComplete(email, local, host, tld);
    }
  }

  /** The domain of an accepted address has no '@', so the address has exactly one. */
  lemma AcceptedEmailHasOneAt(email: string, i: nat)
    requires ValidateEmail(email)
    requires i < |email| && email[i] == '@'
    ensures IndexOf(email, '@') == Some(i)
  {
    var at := IndexOf(email, '@').value;
    forall j | at < j < |email| ensures email[j] != '@' {
      assert email[j] == email[at + 1..][j - at - 1];
    }
  }

  // ---------------------------------------------------------------------------
  // validatePassword
  // ---------------------------------------------------------------------------

  const MinLength := 8

  /** The four rules, in the order their messages are pushed. */
  datatype PasswordRule = TooShort | NoUpperCase | NoLowerCase | NoNumber

  const RuleOrder := [TooShort, NoUpperCase, NoLowerCase, NoNumber]

  /** The result object `{ isValid, errors }`. */
  datatype PasswordCheck = PasswordCheck(isValid: bool, errors: seq<string>)

  function Message(rule: PasswordRule): string
  {
    match rule
    case TooShort => "Password must be at least 8 characters long"
    case NoUpperCase => "Password must contain at least one uppercase letter"
    case NoLowerCase => "Password must contain at least one lowercase letter"
    case NoNumber => "Password must contain at least one number"
  }

  predicate HasCharIn(s: string, lo: char, hi: char)
  {
    exists i :: 0 <= i < |s| && lo <= s[i] <= hi
  }

  /** Whether the password breaks the rule (`[A-Z]`, `[a-z]`, `\d` are ASCII classes). */
  predicate Violates(password: string, rule: PasswordRule)
  {
    match rule
    case TooShort => |password| < MinLength
    case NoUpperCase => !HasCharIn(password, 'A', 'Z')
    case NoLowerCase => !HasCharIn(password, 'a', 'z')
    case NoNumber => !HasCharIn(password, '0', '9')
  }

  /** Position of a rule in the order the messages are pushed. */
  function Rank(rule: PasswordRule): nat
  {
    match rule
    case TooShort => 0
    case NoUpperCase => 1
    case NoLowerCase => 2
    case NoNumber => 3
  }

  /** The rule, when the password breaks it. */
  function Broken(password: string, rule: PasswordRule): seq<PasswordRule>
  {
    if Violates(password, rule) then [rule] else []
  }

  /** The rules the password breaks, in the order their checks run. */
  function Violations(password: string): (r: seq<PasswordRule>)
    ensures |r| <= 4
    ensures r == [] ==> |password| >= MinLength
  {
    Broken(password, TooShort) + Broken(password, NoUpperCase)
    + Broken(password, NoLowerCase) + Broken(password, NoNumber)
  }

  function Messages(rules: seq<PasswordRule>): (r: seq<string>)
    ensures |r| == |rules| && forall i :: 0 <= i < |rules| ==> r[i] == Message(rules[i])
  {
    seq(|rules|, i requires 0 <= i < |rules| => Message(rules[i]))
  }

  /** Each rule is reported exactly when broken, at most once, in the fixed order. */
  lemma ViolationsSpec(password: string)
    ensures forall rule :: rule in Violations(password) <==> Violates(password, rule)
    ensures |Violations(password)| <= |RuleOrder|
    ensures forall i, j :: 0 <= i < j < |Violations(password)| ==>
              Rank(Violations(password)[i]) < Rank(Violations(password)[j])
  {
    ViolationsMembers(password);
    ViolationsRanked(password);
  }

  lemma ViolationsMembers(password: string)
    ensures forall rule :: rule in Violations(password) <==> Violates(password, rule)
  {
    forall rule ensures rule in Violations(password) <==> Violates(password, rule) {
      BrokenMembers(password, TooShort, rule);
      BrokenMembers(password, NoUpperCase, rule);
      BrokenMembers(password, NoLowerCase, rule);
      BrokenMembers(password, NoNumber, rule);
    }
  }

  lemma ViolationsRanked(password: string)
    ensures Ranked(Violations(password))
  {
    var early := Broken(password, TooShort) + Broken(password, NoUpperCase);
    var late := Broken(password, NoLowerCase) + Broken(password, NoNumber);
    assert Violations(password) == early + late;
    RankedConcat(Broken(password, TooShort), Broken(password, NoUpperCase));
    RankedConcat(Broken(password, NoLowerCase), Broken(password, NoNumber));
    RankedConcat(early, late);
  }

  /** `Broken` holds the rule alone, and only when the password breaks it. */
  lemma BrokenMembers(password: string, rule: PasswordRule, other: PasswordRule)
    ensures other in Broken(password, rule) <==> other == rule && Violates(password, rule)
  {
  }

  /** Ranks strictly increase along the sequence. */
  predicate Ranked(rules: seq<PasswordRule>)
  {
    forall i, j :: 0 <= i < j < |rules| ==> Rank(rules[i]) < Rank(rules[j])
  }

  /** Two ranked sequences, every rank of the first below every rank of the second, concatenate to a ranked one. */
  lemma RankedConcat(xs: seq<PasswordRule>, ys: seq<PasswordRule>)
    requires Ranked(xs) && Ranked(ys)
    requires forall x, y :: x in xs && y in ys ==> Rank(x) < Rank(y)
    ensures Ranked(xs + ys)
  {
    var zs := xs + ys;
    forall i, j | 0 <= i < j < |zs| ensures Rank(zs[i]) < Rank(zs[j]) {
      if j < |xs| {
      } else if i >= |xs| {
        assert zs[i] == ys[i - |xs|] && zs[j] == ys[j - |xs|];
      } else {
        assert zs[i] in xs && zs[j] in ys;
      }
    }
  }

  /** Different rules have different messages. */
  lemma MessageInjective(a: PasswordRule, b: PasswordRule)
    ensures Message(a) == Message(b) ==> a == b
  {
  }

  /**
   * The messages are pushed in the fixed order, one per broken rule; the
   * password is valid exactly when none is.
   */
  method ValidatePassword(password: string) returns (r: PasswordCheck)
    ensures r.errors == Messages(Violations(password))
    ensures |r.errors| <= 4
    ensures r.isValid <==> r.errors == []
    ensures r.isValid <==> |password| >= MinLength && HasCharIn(password, 'A', 'Z')
                           && HasCharIn(password, 'a', 'z') && HasCharIn(password, '0', '9')
  {
    var hasUpperCase := HasCharIn(password, 'A', 'Z');
    var hasLowerCase := HasCharIn(password, 'a', 'z');
    var hasNumbers := HasCharIn(password, '0', '9');
    var errors: seq<string> := [];
    ghost var broken: seq<PasswordRule> := [];
    assert errors == Messages(broken);
    if |password| < MinLength {
      errors, broken := PushMessage(errors, broken, TooShort);
    }
    assert errors == Messages(broken) && broken == Broken(password, TooShort);
    if !hasUpperCase {
      errors, broken := PushMessage(errors, broken, NoUpperCase);
    }
    assert errors == Messages(broken) && broken == Broken(password, TooShort) + Broken(password, NoUpperCase);
    if !hasLowerCase {
      errors, broken := PushMessage(errors, broken, NoLowerCase);
    }
    assert errors == Messages(broken) && broken == Broken(password, TooShort) + Broken(password, NoUpperCase)
      + Broken(password, NoLowerCase);
    if !hasNumbers {
      errors, broken := PushMessage(errors, broken, NoNumber);
    }
    assert errors == Messages(broken) && broken == Violations(password);
    r := PasswordCheck(|errors| == 0, errors);
    ViolationsSpec(password);
  }

  /** `errors.push(message)`, with the ghost list of broken rules kept in step. */
  method PushMessage(errors: seq<string>, ghost broken: seq<PasswordRule>, rule: PasswordRule)
    returns (errors': seq<string>, ghost broken': seq<PasswordRule>)
    requires errors == Messages(broken)
    ensures errors' == Messages(broken') && broken' == broken + [rule]
  {
    MessagesSnoc(broken, rule);
    errors', broken' := errors + [Message(rule)], broken + [rule];
  }

  lemma MessagesSnoc(rules: seq<PasswordRule>, rule: PasswordRule)
    ensures Messages(rules + [rule]) == Messages(rules) + [Message(rule)]
  {
  }

  /** The message of a rule is among the errors exactly when the password breaks the rule. */
  lemma PasswordErrorsMembership(password: string)
    ensures forall rule :: Message(rule) in Messages(Violations(password)) <==> Violates(password, rule)
  {
    ViolationsSpec(password);
    MessagesMembership(Violations(password));
  }

  /** A rule's message is in the list exactly when the rule is. */
  lemma MessagesMembership(rules: seq<PasswordRule>)
    ensures forall rule :: Message(rule) in Messages(rules) <==> rule in rules
  {
    forall rule ensures Message(rule) in Messages(rules) <==> rule in rules {
      if Message(rule) in Messages(rules) {
        var i :| 0 <= i < |rules| && Messages(rules)[i] == Message(rule);
        MessageInjective(rule, rules[i]);
      }
    }
  }

  // ---------------------------------------------------------------------------
  // truncate
  // ---------------------------------------------------------------------------

  const Ellipsis := "..."

  /** `substring(0, n)` clamps a negative end to 0. */
  function ClampedEnd(n: int, len: nat): (r: nat)
    ensures r <= len
  {
    if n < 0 then 0 else if n > len then len else n
  }

  /**
   * An empty string, or one no longer than `length`, is returned as it is;
   * a longer one keeps its first `length` characters followed by "...".
   */
  function Truncate(str: string, length: int): (r: string)
    ensures str == [] || |str| <= length ==> r == str
    ensures str != [] && |str| > length ==>
              |r| == ClampedEnd(length, |str|) + |Ellipsis|
              && r[..|r| - |Ellipsis|] == str[..|r| - |Ellipsis|] && r[|r| - |Ellipsis|..] == Ellipsis
  {
    if str == [] || |str| <= length then str
    else str[..ClampedEnd(length, |str|)] + Ellipsis
  }

  /** The length `truncate` uses when the caller gives none. */
  const DefaultTruncateLength := 50

  /** `truncate(str)` with the default length: at most 50 characters are kept. */
  function TruncateDefault(str: string): (r: string)
    ensures |str| <= DefaultTruncateLength ==> r == str
    ensures |str| > DefaultTruncateLength ==> r == str[..DefaultTruncateLength] + Ellipsis
    ensures |r| <= DefaultTruncateLength + |Ellipsis|
  {
    Truncate(str, DefaultTruncateLength)
  }

  /** Truncating twice with the same limit gives the same string as once. */
  lemma TruncateIdempotent(str: string, length: int)
    ensures Truncate(Truncate(str, length), length) == Truncate(str, length)
  {
    var once := Truncate(str, length);
    if once != str {
      var n := ClampedEnd(length, |str|);
      assert once[..ClampedEnd(length, |once|)] == str[..n];
    }
  }

  /** A truncated string is never longer than the limit plus the ellipsis, nor than the input when that fits. */
  lemma TruncateLength(str: string, length: int)
    requires length >= 0
    ensures |Truncate(str, length)| <= if |str| <= length then |str| else length + |Ellipsis|
  {
  }

  // ---------------------------------------------------------------------------
  // omit and pick
  // ---------------------------------------------------------------------------

  /** The object without the listed keys. */
  function Omitted<V>(obj: map<string, V>, keys: seq<string>): map<string, V>
  {
    map k | k in obj && k !in keys :: obj[k]
  }

  /** The listed keys that the object has, with their values. */
  function Picked<V>(obj: map<string, V>, keys: seq<string>): map<string, V>
  {
    map k | k in obj && k in keys :: obj[k]
  }

  /** Copies the object, then deletes each listed key from the copy. */
  method Omit<V>(obj: map<string, V>, keys: seq<string>) returns (result: map<string, V>)
    ensures forall k :: k in result <==> k in obj && k !in keys
    ensures forall k :: k in result ==> result[k] == obj[k]
    ensures result == Omitted(obj, keys)
  {
    result := obj;
    for i := 0 to |keys|
      invariant forall k :: k in result <==> k in obj && k !in keys[..i]
      invariant forall k :: k in result ==> result[k] == obj[k]
    {
      result := result - {keys[i]};
    }
    assert keys[..|keys|] == keys;
  }

  /** Starts from an empty object and copies each listed key the object has. */
  method Pick<V>(obj: map<string, V>, keys: seq<string>) returns (result: map<string, V>)
    ensures forall k :: k in result <==> k in obj && k in keys
    ensures forall k :: k in result ==> result[k] == obj[k]
    ensures result == Picked(obj, keys)
  {
    result := map[];
    for i := 0 to |keys|
      invariant forall k :: k in result <==> k in obj && k in keys[..i]
      invariant forall k :: k in result ==> result[k] == obj[k]
    {
      if keys[i] in obj {
        result := result[keys[i] := obj[keys[i]]];
      }
    }
    assert keys[..|keys|] == keys;
  }

  /** For one key list, pick and omit split the object: disjoint domains whose union is the object. */
  lemma PickOmitPartition<V>(obj: map<string, V>, keys: seq<string>)
    ensures Picked(obj, keys).Keys !! Omitted(obj, keys).Keys
    ensures Picked(obj, keys).Keys + Omitted(obj, keys).Keys == obj.Keys
    ensures Picked(obj, keys) + Omitted(obj, keys) == obj
  {
  }
}
