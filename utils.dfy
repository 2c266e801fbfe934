/*******************************************************************************
 *  utils.py of the Streamlit Authenticator cloud portal: the two input
 *  validators, the one-time code generator, and the collaborators the
 *  verification workflow relies on (bcrypt and e-mail dispatch), each reduced
 *  to what the workflow observes of it.
 *******************************************************************************/

module Utils {

  datatype Option<T> = None | Some(value: T)

  // ---------------------------------------------------------------------------
  // Searching strings

  /** The position of the first `c` in `s`, if there is one. */
  function FirstIndex(s: string, c: char): (r: Option<nat>)
    ensures r.Some? ==> r.value < |s| && s[r.value] == c && c !in s[..r.value]
    ensures r.None? ==> c !in s
  {
    if |s| == 0 then None
    else if s[0] == c then Some(0)
    else match FirstIndex(s[1..], c)
      case None => None
      case Some(i) =>
        assert s[..i + 1] == [s[0]] + s[1..][..i];
        Some(i + 1)
  }

  /** The position of the last `c` in `s`, if there is one. */
  function LastIndex(s: string, c: char): (r: Option<nat>)
    ensures r.Some? ==> r.value < |s| && s[r.value] == c && c !in s[r.value + 1..]
    ensures r.None? ==> c !in s
  {
    if |s| == 0 then None
    else if s[|s| - 1] == c then Some(|s| - 1)
    else
      var r := LastIndex(s[..|s| - 1], c);
      assert r.None? ==> s == s[..|s| - 1] + [s[|s| - 1]];
      assert r.Some? ==> s[r.value + 1..] == s[..|s| - 1][r.value + 1..] + [s[|s| - 1]];
      r
  }

  /** `s.replace(c, '')`: every `c` removed, every other character kept. */
  function RemoveAll(s: string, c: char): (r: string)
    ensures c !in r
    ensures forall x | x != c :: x in r <==> x in s
    ensures c !in s ==> r == s
  {
    if s == [] then []
    else (if s[0] == c then [] else [s[0]]) + RemoveAll(s[1..], c)
  }

  // ---------------------------------------------------------------------------
  // Python's `re.match(pattern, s)` with a pattern of the form `^…$`

  /** Where `$` (without MULTILINE) succeeds: at the very end of `s`, or just
      before a newline that is the last character of `s`. */
  predicate EndAnchor(s: string, k: int) {
    k == |s| || (0 <= k == |s| - 1 && s[k] == '\n')
  }

  /** `s` less one final newline, if it has one. */
  function StripFinalNewline(s: string): (t: string)
    ensures s == t || s == t + "\n"
    ensures t == s[..|t|]
    ensures |s| > 0 && s[|s| - 1] == '\n' ==> |t| == |s| - 1
  {
    if |s| > 0 && s[|s| - 1] == '\n' then s[..|s| - 1] else s
  }

  /** `.` matches every character except the newline. */
  predicate NoNewline(s: string) {
    '\n' !in s
  }

  // ---------------------------------------------------------------------------
  // validate_length: `^.{min,max}$`

  const DefaultMinLength: nat := 1
  const DefaultMaxLength: nat := 254

  /** The pattern `^.{lo,hi}$` matches `s` with `.{lo,hi}` consuming `s[..k]`. */
  ghost predicate LengthPatternMatchesAt(s: string, lo: nat, hi: nat, k: nat) {
    lo <= k <= hi && k <= |s| && NoNewline(s[..k]) && EndAnchor(s, k)
  }

  ghost predicate LengthPatternMatches(s: string, lo: nat, hi: nat) {
    exists k: nat :: LengthPatternMatchesAt(s, lo, hi, k)
  }

  /** The pattern `^.{lo,hi}$` matches exactly the strings that, less one final
      newline, hold no newline and have between `lo` and `hi` characters. */
  lemma LengthPatternOnStripped(s: string, lo: nat, hi: nat)
    ensures LengthPatternMatches(s, lo, hi) <==>
            var t := StripFinalNewline(s); NoNewline(t) && lo <= |t| <= hi
  {
    var t := StripFinalNewline(s);
    if NoNewline(t) && lo <= |t| <= hi {
      assert s[..|t|] == t;
      assert LengthPatternMatchesAt(s, lo, hi, |t|);
    }
    if LengthPatternMatches(s, lo, hi) {
      var k: nat :| LengthPatternMatchesAt(s, lo, hi, k);
      if k == |s| {
        assert s[..k] == s;
        assert |s| > 0 ==> s[|s| - 1] in s[..k];
      }
      assert s[..k] == t;
    }
  }

  /** `validate_length(s, minLength, maxLength)`: whether the anchored
      pattern `.{minLength,maxLength}` matches `s`. Python refuses to compile
      a repetition whose minimum exceeds its maximum. */
  function ValidateLength(s: string, minLength: nat, maxLength: nat): (r: bool)
    requires minLength <= maxLength
    ensures r <==> LengthPatternMatches(s, minLength, maxLength)
  {
    LengthPatternOnStripped(s, minLength, maxLength);
    var t := StripFinalNewline(s);
    NoNewline(t) && minLength <= |t| <= maxLength
  }

  /** With the default bounds the empty string and a 255-character line are
      refused, a 254-character line is accepted, and so is a 254-character
      line followed by one newline, which `$` tolerates. */
  lemma DefaultLengthBounds(line: string)
    requires NoNewline(line)
    ensures !ValidateLength("", DefaultMinLength, DefaultMaxLength)
    ensures |line| == 255 ==> !ValidateLength(line, DefaultMinLength, DefaultMaxLength)
    ensures 1 <= |line| <= 254 ==> ValidateLength(line, DefaultMinLength, DefaultMaxLength)
    ensures |line| == 254 ==> ValidateLength(line + "\n", DefaultMinLength, DefaultMaxLength)
    ensures !ValidateLength(line + "\n\n", DefaultMinLength, DefaultMaxLength)
  {
    var two := line + "\n\n";
    assert StripFinalNewline(two) == line + "\n";
    assert (line + "\n")[|line|] == '\n';
    assert StripFinalNewline(line + "\n") == line;
    if |line| > 0 {
      assert line[|line| - 1] in line;
    }
  }

  // ---------------------------------------------------------------------------
  // validate_email: `^[a-zA-Z0-9._%+-]{1,254}@[a-zA-Z0-9.-]{1,253}\.[a-zA-Z]{2,63}$`

  predicate IsAsciiLetter(ch: char) {
    'a' <= ch <= 'z' || 'A' <= ch <= 'Z'
  }

  predicate IsAsciiDigit(ch: char) {
    '0' <= ch <= '9'
  }

  /** `[a-zA-Z0-9._%+-]` */
  predicate IsLocalChar(ch: char) {
    IsAsciiLetter(ch) || IsAsciiDigit(ch) || ch in "._%+-"
  }

  /** `[a-zA-Z0-9.-]` */
  predicate IsDomainChar(ch: char) {
    IsAsciiLetter(ch) || IsAsciiDigit(ch) || ch in ".-"
  }

  /** `[a-zA-Z0-9._%+-]{1,254}` */
  predicate LocalPart(s: string) {
    1 <= |s| <= 254 && forall ch | ch in s :: IsLocalChar(ch)
  }

  /** `[a-zA-Z0-9.-]{1,253}` */
  predicate DomainPart(s: string) {
    1 <= |s| <= 253 && forall ch | ch in s :: IsDomainChar(ch)
  }

  /** `[a-zA-Z]{2,63}` */
  predicate TopLevelDomain(s: string) {
    2 <= |s| <= 63 && forall ch | ch in s :: IsAsciiLetter(ch)
  }

  /** The e-mail pattern matches `s` with the `@` at `i`, the `\.` at `j` and
      `$` succeeding at `k`. */
  ghost predicate EmailPatternMatchesAt(s: string, i: nat, j: nat, k: nat) {
    i < j < k <= |s| && EndAnchor(s, k) &&
    LocalPart(s[..i]) && s[i] == '@' &&
    DomainPart(s[i + 1..j]) && s[j] == '.' &&
    TopLevelDomain(s[j + 1..k])
  }

  ghost predicate EmailPatternMatches(s: string) {
    exists i: nat, j: nat, k: nat :: EmailPatternMatchesAt(s, i, j, k)
  }

  datatype EmailParts = EmailParts(local: string, domain: string, tld: string)

  /** The only way the pattern can split `t`: neither character class admits
      `@`, so the `@` is the first one; `[a-zA-Z]` does not admit `.`, so the
      `\.` is the last dot after it. */
  function SplitEmail(t: string): (p: Option<EmailParts>)
    ensures p.Some? ==> t == p.value.local + "@" + p.value.domain + "." + p.value.tld
  {
    match FirstIndex(t, '@')
    case None => None
    case Some(i) =>
      var rest := t[i + 1..];
      match LastIndex(rest, '.')
      case None => None
      case Some(j) =>
        assert t == t[..i] + "@" + rest[..j] + "." + rest[j + 1..];
        Some(EmailParts(t[..i], rest[..j], rest[j + 1..]))
  }

  /** Whatever way `t` is written as `local@domain.tld` with no `@` in `local`
      or `domain` and no `.` in `tld`, that is the split `SplitEmail` finds. */
  lemma SplitEmailUnique(t: string, local: string, domain: string, tld: string)
    requires t == local + "@" + domain + "." + tld
    requires '@' !in local && '@' !in domain && '.' !in tld
    ensures SplitEmail(t) == Some(EmailParts(local, domain, tld))
  {
    var rest := domain + "." + tld;
    assert t == local + "@" + rest;
    FirstAt(local, rest);
    assert FirstIndex(t, '@') == Some(|local|);
    assert t[..|local|] == local;
    assert t[|local| + 1..] == rest;
    LastDot(domain, tld);
    assert LastIndex(t[|local| + 1..], '.') == Some(|domain|);
    assert rest[..|domain|] == domain;
    assert rest[|domain| + 1..] == tld;
  }

  /** In `local@rest` with no `@` in `local`, the first `@` is the one after it. */
  lemma FirstAt(local: string, rest: string)
    requires '@' !in local
    ensures FirstIndex(local + "@" + rest, '@') == Some(|local|)
  {
    var t := local + "@" + rest;
    assert t[|local|] == '@';
    assert t[..|local|] == local;
    var f := FirstIndex(t, '@');
    assert f.Some? by { assert t[|local|] in t; }
  }

  predicate CandidateAccepted(p: Option<EmailParts>) {
    p.Some? && LocalPart(p.value.local) && DomainPart(p.value.domain) && TopLevelDomain(p.value.tld)
  }

  /** Characters the e-mail pattern's classes refuse. */
  lemma ClassesExclude()
    ensures !IsLocalChar('@') && !IsDomainChar('@') && !IsAsciiLetter('@')
    ensures !IsLocalChar(' ') && !IsDomainChar(' ') && !IsAsciiLetter(' ')
    ensures !IsAsciiLetter('.') && !IsAsciiLetter('\n')
  {
  }

  /** A match of the pattern is the candidate split, and its parts are in
      the right classes. */
  lemma MatchIsCandidate(s: string, i: nat, j: nat, k: nat)
    requires EmailPatternMatchesAt(s, i, j, k)
    ensures CandidateAccepted(SplitEmail(StripFinalNewline(s)))
  {
    ClassesExclude();
    var local, domain, tld := s[..i], s[i + 1..j], s[j + 1..k];
    assert tld[|tld| - 1] == s[k - 1];
    assert StripFinalNewline(s) == s[..k];
    assert s[..k] == local + "@" + domain + "." + tld;
    SplitEmailUnique(s[..k], local, domain, tld);
  }

  /** The parts of a split in the right classes are a match on the split text. */
  lemma PartsMatch(t: string, local: string, domain: string, tld: string)
    requires t == local + "@" + domain + "." + tld
    requires LocalPart(local) && DomainPart(domain) && TopLevelDomain(tld)
    ensures EmailPatternMatchesAt(t, |local|, |local| + 1 + |domain|, |t|)
  {
    var i, j := |local|, |local| + 1 + |domain|;
    assert t[..i] == local;
    assert t[i + 1..j] == domain;
    assert t[j + 1..] == tld;
  }

  /** A match that ends where `$` succeeds on a longer text is a match on it. */
  lemma MatchExtends(s: string, i: nat, j: nat, k: nat)
    requires k <= |s| && EndAnchor(s, k)
    requires EmailPatternMatchesAt(s[..k], i, j, k)
    ensures EmailPatternMatchesAt(s, i, j, k)
  {
    assert s[..k][..i] == s[..i];
    assert s[..k][i + 1..j] == s[i + 1..j];
    assert s[..k][j + 1..k] == s[j + 1..k];
  }

  /** Parts in the right classes, joined around `@` and `.`, match the
      pattern on any text that is the join plus at most one final newline. */
  lemma JoinedPartsMatch(s: string, local: string, domain: string, tld: string)
    requires StripFinalNewline(s) == local + "@" + domain + "." + tld
    requires LocalPart(local) && DomainPart(domain) && TopLevelDomain(tld)
    ensures EmailPatternMatchesAt(s, |local|, |local| + 1 + |domain|, |StripFinalNewline(s)|)
  {
    var t := StripFinalNewline(s);
    PartsMatch(t, local, domain, tld);
    MatchExtends(s, |local|, |local| + 1 + |domain|, |t|);
  }

  /** An accepted candidate split is a match of the pattern. */
  lemma CandidateIsMatch(s: string)
    requires CandidateAccepted(SplitEmail(StripFinalNewline(s)))
    ensures EmailPatternMatches(s)
  {
    var p := SplitEmail(StripFinalNewline(s)).value;
    JoinedPartsMatch(s, p.local, p.domain, p.tld);
  }

  /** The e-mail pattern matches `s` exactly when the one candidate split of
      `s` less a final newline has parts in the right classes and lengths. */
  lemma EmailPatternOnCandidate(s: string)
    ensures EmailPatternMatches(s) <==> CandidateAccepted(SplitEmail(StripFinalNewline(s)))
  {
    if EmailPatternMatches(s) {
      var i: nat, j: nat, k: nat :| EmailPatternMatchesAt(s, i, j, k);
      MatchIsCandidate(s, i, j, k);
    }
    if CandidateAccepted(SplitEmail(StripFinalNewline(s))) {
      CandidateIsMatch(s);
    }
  }

  /** `validate_email(s)`: whether the anchored e-mail pattern matches `s`. */
  function ValidateEmail(s: string): (r: bool)
    ensures r <==> EmailPatternMatches(s)
  {
    EmailPatternOnCandidate(s);
    CandidateAccepted(SplitEmail(StripFinalNewline(s)))
  }

  /** `local@domain.tld` with no `@` in any part holds exactly one `@`. */
  lemma OneAt(local: string, domain: string, tld: string)
    requires '@' !in local && '@' !in domain && '@' !in tld
    ensures multiset(local + "@" + domain + "." + tld)['@'] == 1
  {
    assert multiset(local + "@" + domain + "." + tld)
        == multiset(local) + multiset("@") + multiset(domain) + multiset(".") + multiset(tld);
  }

  /** In `prefix.tld` with no dot in `tld`, the last dot is the one before `tld`. */
  lemma LastDot(prefix: string, tld: string)
    requires '.' !in tld
    ensures LastIndex(prefix + "." + tld, '.') == Some(|prefix|)
  {
    var t := prefix + "." + tld;
    assert t[|prefix|] == '.';
    assert t[|prefix| + 1..] == tld;
    var l := LastIndex(t, '.');
    assert l.Some? by { assert t[|prefix|] in t; }
  }

  /** An accepted address has exactly one `@` and no space, and what follows
      its last dot (less a final newline) is 2 to 63 ASCII letters. */
  lemma AcceptedEmailShape(s: string)
    requires ValidateEmail(s)
    ensures multiset(s)['@'] == 1
    ensures ' ' !in s
    ensures var t := StripFinalNewline(s);
            LastIndex(t, '.').Some? && TopLevelDomain(t[LastIndex(t, '.').value + 1..])
  {
    ClassesExclude();
    var t := StripFinalNewline(s);
    var p := SplitEmail(t).value;
    assert '@' !in p.local && '@' !in p.domain && '@' !in p.tld;
    assert ' ' !in p.local && ' ' !in p.domain && ' ' !in p.tld;
    assert '.' !in p.tld;
    OneAt(p.local, p.domain, p.tld);
    assert ' ' !in t;
    if s != t {
      assert multiset(s) == multiset(t) + multiset("\n");
    }
    LastDot(p.local + "@" + p.domain, p.tld);
    assert t[|t| - |p.tld|..] == p.tld;
  }

  /** `validate_email("a@b.co")` holds: the `@` is at 1, the dot at 3. */
  lemma EmailExampleAccepted()
    ensures ValidateEmail("a@b.co")
  {
    var good := "a@b.co";
    assert good[..1] == "a" && good[2..3] == "b" && good[4..6] == "co";
    assert EmailPatternMatchesAt(good, 1, 3, 6);
  }

  /** `validate_email("a@b")` does not hold: no dot follows the `@`. */
  lemma EmailExampleRejected()
    ensures !ValidateEmail("a@b")
  {
    var bad := "a@b";
    assert StripFinalNewline(bad) == bad;
    assert FirstIndex(bad, '@') == Some(1);
    assert LastIndex(bad[2..], '.') == None by { assert bad[2..] == "b"; }
  }

  // ---------------------------------------------------------------------------
  // generate_random_verification_code

  /** `string.digits` */
  const Digits := "0123456789"

  /** Four decimal digits and nothing else. */
  predicate IsVerificationCode(code: string) {
    |code| == 4 && forall ch | ch in code :: IsAsciiDigit(ch)
  }

  /** Four independent `random.choice(string.digits)` draws joined into one
      string, from which every space is then removed. The draws are an
      arbitrary choice: the distribution is not modelled. */
  method GenerateRandomVerificationCode() returns (code: string)
    ensures IsVerificationCode(code)
  {
    var joined := "";
    for n := 0 to 4
      invariant |joined| == n
      invariant forall ch | ch in joined :: IsAsciiDigit(ch)
    {
      assert Digits[0] in Digits;
      var d :| d in Digits;
      joined := joined + [d];
    }
    ReplaceKeepsDigits(joined);
    code := RemoveAll(joined, ' ');
  }

  /** Removing spaces from a string of digits leaves it as it was. */
  lemma ReplaceKeepsDigits(s: string)
    requires forall ch | ch in s :: IsAsciiDigit(ch)
    ensures RemoveAll(s, ' ') == s
  {
  }

  // ---------------------------------------------------------------------------
  // hash / check_hash (bcrypt)

  /** A bcrypt artifact. bcrypt embeds its random salt in the artifact; the
      model also keeps the hashed text, so that `CheckHash` accepts exactly the
      text the artifact was made from (the collision-freedom bcrypt is relied
      on for). Only `CheckHash` and ghost invariants read `preimage`. */
  datatype Hash = Bcrypt(salt: string, preimage: string)

  /** `hash(s)`, with the salt `bcrypt.gensalt()` would draw given as `salt`. */
  function HashCode(s: string, salt: string): (h: Hash)
    ensures CheckHash(s, h)
  {
    Bcrypt(salt, s)
  }

  /** `check_hash(s, h)` */
  function CheckHash(s: string, h: Hash): bool {
    s == h.preimage
  }

  /** A code is accepted against the hash of a text exactly when it is that
      text, whatever salt was drawn. */
  lemma CheckHashExact(attempt: string, code: string, salt: string)
    ensures CheckHash(attempt, HashCode(code, salt)) <==> attempt == code
  {
  }

  // ---------------------------------------------------------------------------
  // send_email_general

  /** What happened inside the `try` of `send_email_general`: the POST went
      out, or something in it (reading the secrets, the request itself)
      raised. */
  datatype PostOutcome = Posted | PostRaised(exception: string)

  /** `send_email_general`: the exception, if any, is printed and swallowed,
      and success is reported either way. */
  function SendEmailGeneral(subject: string, content: string, recipient: string, emailType: string,
                            post: PostOutcome): (reported: bool)
    ensures reported
  {
    match post
    case Posted => true
    case PostRaised(_) => true
  }
}
