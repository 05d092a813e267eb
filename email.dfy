/** Email handling of `WhiteAngel.check_email`: the format test
    `re.match(r'^[a-zA-Z0-9._%+-]+@[a-zA-Z0-9.-]+\.[a-zA-Z]{2,}$', s)`
    and the split `s.split('@')` into local part and domain. */
module Email {
  import opened Wrappers
  import opened Sequences

  predicate IsAsciiLetter(c: char)
  {
    'a' <= c <= 'z' || 'A' <= c <= 'Z'
  }

  /** The class `[a-zA-Z0-9._%+-]` of the local part. */
  predicate IsLocalChar(c: char)
  {
    IsAsciiLetter(c) || IsAsciiDigit(c) || c == '.' || c == '_' || c == '%' || c == '+' || c == '-'
  }

  /** The class `[a-zA-Z0-9.-]` of the domain. */
  predicate IsDomainChar(c: char)
  {
    IsAsciiLetter(c) || IsAsciiDigit(c) || c == '.' || c == '-'
  }

  predicate AllLocal(s: string)
  {
    forall i :: 0 <= i < |s| ==> IsLocalChar(s[i])
  }

  predicate AllDomain(s: string)
  {
    forall i :: 0 <= i < |s| ==> IsDomainChar(s[i])
  }

  predicate AllLetters(s: string)
  {
    forall i :: 0 <= i < |s| ==> IsAsciiLetter(s[i])
  }

  /** The pattern body matches all of `s`, with the '@' at index `at` and
      the escaped `\.` at index `dot`: one or more local characters, '@',
      one or more domain characters, '.', two or more letters. */
  predicate PatternAt(s: string, at: int, dot: int)
  {
    0 < at && at + 1 < dot && dot + 3 <= |s|
    && AllLocal(s[..at]) && s[at] == '@'
    && AllDomain(s[at + 1..dot]) && s[dot] == '.'
    && AllLetters(s[dot + 1..])
  }

  /** Some way of placing the '@' and the last '.' makes the pattern body match. */
  ghost predicate BodyMatches(s: string)
  {
    exists at, dot :: PatternAt(s, at, dot)
  }

  /** What `re.match` with `^...$` accepts: `$` without MULTILINE matches at
      the end of the string and also just before one final newline. */
  ghost predicate RegexMatches(s: string)
  {
    BodyMatches(s) || (|s| > 0 && s[|s| - 1] == '\n' && BodyMatches(s[..|s| - 1]))
  }

  /** The index of the first occurrence of `x` in `s`. */
  function IndexOf(s: string, x: char): (r: Option<nat>)
    ensures r.Some? ==> r.value < |s| && s[r.value] == x && x !in s[..r.value]
    ensures r.None? ==> x !in s
  {
    if s == [] then None
    else if s[0] == x then Some(0)
    else match IndexOf(s[1..], x)
      case None => None
      case Some(i) => assert s[..i + 1] == [s[0]] + s[1..][..i]; Some(i + 1)
  }

  /** The index of the last occurrence of `x` in `s`. */
  function LastIndexOf(s: string, x: char): (r: Option<nat>)
    ensures r.Some? ==> r.value < |s| && s[r.value] == x && x !in s[r.value + 1..]
    ensures r.None? ==> x !in s
  {
    if s == [] then None
    else if s[|s| - 1] == x then Some(|s| - 1)
    else
      var r := LastIndexOf(s[..|s| - 1], x);
      assert s == s[..|s| - 1] + [s[|s| - 1]];
      assert r.Some? ==> s[r.value + 1..] == s[..|s| - 1][r.value + 1..] + [s[|s| - 1]];
      r
  }

  /** `IndexOf` finds the first occurrence. */
  lemma {:induction false} IndexOfIs(s: string, x: char, i: nat)
    requires i < |s| && s[i] == x && x !in s[..i]
    ensures IndexOf(s, x) == Some(i)
  {
    if i > 0 {
      assert s[0] == s[..i][0];
      assert s[1..][..i - 1] == s[1..i];
      assert forall c :: c in s[1..i] ==> c in s[..i];
      IndexOfIs(s[1..], x, i - 1);
    }
  }

  /** `LastIndexOf` finds the last occurrence. */
  lemma {:induction false} LastIndexOfIs(s: string, x: char, k: nat)
    requires k < |s| && s[k] == x && x !in s[k + 1..]
    ensures LastIndexOf(s, x) == Some(k)
  {
    if k < |s| - 1 {
      assert s[|s| - 1] == s[k + 1..][|s| - 1 - k - 1];
      var t := s[..|s| - 1];
      assert t[k + 1..] == s[k + 1..|s| - 1];
      LastIndexOfIs(t, x, k);
    }
  }

  /** The domain after the '@': domain characters only, with a last '.'
      that has something before it and at least two letters after it. */
  predicate IsEmailDomain(d: string)
  {
    AllDomain(d) &&
    match LastIndexOf(d, '.')
    case None => false
    case Some(k) => 0 < k && k + 3 <= |d| && AllLetters(d[k + 1..])
  }

  /** The pattern body, decided by hand: split at the first '@', check the
      local part, check the domain. */
  predicate IsEmailBody(s: string)
  {
    match IndexOf(s, '@')
    case None => false
    case Some(at) => 0 < at && AllLocal(s[..at]) && IsEmailDomain(s[at + 1..])
  }

  /** The format test of `check_email`, including what `$` lets through. */
  predicate IsValidEmail(s: string)
  {
    IsEmailBody(s) || (|s| > 0 && s[|s| - 1] == '\n' && IsEmailBody(s[..|s| - 1]))
  }

  lemma BodyToPattern(s: string) returns (at: nat, dot: nat)
    requires IsEmailBody(s)
    ensures PatternAt(s, at, dot)
    ensures IndexOf(s, '@') == Some(at)
  {
    at := IndexOf(s, '@').value;
    var d := s[at + 1..];
    var k := LastIndexOf(d, '.').value;
    dot := at + 1 + k;
    assert s[at + 1..dot] == d[..k];
    assert s[dot + 1..] == d[k + 1..];
  }

  /** A domain body, a '.', and two or more letters make a valid domain. */
  lemma DomainFromParts(body: string, tld: string)
    requires body != [] && AllDomain(body)
    requires |tld| >= 2 && AllLetters(tld)
    ensures IsEmailDomain(body + "." + tld)
    ensures '@' !in body + "." + tld
  {
    var d := body + "." + tld;
    var k := |body|;
    assert d[k] == '.';
    assert d[k + 1..] == tld;
    assert AllDomain(d) by {
      forall j | 0 <= j < |d| ensures IsDomainChar(d[j]) {
        if j < k {
          assert d[j] == body[j];
        } else if j > k {
          assert d[j] == tld[j - k - 1];
        }
      }
    }
    assert !IsAsciiLetter('.');
    LastIndexOfIs(d, '.', k);
  }

  lemma PatternToBody(s: string, at: int, dot: int)
    requires PatternAt(s, at, dot)
    ensures IsEmailBody(s)
    ensures IndexOf(s, '@') == Some(at)
    ensures '@' !in s[at + 1..]
  {
    assert !IsLocalChar('@');
    assert '@' !in s[..at];
    IndexOfIs(s, '@', at);
    assert s[at + 1..] == s[at + 1..dot] + "." + s[dot + 1..];
    DomainFromParts(s[at + 1..dot], s[dot + 1..]);
  }

  /** The hand-written test decides exactly the pattern body. */
  lemma EmailBodyMatchesPattern(s: string)
    ensures IsEmailBody(s) <==> BodyMatches(s)
  {
    if IsEmailBody(s) {
      var at, dot := BodyToPattern(s);
    }
    if BodyMatches(s) {
      var at, dot :| PatternAt(s, at, dot);
      PatternToBody(s, at, dot);
    }
  }

  /** The hand-written test accepts exactly what the regular expression does. */
  lemma ValidEmailMatchesRegex(s: string)
    ensures IsValidEmail(s) <==> RegexMatches(s)
  {
    EmailBodyMatchesPattern(s);
    if |s| > 0 {
      EmailBodyMatchesPattern(s[..|s| - 1]);
    }
  }

  /** A matching body ends in a letter. */
  lemma BodyEndsInLetter(s: string)
    requires IsEmailBody(s)
    ensures |s| > 0 && IsAsciiLetter(s[|s| - 1])
  {
    var at, dot := BodyToPattern(s);
    assert s[|s| - 1] == s[dot + 1..][|s| - dot - 2];
  }

  /** What may follow the '@' of an accepted address: a valid domain,
      possibly followed by the one newline `$` lets through. */
  predicate IsDomainPart(d: string)
  {
    IsEmailDomain(d) || (|d| > 0 && d[|d| - 1] == '\n' && IsEmailDomain(d[..|d| - 1]))
  }

  /** Where the '@' of a matching body is, and what surrounds it. */
  lemma BodyAt(s: string) returns (at: nat)
    requires IsEmailBody(s)
    ensures 0 < at < |s| && s[at] == '@'
    ensures '@' !in s[..at] && '@' !in s[at + 1..]
    ensures AllLocal(s[..at]) && IsEmailDomain(s[at + 1..])
  {
    var dot;
    at, dot := BodyToPattern(s);
    PatternToBody(s, at, dot);
  }

  /** Where the '@' of an accepted address is, and what surrounds it. */
  lemma AtSign(s: string) returns (at: nat)
    requires IsValidEmail(s)
    ensures 0 < at < |s| && s[at] == '@'
    ensures '@' !in s[..at] && '@' !in s[at + 1..]
    ensures AllLocal(s[..at])
    ensures IsDomainPart(s[at + 1..])
    ensures IsEmailBody(s) ==> IsEmailDomain(s[at + 1..])
  {
    if IsEmailBody(s) {
      at := BodyAt(s);
    } else {
      var body := s[..|s| - 1];
      at := BodyAt(body);
      assert s == body + "\n";
      NewlineAfterBody(body, at);
    }
  }

  /** Appending a newline keeps the '@' where it was and adds the newline
      to what follows it. */
  lemma NewlineAfterBody(body: string, at: nat)
    requires 0 < at < |body| && body[at] == '@'
    requires '@' !in body[..at] && '@' !in body[at + 1..]
    requires AllLocal(body[..at]) && IsEmailDomain(body[at + 1..])
    ensures var s := body + "\n";
      s[at] == '@' && '@' !in s[..at] && '@' !in s[at + 1..] && AllLocal(s[..at]) && IsDomainPart(s[at + 1..])
  {
    var s := body + "\n";
    assert s[..at] == body[..at];
    var d := s[at + 1..];
    assert d == body[at + 1..] + "\n";
    assert d[..|d| - 1] == body[at + 1..];
  }

  /** A matching address holds exactly one '@', so `split('@')` gives two
      pieces and the unpacking `local_part, domain = ...` cannot fail; the
      local part is a non-empty run of local characters, and the domain
      is a valid domain, followed by the newline `$` let through if any. */
  lemma SplitValidEmail(s: string)
    requires IsValidEmail(s)
    ensures |Split(s, '@')| == 2
    ensures Split(s, '@')[0] + "@" + Split(s, '@')[1] == s
    ensures Split(s, '@')[0] != [] && AllLocal(Split(s, '@')[0])
    ensures IsDomainPart(Split(s, '@')[1])
  {
    var at := AtSign(s);
    SplitAtOnly(s, '@', at);
    assert s == s[..at] + "@" + s[at + 1..];
  }

  /** An accepted address holds exactly one '@'. */
  lemma ValidEmailHasOneAt(s: string)
    requires IsValidEmail(s)
    ensures multiset(s)['@'] == 1
  {
    SplitValidEmail(s);
    SplitPieces(s, '@');
  }

  /** The local part and domain of an address that passed the test. */
  function SplitEmail(s: string): (parts: (string, string))
    requires IsValidEmail(s)
    ensures parts.0 + "@" + parts.1 == s
    ensures '@' !in parts.0 && '@' !in parts.1
  {
    SplitValidEmail(s);
    SplitPieces(s, '@');
    var pieces := Split(s, '@');
    (pieces[0], pieces[1])
  }

  /** A string ending in a newline never matches the pattern body. */
  lemma NewlineEndedIsNotBody(t: string)
    requires |t| > 0 && t[|t| - 1] == '\n'
    ensures !IsEmailBody(t)
  {
    if IsEmailBody(t) {
      BodyEndsInLetter(t);
    }
  }

  /** Python's `$` lets one trailing newline through: an address followed
      by '\n' is accepted and its domain keeps the newline, but a second
      newline is refused. */
  lemma TrailingNewlineAccepted(s: string)
    requires IsEmailBody(s)
    ensures IsValidEmail(s + "\n")
    ensures SplitEmail(s + "\n").0 == SplitEmail(s).0
    ensures SplitEmail(s + "\n").1 == SplitEmail(s).1 + "\n"
    ensures !IsValidEmail(s + "\n\n")
  {
    var t := s + "\n";
    assert t[..|t| - 1] == s;
    var u := t + "\n";
    assert u == s + "\n\n";
    assert u[..|u| - 1] == t;
    NewlineEndedIsNotBody(t);
    NewlineEndedIsNotBody(u);
    var at := AtSign(s);
    assert t[..at] == s[..at];
    assert t[at + 1..] == s[at + 1..] + "\n";
    SplitAtOnly(s, '@', at);
    SplitAtOnly(t, '@', at);
  }

  /** The pattern places the '@' and the '.' of the example address. */
  lemma UserAtExamplePattern()
    ensures PatternAt("user@example.com", 4, 12)
  {
    var s := "user@example.com";
    assert s[..4] == "user";
    assert s[5..12] == "example";
    assert s[13..] == "com";
  }

  /** The example address is accepted and split as expected. */
  lemma UserAtExample()
    ensures IsValidEmail("user@example.com")
    ensures SplitEmail("user@example.com") == ("user", "example.com")
  {
    var s := "user@example.com";
    UserAtExamplePattern();
    PatternToBody(s, 4, 12);
    assert s[..4] == "user";
    assert s[5..] == "example.com";
    SplitAtOnly(s, '@', 4);
  }

  /** An accepted address holds a '.' after its '@'. */
  lemma ValidEmailHasDot(s: string)
    requires IsValidEmail(s)
    ensures '.' in s
  {
    var at := AtSign(s);
    var d := if IsEmailBody(s) then s[at + 1..] else s[at + 1..|s| - 1];
    var k := LastIndexOf(d, '.').value;
    assert d[k] == s[at + 1 + k];
  }

  /** An address without a '.' is refused. */
  lemma NoDotRefused(s: string)
    requires '.' !in s
    ensures !IsValidEmail(s)
  {
    if IsValidEmail(s) {
      ValidEmailHasDot(s);
    }
  }

  /** An address with a second '@' is refused. */
  lemma TwoAtSignsRefused(s: string, i: nat, j: nat)
    requires i < j < |s| && s[i] == '@' && s[j] == '@'
    ensures !IsValidEmail(s)
  {
    if IsValidEmail(s) {
      var at := AtSign(s);
    }
  }
}
