/** Phone-number handling of `WhiteAngel.check_phone`: cleaning the raw
    input and guessing the country from the dialling prefix. */
module Phone {
  import opened Wrappers
  import opened Sequences

  /** The characters the cleaning keeps: the class `[0-9+]`. */
  predicate IsPhoneChar(c: char)
  {
    IsAsciiDigit(c) || c == '+'
  }

  /** `re.sub(r'[^0-9+]', '', number)`: drops every character other than
      an ASCII digit or '+'. Every '+' is kept, not only a leading one. */
  function Clean(number: string): (clean: string)
    ensures |clean| <= |number|
    ensures forall i :: 0 <= i < |clean| ==> IsPhoneChar(clean[i])
  {
    Keep(number, IsPhoneChar)
  }

  /** Cleaning decides character by character, so it keeps the input order. */
  lemma CleanConcat(a: string, b: string)
    ensures Clean(a + b) == Clean(a) + Clean(b)
    ensures Clean([]) == []
  {
    KeepConcat(a, b, IsPhoneChar);
  }

  /** The cleaned number is a subsequence of the raw input. */
  lemma CleanIsSubsequence(number: string)
    ensures IsSubsequence(Clean(number), number)
  {
    KeepIsSubsequence(number, IsPhoneChar);
  }

  /** Every digit and every '+' of the input survives, however many there are. */
  lemma CleanKeepsPhoneChars(number: string, c: char)
    requires IsPhoneChar(c)
    ensures multiset(Clean(number))[c] == multiset(number)[c]
  {
    KeepCount(number, IsPhoneChar, c);
  }

  /** Cleaning an already clean number changes nothing. */
  lemma CleanIdempotent(number: string)
    ensures Clean(Clean(number)) == Clean(number)
  {
    KeepIdempotent(number, IsPhoneChar);
  }

  predicate IsNotPlus(c: char)
  {
    c != '+'
  }

  /** `phone.replace('+', '')`: removes every '+'. */
  function StripPlus(phone: string): (digits: string)
    ensures '+' !in digits
    ensures |digits| <= |phone|
  {
    Keep(phone, IsNotPlus)
  }

  /** Removing the '+' signs keeps every other character, in order. */
  lemma StripPlusKeepsOthers(phone: string, c: char)
    requires c != '+'
    ensures multiset(StripPlus(phone))[c] == multiset(phone)[c]
    ensures IsSubsequence(StripPlus(phone), phone)
  {
    KeepCount(phone, IsNotPlus, c);
    KeepIsSubsequence(phone, IsNotPlus);
  }

  /** The country guesses `_detect_country` can produce. */
  datatype Country = Russia | Ukraine | Belarus | Kazakhstan | Unknown
  {
    /** The 'code' entry of the returned dictionary. */
    function Code(): (code: string)
    {
      match this
      case Russia => "RU"
      case Ukraine => "UA"
      case Belarus => "BY"
      case Kazakhstan => "KZ"
      case Unknown => "XX"
    }

    /** The 'country' entry of the returned dictionary. */
    function Name(): (name: string)
    {
      match this
      case Russia => "Россия 🇷🇺"
      case Ukraine => "Украина 🇺🇦"
      case Belarus => "Беларусь 🇧🇾"
      case Kazakhstan => "Казахстан 🇰🇿"
      case Unknown => "Неизвестно"
    }

    /** The 'operators' entry of the returned dictionary. */
    function Operators(): (operators: seq<string>)
    {
      match this
      case Russia => ["МТС", "Билайн", "МегаФон", "Теле2"]
      case Ukraine => ["Киевстар", "Vodafone", "lifecell"]
      case Belarus => ["МТС", "А1", "life:)"]
      case Kazakhstan => ["Beeline", "Kcell", "Tele2"]
      case Unknown => []
    }
  }

  /** `_detect_country`: the '+' signs are removed, then the prefix tests
      are tried in the order they are written and the first one that holds
      decides. */
  function DetectCountry(phone: string): (country: Country)
  {
    var digits := StripPlus(phone);
    if "7" <= digits then Russia
    else if "380" <= digits then Ukraine
    else if "375" <= digits then Belarus
    else if "7" <= digits && |digits| == 11 then Kazakhstan
    else Unknown
  }

  /** One test of the chain: a prefix and, optionally, an exact length. */
  datatype PrefixRule = PrefixRule(prefix: string, length: Option<nat>, country: Country)

  predicate Fires(rule: PrefixRule, digits: string)
  {
    rule.prefix <= digits && (rule.length.None? || |digits| == rule.length.value)
  }

  /** The tests of `_detect_country` as a table, in source order. */
  const CountryRules: seq<PrefixRule> := [
    PrefixRule("7", None, Russia),
    PrefixRule("380", None, Ukraine),
    PrefixRule("375", None, Belarus),
    PrefixRule("7", Some(11), Kazakhstan)
  ]

  /** The index of the first rule of the table that fires, if any. */
  function FirstMatch(rules: seq<PrefixRule>, digits: string): (r: Option<nat>)
    ensures r.Some? ==> r.value < |rules| && Fires(rules[r.value], digits)
    ensures r.Some? ==> forall k :: 0 <= k < r.value ==> !Fires(rules[k], digits)
    ensures r.None? ==> forall k :: 0 <= k < |rules| ==> !Fires(rules[k], digits)
  {
    if rules == [] then None
    else if Fires(rules[0], digits) then Some(0)
    else match FirstMatch(rules[1..], digits)
      case None => None
      case Some(i) => Some(i + 1)
  }

  /** First-match-wins classification by a rule table, `Unknown` when no rule fires. */
  function Classify(rules: seq<PrefixRule>, digits: string): (country: Country)
  {
    match FirstMatch(rules, digits)
    case None => Unknown
    case Some(i) => rules[i].country
  }

  /** The if-chain of `_detect_country` is first-match classification by
      the rule table, applied to the input without its '+' signs. */
  lemma DetectCountryFollowsRules(phone: string)
    ensures DetectCountry(phone) == Classify(CountryRules, StripPlus(phone))
  {
    var digits := StripPlus(phone);
    var m := FirstMatch(CountryRules, digits);
    if Fires(CountryRules[0], digits) {
      assert m == Some(0);
    } else if Fires(CountryRules[1], digits) {
      assert m == Some(1);
    } else if Fires(CountryRules[2], digits) {
      assert m == Some(2);
    } else {
      assert m == None;
    }
  }

  /** A rule whose condition implies that of an earlier rule never decides. */
  lemma ShadowedRuleNeverFires(rules: seq<PrefixRule>, i: nat, j: nat, digits: string)
    requires i < j < |rules|
    requires Fires(rules[j], digits) ==> Fires(rules[i], digits)
    ensures FirstMatch(rules, digits) != Some(j)
  {
  }

  /** The Kazakhstan test comes after the Russia test and implies it, so
      `_detect_country` never answers KZ. */
  lemma KazakhstanNeverDetected(phone: string)
    ensures DetectCountry(phone) != Kazakhstan
    ensures DetectCountry(phone).Code() != "KZ"
  {
    var digits := StripPlus(phone);
    DetectCountryFollowsRules(phone);
    ShadowedRuleNeverFires(CountryRules, 0, 3, digits);
  }

  /** The answer for each country, in terms of the digits after the '+'
      signs are removed; every condition holds in both directions. */
  lemma DetectCountryCases(phone: string)
    ensures DetectCountry(phone) == Russia <==> "7" <= StripPlus(phone)
    ensures DetectCountry(phone) == Ukraine <==> "380" <= StripPlus(phone)
    ensures DetectCountry(phone) == Belarus <==> "375" <= StripPlus(phone)
    ensures DetectCountry(phone) == Unknown <==>
      !("7" <= StripPlus(phone) || "380" <= StripPlus(phone) || "375" <= StripPlus(phone))
  {
    var digits := StripPlus(phone);
    if "380" <= digits || "375" <= digits {
      assert digits[0] == '3';
      assert !("7" <= digits);
    }
    if "375" <= digits {
      assert digits[1] == '7';
      assert !("380" <= digits);
    }
  }

  /** Removing the '+' signs decides character by character. */
  lemma StripPlusConcat(a: string, b: string)
    ensures StripPlus(a + b) == StripPlus(a) + StripPlus(b)
  {
    KeepConcat(a, b, IsNotPlus);
  }

  /** A leading '+' is removed. */
  lemma StripLeadingPlus(b: string)
    ensures StripPlus("+" + b) == StripPlus(b)
  {
    assert ("+" + b)[0] == '+';
    assert ("+" + b)[1..] == b;
  }

  /** Removing the '+' signs from a string with one more '+' gives the same digits. */
  lemma StripPlusDropsPlus(a: string, b: string)
    ensures StripPlus(a + "+" + b) == StripPlus(a + b)
  {
    assert a + "+" + b == a + ("+" + b);
    StripPlusConcat(a, "+" + b);
    StripLeadingPlus(b);
    StripPlusConcat(a, b);
  }

  /** A '+' anywhere in the input does not change the answer. */
  lemma DetectCountryIgnoresPlus(a: string, b: string)
    ensures DetectCountry(a + "+" + b) == DetectCountry(a + b)
  {
    StripPlusDropsPlus(a, b);
  }

  /** A number whose first digit is 7 is Russian whatever its length,
      with or without a leading '+'. */
  lemma RussiaAnyLength(rest: string)
    ensures DetectCountry("7" + rest) == Russia
    ensures DetectCountry("+7" + rest) == Russia
  {
    KeepConcat("7", rest, IsNotPlus);
    assert Keep("7", IsNotPlus) == "7";
    assert "+7" + rest == "+" + ("7" + rest);
    KeepConcat("+", "7" + rest, IsNotPlus);
    assert Keep("+", IsNotPlus) == [];
  }

  /** The input without digits is classified as unknown. */
  lemma EmptyIsUnknown()
    ensures DetectCountry("") == Unknown
    ensures DetectCountry("+") == Unknown
  {
    assert Keep("+", IsNotPlus) == [];
  }

  /** The example number `+79991234567` is Russian, although it has the 11
      digits of the Kazakhstan test. */
  lemma ExampleNumberIsRussian()
    ensures DetectCountry("+79991234567") == Russia
  {
    RussiaAnyLength("9991234567");
    assert "+7" + "9991234567" == "+79991234567";
  }
}
