/**
 * The rule table of the browser validator (`VALIDATION_PATTERNS`): for each
 * directive name, the pattern a value must match and the message shown when
 * it does not. The digit-count, shape and character-class patterns are
 * spelled out; the e-mail and URL patterns are oracles.
 */
module ValidationPatterns {
  import opened Wrappers
  import opened PyValues
  import opened FormValidator

  /** The keys of the rule table, in declaration order. */
  datatype Rule =
    | Letters | Numbers | Alphanumeric | Email | Phone | ExtendedPhone | Decimal
    | Dni | CountryCode | AreaCode | PhoneNumber | DateShape | Title | Url | Anything

  /**
   * Looking a directive token up in the rule table object. Besides its own
   * keys, a plain JavaScript object answers for the members it inherits from
   * `Object.prototype`: those entries are truthy but have no `pattern`.
   */
  datatype Lookup = Own(rule: Rule) | Inherited | Missing

  function LookupToken(token: string): Lookup {
    match token
    case "letters" => Own(Letters)
    case "numbers" => Own(Numbers)
    case "alphanumeric" => Own(Alphanumeric)
    case "email" => Own(Email)
    case "phone" => Own(Phone)
    case "extended_phone" => Own(ExtendedPhone)
    case "decimal" => Own(Decimal)
    case "dni" => Own(Dni)
    case "country_code" => Own(CountryCode)
    case "area_code" => Own(AreaCode)
    case "phone_number" => Own(PhoneNumber)
    case "date" => Own(DateShape)
    case "title" => Own(Title)
    case "url" => Own(Url)
    case "no" => Own(Anything)
    case _ => if token in PrototypeMembers then Inherited else Missing
  }

  const PrototypeMembers: set<string> := {
    "constructor", "hasOwnProperty", "isPrototypeOf", "propertyIsEnumerable",
    "toLocaleString", "toString", "valueOf", "__proto__",
    "__defineGetter__", "__defineSetter__", "__lookupGetter__", "__lookupSetter__"
  }

  function RuleMessage(rule: Rule): string {
    match rule
    case Letters => "Solo se permiten letras y espacios"
    case Numbers => "Solo se permiten números"
    case Alphanumeric => "Solo se permiten letras, números, espacios y guiones"
    case Email => "Ingrese un email válido"
    case Phone => "El número debe tener entre 6 y 15 dígitos"
    case ExtendedPhone => "Ingrese un número de teléfono válido"
    case Decimal => "Ingrese un número decimal válido"
    case Dni => "El DNI debe tener 7 u 8 dígitos"
    case CountryCode => "El código de país debe tener entre 1 y 3 dígitos"
    case AreaCode => "El código de área debe tener entre 1 y 4 dígitos"
    case PhoneNumber => "El número de teléfono debe tener al menos 6 dígitos"
    case DateShape => "Ingrese una fecha válida en formato DD/MM/YYYY"
    case Title => "El titulo no puede exceder los 100 caracteres"
    case Url => "Ingrese una URL válida"
    case Anything => "Este campo es válido siempre"
  }

  /** The two address-shaped patterns, left as oracles: whether they accept a value. */
  datatype RegexOracle = RegexOracle(email: string -> bool, url: string -> bool)

  /** `^\d{lo,hi}$`, with no upper bound when `hi` is `None`. */
  predicate DigitsBetween(v: string, lo: nat, hi: Option<nat>) {
    AllDigits(v) && lo <= |v| && (hi.Some? ==> |v| <= hi.value)
  }

  /** The accented letters the `alphanumeric` class spells out. */
  const SpanishLetters: set<char> := {'á', 'é', 'í', 'ó', 'ú', 'ñ', 'Á', 'É', 'Í', 'Ó', 'Ú', 'Ñ'}

  /** The letters the `letters` class spells out: those and `ü`, `Ü`. */
  predicate IsLetter(c: char) {
    ('a' <= c <= 'z') || ('A' <= c <= 'Z')
    || c in SpanishLetters || c == 'ü' || c == 'Ü'
  }

  predicate IsLetterSeparator(c: char) {
    IsJsSpace(c) || c == '\'' || c == '-'
  }

  /**
   * `^L+(?:[\s'-]?L+)*$`: words of letters, joined by at most one space,
   * apostrophe or hyphen, starting and ending with a letter.
   */
  predicate LetterWords(v: string) {
    && |v| > 0
    && IsLetter(v[0]) && IsLetter(v[|v| - 1])
    && (forall i :: 0 <= i < |v| ==> IsLetter(v[i]) || IsLetterSeparator(v[i]))
    && (forall i :: 0 <= i < |v| - 1 && IsLetterSeparator(v[i]) ==> IsLetter(v[i + 1]))
  }

  /** `^[A-Za-z0-9áéíóúñÁÉÍÓÚÑ\s\-\.]+$`. */
  predicate AlphanumericText(v: string) {
    |v| > 0
    && forall i :: 0 <= i < |v| ==>
      var c := v[i];
      ('a' <= c <= 'z') || ('A' <= c <= 'Z') || IsDigit(c) || c in SpanishLetters
      || IsJsSpace(c) || c == '-' || c == '.'
  }

  /** `^[0-9\-\+\s\(\)]+$`. */
  predicate PhoneText(v: string) {
    |v| > 0
    && forall i :: 0 <= i < |v| ==>
      IsDigit(v[i]) || v[i] in "-+()" || IsJsSpace(v[i])
  }

  /** `^\d*\.?\d+$`: digits, optionally one dot, and at least one digit after it. */
  predicate DecimalText(v: string) {
    || DigitsBetween(v, 1, None)
    || exists k | 0 <= k < |v| :: DotAt(v, k)
  }

  predicate DotAt(v: string, k: int)
    requires 0 <= k < |v|
  {
    v[k] == '.' && AllDigits(v[..k]) && DigitsBetween(v[k + 1..], 1, None)
  }

  /** JavaScript line terminators, which `.` does not match. */
  predicate IsLineTerminator(c: char) {
    c == '\n' || c == '\r' || c == '\U{2028}' || c == '\U{2029}'
  }

  predicate NoLineTerminator(v: string) {
    forall i :: 0 <= i < |v| ==> !IsLineTerminator(v[i])
  }

  /** Two characters `d1 d2` forming a number within `lo..hi`, each a digit. */
  predicate TwoDigitsIn(d1: char, d2: char, lo: int, hi: int) {
    IsDigit(d1) && IsDigit(d2)
    && lo <= (d1 as int - '0' as int) * 10 + (d2 as int - '0' as int) <= hi
  }

  /**
   * `^(0[1-9]|[12][0-9]|3[01])\/(0[1-9]|1[0-2])\/(19|20)\d{2}$`: the shape
   * DD/MM/YYYY, day 01..31 whatever the month, month 01..12, year 1900..2099.
   */
  predicate DateText(v: string) {
    && |v| == 10
    && TwoDigitsIn(v[0], v[1], 1, 31) && v[2] == '/'
    && TwoDigitsIn(v[3], v[4], 1, 12) && v[5] == '/'
    && TwoDigitsIn(v[6], v[7], 19, 20) && IsDigit(v[8]) && IsDigit(v[9])
  }

  /**
   * Whether rule `rule`'s pattern accepts the (trimmed) value `v`. Of the
   * spelled-out patterns only `title` and `no` accept the empty value; the
   * others need at least one character.
   */
  predicate Matches(rule: Rule, v: string, oracle: RegexOracle): (r: bool)
    ensures v == "" && rule != Email && rule != Url ==> (r <==> rule == Title || rule == Anything)
  {
    match rule
    case Letters => LetterWords(v)
    case Numbers => DigitsBetween(v, 1, None)
    case Alphanumeric => AlphanumericText(v)
    case Email => oracle.email(v)
    case Phone => DigitsBetween(v, 6, Some(15))
    case ExtendedPhone => PhoneText(v)
    case Decimal => DecimalText(v)
    case Dni => DigitsBetween(v, 7, Some(8))
    case CountryCode => DigitsBetween(v, 1, Some(3))
    case AreaCode => DigitsBetween(v, 1, Some(4))
    case PhoneNumber => DigitsBetween(v, 6, None)
    case DateShape => DateText(v)
    case Title => JsLength(v) <= 100 && NoLineTerminator(v)
    case Url => oracle.url(v)
    case Anything => NoLineTerminator(v)
  }

  /** The table entry for one key, as the validator sees it. */
  function EntryOf(token: string, oracle: RegexOracle): Entry {
    match LookupToken(token)
    case Own(rule) => Pattern(v => Matches(rule, v, oracle), RuleMessage(rule))
    case Inherited => InheritedMember
    case Missing => NoEntry
  }

  /**
   * `VALIDATION_PATTERNS`, as a table the validator consults: each own key
   * gives its rule's test and message, an inherited member gives an entry
   * without a pattern, and any other token nothing.
   */
  function Patterns(oracle: RegexOracle): (t: Table)
    ensures forall token :: t(token).Pattern? <==> LookupToken(token).Own?
    ensures forall token :: LookupToken(token).Own? ==> t(token).message == RuleMessage(LookupToken(token).rule)
    ensures forall token :: t(token).InheritedMember? <==> LookupToken(token).Inherited?
  {
    token => EntryOf(token, oracle)
  }

  /** The keys of `VALIDATION_PATTERNS` and the directive names that are not keys. */
  lemma TableKeys()
    ensures LookupToken("dni") == Own(Dni) && LookupToken("phone") == Own(Phone)
    ensures LookupToken("date") == Own(DateShape) && LookupToken("no") == Own(Anything)
    ensures LookupToken("required") == Missing && LookupToken("past-date") == Missing
    ensures LookupToken("") == Missing
    ensures LookupToken("constructor") == Inherited && LookupToken("toString") == Inherited
  {
  }

  /** The digit-count rules: digits only, within their count bounds. */
  lemma DigitCountRules(oracle: RegexOracle, v: string)
    ensures Matches(Dni, v, oracle) <==> AllDigits(v) && 7 <= |v| <= 8
    ensures Matches(Phone, v, oracle) <==> AllDigits(v) && 6 <= |v| <= 15
    ensures Matches(CountryCode, v, oracle) <==> AllDigits(v) && 1 <= |v| <= 3
    ensures Matches(AreaCode, v, oracle) <==> AllDigits(v) && 1 <= |v| <= 4
    ensures Matches(PhoneNumber, v, oracle) <==> AllDigits(v) && 6 <= |v|
    ensures Matches(Numbers, v, oracle) <==> AllDigits(v) && 1 <= |v|
  {
  }

  /** A 7-digit DNI passes the `dni` entry of the table, next to strings it rejects. */
  lemma DniExamples(oracle: RegexOracle)
    ensures Matches(Dni, "1234567", oracle) && Matches(Dni, "12345678", oracle)
    ensures !Matches(Dni, "123456789", oracle) && !Matches(Dni, "1234567a", oracle)
  {
    assert !IsDigit("1234567a"[7]);
  }

  /** The `date` rule checks the shape only: 31 February passes, month 13 and year 2100 do not. */
  lemma DateRuleIgnoresMonthLength(oracle: RegexOracle)
    ensures Matches(DateShape, "31/02/2023", oracle)
    ensures !Matches(DateShape, "32/01/2023", oracle) && !Matches(DateShape, "01/13/2023", oracle)
    ensures !Matches(DateShape, "01/01/2100", oracle)
  {
  }

  /** The `no` rule, despite its message, rejects a value spanning two lines. */
  lemma AnythingRuleRejectsLineBreak(oracle: RegexOracle)
    ensures !Matches(Anything, "a\nb", oracle) && Matches(Anything, "a b", oracle)
  {
    assert "a\nb"[1] == '\n';
  }

  /** The table entry for `dni`: the rule's test and its message. */
  lemma TableEntryForDni(oracle: RegexOracle)
    ensures Patterns(oracle)("dni") == Pattern(v => Matches(Dni, v, oracle), "El DNI debe tener 7 u 8 dígitos")
  {
    TableKeys();
  }

  /**
   * The `letters` rule read as a grammar: a single separator between two
   * letter words gives a letter word.
   */
  lemma LettersJoin(a: string, sep: char, b: string)
    requires LetterWords(a) && LetterWords(b) && IsLetterSeparator(sep)
    ensures LetterWords(a + [sep] + b)
  {
    var v := a + [sep] + b;
    assert forall i :: 0 <= i < |a| ==> v[i] == a[i];
    assert v[|a|] == sep;
    assert forall j :: 0 <= j < |b| ==> v[|a| + 1 + j] == b[j];
    forall i | 0 <= i < |v| ensures IsLetter(v[i]) || IsLetterSeparator(v[i]) {
      if i > |a| { assert v[i] == b[i - |a| - 1]; }
    }
    forall i | 0 <= i < |v| - 1 && IsLetterSeparator(v[i]) ensures IsLetter(v[i + 1]) {
      if i > |a| { assert v[i] == b[i - |a| - 1]; assert v[i + 1] == b[i - |a|]; }
      else if i < |a| - 1 { assert v[i + 1] == a[i + 1]; }
    }
  }

  /** The `letters` rule accepts accented names with a space, ... */
  lemma LettersAcceptsSpace(oracle: RegexOracle)
    ensures Matches(Letters, "Ana María", oracle)
  {
    assert LetterWords("Ana") && LetterWords("María");
    LettersJoin("Ana", ' ', "María");
    assert "Ana" + [' '] + "María" == "Ana María";
  }

  /** ... with an apostrophe, ... */
  lemma LettersAcceptsApostrophe(oracle: RegexOracle)
    ensures Matches(Letters, "O'Brien", oracle)
  {
    assert LetterWords("O") && LetterWords("Brien");
    LettersJoin("O", '\'', "Brien");
    assert "O" + ['\''] + "Brien" == "O'Brien";
  }

  /** ... and with a hyphen, `ü` and `ñ` included. */
  lemma LettersAcceptsHyphen(oracle: RegexOracle)
    ensures Matches(Letters, "Müller-Peña", oracle)
  {
    assert LetterWords("Müller") && LetterWords("Peña");
    LettersJoin("Müller", '-', "Peña");
    assert "Müller" + ['-'] + "Peña" == "Müller-Peña";
  }

  /** The `letters` rule rejects a doubled or trailing separator and digits. */
  lemma LettersRejects(oracle: RegexOracle)
    ensures !Matches(Letters, "Ana  María", oracle) && !Matches(Letters, "Ana-", oracle)
    ensures !Matches(Letters, "R2D2", oracle)
  {
    assert IsLetterSeparator("Ana  María"[3]) && !IsLetter("Ana  María"[4]);
    assert !IsLetter("Ana-"[3]);
    assert !IsLetter("R2D2"[1]) && !IsLetterSeparator("R2D2"[1]);
  }

  /**
   * The `alphanumeric` rule: letters, digits, white space, hyphens and dots;
   * unlike `letters` it has no `ü` and no apostrophe.
   */
  lemma AlphanumericExamples(oracle: RegexOracle)
    ensures Matches(Alphanumeric, "Calle 12-B.", oracle)
    ensures !Matches(Alphanumeric, "Müller", oracle)
    ensures !Matches(Alphanumeric, "O'Brien", oracle) && !Matches(Alphanumeric, "a_b", oracle)
  {
    assert "Müller"[1] == 'ü';
    assert "O'Brien"[1] == '\'';
    assert "a_b"[1] == '_';
  }

  /** The `extended_phone` rule: digits, `+`, `-`, parentheses and white space, in any arrangement. */
  lemma ExtendedPhoneExamples(oracle: RegexOracle)
    ensures Matches(ExtendedPhone, "+54 (221) 555-1234", oracle) && Matches(ExtendedPhone, ")(-", oracle)
    ensures !Matches(ExtendedPhone, "555 1234 int", oracle) && !Matches(ExtendedPhone, "555.1234", oracle)
  {
    assert "555 1234 int"[9] == 'i';
    assert "555.1234"[3] == '.';
  }

  /**
   * The `decimal` rule: digits with at most one dot, and at least one digit
   * after it; no sign and no trailing dot.
   */
  lemma DecimalExamples(oracle: RegexOracle)
    ensures Matches(Decimal, "3.14", oracle) && Matches(Decimal, ".5", oracle) && Matches(Decimal, "10", oracle)
    ensures !Matches(Decimal, "3.", oracle) && !Matches(Decimal, "1.2.3", oracle) && !Matches(Decimal, "-1", oracle)
  {
    assert DotAt("3.14", 1) by { assert "3.14"[..1] == "3" && "3.14"[2..] == "14"; }
    assert DotAt(".5", 0) by { assert ".5"[..0] == "" && ".5"[1..] == "5"; }
    assert !DigitsBetween("3.", 1, None) by { assert !IsDigit("3."[1]); }
    forall k | 0 <= k < 2 ensures !DotAt("3.", k) {
      if k == 1 { assert "3."[2..] == ""; }
    }
    assert !DigitsBetween("1.2.3", 1, None) by { assert !IsDigit("1.2.3"[1]); }
    forall k | 0 <= k < 5 ensures !DotAt("1.2.3", k) {
      if k == 1 { assert !IsDigit("1.2.3"[2..][1]); }
      else if k == 3 { assert !IsDigit("1.2.3"[..3][1]); }
    }
    assert !DigitsBetween("-1", 1, None) by { assert !IsDigit("-1"[0]); }
    forall k | 0 <= k < 2 ensures !DotAt("-1", k) {
    }
  }

  /** Outside the Basic Multilingual Plane every character is two code units. */
  lemma {:induction false} JsLengthAstral(s: string)
    requires forall i :: 0 <= i < |s| ==> s[i] as int > 0xFFFF
    ensures JsLength(s) == 2 * |s|
  {
    if s != [] {
      assert forall i :: 0 <= i < |s[1..]| ==> s[1..][i] == s[i + 1];
      JsLengthAstral(s[1..]);
    }
  }

  /**
   * The `title` rule counts UTF-16 code units: a one-line title of
   * characters from the Basic Multilingual Plane passes up to 100 of them,
   * one of characters outside it (emoji, say) only up to 50.
   */
  lemma TitleCountsCodeUnits(oracle: RegexOracle, v: string)
    ensures (forall i :: 0 <= i < |v| ==> v[i] as int <= 0xFFFF) ==>
      (Matches(Title, v, oracle) <==> |v| <= 100 && NoLineTerminator(v))
    ensures (forall i :: 0 <= i < |v| ==> v[i] as int > 0xFFFF) ==> (Matches(Title, v, oracle) <==> |v| <= 50)
  {
    JsLengthCountsCharacters(v);
    if forall i :: 0 <= i < |v| ==> v[i] as int > 0xFFFF {
      JsLengthAstral(v);
      assert forall i :: 0 <= i < |v| ==> !IsLineTerminator(v[i]);
    }
  }
}
