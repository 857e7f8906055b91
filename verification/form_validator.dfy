/**
 * The browser-side rule engine of the admin forms: every input carrying a
 * `data-validate` directive list is checked against the required flag, the
 * length attributes, the named pattern table, the past-date rule and the
 * numeric bounds; the input and its help text are then marked, and a submit
 * is blocked when any input fails.
 */
module FormValidator {
  import opened Wrappers
  import opened PyValues

  // ------------------------------------------------------------ rule table

  /**
   * What indexing the rule table object with a directive token yields: an
   * entry with a pattern test and a message; a member inherited from
   * `Object.prototype` (truthy, but without a `pattern`); or nothing.
   */
  datatype Entry = Pattern(test: string -> bool, message: string) | InheritedMember | NoEntry

  type Table = string -> Entry

  // ----------------------------------------------------------- parseInt

  function HexDigit(c: char): Option<nat> {
    if IsDigit(c) then Some(c as int - '0' as int)
    else if 'a' <= c <= 'f' then Some(c as int - 'a' as int + 10)
    else if 'A' <= c <= 'F' then Some(c as int - 'A' as int + 10)
    else None
  }

  /** The number of leading characters of `s` that are digits of `base` (10 or 16). */
  function DigitRun(s: string, base: nat): (n: nat)
    ensures n <= |s|
  {
    if s == [] then 0
    else if (base == 10 && IsDigit(s[0])) || (base == 16 && HexDigit(s[0]).Some?)
    then 1 + DigitRun(s[1..], base)
    else 0
  }

  /** The value of a string of `base` digits, most significant first. */
  function DigitsValue(s: string, base: nat): nat
    decreases |s|
  {
    if s == [] then 0
    else DigitsValue(s[..|s| - 1], base) * base + HexDigit(s[|s| - 1]).GetOr(0)
  }

  function TrimStart(s: string): string {
    if s != [] && IsJsSpace(s[0]) then TrimStart(s[1..]) else s
  }

  /**
   * JavaScript `parseInt(s)` with no radix: leading white space, an optional
   * sign, a `0x` prefix selecting base 16, then the longest run of digits;
   * `None` stands for NaN (no digit at all).
   */
  function ParseInt(s: string): Option<int> {
    var t := TrimStart(s);
    var negative := t != [] && t[0] == '-';
    var u := if t != [] && (t[0] == '-' || t[0] == '+') then t[1..] else t;
    var hex := StartsWith(u, "0x") || StartsWith(u, "0X");
    var body := if hex then u[2..] else u;
    var base := if hex then 16 else 10;
    var n := DigitRun(body, base);
    if n == 0 then None
    else
      var magnitude: int := DigitsValue(body[..n], base);
      Some(if negative then -magnitude else magnitude)
  }

  // ------------------------------------------------------------- the input

  /**
   * What `validateInput` reads from one input element. `enteredDay` is the
   * day number of the local-midnight `Date` the script builds from the
   * value's `YYYY-MM-DD` parts (`None` for an invalid date) and `today` the
   * day number of the current date; `number`, `min` and `max` are the
   * `parseFloat` results of the value and of `data-min`/`data-max`, with
   * `None` standing for NaN.
   */
  datatype Input = Input(
    directives: string,
    rawValue: string,
    inputType: string,
    minLength: Option<string>,
    maxLength: Option<string>,
    enteredDay: Option<int>,
    today: int,
    number: Option<int>,
    min: Option<int>,
    max: Option<int>)

  /** The outcome of `validateInput`: it threw, or it marked the input. */
  datatype Verdict = Threw | Checked(valid: bool, message: string)

  function Tokens(inp: Input): seq<string> {
    Split(inp.directives, " ")
  }

  function TrimmedValue(inp: Input): string {
    Trim(inp.rawValue)
  }

  /**
   * JavaScript's `length` of a string: its UTF-16 code units, so a character
   * outside the Basic Multilingual Plane counts twice.
   */
  function JsLength(s: string): (n: nat)
    ensures |s| <= n <= 2 * |s|
  {
    if s == [] then 0 else (if s[0] as int > 0xFFFF then 2 else 1) + JsLength(s[1..])
  }

  /** The code units of a concatenation are those of the parts. */
  lemma {:induction false} JsLengthAppend(a: string, b: string)
    ensures JsLength(a + b) == JsLength(a) + JsLength(b)
  {
    if a != [] {
      assert (a + b)[0] == a[0] && (a + b)[1..] == a[1..] + b;
      JsLengthAppend(a[1..], b);
    } else {
      assert a + b == b;
    }
  }

  /** The length counts characters exactly when none lies outside the Basic Multilingual Plane. */
  lemma {:induction false} JsLengthCountsCharacters(s: string)
    ensures JsLength(s) == |s| <==> forall i :: 0 <= i < |s| ==> s[i] as int <= 0xFFFF
  {
    if s != [] {
      JsLengthCountsCharacters(s[1..]);
      assert forall i :: 1 <= i < |s| ==> s[i] == s[1..][i - 1];
    }
  }

  // ------------------------------------------- the checks, one by one

  const RequiredMessage := "Este campo es requerido"
  const FutureDateMessage := "La fecha no puede ser futura"

  function RequiredCheck(inp: Input): Option<string> {
    if "required" in Tokens(inp) && TrimmedValue(inp) == "" then Some(RequiredMessage) else None
  }

  function MinLengthCheck(inp: Input): Option<string> {
    match inp.minLength
    case Some(m) =>
      var bound := ParseInt(m);
      if m != "" && bound.Some? && JsLength(TrimmedValue(inp)) < bound.value
      then Some("Mínimo " + m + " caracteres") else None
    case None => None
  }

  function MaxLengthCheck(inp: Input): Option<string> {
    match inp.maxLength
    case Some(m) =>
      var bound := ParseInt(m);
      if m != "" && bound.Some? && JsLength(TrimmedValue(inp)) > bound.value
      then Some("Máximo " + m + " caracteres") else None
    case None => None
  }

  /** The pattern loop's verdict: all pass, the first failing rule, or a throw. */
  datatype PatternVerdict = AllPass | FailsWith(message: string) | Throws

  /**
   * The directive tokens in order: a table entry fails when the value is
   * non-empty and its pattern rejects it, which ends the scan; an inherited
   * member throws on a non-empty value; other tokens are skipped.
   */
  function PatternScan(tokens: seq<string>, v: string, table: Table): PatternVerdict {
    if tokens == [] then AllPass
    else match table(tokens[0])
      case Pattern(test, message) =>
        if v != "" && !test(v) then FailsWith(message) else PatternScan(tokens[1..], v, table)
      case InheritedMember =>
        if v != "" then Throws else PatternScan(tokens[1..], v, table)
      case NoEntry => PatternScan(tokens[1..], v, table)
  }

  function PastDateCheck(inp: Input): Option<string> {
    if inp.inputType == "date" && "past-date" in Tokens(inp)
       && inp.enteredDay.Some? && inp.enteredDay.value > inp.today
    then Some(FutureDateMessage) else None
  }

  function NumberMinCheck(inp: Input): Option<string> {
    if inp.inputType == "number" && inp.min.Some? && inp.number.Some? && inp.number.value < inp.min.value
    then Some("El valor mínimo es " + IntToString(inp.min.value)) else None
  }

  function NumberMaxCheck(inp: Input): Option<string> {
    if inp.inputType == "number" && inp.max.Some? && inp.number.Some? && inp.number.value > inp.max.value
    then Some("El valor máximo es " + IntToString(inp.max.value)) else None
  }

  /** Every check in evaluation order; `Some(message)` for a failing one. */
  function Checks(inp: Input, table: Table): seq<Option<string>> {
    var p := PatternScan(Tokens(inp), TrimmedValue(inp), table);
    [ RequiredCheck(inp), MinLengthCheck(inp), MaxLengthCheck(inp),
      if p.FailsWith? then Some(p.message) else None,
      PastDateCheck(inp), NumberMinCheck(inp), NumberMaxCheck(inp) ]
  }

  predicate AllPassed(checks: seq<Option<string>>) {
    forall i :: 0 <= i < |checks| ==> checks[i].None?
  }

  /** The position of the last failing check. */
  function LastFailingIndex(checks: seq<Option<string>>): (i: nat)
    requires !AllPassed(checks)
    ensures i < |checks| && checks[i].Some?
    ensures forall j :: i < j < |checks| ==> checks[j].None?
  {
    var n := |checks| - 1;
    if checks[n].Some? then n
    else
      assert !AllPassed(checks[..n]) by {
        var k :| 0 <= k < |checks| && checks[k].Some?;
        assert checks[..n][k] == checks[k];
      }
      LastFailingIndex(checks[..n])
  }

  /** The message of the last failing check. */
  function LastFailure(checks: seq<Option<string>>): string
    requires !AllPassed(checks)
  {
    checks[LastFailingIndex(checks)].value
  }

  /**
   * The reference verdict: a throw in the pattern scan aborts; otherwise the
   * input is valid iff no check fails, and the message is that of the last
   * failing check.
   */
  function Expected(inp: Input, table: Table): Verdict {
    if PatternScan(Tokens(inp), TrimmedValue(inp), table).Throws? then Threw
    else Judge(Checks(inp, table))
  }

  /** Valid iff no check fails, with no message; otherwise the last failing check's message. */
  function Judge(checks: seq<Option<string>>): Verdict {
    if AllPassed(checks) then Checked(true, "") else Checked(false, LastFailure(checks))
  }

  // ------------------------------------------------------ visual status

  datatype Help = Help(text: string, classes: set<string>)

  /** An input's class list and the `.help` elements of its parent, in document order. */
  datatype View = View(classes: set<string>, helps: seq<Help>)

  const Success := "is-success"
  const Danger := "is-danger"

  function StatusClass(isValid: bool): string {
    if isValid then Success else Danger
  }

  /**
   * `setInputStatus`: swap the status class of the input; update the first
   * help element of the parent, creating one only when there is none and
   * the message is non-empty.
   */
  function SetInputStatus(view: View, isValid: bool, message: string): (r: View)
    ensures (Success in r.classes) == isValid && (Danger in r.classes) == !isValid
    ensures r.classes - {Success, Danger} == view.classes - {Success, Danger}
    ensures |r.helps| == if view.helps == [] && message != "" then 1 else |view.helps|
    ensures r.helps != [] ==>
      && r.helps[0].text == message
      && StatusClass(isValid) in r.helps[0].classes
      && StatusClass(!isValid) !in r.helps[0].classes
    ensures forall i :: 1 <= i < |r.helps| ==> r.helps[i] == view.helps[i]
  {
    var classes := view.classes - {Success, Danger} + {StatusClass(isValid)};
    if view.helps == [] then
      if message != "" then View(classes, [Help(message, {"help", StatusClass(isValid)})])
      else View(classes, [])
    else
      var first := view.helps[0];
      var updated := Help(message, first.classes - {Success, Danger} + {StatusClass(isValid)});
      View(classes, [updated] + view.helps[1..])
  }

  /** Marking an input twice with the same verdict is marking it once. */
  lemma SetInputStatusIdempotent(view: View, isValid: bool, message: string)
    ensures SetInputStatus(SetInputStatus(view, isValid, message), isValid, message)
         == SetInputStatus(view, isValid, message)
  {
    var once := SetInputStatus(view, isValid, message);
    var twice := SetInputStatus(once, isValid, message);
    assert twice.classes == once.classes;
    if once.helps != [] {
      assert twice.helps[0] == once.helps[0];
      assert twice.helps == once.helps;
    }
  }

  /** However often an input is re-validated, its parent never gets a second help element. */
  lemma {:induction false} RepeatedStatusNeverDuplicatesHelp(view: View, verdicts: seq<(bool, string)>)
    requires |view.helps| <= 1
    ensures |ApplyStatuses(view, verdicts).helps| <= 1
    decreases |verdicts|
  {
    if verdicts != [] {
      RepeatedStatusNeverDuplicatesHelp(SetInputStatus(view, verdicts[0].0, verdicts[0].1), verdicts[1..]);
    }
  }

  function ApplyStatuses(view: View, verdicts: seq<(bool, string)>): View
    decreases |verdicts|
  {
    if verdicts == [] then view
    else ApplyStatuses(SetInputStatus(view, verdicts[0].0, verdicts[0].1), verdicts[1..])
  }

  // ------------------------------------------------------ validateInput

  /**
   * The `for ... of` loop over the directive tokens: a rule-table key whose
   * pattern rejects the non-empty value ends the loop with its message; an
   * inherited prototype member makes `.pattern.test` throw.
   */
  method ScanPatterns(validations: seq<string>, value: string, table: Table) returns (outcome: PatternVerdict)
    ensures outcome == PatternScan(validations, value, table)
  {
    var i := 0;
    while i < |validations|
      invariant 0 <= i <= |validations|
      invariant PatternScan(validations[i..], value, table) == PatternScan(validations, value, table)
    {
      assert validations[i..][1..] == validations[i + 1..];
      match table(validations[i]) {
        case Pattern(test, message) =>
          if value != "" && !test(value) {
            return FailsWith(message);
          }
        case InheritedMember =>
          if value != "" {
            return Throws;
          }
        case NoEntry =>
      }
      i := i + 1;
    }
    assert validations[i..] == [];
    return AllPass;
  }

  /**
   * The checks of `validateInput`, statement by statement: each failing
   * check overwrites the message; a throw in the pattern loop ends it.
   */
  method CheckInput(inp: Input, table: Table) returns (verdict: Verdict)
    ensures verdict == Expected(inp, table)
  {
    var validations := Split(inp.directives, " ");
    var value := Trim(inp.rawValue);

    var isValid, errorMessage := Overwrite(true, "", RequiredCheck(inp));
    isValid, errorMessage := Overwrite(isValid, errorMessage, MinLengthCheck(inp));
    isValid, errorMessage := Overwrite(isValid, errorMessage, MaxLengthCheck(inp));

    var scan := ScanPatterns(validations, value, table);
    if scan.Throws? {
      return Threw;
    }
    var patternCheck := if scan.FailsWith? then Some(scan.message) else None;
    isValid, errorMessage := Overwrite(isValid, errorMessage, patternCheck);
    isValid, errorMessage := Overwrite(isValid, errorMessage, PastDateCheck(inp));
    isValid, errorMessage := Overwrite(isValid, errorMessage, NumberMinCheck(inp));
    isValid, errorMessage := Overwrite(isValid, errorMessage, NumberMaxCheck(inp));

    JudgeOfSeven(RequiredCheck(inp), MinLengthCheck(inp), MaxLengthCheck(inp), patternCheck,
                 PastDateCheck(inp), NumberMinCheck(inp), NumberMaxCheck(inp));
    return Checked(isValid, errorMessage);
  }

  /** `validateInput`: the checks, then `setInputStatus` unless the pattern loop threw. */
  method ValidateInput(inp: Input, table: Table, view: View) returns (verdict: Verdict, view': View)
    ensures verdict == Expected(inp, table)
    ensures verdict.Checked? ==> view' == SetInputStatus(view, verdict.valid, verdict.message)
    ensures verdict.Threw? ==> view' == view
  {
    verdict := CheckInput(inp, table);
    view' := if verdict.Checked? then SetInputStatus(view, verdict.valid, verdict.message) else view;
  }

  /** One `if (check fails) { isValid = false; errorMessage = ...; }` statement. */
  method Overwrite(isValid: bool, message: string, check: Option<string>) returns (isValid': bool, message': string)
    ensures isValid' == (isValid && check.None?)
    ensures message' == if check.Some? then check.value else message
  {
    isValid', message' := isValid, message;
    if check.Some? {
      isValid', message' := false, check.value;
    }
  }

  /** An empty value with `required` among the directives is always reported invalid. */
  lemma RequiredEmptyIsInvalid(inp: Input, table: Table)
    requires "required" in Tokens(inp) && TrimmedValue(inp) == ""
    ensures Expected(inp, table).Checked? && !Expected(inp, table).valid
  {
    EmptyValueNeverFailsPattern(Tokens(inp), table);
    JudgeOfSeven(RequiredCheck(inp), MinLengthCheck(inp), MaxLengthCheck(inp), None,
                 PastDateCheck(inp), NumberMinCheck(inp), NumberMaxCheck(inp));
  }

  /**
   * The required message is the one shown for an empty required value only
   * when none of the later length, date and number checks also fails.
   */
  lemma RequiredMessageUnlessOverwritten(inp: Input, table: Table)
    requires "required" in Tokens(inp) && TrimmedValue(inp) == ""
    ensures Expected(inp, table).Checked?
    ensures Expected(inp, table).message ==
      if NumberMaxCheck(inp).Some? then NumberMaxCheck(inp).value
      else if NumberMinCheck(inp).Some? then NumberMinCheck(inp).value
      else if PastDateCheck(inp).Some? then PastDateCheck(inp).value
      else if MaxLengthCheck(inp).Some? then MaxLengthCheck(inp).value
      else if MinLengthCheck(inp).Some? then MinLengthCheck(inp).value
      else RequiredMessage
  {
    EmptyValueNeverFailsPattern(Tokens(inp), table);
    JudgeOfSeven(RequiredCheck(inp), MinLengthCheck(inp), MaxLengthCheck(inp), None,
                 PastDateCheck(inp), NumberMinCheck(inp), NumberMaxCheck(inp));
  }

  /** Pattern rules are skipped for an empty value: the scan passes whatever the tokens. */
  lemma {:induction false} EmptyValueNeverFailsPattern(tokens: seq<string>, table: Table)
    ensures PatternScan(tokens, "", table) == AllPass
  {
    if tokens != [] {
      EmptyValueNeverFailsPattern(tokens[1..], table);
    }
  }

  /** A token stops the scan: a table rule rejecting the value, or an inherited member on a non-empty value. */
  predicate Blocks(token: string, v: string, table: Table) {
    match table(token)
    case Pattern(test, _) => v != "" && !test(v)
    case InheritedMember => v != ""
    case NoEntry => false
  }

  /** The scan passes iff no token stops it. */
  lemma {:induction false} PatternScanPassesIffNoBlocker(tokens: seq<string>, v: string, table: Table)
    ensures PatternScan(tokens, v, table) == AllPass
        <==> forall k :: 0 <= k < |tokens| ==> !Blocks(tokens[k], v, table)
  {
    if tokens != [] {
      PatternScanPassesIffNoBlocker(tokens[1..], v, table);
      assert forall k :: 1 <= k < |tokens| ==> tokens[k] == tokens[1..][k - 1];
    }
  }

  /** The first token that stops the scan decides its verdict; later tokens are never looked at. */
  lemma {:induction false} PatternScanFirstBlockerWins(tokens: seq<string>, v: string, table: Table, k: nat)
    requires k < |tokens| && Blocks(tokens[k], v, table)
    requires forall j :: 0 <= j < k ==> !Blocks(tokens[j], v, table)
    ensures PatternScan(tokens, v, table) ==
      match table(tokens[k])
      case Pattern(_, message) => FailsWith(message)
      case _ => Throws
  {
    if k > 0 {
      assert !Blocks(tokens[0], v, table);
      PatternScanFirstBlockerWins(tokens[1..], v, table, k - 1);
    }
  }

  /** The tokens that name entries of the rule table object, own or inherited. */
  function TableTokens(tokens: seq<string>, table: Table): (r: seq<string>)
    ensures |r| <= |tokens|
    ensures forall t :: t in r <==> t in tokens && !table(t).NoEntry?
  {
    if tokens == [] then []
    else if table(tokens[0]).NoEntry? then TableTokens(tokens[1..], table)
    else [tokens[0]] + TableTokens(tokens[1..], table)
  }

  /** Tokens outside the rule table (`required`, `past-date`, ...) do not affect the scan. */
  lemma {:induction false} NonTableTokensIgnored(tokens: seq<string>, v: string, table: Table)
    ensures PatternScan(tokens, v, table) == PatternScan(TableTokens(tokens, table), v, table)
  {
    if tokens != [] {
      NonTableTokensIgnored(tokens[1..], v, table);
      if !table(tokens[0]).NoEntry? {
        assert ([tokens[0]] + TableTokens(tokens[1..], table))[1..] == TableTokens(tokens[1..], table);
      }
    }
  }

  /** A valid verdict carries no message; an invalid one carries the last failing check's. */
  lemma VerdictMessage(inp: Input, table: Table)
    requires Expected(inp, table).Checked?
    ensures Expected(inp, table).valid <==> forall i :: 0 <= i < 7 ==> Checks(inp, table)[i].None?
    ensures Expected(inp, table).valid ==> Expected(inp, table).message == ""
    ensures !Expected(inp, table).valid ==>
      exists i :: 0 <= i < 7 && Checks(inp, table)[i] == Some(Expected(inp, table).message)
        && forall j :: i < j < 7 ==> Checks(inp, table)[j].None?
  {
    var c := Checks(inp, table);
    if !AllPassed(c) {
      var i := LastFailingIndex(c);
    }
  }

  /** Over seven checks, the last failing one is found by looking from the end. */
  lemma JudgeOfSeven(c0: Option<string>, c1: Option<string>, c2: Option<string>, c3: Option<string>,
                     c4: Option<string>, c5: Option<string>, c6: Option<string>)
    ensures Judge([c0, c1, c2, c3, c4, c5, c6]) == Checked(
      c0.None? && c1.None? && c2.None? && c3.None? && c4.None? && c5.None? && c6.None?,
      if c6.Some? then c6.value else if c5.Some? then c5.value
      else if c4.Some? then c4.value else if c3.Some? then c3.value
      else if c2.Some? then c2.value else if c1.Some? then c1.value
      else if c0.Some? then c0.value else "")
  {
    var c := [c0, c1, c2, c3, c4, c5, c6];
    assert c[0] == c0 && c[1] == c1 && c[2] == c2 && c[3] == c3 && c[4] == c4 && c[5] == c5 && c[6] == c6;
    if !AllPassed(c) {
      var i := LastFailingIndex(c);
    }
  }

  // ------------------------------------------------------------- submit

  /** The verdict of every input, in document order. */
  function Outcomes(inputs: seq<Input>, table: Table): (r: seq<Verdict>)
    ensures |r| == |inputs|
    decreases |inputs|
  {
    if inputs == [] then []
    else Outcomes(inputs[..|inputs| - 1], table) + [Expected(inputs[|inputs| - 1], table)]
  }

  /** Each input's outcome is its own verdict, independent of its neighbours. */
  lemma {:induction false} OutcomeAt(inputs: seq<Input>, table: Table, k: nat)
    requires k < |inputs|
    ensures Outcomes(inputs, table)[k] == Expected(inputs[k], table)
    decreases |inputs|
  {
    var n := |inputs| - 1;
    if k < n {
      OutcomeAt(inputs[..n], table, k);
    }
  }

  /**
   * The submit handler: every flagged input is validated in order, with no
   * short-circuit; submission is prevented iff one of them is invalid. An
   * input whose scan throws ends the handler before `preventDefault`, so the
   * form is submitted.
   */
  method Submit(inputs: seq<Input>, views: seq<View>, table: Table)
    returns (prevented: bool, threw: bool, views': seq<View>)
    requires |views| == |inputs|
    ensures |views'| == |inputs|
    ensures threw <==> exists i :: 0 <= i < |inputs| && Outcomes(inputs, table)[i].Threw?
    ensures threw ==> !prevented
    ensures !threw ==> (prevented <==> exists i :: 0 <= i < |inputs| && !Outcomes(inputs, table)[i].valid)
    ensures !threw ==> forall i :: 0 <= i < |inputs| ==>
      views'[i] == SetInputStatus(views[i], Outcomes(inputs, table)[i].valid, Outcomes(inputs, table)[i].message)
  {
    var isValid := true;
    views' := views;
    ghost var seen: seq<Verdict> := [];
    var i := 0;
    while i < |inputs|
      invariant 0 <= i <= |inputs|
      invariant |views'| == |inputs| && seen == Outcomes(inputs[..i], table)
      invariant forall j :: 0 <= j < i ==> seen[j].Checked?
      invariant isValid <==> forall j :: 0 <= j < i ==> seen[j].valid
      invariant forall j :: 0 <= j < i ==> views'[j] == SetInputStatus(views[j], seen[j].valid, seen[j].message)
      invariant forall j :: i <= j < |inputs| ==> views'[j] == views[j]
    {
      var verdict, view := ValidateInput(inputs[i], table, views'[i]);
      assert inputs[..i + 1][..i] == inputs[..i];
      if verdict.Threw? {
        OutcomeAt(inputs, table, i);
        return false, true, views';
      }
      if !verdict.valid {
        isValid := false;
      }
      seen := seen + [verdict];
      views' := views'[i := view];
      i := i + 1;
    }
    assert inputs[..i] == inputs;
    prevented, threw := !isValid, false;
  }
}
