/**
 * The payment mapper: a payment built from form data, archived only when
 * the data says so, and a stored payment serialised with its amount as
 * text and its type by name.
 *
 * The amount column is `Numeric(10, 2)`: a stored amount is held here as an
 * `Int` number of hundredths, and `str()` of the decimal the database
 * returns is `DecimalText`.
 */
module PaymentMapper {
  import opened Wrappers
  import opened PyValues

  /** The columns `to_entity` copies from the data. */
  const ColumnKeys := {"amount", "payment_date", "payment_type", "description", "beneficiary_id"}
  /** The columns `from_entity` writes as stored. */
  const StoredKeys := {"id", "payment_date", "description", "beneficiary_id", "inserted_at", "updated_at", "is_archived"}

  lemma KeysApart()
    ensures "is_archived" !in ColumnKeys
    ensures "amount" !in StoredKeys && "payment_type" !in StoredKeys
  {
  }

  /** `to_entity`: the five columns read with `.get`, and `is_archived` defaulting to `False` when absent. */
  function ToEntity(data: Dict): (r: Dict)
    ensures r.Keys == ColumnKeys + {"is_archived"}
    ensures forall k :: k in ColumnKeys ==> r[k] == Get(data, k)
    ensures "is_archived" !in data ==> r["is_archived"] == Bool(false)
    ensures "is_archived" in data ==> r["is_archived"] == data["is_archived"]
  {
    KeysApart();
    Project(data, ColumnKeys)["is_archived" := GetOr(data, "is_archived", Bool(false))]
  }

  /** `str()` of a two-place decimal: an optional sign, the units, a point and exactly two digits. */
  function DecimalText(cents: int): (r: string)
    ensures |r| >= 4 && r[|r| - 3] == '.'
  {
    var a := if cents < 0 then -cents else cents;
    var hundredths := a % 100;
    (if cents < 0 then "-" else "") + NatToString(a / 100) + "." + [DigitChar(hundredths / 10), DigitChar(hundredths % 10)]
  }

  /**
   * Reading a two-place decimal back (as the `Numeric` column does with a
   * string): an optional `-`, then an unsigned decimal; anything else is not
   * such a decimal.
   */
  function ParseDecimal(s: string): (r: Option<int>)
    ensures r.Some? ==> |s| >= 4 && s[|s| - 3] == '.'
  {
    var negative := |s| > 0 && s[0] == '-';
    var body := if negative then s[1..] else s;
    match ParseUnsigned(body)
    case Some(v) => Some(if negative then -(v as int) else v)
    case None => None
  }

  /** Digits, a point and two digits, in hundredths. */
  function ParseUnsigned(body: string): (r: Option<nat>)
    ensures r.Some? ==> |body| >= 4 && body[|body| - 3] == '.'
  {
    if |body| >= 4 && body[|body| - 3] == '.' && AllDigits(body[..|body| - 3]) && AllDigits(body[|body| - 2..]) then
      Some(DecimalValue(body[..|body| - 3]) * 100 + DecimalValue(body[|body| - 2..]))
    else None
  }

  /** The decimal text of a natural number denotes it. */
  lemma {:induction false} DigitsOfNat(n: nat)
    ensures DecimalValue(NatToString(n)) == n
  {
    if n >= 10 {
      var s := NatToString(n);
      assert s == NatToString(n / 10) + [DigitChar(n % 10)];
      assert s[..|s| - 1] == NatToString(n / 10);
      DigitsOfNat(n / 10);
      DigitCharValue(n % 10);
    } else {
      DigitCharValue(n);
      var s := NatToString(n);
      assert s[..|s| - 1] == [];
    }
  }

  lemma DigitCharValue(d: nat)
    requires d < 10
    ensures DigitChar(d) as int - '0' as int == d
  {
  }

  lemma {:induction false} TwoDigits(d: nat)
    requires d < 100
    ensures AllDigits([DigitChar(d / 10), DigitChar(d % 10)])
    ensures DecimalValue([DigitChar(d / 10), DigitChar(d % 10)]) == d
  {
    var s := [DigitChar(d / 10), DigitChar(d % 10)];
    DigitCharValue(d / 10);
    DigitCharValue(d % 10);
    assert s[..1] == [DigitChar(d / 10)];
    assert s[..1][..0] == [];
    assert DecimalValue(s[..1]) == d / 10;
    assert DecimalValue(s) == (d / 10) * 10 + d % 10;
  }

  /** A signed body of units, a point and two digits parses to its value. */
  lemma {:induction false} ParseSigned(negative: bool, units: string, tail: string, v: nat)
    requires |units| > 0 && AllDigits(units) && |tail| == 2 && AllDigits(tail)
    requires v == DecimalValue(units) * 100 + DecimalValue(tail)
    ensures ParseDecimal((if negative then "-" else "") + (units + "." + tail)) == Some(if negative then -(v as int) else v)
  {
    var body := units + "." + tail;
    BodyParts(units, tail);
    SignParts(negative, body);
  }

  /** The units, the point and the two digits are where the parser looks for them. */
  lemma BodyParts(units: string, tail: string)
    requires |units| > 0 && AllDigits(units) && |tail| == 2 && AllDigits(tail)
    ensures (units + "." + tail)[0] != '-'
    ensures ParseUnsigned(units + "." + tail) == Some(DecimalValue(units) * 100 + DecimalValue(tail))
  {
    var body := units + "." + tail;
    assert |body| == |units| + 3 && body[|body| - 3] == '.';
    assert body[0] == units[0] && IsDigit(units[0]);
    assert body[..|body| - 3] == units;
    assert body[|body| - 2..] == tail;
  }

  /** The sign is read off the first character, and the rest is the body. */
  lemma SignParts(negative: bool, body: string)
    requires |body| > 0 && body[0] != '-'
    ensures var s := (if negative then "-" else "") + body;
      (|s| > 0 && s[0] == '-') == negative && (if negative then s[1..] else s) == body
  {
    var s := (if negative then "-" else "") + body;
    if negative {
      assert s[1..] == body;
    }
  }

  /** The serialised amount reads back as the stored amount: `str()` loses nothing of a two-place decimal. */
  lemma {:induction false} AmountRoundTrip(cents: int)
    ensures ParseDecimal(DecimalText(cents)) == Some(cents)
  {
    var a := if cents < 0 then -cents else cents;
    var units := NatToString(a / 100);
    var tail := [DigitChar(a % 100 / 10), DigitChar(a % 100 % 10)];
    DecimalTextParts(cents);
    DigitsOfNat(a / 100);
    TwoDigits(a % 100);
    DivModHundred(a, DecimalValue(units), DecimalValue(tail));
    ParseSigned(cents < 0, units, tail, a);
  }

  lemma DecimalTextParts(cents: int)
    ensures var a := if cents < 0 then -cents else cents;
      DecimalText(cents) == (if cents < 0 then "-" else "")
        + (NatToString(a / 100) + "." + [DigitChar(a % 100 / 10), DigitChar(a % 100 % 10)])
  {
  }

  lemma DivModHundred(a: nat, units: nat, tail: nat)
    requires units == a / 100 && tail == a % 100
    ensures units * 100 + tail == a
  {
  }

  /** A stored payment `from_entity` can read: an amount and a type member. */
  predicate Readable(p: Dict) {
    Attr(p, "amount").Int? && Attr(p, "payment_type").Enum?
  }

  /** `from_entity`: the stored columns, the amount as its decimal text and the type by name. */
  function FromEntity(p: Dict): (r: Dict)
    requires Readable(p)
    ensures r.Keys == StoredKeys + {"amount", "payment_type"}
    ensures forall k :: k in StoredKeys ==> r[k] == Attr(p, k)
    ensures r["amount"].Str? && ParseDecimal(r["amount"].s) == Some(Attr(p, "amount").i)
    ensures r["payment_type"] == Str(Attr(p, "payment_type").member.name)
  {
    KeysApart();
    AmountRoundTrip(Attr(p, "amount").i);
    Project(p, StoredKeys)
      + map["amount" := Str(DecimalText(Attr(p, "amount").i)), "payment_type" := Str(Attr(p, "payment_type").member.name)]
  }

  /**
   * A payment built from a serialised one keeps its date, description,
   * beneficiary and archive flag (the default does not apply, the key being
   * present); the amount comes back as text denoting the same amount, the
   * type as its name.
   */
  lemma EntityRoundTrip(p: Dict)
    requires Readable(p)
    ensures var r := ToEntity(FromEntity(p));
      && r["payment_date"] == Attr(p, "payment_date") && r["description"] == Attr(p, "description")
      && r["beneficiary_id"] == Attr(p, "beneficiary_id") && r["is_archived"] == Attr(p, "is_archived")
      && r["amount"].Str? && ParseDecimal(r["amount"].s) == Some(Attr(p, "amount").i)
      && r["payment_type"] == Str(Attr(p, "payment_type").member.name)
  {
    var s := FromEntity(p);
    assert "is_archived" in s;
  }

  /** A payment created from data without an archive flag is not archived. */
  lemma NewPaymentNotArchived(data: Dict)
    requires "is_archived" !in data
    ensures !Truthy(ToEntity(data)["is_archived"])
  {
  }
}
