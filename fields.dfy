/**
 * The values that Vapor and Fluent store under the keys of a database row or
 * a JSON object, the typed getters the models use on them, and the
 * conversion `String.int`, taken to be Swift's `Int(String)`.
 */
module Fields {
  import opened Wrappers

  /** A timestamp. The model copies timestamps and never computes one. */
  datatype Date = Date(ticks: int)

  /** One value of a row or of a JSON object. */
  datatype Node = Null | Str(s: string) | Num(n: int) | Stamp(d: Date)

  /** A database row or a JSON object: values by key. */
  type Record = map<string, Node>

  /** Why a typed `get` on a row or a JSON object failed. */
  datatype FieldError = MissingField(key: string) | WrongType(key: string)

  const MinInt64: int := -0x8000_0000_0000_0000
  const MaxInt64: int := 0x7FFF_FFFF_FFFF_FFFF

  predicate IsDigit(c: char) { '0' <= c <= '9' }

  predicate AllDigits(s: string) { forall i :: 0 <= i < |s| ==> IsDigit(s[i]) }

  /** The value of a string of decimal digits, most significant first. */
  function DigitsValue(ds: string): nat
    requires AllDigits(ds)
  {
    if ds == [] then 0
    else 10 * DigitsValue(ds[..|ds| - 1]) + (ds[|ds| - 1] as int - '0' as int)
  }

  /** What follows an optional leading `+` or `-`. */
  function Unsigned(s: string): string
  {
    if |s| > 0 && (s[0] == '+' || s[0] == '-') then s[1..] else s
  }

  /** The integer that a sign and the digits after it denote. */
  function SignedValue(s: string): int
    requires AllDigits(Unsigned(s))
  {
    if |s| > 0 && s[0] == '-' then 0 - DigitsValue(Unsigned(s)) as int else DigitsValue(Unsigned(s))
  }

  /**
   * Swift's `Int(String)`: an optional `+` or `-` followed by at least one
   * ASCII digit and nothing else, whose value fits a 64-bit `Int`.
   */
  function ParseInt(s: string): (r: Option<int>)
    ensures r.Some? <==> |Unsigned(s)| >= 1 && AllDigits(Unsigned(s)) &&
                         MinInt64 <= SignedValue(s) <= MaxInt64
    ensures r.Some? ==> r.value == SignedValue(s)
    ensures r.Some? ==> MinInt64 <= r.value <= MaxInt64
    ensures r.Some? ==> |s| > 0 && (IsDigit(s[0]) || s[0] == '-' || s[0] == '+')
    ensures (s == [] || s == "-" || s == "+") ==> r.None?
  {
    var signed := |s| > 0 && (s[0] == '-' || s[0] == '+');
    var ds := if signed then s[1..] else s;
    if ds == [] || !AllDigits(ds) then None
    else
      var v: int := if signed && s[0] == '-' then 0 - DigitsValue(ds) as int else DigitsValue(ds);
      if MinInt64 <= v <= MaxInt64 then Some(v) else None
  }

  function DigitChar(d: nat): char
    requires d < 10
  {
    ('0' as int + d) as char
  }

  /** The decimal rendering of a natural number, without leading zeros. */
  function ShowNat(n: nat): (r: string)
    ensures |r| >= 1 && AllDigits(r)
    ensures r[0] == '0' ==> n == 0
  {
    if n < 10 then [DigitChar(n)] else ShowNat(n / 10) + [DigitChar(n % 10)]
  }

  /** The decimal rendering of an integer, with a `-` sign when negative. */
  function ShowInt(n: int): (r: string)
    ensures n >= 0 ==> |r| >= 1 && AllDigits(r)
    ensures n < 0 ==> |r| >= 2 && r[0] == '-' && AllDigits(r[1..])
    ensures IsDigit(r[|r| - 1])
  {
    if n < 0 then "-" + ShowNat(-n) else ShowNat(n)
  }

  lemma {:induction false} DigitsValueOfShowNat(n: nat)
    ensures DigitsValue(ShowNat(n)) == n
  {
    if n >= 10 {
      var ds := ShowNat(n);
      assert ds[..|ds| - 1] == ShowNat(n / 10);
      DigitsValueOfShowNat(n / 10);
    }
  }

  /** `Int(String)` reads back every 64-bit integer from its decimal rendering. */
  lemma ParseShowInt(n: int)
    requires MinInt64 <= n <= MaxInt64
    ensures ParseInt(ShowInt(n)) == Some(n)
  {
    var s := ShowInt(n);
    if n < 0 {
      assert s[1..] == ShowNat(-n);
      DigitsValueOfShowNat(-n);
    } else {
      DigitsValueOfShowNat(n);
    }
  }

  /**
   * `row.get(key)` / `json.get(key)` read as a `String`: a missing key and
   * a value of another kind are distinct failures.
   */
  function GetString(rec: Record, key: string): (r: Result<string, FieldError>)
    ensures key !in rec ==> r == Err(MissingField(key))
    ensures key in rec ==> (r.Ok? <==> rec[key].Str?)
    ensures r.Ok? ==> rec[key] == Str(r.value)
    ensures key in rec && r.Err? ==> r.error == WrongType(key)
  {
    if key !in rec then Err(MissingField(key))
    else if rec[key].Str? then Ok(rec[key].s)
    else Err(WrongType(key))
  }

  /** `get(key)` read as an `Int`: a number, or a string that `Int(String)` accepts. */
  function GetInt(rec: Record, key: string): (r: Result<int, FieldError>)
    ensures key !in rec ==> r == Err(MissingField(key))
    ensures key in rec ==> (r.Ok? <==> rec[key].Num? || (rec[key].Str? && ParseInt(rec[key].s).Some?))
    ensures r.Ok? ==> rec[key] == Num(r.value) || (rec[key].Str? && ParseInt(rec[key].s) == Some(r.value))
    ensures key in rec && r.Err? ==> r.error == WrongType(key)
  {
    if key !in rec then Err(MissingField(key))
    else match rec[key]
      case Num(n) => Ok(n)
      case Str(s) => if ParseInt(s).Some? then Ok(ParseInt(s).value) else Err(WrongType(key))
      case _ => Err(WrongType(key))
  }

  /** `get(key)` read as a `Date`. */
  function GetDate(rec: Record, key: string): (r: Result<Date, FieldError>)
    ensures key !in rec ==> r == Err(MissingField(key))
    ensures key in rec ==> (r.Ok? <==> rec[key].Stamp?)
    ensures r.Ok? ==> rec[key] == Stamp(r.value)
    ensures key in rec && r.Err? ==> r.error == WrongType(key)
  {
    if key !in rec then Err(MissingField(key))
    else if rec[key].Stamp? then Ok(rec[key].d)
    else Err(WrongType(key))
  }
}
