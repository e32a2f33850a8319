/**
 * `JSON.parse` for any text, and enough of `JSON.stringify` for flat records.  Numbers are exact
 * reals rather than doubles.
 */
module Json {

  datatype Json =
    | JNull
    | JBool(b: bool)
    | JNumber(value: real)
    | JString(text: string)
    | JArray(items: seq<Json>)
    | JObject(members: seq<(string, Json)>)

  datatype Parsed<+T> = Failed | Read(value: T, rest: string)

  predicate IsSpace(c: char) { c == ' ' || c == '\t' || c == '\n' || c == '\r' }

  predicate IsDigit(c: char) { '0' <= c <= '9' }

  function DigitOf(c: char): nat
    requires IsDigit(c)
  {
    c as int - '0' as int
  }

  function SkipSpace(s: string): (r: string)
    ensures |r| <= |s|
  {
    if s != [] && IsSpace(s[0]) then SkipSpace(s[1..]) else s
  }

  /** How many digits `s` starts with. */
  function CountDigits(s: string): (n: nat)
    ensures n <= |s| && forall i :: 0 <= i < n ==> IsDigit(s[i])
    ensures n < |s| ==> !IsDigit(s[n])
  {
    if s != [] && IsDigit(s[0]) then 1 + CountDigits(s[1..]) else 0
  }

  function NatOf(digits: string): nat
    requires forall i :: 0 <= i < |digits| ==> IsDigit(digits[i])
  {
    if digits == [] then 0 else NatOf(digits[..|digits| - 1]) * 10 + DigitOf(digits[|digits| - 1])
  }

  function PowerOfTen(n: nat): (r: real)
    ensures 1.0 <= r
  {
    if n == 0 then 1.0 else 10.0 * PowerOfTen(n - 1)
  }

  function ParseFraction(s: string): (r: Parsed<real>)
    ensures r.Read? ==> |r.rest| <= |s|
  {
    if s == [] || s[0] != '.' then Read(0.0, s)
    else
      var n := CountDigits(s[1..]);
      if n == 0 then Failed else Read(NatOf(s[1..][..n]) as real / PowerOfTen(n), s[1..][n..])
  }

  function ParseExponent(s: string): (r: Parsed<real>)
    ensures r.Read? ==> |r.rest| <= |s|
  {
    if s == [] || (s[0] != 'e' && s[0] != 'E') then Read(1.0, s)
    else
      var signed := 1 < |s| && (s[1] == '+' || s[1] == '-');
      var t := if signed then s[2..] else s[1..];
      var n := CountDigits(t);
      if n == 0 then Failed
      else
        var power := PowerOfTen(NatOf(t[..n]));
        Read(if signed && s[1] == '-' then 1.0 / power else power, t[n..])
  }

  function ParseNumber(s: string): (r: Parsed<Json>)
    requires s != []
    ensures r.Read? ==> |r.rest| < |s|
  {
    var t := if s[0] == '-' then s[1..] else s;
    if t == [] || !IsDigit(t[0]) then Failed
    else
      var n := if t[0] == '0' then 1 else CountDigits(t);
      var fraction := ParseFraction(t[n..]);
      if fraction.Failed? then Failed
      else
        var exponent := ParseExponent(fraction.rest);
        if exponent.Failed? then Failed
        else
          var size := (NatOf(t[..n]) as real + fraction.value) * exponent.value;
          Read(JNumber(if s[0] == '-' then -size else size), exponent.rest)
  }

  function HexValue(c: char): int {
    if IsDigit(c) then DigitOf(c)
    else if 'a' <= c <= 'f' then c as int - 'a' as int + 10
    else if 'A' <= c <= 'F' then c as int - 'A' as int + 10
    else -1
  }

  /** A `\uXXXX` escape; a lone surrogate, which `char` cannot hold, becomes U+FFFD. */
  function ParseUnicode(s: string): (r: Parsed<char>)
    ensures r.Read? ==> |r.rest| < |s|
  {
    if |s| < 4 || exists i :: 0 <= i < 4 && HexValue(s[i]) < 0 then Failed
    else
      var code := ((HexValue(s[0]) * 16 + HexValue(s[1])) * 16 + HexValue(s[2])) * 16 + HexValue(s[3]);
      assert forall i :: 0 <= i < 4 ==> 0 <= HexValue(s[i]) < 16;
      Read(if 0xD800 <= code < 0xE000 then 0xFFFD as char else code as char, s[4..])
  }

  /** The character after a backslash. */
  function ParseEscape(s: string): (r: Parsed<char>)
    ensures r.Read? ==> |r.rest| < |s|
  {
    if s == [] then Failed
    else match s[0]
      case '"' => Read('"', s[1..])
      case '\\' => Read('\\', s[1..])
      case '/' => Read('/', s[1..])
      case 'b' => Read(8 as char, s[1..])
      case 'f' => Read(12 as char, s[1..])
      case 'n' => Read('\n', s[1..])
      case 'r' => Read('\r', s[1..])
      case 't' => Read('\t', s[1..])
      case 'u' => ParseUnicode(s[1..])
      case _ => Failed
  }

  /** The rest of a string literal after its opening quote. */
  function ParseString(s: string): (r: Parsed<string>)
    ensures r.Read? ==> |r.rest| < |s|
    decreases |s|
  {
    if s == [] || s[0] < ' ' then Failed
    else if s[0] == '"' then Read("", s[1..])
    else
      var first := if s[0] == '\\' then ParseEscape(s[1..]) else Read(s[0], s[1..]);
      if first.Failed? then Failed
      else
        var more := ParseString(first.rest);
        if more.Failed? then Failed else Read([first.value] + more.value, more.rest)
  }

  function ParseWord(s: string, word: string, value: Json): (r: Parsed<Json>)
    requires word != []
    ensures r.Read? ==> |r.rest| < |s|
  {
    if word <= s then Read(value, s[|word|..]) else Failed
  }

  function ParseValue(s: string): (r: Parsed<Json>)
    ensures r.Read? ==> |r.rest| < |s|
    decreases |s|, 0
  {
    var t := SkipSpace(s);
    if t == [] then Failed
    else match t[0]
      case '{' =>
        var u := SkipSpace(t[1..]);
        if u != [] && u[0] == '}' then Read(JObject([]), u[1..])
        else
          var members := ParseMembers(u);
          if members.Failed? then Failed else Read(JObject(members.value), members.rest)
      case '[' =>
        var u := SkipSpace(t[1..]);
        if u != [] && u[0] == ']' then Read(JArray([]), u[1..])
        else
          var items := ParseItems(u);
          if items.Failed? then Failed else Read(JArray(items.value), items.rest)
      case '"' =>
        var text := ParseString(t[1..]);
        if text.Failed? then Failed else Read(JString(text.value), text.rest)
      case 't' => ParseWord(t, "true", JBool(true))
      case 'f' => ParseWord(t, "false", JBool(false))
      case 'n' => ParseWord(t, "null", JNull)
      case _ => ParseNumber(t)
  }

  /** `"key" : value`, then a comma and more members, or the closing brace. */
  function ParseMembers(s: string): (r: Parsed<seq<(string, Json)>>)
    ensures r.Read? ==> |r.rest| < |s|
    decreases |s|, 1
  {
    var t := SkipSpace(s);
    if t == [] || t[0] != '"' then Failed
    else
      var key := ParseString(t[1..]);
      if key.Failed? then Failed
      else
        var u := SkipSpace(key.rest);
        if u == [] || u[0] != ':' then Failed
        else
          var value := ParseValue(u[1..]);
          if value.Failed? then Failed
          else
            var v := SkipSpace(value.rest);
            if v != [] && v[0] == '}' then Read([(key.value, value.value)], v[1..])
            else if v == [] || v[0] != ',' then Failed
            else
              var more := ParseMembers(v[1..]);
              if more.Failed? then Failed else Read([(key.value, value.value)] + more.value, more.rest)
  }

  function ParseItems(s: string): (r: Parsed<seq<Json>>)
    ensures r.Read? ==> |r.rest| < |s|
    decreases |s|, 1
  {
    var value := ParseValue(s);
    if value.Failed? then Failed
    else
      var v := SkipSpace(value.rest);
      if v != [] && v[0] == ']' then Read([value.value], v[1..])
      else if v == [] || v[0] != ',' then Failed
      else
        var more := ParseItems(v[1..]);
        if more.Failed? then Failed else Read([value.value] + more.value, more.rest)
  }

  datatype Document = Malformed | Parses(json: Json)

  function Parse(s: string): Document {
    var r := ParseValue(s);
    if r.Read? && SkipSpace(r.rest) == [] then Parses(r.value) else Malformed
  }

  // Printing.

  function DigitChar(d: nat): (c: char)
    requires d < 10
    ensures IsDigit(c) && DigitOf(c) == d
  {
    ('0' as int + d) as char
  }

  function Decimal(n: nat): (s: string)
    ensures s != [] && forall i :: 0 <= i < |s| ==> IsDigit(s[i])
  {
    if n < 10 then [DigitChar(n)] else Decimal(n / 10) + [DigitChar(n % 10)]
  }

  lemma {:induction false} DecimalReadsBack(n: nat)
    ensures NatOf(Decimal(n)) == n
    ensures Decimal(n)[0] == '0' ==> n == 0
  {
    var s := Decimal(n);
    if 10 <= n {
      DecimalReadsBack(n / 10);
      assert s[..|s| - 1] == Decimal(n / 10);
    } else {
      assert s[..|s| - 1] == [];
    }
  }

  /** A decimal below ten to the `k` has at most `k` digits. */
  lemma {:induction false} DecimalLength(n: nat, k: nat)
    requires 0 < k && (n as real) < PowerOfTen(k)
    ensures |Decimal(n)| <= k
    decreases k
  {
    if 10 <= n {
      assert 1 < k;
      assert ((n / 10) as real) * 10.0 <= n as real;
      DecimalLength(n / 10, k - 1);
    }
  }

  lemma {:induction false} CountDigitsOf(s: string, rest: string)
    requires forall i :: 0 <= i < |s| ==> IsDigit(s[i])
    requires rest != [] ==> !IsDigit(rest[0])
    ensures CountDigits(s + rest) == |s|
  {
    if s == [] {
      assert s + rest == rest;
    } else {
      assert (s + rest)[1..] == s[1..] + rest;
      CountDigitsOf(s[1..], rest);
    }
  }

  /** A printed natural number is read back whole when something else than a number part follows. */
  lemma NumberReadsBack(n: nat, rest: string)
    requires rest != [] ==> !IsDigit(rest[0]) && rest[0] != '.' && rest[0] != 'e' && rest[0] != 'E'
    ensures ParseNumber(Decimal(n) + rest) == Read(JNumber(n as real), rest)
  {
    var s := Decimal(n);
    DecimalReadsBack(n);
    CountDigitsOf(s, rest);
    if s[0] == '0' {
      assert s == ['0'];
    }
    assert (s + rest)[..|s|] == s && (s + rest)[|s|..] == rest;
  }

  /** Characters that a string literal holds as themselves, in one byte each. */
  predicate Plain(c: char) { ' ' <= c <= '~' && c != '"' && c != '\\' }

  predicate AllPlain(s: string) { forall i :: 0 <= i < |s| ==> Plain(s[i]) }

  lemma {:induction false} StringReadsBack(s: string, rest: string)
    requires AllPlain(s)
    ensures ParseString(s + "\"" + rest) == Read(s, rest)
  {
    if s == [] {
      assert s + "\"" + rest == ['"'] + rest;
    } else {
      assert (s + "\"" + rest)[1..] == s[1..] + "\"" + rest;
      StringReadsBack(s[1..], rest);
      assert [s[0]] + s[1..] == s;
    }
  }
}
