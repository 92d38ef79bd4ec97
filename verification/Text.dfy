/** The little string handling the router and the controller rely on: decimals, splitting, trimming. */
module Text {
  import opened Graph

  // ----- decimal numbers -----

  function Digit(d: nat): (r: char)
    requires d < 10
  {
    '0' + d as char
  }

  function Itoa(n: nat): (s: string) {
    if n < 10 then [Digit(n)] else Itoa(n / 10) + [Digit(n % 10)]
  }

  /** Reads an unsigned numeral. */
  function Atoi(s: string): Option<nat> {
    if s == "" || !('0' <= s[|s| - 1] <= '9') then None
    else if |s| == 1 then Some((s[0] - '0') as nat)
    else
      match Atoi(s[..|s| - 1])
      case None => None
      case Some(high) => Some(10 * high + (s[|s| - 1] - '0') as nat)
  }

  lemma {:induction false} AtoiItoa(n: nat)
    ensures Itoa(n) != "" && Atoi(Itoa(n)) == Some(n)
    ensures forall ch :: ch in Itoa(n) ==> '0' <= ch <= '9'
  {
    if n >= 10 {
      AtoiItoa(n / 10);
      assert Itoa(n)[..|Itoa(n)| - 1] == Itoa(n / 10);
    }
  }

  /** Decimal, most significant digit first, no leading zero. */
  lemma ItoaDecimal(n: nat, d: nat)
    requires d < 10
    ensures Itoa(d) == ["0123456789"[d]]
    ensures n > 0 ==> Itoa(10 * n + d) == Itoa(n) + ["0123456789"[d]]
  {
    assert Digit(d) == "0123456789"[d];
    assert (10 * n + d) / 10 == n && (10 * n + d) % 10 == d;
  }

  /** strconv.Atoi, on numbers of any size. */
  function ParseInt(s: string): Option<int> {
    var signed := s != "" && (s[0] == '+' || s[0] == '-');
    match Atoi(if signed then s[1..] else s)
    case None => None
    case Some(n) => var value: int := if signed && s[0] == '-' then 0 - n else n; Some(value)
  }

  function FormatInt(n: int): string {
    if n < 0 then "-" + Itoa(-n) else Itoa(n)
  }

  lemma ParseUnsigned(s: string)
    requires s != "" && forall ch :: ch in s ==> '0' <= ch <= '9'
    requires Atoi(s).Some?
    ensures ParseInt(s) == Some(Atoi(s).value as int)
  {
    assert s[0] in s;
  }

  lemma ParseNegative(s: string)
    requires Atoi(s).Some?
    ensures ParseInt("-" + s) == Some(0 - Atoi(s).value)
  {
    assert ("-" + s)[1..] == s;
  }

  lemma ParsePositive(s: string)
    requires Atoi(s).Some?
    ensures ParseInt("+" + s) == Some(Atoi(s).value as int)
  {
    assert ("+" + s)[1..] == s;
  }

  lemma ParseFormatInt(n: int)
    ensures ParseInt(FormatInt(n)) == Some(n)
  {
    if n < 0 {
      AtoiItoa(-n);
      ParseNegative(Itoa(-n));
    } else {
      AtoiItoa(n);
      ParseUnsigned(Itoa(n));
    }
  }

  lemma FormatIntHasNoSlash(n: int)
    ensures '/' !in FormatInt(n)
  {
    AtoiItoa(if n < 0 then -n else n);
  }

  // ----- strings.Split and its inverse -----

  function Split(s: string, sep: char): (parts: seq<string>)
    ensures |parts| >= 1
  {
    if s == "" then [""]
    else
      var rest := Split(s[1..], sep);
      if s[0] == sep then [""] + rest else [[s[0]] + rest[0]] + rest[1..]
  }

  function Join(parts: seq<string>, sep: char): string {
    if |parts| == 0 then ""
    else if |parts| == 1 then parts[0]
    else parts[0] + [sep] + Join(parts[1..], sep)
  }

  lemma {:induction false} SplitWhole(s: string, sep: char)
    requires sep !in s
    ensures Split(s, sep) == [s]
  {
    if s != "" {
      SplitWhole(s[1..], sep);
      assert [s[0]] + s[1..] == s;
    }
  }

  lemma {:induction false} SplitHead(s: string, tail: string, sep: char)
    requires sep !in s
    ensures Split(s + [sep] + tail, sep) == [s] + Split(tail, sep)
  {
    var whole := s + [sep] + tail;
    if s == "" {
      assert whole[1..] == tail;
    } else {
      SplitHead(s[1..], tail, sep);
      assert whole[1..] == s[1..] + [sep] + tail;
      assert [s[0]] + s[1..] == s;
    }
  }

  /** Splitting undoes joining, for any number of fields of any length that do not hold the separator. */
  lemma {:induction false} SplitJoin(parts: seq<string>, sep: char)
    requires |parts| >= 1
    requires forall k :: 0 <= k < |parts| ==> sep !in parts[k]
    ensures Split(Join(parts, sep), sep) == parts
  {
    if |parts| == 1 {
      SplitWhole(parts[0], sep);
    } else {
      SplitJoin(parts[1..], sep);
      SplitHead(parts[0], Join(parts[1..], sep), sep);
    }
  }

  // ----- conditions -----

  function FindEquals(s: string, from: nat): (r: Option<nat>)
    requires from <= |s|
    ensures r.Some? ==> from <= r.value && r.value + 2 <= |s| && s[r.value] == '=' && s[r.value + 1] == '='
    ensures forall k :: from <= k && k + 2 <= |s| && (r.Some? ==> k < r.value) ==> !(s[k] == '=' && s[k + 1] == '=')
    decreases |s| - from
  {
    if from + 2 > |s| then None
    else if s[from] == '=' && s[from + 1] == '=' then Some(from)
    else FindEquals(s, from + 1)
  }
}
