/** The NMEA tokenizer of the GPS driver and the GSA and GSV sentences built on it
    (libgps/athr_gps.c).  A buffer is a string; a token is a range of it.  Elevations, azimuths and
    signal strengths stay the text they came as. */
module NmeaTokens {
  import opened Arithmetic
  import opened Sequences

  const MAX_NMEA_TOKENS := 32
  const GPS_MAX_SVS := 32

  // ---- fields -----------------------------------------------------------------------------------------

  // The first comma at or after p, or the end.
  function Comma(s: string, p: nat): (q: nat)
    requires p <= |s|
    ensures p <= q <= |s| && (q < |s| ==> s[q] == ',') && forall k :: p <= k < q ==> s[k] != ','
    decreases |s| - p
  {
    if p == |s| || s[p] == ',' then p else Comma(s, p + 1)
  }

  // The comma-separated fields from p on; a final comma does not open another field.
  function FieldsFrom(s: string, p: nat): seq<string>
    requires p <= |s|
    decreases |s| - p
  {
    if p == |s| then []
    else
      var q := Comma(s, p);
      [s[p..q]] + FieldsFrom(s, if q < |s| then q + 1 else q)
  }

  function Fields(s: string): seq<string> {
    FieldsFrom(s, 0)
  }

  function Join(fields: seq<string>): string {
    if fields == [] then ""
    else if |fields| == 1 then fields[0]
    else fields[0] + "," + Join(fields[1..])
  }

  function FinalComma(s: string): string {
    if s != "" && s[|s| - 1] == ',' then "," else ""
  }

  // Joining the fields gives the text back, but for a final comma.
  predicate JoinsBack(s: string, p: nat)
    requires p <= |s|
  {
    Join(FieldsFrom(s, p)) + (if p < |s| then FinalComma(s) else "") == s[p..]
  }

  lemma {:induction false} JoinFields(s: string, p: nat)
    requires p <= |s|
    ensures JoinsBack(s, p)
    decreases |s| - p
  {
    if p == |s| {
      assert s[p..] == "";
    } else if Comma(s, p) == |s| {
      LastField(s, p);
    } else {
      JoinFields(s, Comma(s, p) + 1);
      OneMoreField(s, p);
    }
  }

  lemma OneMoreField(s: string, p: nat)
    requires p < |s| && Comma(s, p) < |s| && JoinsBack(s, Comma(s, p) + 1)
    ensures JoinsBack(s, p)
  {
    var q := Comma(s, p);
    SomeFields(s, q + 1);
    OneField(s, p, q, q + 1);
    JoinFirst(s, p, q, FieldsFrom(s, p), FieldsFrom(s, q + 1));
  }

  lemma LastField(s: string, p: nat)
    requires p < |s| && Comma(s, p) == |s|
    ensures JoinsBack(s, p)
  {
    OneField(s, p, |s|, |s|);
    SomeFields(s, |s|);
    JoinMore(s[p..], []);
  }

  lemma SomeFields(s: string, p: nat)
    requires p <= |s|
    ensures FieldsFrom(s, p) == [] <==> p == |s|
  {
  }

  lemma {:induction false} FieldsHaveNoCommas(s: string, p: nat)
    requires p <= |s|
    ensures forall f :: f in FieldsFrom(s, p) ==> ',' !in f
    decreases |s| - p
  {
    if p == |s| {
    } else {
      var q := Comma(s, p);
      var next := if q < |s| then q + 1 else q;
      FieldsHaveNoCommas(s, next);
      OneField(s, p, q, next);
    }
  }

  lemma JoinMore(field: string, rest: seq<string>)
    ensures Join([field] + rest) == if rest == [] then field else field + "," + Join(rest)
  {
    assert ([field] + rest)[1..] == rest;
  }

  lemma JoinFirst(s: string, p: nat, q: nat, fields: seq<string>, rest: seq<string>)
    requires p <= q < |s| && s[q] == ',' && (rest == [] <==> q + 1 == |s|) && fields == [s[p..q]] + rest
    requires Join(rest) + (if q + 1 < |s| then FinalComma(s) else "") == s[q + 1..]
    ensures Join(fields) + FinalComma(s) == s[p..]
  {
    JoinMore(s[p..q], rest);
    assert s[p..] == s[p..q] + "," + s[q + 1..];
  }

  // What a missing field reads as.
  function Get(fields: seq<string>, i: nat): string {
    if i < |fields| then fields[i] else ""
  }

  lemma {:induction false} CommaIs(s: string, p: nat, q: nat)
    requires p <= q <= |s| && (q < |s| ==> s[q] == ',') && forall k :: p <= k < q ==> s[k] != ','
    ensures Comma(s, p) == q
    decreases q - p
  {
    if p == q {
    } else {
      CommaIs(s, p + 1, q);
    }
  }

  lemma CommaAfter(f: string, rest: string)
    requires ',' !in f
    ensures Comma(f + "," + rest, 0) == |f| && Comma(f, 0) == |f|
  {
    var s := f + "," + rest;
    assert s[|f|] == ',' && forall k :: 0 <= k < |f| ==> s[k] == f[k];
    CommaIs(s, 0, |f|);
    CommaIs(f, 0, |f|);
  }

  lemma FieldsOfTail(s: string, p: nat)
    requires p <= |s|
    ensures FieldsFrom(s, p) == Fields(s[p..])
  {
    SameFields(s, p, s[p..], 0);
  }

  predicate SameFrom(s: string, r: nat, t: string, u: nat) {
    r <= |s| && u <= |t| && |s| - r == |t| - u && forall k :: r <= k < |s| ==> s[k] == t[k - r + u]
  }

  lemma {:induction false} SameFields(s: string, r: nat, t: string, u: nat)
    requires SameFrom(s, r, t, u)
    ensures FieldsFrom(s, r) == FieldsFrom(t, u)
    decreases |s| - r
  {
    if r == |s| {
    } else {
      var field, next := SameFirstField(s, r, t, u);
      SameFields(s, next, t, next - r + u);
    }
  }

  lemma SameFirstField(s: string, r: nat, t: string, u: nat) returns (field: string, next: nat)
    requires SameFrom(s, r, t, u) && r < |s|
    ensures r < next <= |s| && SameFrom(s, next, t, next - r + u)
    ensures FieldsFrom(s, r) == [field] + FieldsFrom(s, next)
    ensures FieldsFrom(t, u) == [field] + FieldsFrom(t, next - r + u)
  {
    var q := Comma(s, r);
    next := if q < |s| then q + 1 else q;
    field := s[r..q];
    SameComma(s, r, t, u);
    SameSlice(s, r, q, t, u);
    SameRest(s, r, next, t, u);
    OneField(s, r, q, next);
    OneField(t, u, q - r + u, next - r + u);
  }

  lemma SameRest(s: string, r: nat, next: nat, t: string, u: nat)
    requires SameFrom(s, r, t, u) && r <= next <= |s|
    ensures SameFrom(s, next, t, next - r + u)
  {
  }

  lemma OneField(s: string, p: nat, q: nat, next: nat)
    requires p < |s| && q == Comma(s, p) && next == if q < |s| then q + 1 else q
    ensures FieldsFrom(s, p) == [s[p..q]] + FieldsFrom(s, next)
  {
  }

  lemma SameSlice(s: string, r: nat, q: nat, t: string, u: nat)
    requires SameFrom(s, r, t, u) && r <= q <= |s|
    ensures s[r..q] == t[u..q - r + u]
  {
  }

  lemma SameComma(s: string, r: nat, t: string, u: nat)
    requires SameFrom(s, r, t, u)
    ensures Comma(t, u) == Comma(s, r) - r + u
  {
    var q := Comma(s, r);
    forall k | u <= k < q - r + u
      ensures t[k] != ','
    {
      assert s[k - u + r] == t[k];
    }
    CommaIs(t, u, q - r + u);
  }

  lemma FieldsOfOne(f: string)
    requires ',' !in f
    ensures Fields(f) == if f == "" then [] else [f]
  {
    CommaAfter(f, "");
    if f != "" {
      OneField(f, 0, |f|, |f|);
      assert f[0..|f|] == f && FieldsFrom(f, |f|) == [];
    }
  }

  lemma FieldsOfMore(f: string, rest: string)
    requires ',' !in f
    ensures Fields(f + "," + rest) == [f] + Fields(rest)
  {
    var s := f + "," + rest;
    CommaAfter(f, rest);
    OneField(s, 0, |f|, |f| + 1);
    assert s[0..|f|] == f && s[|f| + 1..] == rest;
    FieldsOfTail(s, |f| + 1);
  }

  // Every field that was joined is read back, even an empty last one, which is not a token any more.
  lemma {:induction false} GetJoined(fields: seq<string>, i: nat)
    requires forall f :: f in fields ==> ',' !in f
    ensures Get(Fields(Join(fields)), i) == Get(fields, i)
    ensures |Fields(Join(fields))| <= |fields|
    decreases |fields|
  {
    if fields == [] {
      assert Fields("") == [];
    } else if |fields| == 1 {
      assert fields[0] in fields;
      FieldsOfOne(fields[0]);
    } else {
      assert fields[0] in fields;
      FieldsOfMore(fields[0], Join(fields[1..]));
      GetJoined(fields[1..], if i > 0 then i - 1 else 0);
    }
  }

  // ---- the tokenizer ------------------------------------------------------------------------------------

  // What is left of buf without the leading '$', the newline and the checksum: a range of it.
  function BodyStart(buf: string): nat {
    if buf != "" && buf[0] == '$' then 1 else 0
  }

  function BodyEnd(buf: string): (end: nat)
    ensures BodyStart(buf) <= end <= |buf|
  {
    var p, e := BodyStart(buf), |buf|;
    var e1 := if e > p && buf[e - 1] == '\n' then (if e - 1 > p && buf[e - 2] == '\r' then e - 2 else e - 1) else e;
    if e1 >= p + 3 && buf[e1 - 3] == '*' then e1 - 3 else e1
  }

  function Body(buf: string): string {
    buf[BodyStart(buf)..BodyEnd(buf)]
  }

  // A sentence as a receiver sends it.
  function Sentence(fields: seq<string>, checksum: string): string {
    "$" + Join(fields) + "*" + checksum + "\r\n"
  }

  lemma BodyOfSentence(fields: seq<string>, checksum: string)
    requires |checksum| == 2
    ensures Body(Sentence(fields, checksum)) == Join(fields)
  {
    var buf, n := Sentence(fields, checksum), |Join(fields)|;
    assert buf[n + 5] == '\n' && buf[n + 4] == '\r' && buf[n + 1] == '*';
    assert buf[1..n + 1] == Join(fields);
  }

  // What is stripped: a leading '$', a newline with or without a carriage return, and a checksum, each
  // only if it is there.
  lemma StrippedBody(dollar: string, core: string, checksum: string, newline: string)
    requires dollar == "$" || (dollar == "" && (core == "" || core[0] != '$'))
    requires (|checksum| == 3 && checksum[0] == '*') || (checksum == "" && (|core| < 3 || core[|core| - 3] != '*'))
    requires newline == "\r\n" || (newline == "\n" && !EndsIn(core + checksum, '\r'))
      || (newline == "" && !EndsIn(core + checksum, '\n'))
    ensures Body(dollar + core + checksum + newline) == core
  {
    CharsAt(dollar, core, checksum, newline);
    WhereItEnds(dollar + core + checksum + newline, |dollar|, |core|, |checksum|, |newline|);
  }

  lemma CharsAt(first: string, core: string, sum: string, last: string)
    ensures var s, a, b, c := first + core + sum + last, |first|, |core|, |sum|;
      && |s| == a + b + c + |last|
      && s[a..a + b] == core
      && (a > 0 ==> s[0] == first[0])
      && (b > 0 ==> s[a] == core[0])
      && (b >= 3 ==> s[a + b - 3] == core[b - 3])
      && (c > 0 ==> s[a + b] == sum[0])
      && (b + c > 0 ==> s[a + b + c - 1] == (core + sum)[b + c - 1])
      && (|last| > 0 ==> s[a + b + c] == last[0])
      && (|last| > 1 ==> s[a + b + c + 1] == last[1])
  {
  }

  // The same, for b characters between a first one that is left out and a checksum and a newline of
  // c and n characters.
  lemma WhereItEnds(buf: string, a: nat, b: nat, c: nat, n: nat)
    requires |buf| == a + b + c + n && a <= 1
    requires if a == 1 then buf[0] == '$' else buf == "" || buf[0] != '$'
    requires if c == 0 then b < 3 || buf[a + b - 3] != '*' else c == 3 && buf[a + b] == '*'
    requires n == 2 ==> buf[a + b + c] == '\r' && buf[a + b + c + 1] == '\n'
    requires n == 1 ==> buf[a + b + c] == '\n' && (b + c == 0 || buf[a + b + c - 1] != '\r')
    requires n == 0 ==> b + c == 0 || buf[a + b + c - 1] != '\n'
    requires n <= 2
    ensures BodyStart(buf) == a && BodyEnd(buf) == a + b
  {
  }

  predicate EndsIn(s: string, c: char) {
    s != "" && s[|s| - 1] == c
  }

  datatype Token = Token(p: nat, end: nat)

  // The first count tokens are the ranges of the first count texts.
  predicate AreTexts(tokens: seq<Token>, buf: string, texts: seq<string>, count: nat) {
    count <= |tokens| && count <= |texts| && forall i :: 0 <= i < count ==>
      tokens[i].p <= tokens[i].end <= |buf| && buf[tokens[i].p..tokens[i].end] == texts[i]
  }

  lemma SameTexts(tokens: seq<Token>, buf: string, texts: seq<string>, count: nat, more: string)
    requires AreTexts(tokens, buf, texts, count)
    ensures AreTexts(tokens, buf, texts + [more], count)
  {
  }

  lemma OneMoreText(tokens: seq<Token>, buf: string, texts: seq<string>, count: nat, t: Token)
    requires AreTexts(tokens, buf, texts, count) && count < |tokens| && count == |texts| && t.p <= t.end <= |buf|
    ensures AreTexts(tokens[count := t], buf, texts + [buf[t.p..t.end]], count + 1)
  {
  }

  class NmeaTokenizer {
    var count: nat
    const tokens: array<Token>

    constructor ()
      ensures tokens.Length == MAX_NMEA_TOKENS && fresh(tokens) && count == 0
    {
      tokens := new Token[MAX_NMEA_TOKENS](_ => Token(0, 0));
      count := 0;
    }

    // The range of buf that BodyStart and BodyEnd describe.
    method Strip(buf: string) returns (p: nat, end: nat)
      ensures p == BodyStart(buf) && end == BodyEnd(buf)
    {
      p, end := 0, |buf|;
      if p < end && buf[0] == '$' {
        p := 1;
      }
      if end > p && buf[end - 1] == '\n' {
        end := end - 1;
        if end > p && buf[end - 1] == '\r' {
          end := end - 1;
        }
      }
      if end >= p + 3 && buf[end - 3] == '*' {
        end := end - 3;
      }
    }

    method MemChr(buf: string, p: nat, end: nat) returns (q: nat)
      requires p <= end <= |buf|
      ensures p <= q <= end && q == Comma(buf[..end], p)
    {
      ghost var s := buf[..end];
      q := p;
      while q < end && buf[q] != ','
        invariant p <= q <= end && Comma(s, q) == Comma(s, p)
      {
        assert s[q] == buf[q];
        q := q + 1;
      }
      assert q < end ==> s[q] == buf[q];
    }

    // The range from p to q becomes a token, if there is room for one more.
    method Add(buf: string, p: nat, q: nat, ghost texts: seq<string>)
      requires tokens.Length == MAX_NMEA_TOKENS && p <= q <= |buf|
      requires AreTexts(tokens[..], buf, texts, count) && count == Min(|texts|, MAX_NMEA_TOKENS)
      modifies this, tokens
      ensures AreTexts(tokens[..], buf, texts + [buf[p..q]], count) && count == Min(|texts| + 1, MAX_NMEA_TOKENS)
    {
      ghost var before := tokens[..];
      if count < MAX_NMEA_TOKENS {
        tokens[count] := Token(p, q);
        assert tokens[..] == before[count := Token(p, q)];
        OneMoreText(before, buf, texts, count, Token(p, q));
        count := count + 1;
      } else {
        SameTexts(before, buf, texts, count, buf[p..q]);
      }
    }

    // The first 32 fields become tokens.
    method Init(buf: string) returns (ret: nat)
      requires tokens.Length == MAX_NMEA_TOKENS
      modifies this, tokens
      ensures ret == count == |Tokens(buf)| == Min(|Fields(Body(buf))|, 32)
      ensures AreTexts(tokens[..], buf, Tokens(buf), count)
    {
      var p, end := Strip(buf);
      ghost var s, fields := buf[..end], Fields(Body(buf));
      BodyIsTail(buf, s, p);
      count := 0;
      ghost var texts: seq<string> := [];
      while p < end
        invariant p <= end && Rest(s, p, texts, fields)
        invariant count == Min(|texts|, MAX_NMEA_TOKENS) && AreTexts(tokens[..], buf, texts, count)
        decreases end - p
      {
        var q := MemChr(buf, p, end);
        NextField(s, p, q, texts, fields);
        assert s[p..q] == buf[p..q];
        Add(buf, p, q, texts);
        texts := texts + [buf[p..q]];
        if q < end {
          q := q + 1;
        }
        p := q;
      }
      ret := count;
      assert texts + [] == texts;
      TextsOfTokens(tokens[..], buf, texts, count);
    }
  }

  // The fields not yet seen are those from p on.
  predicate Rest(s: string, p: nat, texts: seq<string>, fields: seq<string>) {
    p <= |s| && fields == texts + FieldsFrom(s, p)
  }

  lemma BodyIsTail(buf: string, s: string, p: nat)
    requires s == buf[..BodyEnd(buf)] && p == BodyStart(buf)
    ensures Rest(s, p, [], Fields(Body(buf)))
  {
    FieldsOfTail(s, p);
    assert s[p..] == Body(buf);
  }

  lemma NextField(s: string, p: nat, q: nat, texts: seq<string>, fields: seq<string>)
    requires p < |s| && q == Comma(s, p) && Rest(s, p, texts, fields)
    ensures Rest(s, if q < |s| then q + 1 else q, texts + [s[p..q]], fields)
  {
    var next := if q < |s| then q + 1 else q;
    OneField(s, p, q, next);
    Regroup(texts, [s[p..q]], FieldsFrom(s, next));
  }

  lemma TextsOfTokens(tokens: seq<Token>, buf: string, texts: seq<string>, count: nat)
    requires texts == Fields(Body(buf)) && count == Min(|texts|, MAX_NMEA_TOKENS) && AreTexts(tokens, buf, texts, count)
    ensures count == |Tokens(buf)| && AreTexts(tokens, buf, Tokens(buf), count)
  {
  }

  // The tokens of a buffer: its first 32 fields.
  function Tokens(buf: string): seq<string> {
    var fields := Fields(Body(buf));
    if |fields| <= MAX_NMEA_TOKENS then fields else fields[..MAX_NMEA_TOKENS]
  }

  // Joining the tokens gives the text of the sentence back, but for a final comma, as long as it has
  // no more than 32 fields.  No token holds a comma.
  lemma TokensJoinBack(buf: string)
    ensures |Fields(Body(buf))| <= 32 ==> Join(Tokens(buf)) + FinalComma(Body(buf)) == Body(buf)
    ensures forall t :: t in Tokens(buf) ==> ',' !in t
  {
    JoinFields(Body(buf), 0);
    FieldsHaveNoCommas(Body(buf), 0);
  }

  // ---- numbers --------------------------------------------------------------------------------------------

  predicate IsDigit(c: char) {
    '0' <= c <= '9'
  }

  predicate AllDigits(s: string) {
    forall k :: 0 <= k < |s| ==> IsDigit(s[k])
  }

  function Digits(s: string): int {
    if s == "" then 0 else ToInt32(Digits(s[..|s| - 1]) * 10 + (s[|s| - 1] as int - '0' as int))
  }

  // -1 for no number, and the int that the digits overflow to otherwise.
  function StrToInt(s: string): int {
    if s == "" || !AllDigits(s) then -1 else Digits(s)
  }

  // The decimal value of a string of digits, of any length.
  function Value(s: string): int {
    if s == "" then 0 else 10 * Value(s[..|s| - 1]) + (s[|s| - 1] as int - 48)
  }

  // What is read: -1 unless there are digits and nothing else, and then their value cut to 32 bits.
  lemma {:induction false} WhatIsRead(s: string)
    ensures s == "" || (exists k :: 0 <= k < |s| && !('0' <= s[k] <= '9')) ==> StrToInt(s) == -1
    ensures s != "" && (forall k :: 0 <= k < |s| ==> '0' <= s[k] <= '9') ==> StrToInt(s) == ToInt32(Value(s))
  {
    DigitsAreValue(s);
  }

  lemma {:induction false} DigitsAreValue(s: string)
    ensures Digits(s) == ToInt32(Value(s))
  {
    if s == "" {
    } else {
      var less, d := s[..|s| - 1], s[|s| - 1] as int - 48;
      DigitsAreValue(less);
      CutTwice(Value(less), d);
    }
  }

  lemma CutTwice(x: int, d: int)
    ensures ToInt32(ToInt32(x) * 10 + d) == ToInt32(10 * x + d)
  {
    var q := CutBy(x);
    SameCut(ToInt32(x) * 10 + d, 10 * q);
  }

  lemma CutBy(x: int) returns (q: int)
    ensures x == ToInt32(x) + q * TWO32
  {
    q := x / TWO32;
    if x % TWO32 >= TWO31 {
      q := q + 1;
    }
  }

  // Whole multiples of 2^32 are lost.
  lemma {:induction false} SameCut(x: int, k: int)
    ensures ToInt32(x + k * TWO32) == ToInt32(x)
    decreases if k >= 0 then k else -k
  {
    if k == 0 {
    } else {
      SameCut(x, if k > 0 then k - 1 else k + 1);
    }
  }

  method Str2Int(buf: string, p: nat, end: nat) returns (result: int)
    requires p <= end <= |buf|
    ensures result == StrToInt(buf[p..end])
  {
    ghost var s := buf[p..end];
    if end == p {
      return -1;
    }
    result := 0;
    var i := p;
    assert s[..0] == "";
    while i < end
      invariant p <= i <= end
      invariant forall k :: 0 <= k < i - p ==> IsDigit(s[k])
      invariant result == Digits(s[..i - p])
    {
      assert s[i - p] == buf[i];
      assert s[..i - p + 1][..i - p] == s[..i - p];
      if buf[i] < '0' || buf[i] > '9' {
        return -1;
      }
      result := ToInt32(result * 10 + (buf[i] as int - '0' as int));
      i := i + 1;
    }
    assert s[..i - p] == s;
  }

  function Digit(d: nat): char
    requires d < 10
  {
    ('0' as int + d) as char
  }

  function Decimal(n: nat): string {
    if n < 10 then [Digit(n)] else Decimal(n / 10) + [Digit(n % 10)]
  }

  // A number that fits an int is read back.
  lemma {:induction false} ReadsBack(n: nat)
    requires n < TWO31
    ensures StrToInt(Decimal(n)) == n && AllDigits(Decimal(n)) && ',' !in Decimal(n)
  {
    var s := Decimal(n);
    var last := s[|s| - 1];
    assert IsDigit(last) && last as int - '0' as int == n % 10;
    if n < 10 {
      assert s[..0] == "" && Digits("") == 0;
    } else {
      ReadsBack(n / 10);
      assert s[..|s| - 1] == Decimal(n / 10);
    }
    assert Digits(s) == ToInt32(n);
  }

  // ---- satellites -------------------------------------------------------------------------------------------

  datatype Sv = Sv(prn: int, elevation: string, azimuth: string, snr: string)

  datatype SvStatus = SvStatus(
    num: nat,                // num_svs
    list: seq<Sv>,           // sv_list
    used: set<nat>,          // the one bits of used_in_fix_mask
    changed: bool,           // sv_status_changed
    gsaFixed: bool)

  predicate Shape(s: SvStatus) {
    |s.list| == GPS_MAX_SVS && s.num <= GPS_MAX_SVS
  }

  // The first character behind the token's pointer.  An empty token is followed by its comma.
  function FirstChar(fields: seq<string>, i: nat): char {
    if i >= |fields| then '\0' else if fields[i] == "" then ',' else fields[i][0]
  }

  predicate InFix(fields: seq<string>) {
    FirstChar(fields, 2) != '\0' && FirstChar(fields, 2) != '1'
  }

  // Bit p - 1 for every satellite p of 1 to 32 that fields 3 to 14 name.
  function UsedIn(fields: seq<string>): set<nat> {
    set i | 3 <= i <= 14 && 0 < StrToInt(Get(fields, i)) < 33 :: StrToInt(Get(fields, i)) - 1
  }

  function AfterGsa(s: SvStatus, fields: seq<string>): SvStatus {
    if InFix(fields) then
      var any := UsedIn(fields) != {};
      s.(used := UsedIn(fields), changed := s.changed || any, gsaFixed := s.gsaFixed || any)
    else if s.gsaFixed then s.(used := {}, changed := true, gsaFixed := false)
    else s
  }

  lemma UsedBits(fields: seq<string>, prn: nat)
    requires 1 <= prn <= 32
    ensures prn - 1 in UsedIn(fields) <==> exists i :: 3 <= i <= 14 && StrToInt(Get(fields, i)) == prn
    ensures forall b :: b in UsedIn(fields) ==> b < 32
  {
    if prn - 1 in UsedIn(fields) {
      var i :| 3 <= i <= 14 && 0 < StrToInt(Get(fields, i)) < 33 && StrToInt(Get(fields, i)) - 1 == prn - 1;
      assert StrToInt(Get(fields, i)) == prn;
    }
  }

  function SvAt(fields: seq<string>, i: nat): Sv {
    Sv(StrToInt(Get(fields, i * 4 + 4)), Get(fields, i * 4 + 5), Get(fields, i * 4 + 6), Get(fields, i * 4 + 7))
  }

  // The first n satellites of a GSV sentence go to list[num..].
  function Listed(list: seq<Sv>, num: nat, fields: seq<string>, n: nat): (r: seq<Sv>)
    requires num + n <= |list|
    ensures |r| == |list|
  {
    if n == 0 then list else Listed(list, num, fields, n - 1)[num + n - 1 := SvAt(fields, n - 1)]
  }

  lemma OneMoreListed(list: seq<Sv>, num: nat, fields: seq<string>, n: nat)
    requires num + n < |list|
    ensures Listed(list, num, fields, n + 1) == Listed(list, num, fields, n)[num + n := SvAt(fields, n)]
  {
  }

  function SvsToAdd(num: nat, total: int): nat {
    if num >= total then 0 else if total - num < 4 then total - num else 4
  }

  function Added(s: SvStatus, fields: seq<string>, total: int): (r: SvStatus)
    requires Shape(s) && s.num + SvsToAdd(s.num, total) <= GPS_MAX_SVS
    ensures Shape(r)
  {
    var n := SvsToAdd(s.num, total);
    s.(list := Listed(s.list, s.num, fields, n), num := s.num + n)
  }

  // The first sentence of a burst starts the list anew.
  function Restarted(s: SvStatus, fields: seq<string>): SvStatus {
    if StrToInt(Get(fields, 2)) == 1 then s.(changed := false, num := 0) else s
  }

  // The satellites of the sentence have room in the list.
  predicate HasRoom(s: SvStatus, fields: seq<string>) {
    var num, total := Restarted(s, fields).num, StrToInt(Get(fields, 3));
    total <= 0 || num + SvsToAdd(num, total) <= GPS_MAX_SVS
  }

  // They lack room exactly if more than 32 are announced and more than 28 are in the list already.
  lemma WhenThereIsRoom(s: SvStatus, fields: seq<string>)
    requires Shape(s)
    ensures HasRoom(s, fields) <==>
      StrToInt(Get(fields, 3)) <= 32 || Restarted(s, fields).num <= 28
  {
  }

  // The list is full, and a sentence of a burst of 33 satellites brings one more.
  lemma OneTooManyAnnounced(s: SvStatus)
    requires Shape(s) && s.num == GPS_MAX_SVS
    ensures !HasRoom(s, ["GPGSV", Decimal(9), Decimal(9), Decimal(33)])
  {
    ReadsBack(9);
    ReadsBack(33);
  }

  function AfterGsv(s: SvStatus, fields: seq<string>): (r: SvStatus)
    requires Shape(s) && HasRoom(s, fields)
    ensures Shape(r)
  {
    var total := StrToInt(Get(fields, 3));
    if total <= 0 then s
    else
      var sentence, sentences := StrToInt(Get(fields, 2)), StrToInt(Get(fields, 1));
      var s1 := Restarted(s, fields);
      Added(s1, fields, total).(changed := s1.changed || sentence == sentences)
  }

  // One GSV sentence: nothing unless satellites are announced.  The first sentence starts the list anew,
  // the last one sets the flag, and up to four satellites follow those in the list.
  lemma WhatAGsvDoes(s: SvStatus, fields: seq<string>)
    requires Shape(s) && HasRoom(s, fields)
    ensures var t, sentence, total := AfterGsv(s, fields), StrToInt(Get(fields, 2)), StrToInt(Get(fields, 3));
      var start := if sentence == 1 then 0 else s.num;
      if total <= 0 then t == s
      else
        && t.used == s.used && t.gsaFixed == s.gsaFixed
        && t.num == (if start >= total then start else if total < start + 4 then total else start + 4)
        && t.changed == (sentence == StrToInt(Get(fields, 1)) || (sentence != 1 && s.changed))
        && forall k :: 0 <= k < GPS_MAX_SVS ==>
             (t.list[k] == if start <= k < t.num then SvAt(fields, k - start) else s.list[k])
  {
    var start := if StrToInt(Get(fields, 2)) == 1 then 0 else s.num;
    if StrToInt(Get(fields, 3)) > 0 {
      ListedAre(s.list, start, fields, SvsToAdd(start, StrToInt(Get(fields, 3))));
    }
  }

  class NmeaReader {
    const list: array<Sv>
    var num: nat
    var used: set<nat>
    var changed: bool
    var gsaFixed: bool

    ghost function View(): SvStatus
      reads this, list
    {
      SvStatus(num, list[..], used, changed, gsaFixed)
    }

    constructor ()
      ensures Shape(View()) && View().num == 0 && fresh(list)
    {
      list := new Sv[GPS_MAX_SVS](_ => Sv(0, "", "", ""));
      num, used, changed, gsaFixed := 0, {}, false, false;
    }

    method ParseGsa(fields: seq<string>)
      modifies this
      ensures View() == AfterGsa(old(View()), fields)
    {
      if FirstChar(fields, 2) != '\0' && FirstChar(fields, 2) != '1' {
        used := {};
        ghost var seen: set<nat> := {};
        var i := 3;
        while i <= 14
          invariant 3 <= i <= 15 && num == old(num)
          invariant used == set k | 3 <= k < i && 0 < StrToInt(Get(fields, k)) < 33 :: StrToInt(Get(fields, k)) - 1
          invariant changed == (old(changed) || used != {}) && gsaFixed == (old(gsaFixed) || used != {})
        {
          var prn := StrToInt(Get(fields, i));
          if prn > 0 && prn < 33 {
            used := used + {prn - 1};
            changed := true;
            gsaFixed := true;
          }
          i := i + 1;
        }
      } else {
        if gsaFixed {
          used := {};
          changed := true;
          gsaFixed := false;
        }
      }
    }

    // inside: no satellite was written past the end of the list, where the model stops.
    method AddSvs(fields: seq<string>, noSatellites: int) returns (inside: bool)
      requires Shape(View())
      modifies this`num, list
      ensures Shape(View()) && inside == (old(num) + SvsToAdd(old(num), noSatellites) <= GPS_MAX_SVS)
      ensures if inside then View() == Added(old(View()), fields, noSatellites) else num == GPS_MAX_SVS
    {
      var curr := num;
      ghost var start, n, was := num, SvsToAdd(num, noSatellites), list[..];
      var i := 0;
      while i < 4 && num < noSatellites
        invariant i <= n && num == curr == start + i <= GPS_MAX_SVS
        invariant list[..] == Listed(was, start, fields, i)
      {
        if curr == GPS_MAX_SVS {
          return false;
        }
        OneMoreListed(was, start, fields, i);
        ghost var before := list[..];
        list[curr] := Sv(StrToInt(Get(fields, i * 4 + 4)), Get(fields, i * 4 + 5), Get(fields, i * 4 + 6),
                         Get(fields, i * 4 + 7));
        assert list[..] == before[curr := SvAt(fields, i)];
        num := num + 1;
        curr := curr + 1;
        i := i + 1;
      }
      inside := true;
    }

    method ParseGsv(fields: seq<string>) returns (inside: bool)
      requires Shape(View())
      modifies this, list
      ensures Shape(View()) && inside == HasRoom(old(View()), fields)
      ensures if inside then View() == AfterGsv(old(View()), fields) else num == GPS_MAX_SVS
    {
      inside := true;
      var noSatellites := StrToInt(Get(fields, 3));
      if noSatellites > 0 {
        var sentence := StrToInt(Get(fields, 2));
        var totalSentences := StrToInt(Get(fields, 1));
        if sentence == 1 {
          changed := false;
          num := 0;
        }
        assert View() == Restarted(old(View()), fields);
        inside := AddSvs(fields, noSatellites);
        if sentence == totalSentences {
          changed := true;
        }
      }
    }
  }

  // ---- a burst of GSV sentences ---------------------------------------------------------------------------

  datatype Satellite = Satellite(prn: nat, elevation: string, azimuth: string, snr: string)

  predicate Sendable(sats: seq<Satellite>) {
    forall k :: 0 <= k < |sats| ==>
      sats[k].prn < TWO31 && ',' !in sats[k].elevation && ',' !in sats[k].azimuth && ',' !in sats[k].snr
  }

  function AsSv(s: Satellite): Sv {
    Sv(s.prn, s.elevation, s.azimuth, s.snr)
  }

  function SatFields(sats: seq<Satellite>): (r: seq<string>)
    ensures |r| == 4 * |sats|
  {
    if sats == [] then []
    else
      var s := sats[|sats| - 1];
      SatFields(sats[..|sats| - 1]) + [Decimal(s.prn), s.elevation, s.azimuth, s.snr]
  }

  // Four satellites a sentence.
  function SentencesFor(n: nat): nat {
    (n + 3) / 4
  }

  function SentInUpTo(n: nat, k: nat): nat {
    if 4 * k < n then 4 * k else n
  }

  // The fields of sentence k of the burst, and the sentence itself.
  function GsvFields(sats: seq<Satellite>, k: nat): seq<string>
    requires 1 <= k <= SentencesFor(|sats|)
  {
    ["GPGSV", Decimal(SentencesFor(|sats|)), Decimal(k), Decimal(|sats|)]
    + SatFields(sats[4 * (k - 1)..SentInUpTo(|sats|, k)])
  }

  function GsvSentence(sats: seq<Satellite>, k: nat, checksum: string): string
    requires 1 <= k <= SentencesFor(|sats|)
  {
    Sentence(GsvFields(sats, k), checksum)
  }

  lemma {:induction false} SatFieldsAt(sats: seq<Satellite>, i: nat)
    requires i < |sats|
    ensures SatFields(sats)[4 * i..4 * i + 4] == [Decimal(sats[i].prn), sats[i].elevation, sats[i].azimuth, sats[i].snr]
  {
    var last := |sats| - 1;
    var before := SatFields(sats[..last]);
    if i == last {
      assert SatFields(sats)[|before|..] == [Decimal(sats[i].prn), sats[i].elevation, sats[i].azimuth, sats[i].snr];
    } else {
      SatFieldsAt(sats[..last], i);
      assert sats[..last][i] == sats[i];
      assert SatFields(sats)[4 * i..4 * i + 4] == before[4 * i..4 * i + 4];
    }
  }

  lemma {:induction false} SatFieldsHaveNoCommas(sats: seq<Satellite>)
    requires Sendable(sats)
    ensures forall f :: f in SatFields(sats) ==> ',' !in f
  {
    if sats == [] {
    } else {
      var last := |sats| - 1;
      SatFieldsHaveNoCommas(sats[..last]);
      ReadsBack(sats[last].prn);
    }
  }

  lemma GsvFieldsMean(sats: seq<Satellite>, k: nat)
    requires |sats| <= GPS_MAX_SVS && Sendable(sats) && 1 <= k <= SentencesFor(|sats|)
    ensures var f := GsvFields(sats, k);
      && Get(f, 1) == f[1] && Get(f, 2) == f[2] && Get(f, 3) == f[3]
      && StrToInt(f[1]) == SentencesFor(|sats|) && StrToInt(f[2]) == k && StrToInt(f[3]) == |sats|
      && |f| <= 20 && forall x :: x in f ==> ',' !in x
  {
    ReadsBack(SentencesFor(|sats|));
    ReadsBack(k);
    ReadsBack(|sats|);
    SatFieldsHaveNoCommas(sats[4 * (k - 1)..SentInUpTo(|sats|, k)]);
  }

  lemma GsvSatellite(sats: seq<Satellite>, k: nat, i: nat)
    requires Sendable(sats) && 1 <= k <= SentencesFor(|sats|) && i < SentInUpTo(|sats|, k) - 4 * (k - 1)
    ensures SvAt(GsvFields(sats, k), i) == AsSv(sats[4 * (k - 1) + i])
  {
    var f, part := GsvFields(sats, k), sats[4 * (k - 1)..SentInUpTo(|sats|, k)];
    SatFieldsAt(part, i);
    var four := SatFields(part)[4 * i..4 * i + 4];
    assert f[4 * i + 4] == four[0] && f[4 * i + 5] == four[1] && f[4 * i + 6] == four[2] && f[4 * i + 7] == four[3];
    ReadsBack(part[i].prn);
  }

  lemma {:induction false} ListedAre(list: seq<Sv>, num: nat, fields: seq<string>, n: nat)
    requires num + n <= |list|
    ensures forall k :: 0 <= k < |list| ==>
      Listed(list, num, fields, n)[k] == if num <= k < num + n then SvAt(fields, k - num) else list[k]
  {
    if n == 0 {
    } else {
      ListedAre(list, num, fields, n - 1);
    }
  }

  // The parser only looks at the fields one by one.
  lemma {:induction false} SameFieldsSameList(list: seq<Sv>, num: nat, f: seq<string>, g: seq<string>, n: nat)
    requires num + n <= |list| && forall i: nat :: Get(f, i) == Get(g, i)
    ensures Listed(list, num, f, n) == Listed(list, num, g, n)
  {
    if n == 0 {
    } else {
      SameFieldsSameList(list, num, f, g, n - 1);
    }
  }

  // What the reader knows after the first k sentences of a burst.
  predicate KnowsFirst(s: SvStatus, sats: seq<Satellite>, k: nat) {
    && Shape(s) && |sats| <= GPS_MAX_SVS
    && s.num == SentInUpTo(|sats|, k)
    && (forall i :: 0 <= i < s.num ==> s.list[i] == AsSv(sats[i]))
    && (s.changed <==> k == SentencesFor(|sats|))
  }

  lemma NextSentence(s: SvStatus, sats: seq<Satellite>, k: nat, f: seq<string>)
    requires |sats| <= GPS_MAX_SVS && 1 <= k <= SentencesFor(|sats|)
    requires Shape(s) && (k == 1 || KnowsFirst(s, sats, k - 1))
    requires StrToInt(Get(f, 1)) == SentencesFor(|sats|) && StrToInt(Get(f, 2)) == k && StrToInt(Get(f, 3)) == |sats|
    requires forall i :: 0 <= i < SentInUpTo(|sats|, k) - 4 * (k - 1) ==> SvAt(f, i) == AsSv(sats[4 * (k - 1) + i])
    ensures KnowsFirst(AfterGsv(s, f), sats, k)
  {
    var s1 := if k == 1 then s.(changed := false, num := 0) else s;
    MoreKnown(s1, sats, f);
  }

  lemma MoreKnown(s: SvStatus, sats: seq<Satellite>, f: seq<string>)
    requires Shape(s) && s.num <= |sats| <= GPS_MAX_SVS
    requires forall i :: 0 <= i < s.num ==> s.list[i] == AsSv(sats[i])
    requires forall i :: 0 <= i < SvsToAdd(s.num, |sats|) ==> SvAt(f, i) == AsSv(sats[s.num + i])
    ensures var t := Added(s, f, |sats|);
      t.num == s.num + SvsToAdd(s.num, |sats|) && forall i :: 0 <= i < t.num ==> t.list[i] == AsSv(sats[i])
  {
    ListedAre(s.list, s.num, f, SvsToAdd(s.num, |sats|));
  }

  lemma TokensOfSentence(fields: seq<string>, checksum: string, i: nat)
    requires |checksum| == 2 && |fields| <= MAX_NMEA_TOKENS && forall f :: f in fields ==> ',' !in f
    ensures Get(Tokens(Sentence(fields, checksum)), i) == Get(fields, i)
  {
    BodyOfSentence(fields, checksum);
    GetJoined(fields, i);
  }

  // ---- a GSA sentence -----------------------------------------------------------------------------------

  const GSA_SATELLITES := 12

  // The satellites' numbers in fields 3 to 14, the unused ones empty.
  function GsaFields(selection: string, mode: string, prns: seq<nat>, rest: seq<string>): seq<string> {
    ["GPGSA", selection, mode]
    + seq(GSA_SATELLITES, i requires 0 <= i => if i < |prns| then Decimal(prns[i]) else "")
    + rest
  }

  predicate Plain(s: string) {
    ',' !in s
  }

  lemma GsaFieldsArePlain(selection: string, mode: string, prns: seq<nat>, rest: seq<string>)
    requires Plain(selection) && Plain(mode) && (forall t :: t in rest ==> Plain(t))
    requires |prns| <= GSA_SATELLITES && forall p :: p in prns ==> p < TWO31
    ensures forall f :: f in GsaFields(selection, mode, prns, rest) ==> ',' !in f
  {
    var fields := GsaFields(selection, mode, prns, rest);
    forall i | 0 <= i < |fields|
      ensures Plain(fields[i])
    {
      if 3 <= i < 3 + |prns| {
        assert prns[i - 3] in prns;
        ReadsBack(prns[i - 3]);
      } else if i >= 15 {
        assert fields[i] == rest[i - 15];
      }
    }
  }

  lemma GsaNumberAt(selection: string, mode: string, prns: seq<nat>, rest: seq<string>, i: nat)
    requires |prns| <= GSA_SATELLITES && (forall p :: p in prns ==> p < TWO31) && 3 <= i <= 14
    ensures StrToInt(Get(GsaFields(selection, mode, prns, rest), i)) == if i - 3 < |prns| then prns[i - 3] else -1
  {
    if i - 3 < |prns| {
      assert prns[i - 3] in prns;
      ReadsBack(prns[i - 3]);
    }
  }

  // From the text of a GSA sentence: without a fix the mask is cleared, with one it has the bits of
  // exactly the satellites the sentence names, and the flags are set if there is one.
  lemma GsaArrives(s: SvStatus, selection: string, mode: string, prns: seq<nat>, rest: seq<string>, checksum: string)
    requires |prns| <= GSA_SATELLITES && (forall p :: p in prns ==> p < TWO31)
    requires Plain(selection) && Plain(mode) && mode != "" && mode[0] != '\0'
    requires |rest| <= MAX_NMEA_TOKENS - 15 && (forall t :: t in rest ==> Plain(t)) && |checksum| == 2
    ensures var t := AfterGsa(s, Tokens(Sentence(GsaFields(selection, mode, prns, rest), checksum)));
      && t.num == s.num && t.list == s.list
      && if mode[0] == '1' then
           && t.used == (if s.gsaFixed then {} else s.used)
           && t.changed == (s.changed || s.gsaFixed) && !t.gsaFixed
         else
           var any := exists p :: p in prns && 1 <= p <= 32;
           && (forall b: nat :: b in t.used <==> b < 32 && b + 1 in prns)
           && t.changed == (s.changed || any) && t.gsaFixed == (s.gsaFixed || any)
  {
    var g := Tokens(Sentence(GsaFields(selection, mode, prns, rest), checksum));
    GsaIsRead(selection, mode, prns, rest, checksum);
    NamedAreUsed(g, prns);
    AnyUsed(g, prns);
  }

  // The numbers of a GSA sentence, as they are read.
  predicate Names(g: seq<string>, prns: seq<nat>) {
    |prns| <= GSA_SATELLITES
    && forall i :: 3 <= i <= 14 ==> StrToInt(Get(g, i)) == if i - 3 < |prns| then prns[i - 3] else -1
  }

  lemma GsaIsRead(selection: string, mode: string, prns: seq<nat>, rest: seq<string>, checksum: string)
    requires |prns| <= GSA_SATELLITES && (forall p :: p in prns ==> p < TWO31)
    requires Plain(selection) && Plain(mode) && mode != ""
    requires |rest| <= MAX_NMEA_TOKENS - 15 && (forall t :: t in rest ==> Plain(t)) && |checksum| == 2
    ensures var g := Tokens(Sentence(GsaFields(selection, mode, prns, rest), checksum));
      Names(g, prns) && |g| > 2 && g[2] == mode
  {
    var f := GsaFields(selection, mode, prns, rest);
    GsaFieldsArePlain(selection, mode, prns, rest);
    TokensOfSentence(f, checksum, 2);
    forall i | 3 <= i <= 14
      ensures StrToInt(Get(Tokens(Sentence(f, checksum)), i)) == if i - 3 < |prns| then prns[i - 3] else -1
    {
      TokensOfSentence(f, checksum, i);
      GsaNumberAt(selection, mode, prns, rest, i);
    }
  }

  lemma NamedAreUsed(g: seq<string>, prns: seq<nat>)
    requires Names(g, prns)
    ensures forall b: nat :: b in UsedIn(g) <==> b < 32 && b + 1 in prns
  {
    forall b: nat | b < GPS_MAX_SVS
      ensures b in UsedIn(g) <==> b + 1 in prns
    {
      NamedIn(g, prns, b);
    }
  }

  lemma AnyUsed(g: seq<string>, prns: seq<nat>)
    requires forall b: nat :: b in UsedIn(g) <==> b < 32 && b + 1 in prns
    ensures UsedIn(g) != {} <==> exists p :: p in prns && 1 <= p <= 32
  {
    if UsedIn(g) != {} {
      var b :| b in UsedIn(g);
      assert b + 1 in prns;
    }
    if p :| p in prns && 1 <= p <= 32 {
      assert p - 1 in UsedIn(g);
    }
  }

  // A sentence counts as a fix unless its mode is missing or starts with '1'; an empty one counts.
  lemma WhenItIsAFix(fields: seq<string>)
    ensures InFix(fields) <==> |fields| > 2 && (fields[2] == "" || (fields[2][0] != '1' && fields[2][0] != '\0'))
  {
  }

  lemma NamedIn(g: seq<string>, prns: seq<nat>, b: nat)
    requires Names(g, prns) && b < GPS_MAX_SVS
    ensures b in UsedIn(g) <==> b + 1 in prns
  {
    UsedBits(g, b + 1);
    if b + 1 in prns {
      var j :| 0 <= j < |prns| && prns[j] == b + 1;
      assert StrToInt(Get(g, j + 3)) == b + 1;
    }
  }

  // ---- from text to the list --------------------------------------------------------------------------------

  function AfterBurst(s: SvStatus, sats: seq<Satellite>, k: nat, checksums: nat -> string): (r: SvStatus)
    requires Shape(s) && k <= SentencesFor(|sats|) && |sats| <= GPS_MAX_SVS && Sendable(sats)
    requires forall i :: |checksums(i)| == 2
    ensures Shape(r)
  {
    if k == 0 then s
    else
      SentenceTotal(sats, k, checksums(k));
      AfterGsv(AfterBurst(s, sats, k - 1, checksums), Tokens(GsvSentence(sats, k, checksums(k))))
  }

  lemma SentenceTotal(sats: seq<Satellite>, k: nat, checksum: string)
    requires |sats| <= GPS_MAX_SVS && Sendable(sats) && 1 <= k <= SentencesFor(|sats|) && |checksum| == 2
    ensures StrToInt(Get(Tokens(GsvSentence(sats, k, checksum)), 3)) == |sats|
  {
    GsvFieldsMean(sats, k);
    TokensOfSentence(GsvFields(sats, k), checksum, 3);
  }

  lemma {:induction false} BurstSoFar(s: SvStatus, sats: seq<Satellite>, k: nat, checksums: nat -> string)
    requires Shape(s) && 1 <= k <= SentencesFor(|sats|) && |sats| <= GPS_MAX_SVS && Sendable(sats)
    requires forall i :: |checksums(i)| == 2
    ensures KnowsFirst(AfterBurst(s, sats, k, checksums), sats, k)
  {
    if k > 1 {
      BurstSoFar(s, sats, k - 1, checksums);
    }
    var before := AfterBurst(s, sats, k - 1, checksums);
    var f, g := GsvFields(sats, k), Tokens(GsvSentence(sats, k, checksums(k)));
    GsvFieldsMean(sats, k);
    forall i | 0 <= i < SentInUpTo(|sats|, k) - 4 * (k - 1) ensures SvAt(f, i) == AsSv(sats[4 * (k - 1) + i]) {
      GsvSatellite(sats, k, i);
    }
    NextSentence(before, sats, k, f);
    forall i: nat ensures Get(g, i) == Get(f, i) {
      TokensOfSentence(f, checksums(k), i);
    }
    SentenceTotal(sats, k, checksums(k));
    SameSentence(before, f, g);
  }

  lemma SameSentence(s: SvStatus, f: seq<string>, g: seq<string>)
    requires Shape(s) && (forall i: nat :: Get(g, i) == Get(f, i)) && StrToInt(Get(f, 3)) <= GPS_MAX_SVS
    ensures StrToInt(Get(g, 3)) <= GPS_MAX_SVS && AfterGsv(s, f) == AfterGsv(s, g)
  {
    assert Get(g, 1) == Get(f, 1) && Get(g, 2) == Get(f, 2) && Get(g, 3) == Get(f, 3);
    var total := StrToInt(Get(f, 3));
    var num := if StrToInt(Get(f, 2)) == 1 then 0 else s.num;
    if total > 0 {
      SameFieldsSameList(s.list, num, f, g, SvsToAdd(num, total));
    }
  }

  // From the text of a whole burst, whatever was known before: all the satellites in order, and the
  // changed flag.
  lemma BurstArrives(s: SvStatus, sats: seq<Satellite>, checksums: nat -> string)
    requires Shape(s) && 0 < |sats| <= GPS_MAX_SVS && Sendable(sats)
    requires forall i :: |checksums(i)| == 2
    ensures var t := AfterBurst(s, sats, SentencesFor(|sats|), checksums);
      && t.num == |sats| && t.changed
      && forall i :: 0 <= i < |sats| ==> t.list[i] == AsSv(sats[i])
  {
    BurstSoFar(s, sats, SentencesFor(|sats|), checksums);
  }
}
