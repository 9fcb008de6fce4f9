/** How keys are spelled: decimal numbers, percent-encoding and the ':'-joined cache keys, and why two different
    things never get the same spelling. */
module Keys {
  import opened Common

  // ----- decimal numbers -----

  function Digit(d: int): char
    requires 0 <= d < 16
  {
    "0123456789ABCDEF"[d]
  }

  function DigitValue(c: char): int {
    if '0' <= c <= '9' then c as int - '0' as int
    else if 'A' <= c <= 'F' then c as int - 'A' as int + 10
    else 0
  }

  function Decimal(n: int): string
    decreases if n < 0 then 1 - n else n
  {
    if n < 0 then "-" + Decimal(-n)
    else if n < 10 then [Digit(n)]
    else Decimal(n / 10) + [Digit(n % 10)]
  }

  function ParseNat(s: string): int {
    if s == "" then 0 else 10 * ParseNat(s[..|s| - 1]) + DigitValue(s[|s| - 1])
  }

  predicate AllDigits(s: string) {
    forall i | 0 <= i < |s| :: '0' <= s[i] <= '9'
  }

  lemma DigitReads(d: int)
    requires 0 <= d < 16
    ensures DigitValue(Digit(d)) == d && (d < 10 ==> '0' <= Digit(d) <= '9') && Digit(d) != ':' && Digit(d) != '-'
  {
  }

  lemma {:induction false} DecimalParses(n: nat)
    ensures ParseNat(Decimal(n)) == n && AllDigits(Decimal(n)) && Decimal(n) != ""
  {
    DigitReads(n % 10);
    if n < 10 {
      assert Decimal(n) == [Digit(n)];
      assert Decimal(n)[..0] == "";
      assert ParseNat("") == 0;
    } else {
      DecimalParses(n / 10);
      assert Decimal(n)[..|Decimal(n)| - 1] == Decimal(n / 10);
    }
  }

  lemma DecimalSign(n: int)
    ensures Decimal(n) != ""
    ensures n < 0 <==> Decimal(n)[0] == '-'
    ensures n < 0 ==> Decimal(n)[1..] == Decimal(-n)
  {
    DecimalParses(if n < 0 then -n else n);
  }

  lemma DecimalInjective(a: int, b: int)
    requires Decimal(a) == Decimal(b)
    ensures a == b
  {
    DecimalSign(a);
    DecimalSign(b);
    DecimalParses(if a < 0 then -a else a);
    DecimalParses(if b < 0 then -b else b);
  }

  // ----- joining with ':' -----

  predicate NoColon(s: string) {
    ':' !in s
  }

  function Join(segments: seq<string>): string
    requires segments != []
  {
    if |segments| == 1 then segments[0] else segments[0] + ":" + Join(segments[1..])
  }

  predicate Segment(s: string) {
    !Blank(s) && NoColon(s)
  }

  predicate AllSegments(segments: seq<string>) {
    forall i | 0 <= i < |segments| :: Segment(segments[i])
  }

  function CacheKey(segments: seq<string>): Result<string>
    requires segments != []
  {
    if AllSegments(segments) then Ok(Join(segments)) else Err(ValidationError)
  }

  lemma DecimalHasNoColon(n: int)
    ensures NoColon(Decimal(n))
  {
    DecimalSign(n);
    DecimalParses(if n < 0 then -n else n);
    if n < 0 {
      assert Decimal(n) == ['-'] + Decimal(n)[1..];
    }
  }

  /** What comes before the last ':' and what follows it decide each other. */
  lemma LastColonSplits(a: string, b: string, lastA: string, lastB: string)
    requires NoColon(lastA) && NoColon(lastB)
    requires a + ":" + lastA == b + ":" + lastB
    ensures a == b && lastA == lastB
  {
    var s, t := a + ":" + lastA, b + ":" + lastB;
    assert s[|a|] == ':' && t[|b|] == ':';
    assert forall i | |a| < i < |s| :: s[i] == lastA[i - |a| - 1] && lastA[i - |a| - 1] in lastA;
    assert forall i | |b| < i < |t| :: t[i] == lastB[i - |b| - 1] && lastB[i - |b| - 1] in lastB;
    assert |a| == |b|;
    assert s[..|a|] == a && t[..|b|] == b;
    assert s[|a| + 1..] == lastA && t[|b| + 1..] == lastB;
  }

  /** The part before the first ':' and what follows it decide each other. */
  lemma ColonSplits(a: string, b: string, restA: string, restB: string)
    requires NoColon(a) && NoColon(b)
    requires a + ":" + restA == b + ":" + restB
    ensures a == b && restA == restB
  {
    var s, t := a + ":" + restA, b + ":" + restB;
    assert s[|a|] == ':' && t[|b|] == ':';
    assert forall i | 0 <= i < |a| :: s[i] == a[i] && a[i] in a;
    assert forall i | 0 <= i < |b| :: t[i] == b[i] && b[i] in b;
    assert |a| == |b|;
    assert s[..|a|] == a && t[..|b|] == b;
    assert s[|a| + 1..] == restA && t[|b| + 1..] == restB;
  }

  lemma JoinColon(a: seq<string>)
    requires a != [] && forall i | 0 <= i < |a| :: NoColon(a[i])
    ensures |a| > 1 <==> !NoColon(Join(a))
  {
    if |a| > 1 {
      assert Join(a)[|a[0]|] == ':';
    }
  }

  lemma {:induction false} JoinInjective(a: seq<string>, b: seq<string>)
    requires a != [] && b != []
    requires forall i | 0 <= i < |a| :: NoColon(a[i])
    requires forall i | 0 <= i < |b| :: NoColon(b[i])
    requires Join(a) == Join(b)
    ensures a == b
    decreases |a|
  {
    JoinColon(a);
    JoinColon(b);
    if |a| > 1 {
      ColonSplits(a[0], b[0], Join(a[1..]), Join(b[1..]));
      JoinInjective(a[1..], b[1..]);
      assert a == [a[0]] + a[1..] && b == [b[0]] + b[1..];
    }
  }

  /** Cache keys that exist are equal only when all their segments are. */
  lemma CacheKeyInjective(a: seq<string>, b: seq<string>)
    requires a != [] && b != []
    requires CacheKey(a).Ok? && CacheKey(a) == CacheKey(b)
    ensures a == b
  {
    JoinInjective(a, b);
  }

  // ----- percent-encoding -----

  predicate Unreserved(c: char) {
    'a' <= c <= 'z' || 'A' <= c <= 'Z' || '0' <= c <= '9' || c == '-' || c == '.' || c == '_' || c == '~'
  }

  function Escape(octet: int): string
    requires 0 <= octet < 256
  {
    ['%', Digit(octet / 16), Digit(octet % 16)]
  }

  /** The UTF-8 octets of one character. */
  function Utf8(c: char): (octets: seq<int>)
    ensures forall i | 0 <= i < |octets| :: 0 <= octets[i] < 256
  {
    var n := c as int;
    if n < 0x80 then [n]
    else if n < 0x800 then [0xC0 + n / 64, 0x80 + n % 64]
    else if n < 0x10000 then [0xE0 + n / 4096, 0x80 + n / 64 % 64, 0x80 + n % 64]
    else [0xF0 + n / 262144, 0x80 + n / 4096 % 64, 0x80 + n / 64 % 64, 0x80 + n % 64]
  }

  function EscapeAll(octets: seq<int>): string
    requires forall i | 0 <= i < |octets| :: 0 <= octets[i] < 256
  {
    if octets == [] then "" else Escape(octets[0]) + EscapeAll(octets[1..])
  }

  function QuoteChar(c: char): string {
    if Unreserved(c) then [c] else EscapeAll(Utf8(c))
  }

  /** `urllib.parse.quote(value, safe="")`. */
  function Quote(s: string): string {
    if s == "" then "" else QuoteChar(s[0]) + Quote(s[1..])
  }

  lemma {:induction false} EscapesAreTriples(octets: seq<int>)
    requires forall i | 0 <= i < |octets| :: 0 <= octets[i] < 256
    ensures |EscapeAll(octets)| == 3 * |octets|
    ensures forall i | 0 <= i < |octets| :: EscapeAll(octets)[3 * i..3 * i + 3] == Escape(octets[i])
  {
    if octets != [] {
      EscapesAreTriples(octets[1..]);
      forall i | 0 <= i < |octets|
        ensures EscapeAll(octets)[3 * i..3 * i + 3] == Escape(octets[i])
      {
        if i > 0 {
          assert EscapeAll(octets)[3 * i..3 * i + 3] == EscapeAll(octets[1..])[3 * (i - 1)..3 * (i - 1) + 3];
        }
      }
    }
  }

  /** Letters, digits, '-', '.', '_' and '~' are left as they are; any other character is spelled by an escape for each
      of its octets, as many as its code point needs. */
  lemma QuoteSpells(c: char)
    ensures var n := c as int;
            var kept := 65 <= n <= 90 || 97 <= n <= 122 || 48 <= n <= 57 || n in {45, 46, 95, 126};
            && (kept ==> Quote([c]) == [c])
            && (!kept ==>
                  var octets := if n < 0x80 then 1 else if n < 0x800 then 2 else if n < 0x10000 then 3 else 4;
                  && |Utf8(c)| == octets && |Quote([c])| == 3 * octets
                  && forall i | 0 <= i < octets :: Quote([c])[3 * i..3 * i + 3] == Escape(Utf8(c)[i]))
  {
    assert Quote([c]) == QuoteChar(c) + Quote([c][1..]) == QuoteChar(c);
    if !Unreserved(c) {
      EscapesAreTriples(Utf8(c));
    }
  }

  /** Strings are spelled character by character. */
  lemma {:induction false} QuoteConcat(a: string, b: string)
    ensures Quote(a + b) == Quote(a) + Quote(b)
    decreases |a|
  {
    hide QuoteChar;
    if a == "" {
      assert a + b == b;
    } else {
      QuoteConcat(a[1..], b);
      assert (a + b)[1..] == a[1..] + b;
    }
  }

  /** How many octets follow from the first one. */
  function Width(first: int): (n: nat)
    ensures 1 <= n <= 4
  {
    if first < 0x80 then 1 else if first < 0xE0 then 2 else if first < 0xF0 then 3 else 4
  }

  function PointOf(octets: seq<int>): int {
    if |octets| == 1 then octets[0]
    else if |octets| == 2 then (octets[0] - 0xC0) * 64 + octets[1] - 0x80
    else if |octets| == 3 then (octets[0] - 0xE0) * 4096 + (octets[1] - 0x80) * 64 + octets[2] - 0x80
    else if |octets| == 4 then
      (octets[0] - 0xF0) * 262144 + (octets[1] - 0x80) * 4096 + (octets[2] - 0x80) * 64 + octets[3] - 0x80
    else 0
  }

  lemma Utf8Reads(c: char)
    ensures var octets := Utf8(c); octets != [] && PointOf(octets) == c as int && Width(octets[0]) == |octets|
  {
    var n := c as int;
    assert n == n / 64 * 64 + n % 64;
    assert n / 64 == n / 4096 * 64 + n / 64 % 64;
    assert n / 4096 == n / 262144 * 64 + n / 4096 % 64;
  }

  /** The octets spelled by the first `k` escapes of a string. */
  function Octets(s: string, k: nat): seq<int>
    requires |s| >= 3 * k
  {
    if k == 0 then [] else [DigitValue(s[1]) * 16 + DigitValue(s[2])] + Octets(s[3..], k - 1)
  }

  lemma EscapeReads(octet: int, rest: string)
    requires 0 <= octet < 256
    ensures var s := Escape(octet) + rest;
            |s| == 3 + |rest| && s[3..] == rest && DigitValue(s[1]) * 16 + DigitValue(s[2]) == octet
  {
    DigitReads(octet / 16);
    DigitReads(octet % 16);
  }

  lemma {:induction false} EscapeAllReads(octets: seq<int>, rest: string, k: nat)
    requires forall i | 0 <= i < |octets| :: 0 <= octets[i] < 256
    requires k <= |octets|
    ensures |EscapeAll(octets) + rest| >= 3 * k && Octets(EscapeAll(octets) + rest, k) == octets[..k]
  {
    hide Escape, DigitValue;
    if k > 0 {
      var tail := EscapeAll(octets[1..]) + rest;
      EscapeReads(octets[0], tail);
      EscapeAllReads(octets[1..], rest, k - 1);
      assert EscapeAll(octets) + rest == Escape(octets[0]) + tail;
      assert octets[..k] == [octets[0]] + octets[1..][..k - 1];
    }
  }

  /** Two encoded strings that start alike start with the same character. */
  lemma SameFirstChar(a: char, b: char, restA: string, restB: string)
    requires QuoteChar(a) + restA == QuoteChar(b) + restB
    ensures a == b
  {
    Utf8Reads(a);
    Utf8Reads(b);
    if Unreserved(a) || Unreserved(b) {
      assert (QuoteChar(a) + restA)[0] == QuoteChar(a)[0];
      assert (QuoteChar(b) + restB)[0] == QuoteChar(b)[0];
    } else {
      EscapeAllReads(Utf8(a), restA, 1);
      EscapeAllReads(Utf8(b), restB, 1);
      assert Utf8(a)[..1][0] == Utf8(b)[..1][0];
      EscapeAllReads(Utf8(a), restA, |Utf8(a)|);
      EscapeAllReads(Utf8(b), restB, |Utf8(b)|);
      assert Utf8(a)[..|Utf8(a)|] == Utf8(a) && Utf8(b)[..|Utf8(b)|] == Utf8(b);
    }
  }

  lemma {:induction false} QuoteInjective(a: string, b: string)
    requires Quote(a) == Quote(b)
    ensures a == b
    decreases |a|
  {
    if a != "" {
      QuoteCharNotEmpty(a[0]);
    }
    if b != "" {
      QuoteCharNotEmpty(b[0]);
    }
    if a != "" && b != "" {
      SameFirstChar(a[0], b[0], Quote(a[1..]), Quote(b[1..]));
      assert Quote(a)[|QuoteChar(a[0])|..] == Quote(a[1..]) && Quote(b)[|QuoteChar(b[0])|..] == Quote(b[1..]);
      QuoteInjective(a[1..], b[1..]);
      assert a == [a[0]] + a[1..] && b == [b[0]] + b[1..];
    }
  }

  lemma QuoteCharNotEmpty(c: char)
    ensures QuoteChar(c) != ""
  {
  }

  lemma {:induction false} EscapeAllHasNoColon(octets: seq<int>)
    requires forall i | 0 <= i < |octets| :: 0 <= octets[i] < 256
    ensures NoColon(EscapeAll(octets))
  {
    if octets != [] {
      DigitReads(octets[0] / 16);
      DigitReads(octets[0] % 16);
      EscapeAllHasNoColon(octets[1..]);
    }
  }

  lemma {:induction false} QuoteHasNoColon(s: string)
    ensures NoColon(Quote(s))
  {
    if s != "" {
      EscapeAllHasNoColon(Utf8(s[0]));
      QuoteHasNoColon(s[1..]);
    }
  }
}
