/**
 encodeURIComponent and decodeURIComponent on well-formed Unicode text: percent-encoding of UTF-8
 octets as in section 2.1 of RFC 3986.
 */
module PercentEncoding {
  import opened Wrappers

  predicate Unreserved(c: char) {
    || 'A' <= c <= 'Z'
    || 'a' <= c <= 'z'
    || '0' <= c <= '9'
    || c in {'-', '_', '.', '!', '~', '*', '\'', '(', ')'}
  }

  type Octet = b: nat | b < 256

  function Utf8(code: nat): (octets: seq<Octet>)
    requires code < 0x11_0000
  {
    if code < 0x80 then [code]
    else if code < 0x800 then [0xC0 + code / 64, 0x80 + code % 64]
    else if code < 0x1_0000 then [0xE0 + code / 4096, 0x80 + code / 64 % 64, 0x80 + code % 64]
    else [0xF0 + code / 262144, 0x80 + code / 4096 % 64, 0x80 + code / 64 % 64, 0x80 + code % 64]
  }

  function HexDigit(d: nat): char
    requires d < 16
  {
    if d < 10 then '0' + d as char else 'A' + (d - 10) as char
  }

  function HexValue(c: char): Option<nat> {
    if '0' <= c <= '9' then Some(c as int - '0' as int)
    else if 'A' <= c <= 'F' then Some(c as int - 'A' as int + 10)
    else if 'a' <= c <= 'f' then Some(c as int - 'a' as int + 10)
    else None
  }

  function EncodeOctet(b: Octet): string {
    ['%', HexDigit(b / 16), HexDigit(b % 16)]
  }

  function EncodeOctets(octets: seq<Octet>): string {
    if octets == [] then "" else EncodeOctet(octets[0]) + EncodeOctets(octets[1..])
  }

  function EncodeChar(c: char): string {
    if Unreserved(c) then [c] else EncodeOctets(Utf8(c as int))
  }

  function Encode(s: string): string {
    if s == "" then "" else EncodeChar(s[0]) + Encode(s[1..])
  }

  // ----- decoding

  /** The octet written at the front of s. */
  function ReadOctet(s: string): (b: Option<nat>)
    ensures b.Some? ==> |s| >= 3 && b.value < 256
  {
    if |s| < 3 || s[0] != '%' then None
    else
      var high, low := HexValue(s[1]), HexValue(s[2]);
      if high.None? || low.None? then None else Some(16 * high.value + low.value)
  }

  /** Adds k continuation octets to the code built so far. */
  function ReadMore(s: string, k: nat, code: nat): Option<nat> {
    if k == 0 then Some(code)
    else
      var b := ReadOctet(s);
      if b.None? || !(0x80 <= b.value < 0xC0) then None
      else ReadMore(s[3..], k - 1, code * 64 + (b.value - 0x80))
  }

  /** Number of octets a sequence with this lead octet has; 0 if it cannot lead one. */
  function SequenceLength(lead: nat): nat {
    if lead < 0x80 then 1
    else if 0xC0 <= lead < 0xE0 then 2
    else if 0xE0 <= lead < 0xF0 then 3
    else if 0xF0 <= lead < 0xF8 then 4
    else 0
  }

  function LeadBits(lead: nat, n: nat): nat
    requires SequenceLength(lead) == n
  {
    if n == 2 then lead - 0xC0 else if n == 3 then lead - 0xE0 else if n == 4 then lead - 0xF0 else lead
  }

  /** Shortest forms only, and no surrogates. */
  predicate WellFormed(code: nat, n: nat) {
    && code < 0x11_0000 && !(0xD800 <= code < 0xE000)
    && (n == 2 ==> code >= 0x80) && (n == 3 ==> code >= 0x800) && (n == 4 ==> code >= 0x1_0000)
  }

  /** The character written at the front of s and how many code units it takes. */
  function ReadChar(s: string): (r: Option<(char, nat)>)
    requires s != ""
    ensures r.Some? ==> 0 < r.value.1 <= |s|
  {
    if s[0] != '%' then Some((s[0], 1))
    else
      var lead := ReadOctet(s);
      if lead.None? then None
      else
        var n := SequenceLength(lead.value);
        if n == 0 || |s| < 3 * n then None
        else
          var code := ReadMore(s[3..], n - 1, LeadBits(lead.value, n));
          if code.None? || !WellFormed(code.value, n) then None else Some((code.value as char, 3 * n))
  }

  /** decodeURIComponent; None stands for the URIError it throws. */
  function Decode(s: string): Option<string> {
    if s == "" then Some("")
    else
      var first := ReadChar(s);
      if first.None? then None
      else
        var rest := Decode(s[first.value.1..]);
        if rest.None? then None else Some([first.value.0] + rest.value)
  }

  // ----- decoding undoes encoding

  lemma OctetReadsBack(b: Octet, rest: string)
    ensures ReadOctet(EncodeOctet(b) + rest) == Some(b)
    ensures (EncodeOctet(b) + rest)[3..] == rest
  {
    HexReadsBack(b / 16);
    HexReadsBack(b % 16);
  }

  lemma HexReadsBack(d: nat)
    requires d < 16
    ensures HexValue(HexDigit(d)) == Some(d)
  {
  }

  /** The code a lead value and its continuation octets stand for. */
  function Join(code: nat, more: seq<Octet>): nat
    requires forall i :: 0 <= i < |more| ==> more[i] >= 0x80
    decreases more
  {
    if more == [] then code else Join(code * 64 + (more[0] - 0x80), more[1..])
  }

  lemma {:induction false} MoreReadsBack(more: seq<Octet>, rest: string, code: nat)
    requires forall i :: 0 <= i < |more| ==> 0x80 <= more[i] < 0xC0
    ensures ReadMore(EncodeOctets(more) + rest, |more|, code) == Some(Join(code, more))
    ensures |EncodeOctets(more)| == 3 * |more|
  {
    if more != [] {
      var t := EncodeOctets(more[1..]) + rest;
      assert EncodeOctets(more) + rest == EncodeOctet(more[0]) + t;
      OctetReadsBack(more[0], t);
      MoreReadsBack(more[1..], rest, code * 64 + (more[0] - 0x80));
    }
  }

  /** Splitting a code into its six-bit groups and joining them again. */
  lemma GroupsJoin(code: nat)
    ensures code / 64 * 64 + code % 64 == code
    ensures code / 4096 * 64 + code / 64 % 64 == code / 64
    ensures code / 262144 * 64 + code / 4096 % 64 == code / 4096
  {
  }

  lemma JoinOne(bits: nat, a: Octet)
    requires a >= 0x80
    ensures Join(bits, [a]) == bits * 64 + (a - 0x80)
  {
  }

  lemma JoinTwo(bits: nat, a: Octet, b: Octet)
    requires a >= 0x80 && b >= 0x80
    ensures Join(bits, [a, b]) == (bits * 64 + (a - 0x80)) * 64 + (b - 0x80)
  {
    JoinOne(bits * 64 + (a - 0x80), b);
    assert [a, b][1..] == [b];
  }

  lemma JoinThree(bits: nat, a: Octet, b: Octet, c: Octet)
    requires a >= 0x80 && b >= 0x80 && c >= 0x80
    ensures Join(bits, [a, b, c]) == ((bits * 64 + (a - 0x80)) * 64 + (b - 0x80)) * 64 + (c - 0x80)
  {
    JoinTwo(bits * 64 + (a - 0x80), b, c);
    assert [a, b, c][1..] == [b, c];
  }

  lemma Utf8Joins(code: nat)
    requires code < 0x11_0000
    ensures var o := Utf8(code);
            && SequenceLength(o[0]) == |o|
            && (forall i :: 1 <= i < |o| ==> 0x80 <= o[i] < 0xC0)
            && Join(LeadBits(o[0], |o|), o[1..]) == code
  {
    GroupsJoin(code);
    var o := Utf8(code);
    var bits := LeadBits(o[0], |o|);
    hide Join;
    if |o| == 1 {
      JoinNone(bits);
    } else if |o| == 2 {
      assert o[1..] == [o[1]];
      JoinOne(bits, o[1]);
    } else if |o| == 3 {
      assert o[1..] == [o[1], o[2]];
      JoinTwo(bits, o[1], o[2]);
    } else {
      assert o[1..] == [o[1], o[2], o[3]];
      JoinThree(bits, o[1], o[2], o[3]);
    }
  }

  lemma JoinNone(bits: nat)
    ensures Join(bits, []) == bits
  {
  }

  lemma CharReadsBack(c: char, rest: string)
    ensures ReadChar(EncodeChar(c) + rest) == Some((c, |EncodeChar(c)|))
  {
    hide ReadOctet, ReadMore, EncodeOctet, Join, LeadBits;
    if !Unreserved(c) {
      var o := Utf8(c as int);
      var t := EncodeOctets(o[1..]) + rest;
      Utf8Joins(c as int);
      assert EncodeOctets(o) + rest == EncodeOctet(o[0]) + t;
      OctetReadsBack(o[0], t);
      MoreReadsBack(o[1..], rest, LeadBits(o[0], |o|));
      OctetWidth(o[0]);
    }
  }

  lemma OctetWidth(b: Octet)
    ensures |EncodeOctet(b)| == 3 && EncodeOctet(b)[0] == '%'
  {
  }

  lemma {:induction false} DecodeUndoesEncode(s: string)
    ensures Decode(Encode(s)) == Some(s)
  {
    if s != "" {
      var head, tail := EncodeChar(s[0]), Encode(s[1..]);
      CharReadsBack(s[0], tail);
      assert (head + tail)[|head|..] == tail;
      DecodeUndoesEncode(s[1..]);
      assert [s[0]] + s[1..] == s;
    }
  }

  // ----- what encoded text looks like

  predicate PathSafe(s: string) {
    forall i :: 0 <= i < |s| ==> s[i] != '/' && s[i] != ':' && s[i] != '?' && s[i] != '#' && s[i] != '$'
  }

  lemma {:induction false} OctetsArePathSafe(octets: seq<Octet>)
    ensures PathSafe(EncodeOctets(octets))
    ensures octets != [] ==> EncodeOctets(octets) != ""
  {
    if octets != [] {
      OctetsArePathSafe(octets[1..]);
    }
  }

  /** An encoded id has no slash, colon, question mark, hash or dollar, and is empty only for the empty id. */
  lemma {:induction false} EncodedIsPathSafe(s: string)
    ensures PathSafe(Encode(s)) && (Encode(s) == "" <==> s == "")
  {
    if s != "" {
      if !Unreserved(s[0]) {
        OctetsArePathSafe(Utf8(s[0] as int));
      }
      EncodedIsPathSafe(s[1..]);
    }
  }

  // ----- the forms themselves

  /** Text is encoded character by character. */
  lemma {:induction false} EncodeConcat(a: string, b: string)
    ensures Encode(a + b) == Encode(a) + Encode(b)
  {
    if a == "" {
      assert a + b == b;
    } else {
      assert (a + b)[1..] == a[1..] + b;
      EncodeConcat(a[1..], b);
    }
  }

  /** The code points of the letters, the digits and ! ' ( ) * - . _ ~ */
  predicate StandsForItself(code: int) {
    code in {33, 39, 40, 41, 42, 45, 46, 48, 49, 50, 51, 52, 53, 54, 55, 56, 57, 65, 66, 67, 68, 69, 70, 71, 72,
             73, 74, 75, 76, 77, 78, 79, 80, 81, 82, 83, 84, 85, 86, 87, 88, 89, 90, 95, 97, 98, 99, 100, 101,
             102, 103, 104, 105, 106, 107, 108, 109, 110, 111, 112, 113, 114, 115, 116, 117, 118, 119, 120, 121,
             122, 126}
  }

  lemma UnreservedByCode(c: char)
    ensures Unreserved(c) <==> StandsForItself(c as int)
  {
  }

  /** Letters, digits and nine marks stand for themselves; any other character is written as its UTF-8 octets. */
  lemma EncodedChar(c: char)
    ensures StandsForItself(c as int) ==> Encode([c]) == [c]
    ensures !StandsForItself(c as int) ==>
              Encode([c]) == EncodeOctets(Utf8(c as int)) && |Encode([c])| == 3 * |Utf8(c as int)|
  {
    hide EncodeOctets;
    assert [c][1..] == "";
    assert EncodeChar(c) + "" == EncodeChar(c);
    UnreservedByCode(c);
    TripledLength(Utf8(c as int));
  }

  lemma {:induction false} TripledLength(octets: seq<Octet>)
    ensures |EncodeOctets(octets)| == 3 * |octets|
  {
    if octets != [] {
      TripledLength(octets[1..]);
    }
  }

  /** The octets of a code point, as in section 3 of RFC 3629: a lead octet, then six bits at a time. */
  lemma Utf8One(a: nat)
    requires a < 128
    ensures Utf8(a) == [a]
  {
  }

  lemma Utf8Two(a: nat, b: nat)
    requires 2 <= a < 32 && b < 64
    ensures Utf8(64 * a + b) == [192 + a, 128 + b]
  {
    Split64(a, b);
  }

  lemma Utf8Three(a: nat, b: nat, c: nat)
    requires a < 16 && b < 64 && c < 64 && (a > 0 || b >= 32)
    ensures Utf8(4096 * a + 64 * b + c) == [224 + a, 128 + b, 128 + c]
  {
    Split64(64 * a + b, c);
    Split64(a, b);
    DivideTwice(4096 * a + 64 * b + c);
  }

  lemma Utf8Four(a: nat, b: nat, c: nat, d: nat)
    requires a <= 4 && b < 64 && c < 64 && d < 64 && (a > 0 || b >= 16) && (a == 4 ==> b < 16)
    ensures Utf8(262144 * a + 4096 * b + 64 * c + d) == [240 + a, 128 + b, 128 + c, 128 + d]
  {
    var code := 262144 * a + 4096 * b + 64 * c + d;
    Split64(4096 * a + 64 * b + c, d);
    Split64(64 * a + b, c);
    Split64(a, b);
    DivideTwice(code);
    DivideTwice(code / 64);
  }

  lemma Split64(a: nat, b: nat)
    requires b < 64
    ensures (64 * a + b) / 64 == a && (64 * a + b) % 64 == b
  {
  }

  lemma DivideTwice(n: nat)
    ensures n / 64 / 64 == n / 4096 && n / 64 / 4096 == n / 262144
  {
  }

  /** An octet is a percent sign and two digits, upper case, high half first. */
  lemma OctetDigits(high: nat, low: nat)
    requires high < 16 && low < 16
    ensures EncodeOctet(16 * high + low) == ['%', "0123456789ABCDEF"[high], "0123456789ABCDEF"[low]]
  {
    assert (16 * high + low) / 16 == high && (16 * high + low) % 16 == low;
    DigitByName(high);
    DigitByName(low);
  }

  lemma DigitByName(d: nat)
    requires d < 16
    ensures HexDigit(d) == "0123456789ABCDEF"[d]
  {
  }

  /** Digits may be read in lower case; overlong forms, surrogates, cut-off forms and codes out of range are errors. */
  lemma DecodingExamples()
    ensures Decode("%2f") == Some("/")
    ensures Decode("%C0%AF") == None && Decode("%ED%A0%80") == None && Decode("%E4%B8") == None
    ensures Decode("%F4%90%80%80") == None && Decode("%zz") == None
  {
    LowerCaseIsRead();
    OverlongIsRefused();
    SurrogateIsRefused();
    CutOffIsRefused();
    OutOfRangeIsRefused();
    hide ReadChar;
  }

  lemma LowerCaseIsRead()
    ensures Decode("%2f") == Some("/")
  {
    var s := "%2f";
    assert ReadOctet(s) == Some(0x2F);
    assert ReadMore(s[3..], 0, 0x2F) == Some(0x2F);
    assert ReadChar(s) == Some(('/', 3));
    assert s[3..] == "" && Decode("") == Some("");
    assert ['/'] + "" == "/";
  }

  lemma OverlongIsRefused()
    ensures ReadChar("%C0%AF") == None
  {
    var s := "%C0%AF";
    assert s[3..] == "%AF" && "%AF"[3..] == "";
    assert ReadOctet("%AF") == Some(0xAF);
    assert ReadMore("%AF", 1, 0) == ReadMore("", 0, 0x2F);
  }

  lemma CutOffIsRefused()
    ensures ReadChar("%E4%B8") == None && ReadChar("%zz") == None
  {
  }

  lemma SurrogateIsRefused()
    ensures ReadChar("%ED%A0%80") == None
  {
    var s := "%ED%A0%80";
    assert s[3..] == "%A0%80" && s[3..][3..] == "%80" && s[3..][3..][3..] == "";
    assert ReadOctet("%A0%80") == Some(0xA0) && ReadOctet("%80") == Some(0x80);
    assert ReadMore("%80", 1, 0xD * 64 + 0x20) == ReadMore("", 0, 0xD800);
    assert ReadMore("%A0%80", 2, 0xD) == Some(0xD800);
  }

  lemma OutOfRangeIsRefused()
    ensures ReadChar("%F4%90%80%80") == None
  {
    var s := "%F4%90%80%80";
    assert s[3..] == "%90%80%80" && s[3..][3..] == "%80%80" && s[3..][3..][3..] == "%80";
    assert ReadOctet("%90%80%80") == Some(0x90) && ReadOctet("%80%80") == Some(0x80) && ReadOctet("%80") == Some(0x80);
    assert "%80"[3..] == "" && "%80%80"[3..] == "%80" && "%90%80%80"[3..] == "%80%80";
    assert ReadMore("%80", 1, 0x4400) == ReadMore("", 0, 0x11_0000);
    assert ReadMore("%80%80", 2, 0x110) == ReadMore("%80", 1, 0x4400);
    assert ReadMore("%90%80%80", 3, 4) == ReadMore("%80%80", 2, 0x110);
  }
}
