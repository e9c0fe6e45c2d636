/** Addresses as six decimal numbers, as PORT takes them and PASV gives them (section 4.1.2 of RFC 959). */
module PortCodec {
  import opened Ctype

  // ---------- What an argument says ----------

  function Digit(c: char): nat
    requires IsDigit(c)
  {
    c as nat - '0' as nat
  }

  predicate AllDigits(s: string) {
    forall i :: 0 <= i < |s| ==> IsDigit(s[i])
  }

  /** The value of a string of digits; an empty one is worth 0. */
  function Value(s: string): nat
    requires AllDigits(s)
  {
    if s == "" then 0 else Value(s[..|s| - 1]) * 10 + Digit(s[|s| - 1])
  }

  /** The text without its white space. */
  function Compact(s: string): string {
    if s == "" then ""
    else
      var init, c := Compact(s[..|s| - 1]), s[|s| - 1];
      if IsSpace(c) then init else init + [c]
  }

  /** Fields separated by commas. */
  function JoinFields(fields: seq<string>): string
    requires fields != []
  {
    if |fields| == 1 then fields[0] else JoinFields(fields[..|fields| - 1]) + "," + fields[|fields| - 1]
  }

  predicate AllowedChar(c: char) {
    IsSpace(c) || IsDigit(c) || c == ','
  }

  predicate Allowed(s: string) {
    forall i :: 0 <= i < |s| ==> AllowedChar(s[i])
  }

  /** The fields of an argument that has no other characters in it. */
  function Fields(s: string): (r: seq<string>)
    requires Allowed(s)
    ensures r != [] && forall i :: 0 <= i < |r| ==> AllDigits(r[i])
  {
    if s == "" then [""]
    else
      var before, c := Fields(s[..|s| - 1]), s[|s| - 1];
      if IsSpace(c) then before
      else if c == ',' then before + [""]
      else before[..|before| - 1] + [before[|before| - 1] + [c]]
  }

  /** Up to white space, the argument is its fields with commas between them. */
  lemma {:induction false} FieldsJoin(s: string)
    requires Allowed(s)
    ensures Compact(s) == JoinFields(Fields(s))
  {
    if s != "" {
      var init, c := s[..|s| - 1], s[|s| - 1];
      FieldsJoin(init);
      var before := Fields(init);
      var last := |before| - 1;
      if c == ',' {
        assert (before + [""])[..|before|] == before;
        assert JoinFields(before) + "," + "" == JoinFields(before) + ",";
      } else if !IsSpace(c) {
        assert Fields(s)[..last] == before[..last];
        if last > 0 {
          var front := JoinFields(before[..last]) + ",";
          assert front + before[last] + [c] == front + (before[last] + [c]);
        }
      }
    }
  }

  lemma FieldsStep(s: string, c: char)
    requires Allowed(s) && AllowedChar(c)
    ensures Allowed(s + [c])
    ensures var before := Fields(s);
            Fields(s + [c]) ==
              if IsSpace(c) then before
              else if c == ',' then before + [""]
              else before[..|before| - 1] + [before[|before| - 1] + [c]]
  {
    assert (s + [c])[..|s|] == s;
  }

  function Last(f: seq<string>): string
    requires f != []
  {
    f[|f| - 1]
  }

  function WithLast(f: seq<string>, x: string): (r: seq<string>)
    requires f != []
    ensures r != [] && Last(r) == x
  {
    f[..|f| - 1] + [x]
  }

  lemma WithLastTwice(f: seq<string>, x: string, y: string)
    requires f != []
    ensures WithLast(WithLast(f, x), y) == WithLast(f, y) && WithLast(f, Last(f)) == f
  {
  }

  lemma FieldsDigit(s: string, c: char)
    requires Allowed(s) && IsDigit(c)
    ensures Allowed(s + [c]) && Fields(s + [c]) == WithLast(Fields(s), Last(Fields(s)) + [c])
  {
    FieldsStep(s, c);
  }

  lemma FrontAndLast(s: string, digits: string, init: string, c: char)
    requires digits == init + [c]
    ensures s + init + [c] == s + digits
  {
  }

  /** Appending digits to the last field. */
  lemma {:induction false} FieldsDigits(s: string, digits: string)
    requires Allowed(s) && AllDigits(digits)
    ensures Allowed(s + digits) && Fields(s + digits) == WithLast(Fields(s), Last(Fields(s)) + digits)
    decreases |digits|
  {
    var f := Fields(s);
    if digits == "" {
      assert s + digits == s && Last(f) + digits == Last(f);
      WithLastTwice(f, Last(f), Last(f));
    } else {
      var init, c := digits[..|digits| - 1], digits[|digits| - 1];
      FieldsDigits(s, init);
      FieldsDigit(s + init, c);
      FrontAndLast(s, digits, init, c);
      FrontAndLast(Last(f), digits, init, c);
      WithLastTwice(f, Last(f) + init, Last(f) + digits);
    }
  }

  /** One more field behind a comma. */
  lemma FieldsComma(s: string, digits: string)
    requires Allowed(s) && AllDigits(digits)
    ensures Allowed(s + "," + digits) && Fields(s + "," + digits) == Fields(s) + [digits]
  {
    FieldsStep(s, ',');
    FieldsDigits(s + ",", digits);
    assert Last(Fields(s + ",")) + digits == digits;
  }

  lemma FieldsOne(digits: string)
    requires AllDigits(digits)
    ensures Allowed(digits) && Fields(digits) == [digits]
  {
    FieldsDigits("", digits);
    assert "" + digits == digits;
  }

  predicate AllFields(fields: seq<string>) {
    forall i :: 0 <= i < |fields| ==> AllDigits(fields[i])
  }

  /** Joining fields of digits and taking them apart again gives the same fields. */
  lemma {:induction false} JoinThenFields(fields: seq<string>)
    requires fields != [] && AllFields(fields)
    ensures Allowed(JoinFields(fields)) && Fields(JoinFields(fields)) == fields
    decreases |fields|
  {
    var init, last := fields[..|fields| - 1], fields[|fields| - 1];
    assert AllDigits(last) && fields == init + [last];
    if init == [] {
      FieldsOne(last);
    } else {
      JoinThenFields(init);
      FieldsComma(JoinFields(init), last);
    }
  }

  // ---------- Parsing ----------

  predicate Small(fields: seq<string>, n: nat)
    requires n <= |fields| && forall i :: 0 <= i < |fields| ==> AllDigits(fields[i])
  {
    forall i :: 0 <= i < n ==> Value(fields[i]) <= 255
  }

  /** The argument is six numbers of a byte each. */
  predicate IsAddress(s: string) {
    Allowed(s) && |Fields(s)| == 6 && Small(Fields(s), 6)
  }

  function IpOf(s: string): nat
    requires IsAddress(s)
  {
    var f := Fields(s);
    Word(Value(f[0]), Value(f[1]), Value(f[2]), Value(f[3]))
  }

  function PortOf(s: string): nat
    requires IsAddress(s)
  {
    Value(Fields(s)[4]) * 0x100 + Value(Fields(s)[5])
  }

  /** Four bytes as one word, the first one highest. */
  function Word(b0: nat, b1: nat, b2: nat, b3: nat): nat {
    b0 * 0x100_0000 + b1 * 0x1_0000 + b2 * 0x100 + b3
  }

  /** An address, nothing, or a store past the end of the six bytes. */
  datatype ParsedPort = Address(ip: nat, port: nat) | Malformed | PastEnd

  /** The loop has read `s`: the closed fields are in `bytes`, the open one is worth `segment`. */
  ghost predicate Scanned(s: string, bytes: seq<nat>, digit: nat, segment: nat) {
    && Allowed(s) && |bytes| == 6 && digit == |Fields(s)| - 1 <= 6
    && Small(Fields(s), digit)
    && (forall k :: 0 <= k < digit ==> bytes[k] == Value(Fields(s)[k]))
    && segment == Value(Fields(s)[digit])
  }

  lemma ScannedSpace(s: string, c: char, bytes: seq<nat>, digit: nat, segment: nat)
    requires Scanned(s, bytes, digit, segment) && IsSpace(c)
    ensures Scanned(s + [c], bytes, digit, segment)
  {
    FieldsStep(s, c);
  }

  lemma ScannedDigit(s: string, c: char, bytes: seq<nat>, digit: nat, segment: nat)
    requires Scanned(s, bytes, digit, segment) && IsDigit(c)
    ensures Scanned(s + [c], bytes, digit, segment * 10 + Digit(c))
  {
    FieldsStep(s, c);
    var last := Fields(s)[digit];
    assert (last + [c])[..|last|] == last;
  }

  lemma ScannedComma(s: string, bytes: seq<nat>, digit: nat, segment: nat)
    requires Scanned(s, bytes, digit, segment) && segment <= 255 && digit < 6
    ensures Scanned(s + [','], bytes[digit := segment], digit + 1, 0)
  {
    FieldsStep(s, ',');
  }

  /** Fields that are closed stay as they are, whatever follows. */
  lemma {:induction false} ClosedStay(s: string, more: string)
    requires Allowed(s + more)
    ensures Allowed(s) && |Fields(s)| <= |Fields(s + more)|
    ensures Fields(s)[..|Fields(s)| - 1] <= Fields(s + more)
    decreases |more|
  {
    assert forall i :: 0 <= i < |s| ==> s[i] == (s + more)[i];
    if more == "" {
      assert s + more == s;
    } else {
      var init, c := more[..|more| - 1], more[|more| - 1];
      assert s + more == s + init + [c];
      assert AllowedChar((s + more)[|s + more| - 1]);
      assert forall i :: 0 <= i < |s + init| ==> (s + init)[i] == (s + more)[i];
      ClosedStay(s, init);
      FieldsStep(s + init, c);
    }
  }

  /** A closed field that is too large, or too many fields, and there is no address. */
  lemma NoAddress(s: string, i: nat, bytes: seq<nat>, digit: nat, segment: nat)
    requires i < |s| && Scanned(s[..i], bytes, digit, segment)
    ensures s[i] == ',' && segment > 255 ==> !IsAddress(s)
    ensures digit == 6 ==> !IsAddress(s)
    ensures !AllowedChar(s[i]) ==> !IsAddress(s)
  {
    if Allowed(s) {
      var read, more := s[..i + 1], s[i + 1..];
      assert s == read + more && read == s[..i] + [s[i]] && s == s[..i] + s[i..];
      ClosedStay(read, more);
      ClosedStay(s[..i], s[i..]);
      if s[i] == ',' && segment > 255 {
        FieldsStep(s[..i], ',');
        assert Fields(read)[..|Fields(read)| - 1][digit] == Fields(s)[digit];
      }
    }
  }

  /** Some beginning of the text has six commas, with numbers before them that do not end the parse. */
  ghost predicate SixCommas(s: string) {
    exists n :: 0 <= n <= |s| && SixCommasIn(s[..n])
  }

  predicate SixCommasIn(s: string) {
    Allowed(s) && |Fields(s)| == 7 && Small(Fields(s), 6)
  }

  lemma NotYet(s: string, i: nat)
    requires i <= |s| && Allowed(s[..i]) && |Fields(s[..i])| <= 6
    ensures forall n :: 0 <= n <= i ==> !SixCommasIn(s[..n])
  {
    forall n | 0 <= n <= i && Allowed(s[..n])
      ensures |Fields(s[..n])| <= 6
    {
      assert s[..n] + s[n..i] == s[..i];
      ClosedStay(s[..n], s[n..i]);
    }
  }

  /** Where the parse ends early, six commas are out of reach. */
  lemma NoSixCommas(s: string, i: nat, bytes: seq<nat>, digit: nat, segment: nat)
    requires i < |s| && Scanned(s[..i], bytes, digit, segment) && digit < 6
    requires !AllowedChar(s[i]) || (s[i] == ',' && segment > 255)
    ensures !SixCommas(s)
  {
    NotYet(s, i);
    forall n | i < n <= |s| && Allowed(s[..n])
      ensures !SixCommasIn(s[..n])
    {
      var read := s[..i + 1];
      assert s[..n][i] == s[i];
      assert read == s[..i] + [s[i]] && s[..n] == read + s[i + 1..n];
      FieldsStep(s[..i], ',');
      ClosedStay(read, s[i + 1..n]);
      assert Fields(read)[..|Fields(read)| - 1][digit] == Fields(s[..n])[digit];
    }
  }

  /** Reads one character; a wrong one, or a comma after too large a number, ends the parse. */
  method ScanChar(c: char, bytes: seq<nat>, digit: nat, segment: nat, ghost s: string, ghost i: nat)
    returns (ok: bool, bytes': seq<nat>, digit': nat, segment': nat)
    requires i < |s| && c == s[i] && Scanned(s[..i], bytes, digit, segment) && digit < 6
    ensures ok ==> Scanned(s[..i + 1], bytes', digit', segment')
    ensures !ok ==> !IsAddress(s) && !SixCommas(s)
  {
    assert s[..i + 1] == s[..i] + [s[i]];
    ok, bytes', digit', segment' := true, bytes, digit, segment;
    if IsSpace(c) {
      ScannedSpace(s[..i], c, bytes, digit, segment);
    } else if IsDigit(c) {
      ScannedDigit(s[..i], c, bytes, digit, segment);
      segment' := segment * 10 + Digit(c);
    } else if c != ',' || segment > 255 {
      NoAddress(s, i, bytes, digit, segment);
      NoSixCommas(s, i, bytes, digit, segment);
      ok := false;
    } else {
      ScannedComma(s[..i], bytes, digit, segment);
      bytes' := bytes[digit := segment];
      digit' := digit + 1;
      segment' := 0;
    }
  }

  /** What the whole argument comes to. */
  lemma ScanEnd(s: string, bytes: seq<nat>, digit: nat, segment: nat)
    requires Scanned(s, bytes, digit, segment)
    ensures IsAddress(s) <==> digit == 5 && segment <= 255
    ensures IsAddress(s) ==>
      IpOf(s) == Word(bytes[0], bytes[1], bytes[2], bytes[3]) && PortOf(s) == bytes[4] * 0x100 + segment
  {
  }

  /**
   * Parses the argument of PORT. An address comes out exactly when there are six numbers of at most 255 between
   * five commas; white space does not count, and a missing number is 0. Six commas store past the end.
   */
  method ParsePortArgs(str: array<char>, ghost s: string) returns (r: ParsedPort)
    requires Holds(str, s)
    ensures r.Address? <==> IsAddress(s)
    ensures r.Address? ==> r.ip == IpOf(s) && r.port == PortOf(s)
    ensures r.PastEnd? <==> SixCommas(s)
  {
    var bytes: seq<nat>, segment: nat, digit: nat := [0, 0, 0, 0, 0, 0], 0, 0;
    var i := 0;
    assert s[..0] == "";
    while str[i] != NUL && digit < 6
      invariant i <= |s| && Scanned(s[..i], bytes, digit, segment)
      decreases |s| - i
    {
      HeldChar(str, s, i);
      var ok;
      ok, bytes, digit, segment := ScanChar(str[i], bytes, digit, segment, s, i);
      if !ok {
        return Malformed;
      }
      i := i + 1;
    }
    HeldChar(str, s, i);
    if digit == 6 {
      TooMany(s, i, bytes, segment);
      return PastEnd;
    }
    assert s[..i] == s;
    ScanEnd(s, bytes, digit, segment);
    NotYet(s, i);
    bytes := bytes[digit := segment];
    if digit != 5 || segment > 255 {
      return Malformed;
    }
    r := Address(Word(bytes[0], bytes[1], bytes[2], bytes[3]), bytes[4] * 0x100 + bytes[5]);
  }

  lemma TooMany(s: string, i: nat, bytes: seq<nat>, segment: nat)
    requires i <= |s| && Scanned(s[..i], bytes, 6, segment)
    ensures !IsAddress(s) && SixCommas(s)
  {
    if Allowed(s) {
      assert s == s[..i] + s[i..];
      ClosedStay(s[..i], s[i..]);
    }
  }

  // ---------- Numbers as they are written ----------

  /** Up to three digits. */
  function Number(s: string): int
    requires |s| <= 3
  {
    if s == "" then 0
    else if |s| == 1 then s[0] as int - 48
    else if |s| == 2 then 10 * (s[0] as int - 48) + (s[1] as int - 48)
    else 100 * (s[0] as int - 48) + 10 * (s[1] as int - 48) + (s[2] as int - 48)
  }

  lemma {:induction false} ValueIsNumber(s: string)
    requires AllDigits(s) && |s| <= 3
    ensures Value(s) == Number(s)
  {
    if s != "" {
      ValueIsNumber(s[..|s| - 1]);
    }
  }

  /** Six numbers with commas between them, each of up to three digits, are an address if none is above 255. */
  lemma SixNumbers(f: seq<string>)
    requires |f| == 6 && forall i :: 0 <= i < 6 ==> AllDigits(f[i]) && |f[i]| <= 3
    ensures var s := f[0] + "," + f[1] + "," + f[2] + "," + f[3] + "," + f[4] + "," + f[5];
            && (IsAddress(s) <==> forall i :: 0 <= i < 6 ==> Number(f[i]) <= 255)
            && (IsAddress(s) ==>
                  && IpOf(s) == 16777216 * Number(f[0]) + 65536 * Number(f[1]) + 256 * Number(f[2]) + Number(f[3])
                  && PortOf(s) == 256 * Number(f[4]) + Number(f[5]))
  {
    JoinSix(f);
    JoinThenFields(f);
    forall i | 0 <= i < 6
      ensures Value(f[i]) == Number(f[i])
    {
      ValueIsNumber(f[i]);
    }
  }

  lemma JoinSix(f: seq<string>)
    requires |f| == 6
    ensures JoinFields(f) == f[0] + "," + f[1] + "," + f[2] + "," + f[3] + "," + f[4] + "," + f[5]
  {
    assert JoinFields(f[..1]) == f[0];
    assert f[..2][..1] == f[..1] && f[..3][..2] == f[..2] && f[..4][..3] == f[..3] && f[..5][..4] == f[..4];
    assert JoinFields(f[..2]) == f[0] + "," + f[1];
    assert JoinFields(f[..3]) == JoinFields(f[..2]) + "," + f[2];
    assert JoinFields(f[..4]) == JoinFields(f[..3]) + "," + f[3];
    assert JoinFields(f[..5]) == JoinFields(f[..4]) + "," + f[4];
  }

  // ---------- Formatting ----------

  function DigitChar(d: nat): (c: char)
    requires d < 10
    ensures IsDigit(c) && Digit(c) == d
  {
    ('0' as nat + d) as char
  }

  function Decimal(n: nat): (s: string)
    ensures s != "" && AllDigits(s)
  {
    if n < 10 then [DigitChar(n)] else Decimal(n / 10) + [DigitChar(n % 10)]
  }

  lemma {:induction false} DecimalValue(n: nat)
    ensures Value(Decimal(n)) == n
  {
    var s := Decimal(n);
    if n < 10 {
      assert s[..0] == "";
    } else {
      DecimalValue(n / 10);
      assert s[..|s| - 1] == Decimal(n / 10);
    }
  }

  /** The bytes of an address, as PASV takes them apart. */
  function AddressBytes(ip: nat, port: nat): (r: seq<nat>)
    ensures |r| == 6 && forall i :: 0 <= i < 6 ==> r[i] <= 255
  {
    [ip / 0x100_0000 % 0x100, ip / 0x1_0000 % 0x100, ip / 0x100 % 0x100, ip % 0x100, port / 0x100 % 0x100, port % 0x100]
  }

  function DecimalFields(bytes: seq<nat>): (r: seq<string>)
    ensures |r| == |bytes| && forall i :: 0 <= i < |r| ==> r[i] == Decimal(bytes[i])
  {
    if bytes == [] then [] else DecimalFields(bytes[..|bytes| - 1]) + [Decimal(bytes[|bytes| - 1])]
  }

  function FormatAddress(ip: nat, port: nat): string {
    JoinFields(DecimalFields(AddressBytes(ip, port)))
  }

  lemma WordBytes(b0: nat, b1: nat, b2: nat, b3: nat)
    requires b0 < 0x100 && b1 < 0x100 && b2 < 0x100 && b3 < 0x100
    ensures var ip := Word(b0, b1, b2, b3);
            && ip / 0x100_0000 % 0x100 == b0 && ip / 0x1_0000 % 0x100 == b1
            && ip / 0x100 % 0x100 == b2 && ip % 0x100 == b3
  {
    var ip := Word(b0, b1, b2, b3);
    assert ip / 0x100_0000 == b0;
    assert ip / 0x1_0000 == b0 * 0x100 + b1;
    assert ip / 0x100 == b0 * 0x1_0000 + b1 * 0x100 + b2;
  }

  /** Taking an address apart and putting it together again. */
  lemma BytesMakeAddress(ip: nat, port: nat)
    requires ip < 0x1_0000_0000 && port < 0x1_0000
    ensures MakesAddress(AddressBytes(ip, port), ip, port)
  {
    var b0, b1, b2, b3 := SplitWord(ip);
    WordBytes(b0, b1, b2, b3);
    PortBytes(port);
  }

  lemma SplitWord(ip: nat) returns (b0: nat, b1: nat, b2: nat, b3: nat)
    requires ip < 0x1_0000_0000
    ensures b0 < 0x100 && b1 < 0x100 && b2 < 0x100 && b3 < 0x100 && ip == Word(b0, b1, b2, b3)
  {
    var q1, q2;
    q1, b3 := SplitByte(ip);
    q2, b2 := SplitByte(q1);
    b0, b1 := SplitByte(q2);
  }

  lemma SplitByte(x: nat) returns (q: nat, r: nat)
    ensures x == q * 0x100 + r && r < 0x100
  {
    q, r := x / 0x100, x % 0x100;
  }

  lemma PortBytes(port: nat)
    requires port < 0x1_0000
    ensures port / 0x100 % 0x100 * 0x100 + port % 0x100 == port
  {
    assert port / 0x100 < 0x100;
  }

  predicate MakesAddress(bytes: seq<nat>, ip: nat, port: nat) {
    && |bytes| == 6 && (forall i :: 0 <= i < 6 ==> bytes[i] <= 255)
    && Word(bytes[0], bytes[1], bytes[2], bytes[3]) == ip && bytes[4] * 0x100 + bytes[5] == port
  }

  lemma BytesRoundTrip(bytes: seq<nat>, ip: nat, port: nat)
    requires MakesAddress(bytes, ip, port)
    ensures var s := JoinFields(DecimalFields(bytes)); IsAddress(s) && IpOf(s) == ip && PortOf(s) == port
  {
    var fields := DecimalFields(bytes);
    JoinThenFields(fields);
    forall i | 0 <= i < 6
      ensures Value(fields[i]) == bytes[i]
    {
      DecimalValue(bytes[i]);
    }
  }

  /** What PASV formats, PORT understands: every address comes back. */
  lemma AddressRoundTrip(ip: nat, port: nat)
    requires ip < 0x1_0000_0000 && port < 0x1_0000
    ensures var s := FormatAddress(ip, port); IsAddress(s) && IpOf(s) == ip && PortOf(s) == port
  {
    BytesMakeAddress(ip, port);
    BytesRoundTrip(AddressBytes(ip, port), ip, port);
  }

  /** PORT goes on with an address of which neither part is 0. */
  method DoPort(args: array<char>, ghost s: string) returns (accepted: bool, ip: nat, port: nat)
    requires Holds(args, s)
    ensures accepted <==> IsAddress(s) && IpOf(s) != 0 && PortOf(s) != 0
    ensures accepted ==> ip == IpOf(s) && port == PortOf(s)
  {
    ip, port := 0, 0;
    var r := ParsePortArgs(args, s);
    if r.Address? {
      ip, port := r.ip, r.port;
    }
    accepted := ip != 0 && port != 0;
  }
}
