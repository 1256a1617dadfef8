/** The stored-hash string "$pbkdf2-sha256$<iterations>$<hex salt>$<hex key>": printing, parsing and
    verifying (libs/identity/src/AuthService.cc). */
module PasswordHash {
  import opened Options

  type Bytes = seq<bv8>

  const ITERATIONS := 310000
  const KEY_LENGTH := 32
  const SALT_LENGTH := 16
  const MAX_INT := 0x7fff_ffff
  const SCHEME := "pbkdf2-sha256"

  /** The key derivation the crypto provider supplies. */
  type Kdf = (string, Bytes, int, nat) -> Bytes

  // ---------- Hex ----------

  function HexDigit(n: bv8): (c: char)
    requires n < 16
  {
    if n == 0 then '0' else if n == 1 then '1' else if n == 2 then '2' else if n == 3 then '3'
    else if n == 4 then '4' else if n == 5 then '5' else if n == 6 then '6' else if n == 7 then '7'
    else if n == 8 then '8' else if n == 9 then '9' else if n == 10 then 'a' else if n == 11 then 'b'
    else if n == 12 then 'c' else if n == 13 then 'd' else if n == 14 then 'e' else 'f'
  }

  /** Upper case is read too; anything that is not a hex digit reads as zero. */
  function Nibble(c: char): (n: bv8)
  {
    match c
    case '1' => 1 case '2' => 2 case '3' => 3 case '4' => 4 case '5' => 5
    case '6' => 6 case '7' => 7 case '8' => 8 case '9' => 9
    case 'a' => 10 case 'b' => 11 case 'c' => 12 case 'd' => 13 case 'e' => 14 case 'f' => 15
    case 'A' => 10 case 'B' => 11 case 'C' => 12 case 'D' => 13 case 'E' => 14 case 'F' => 15
    case _ => 0
  }

  lemma NibbleOfDigit(n: bv8)
    requires n < 16
    ensures Nibble(HexDigit(n)) == n && HexDigit(n) != '$'
  {
  }

  lemma TwoNibbles(b: bv8)
    ensures b >> 4 < 16 && b & 0x0F < 16 && ((b >> 4) << 4) | (b & 0x0F) == b
  {
  }

  function ToHex(bytes: Bytes): (hex: string)
  {
    if bytes == [] then []
    else
      TwoNibbles(bytes[0]);
      [HexDigit(bytes[0] >> 4), HexDigit(bytes[0] & 0x0F)] + ToHex(bytes[1..])
  }

  function FromHex(hex: string): (bytes: Bytes)
  {
    if |hex| < 2 then [] else [(Nibble(hex[0]) << 4) | Nibble(hex[1])] + FromHex(hex[2..])
  }

  lemma {:induction false} ToHexStep(data: Bytes, i: nat)
    requires i < |data|
    ensures data[i] >> 4 < 16 && data[i] & 0x0F < 16
    ensures ToHex(data[i..]) == [HexDigit(data[i] >> 4), HexDigit(data[i] & 0x0F)] + ToHex(data[i + 1..])
  {
    TwoNibbles(data[i]);
    hide HexDigit;
    assert data[i..][1..] == data[i + 1..];
  }

  method BytesToHex(data: Bytes) returns (hex: string)
    ensures hex == ToHex(data)
  {
    hex := [];
    assert data[0..] == data && data[|data|..] == [];
    for i := 0 to |data|
      invariant hex + ToHex(data[i..]) == ToHex(data)
    {
      hide HexDigit, ToHex;
      ToHexStep(data, i);
      var pair := [HexDigit(data[i] >> 4), HexDigit(data[i] & 0x0F)];
      assert hex + (pair + ToHex(data[i + 1..])) == (hex + pair) + ToHex(data[i + 1..]);
      hex := hex + pair;
    }
  }

  lemma {:induction false} FromHexStep(hex: string, i: nat)
    requires i + 1 < |hex|
    ensures FromHex(hex[i..]) == [(Nibble(hex[i]) << 4) | Nibble(hex[i + 1])] + FromHex(hex[i + 2..])
  {
    hide Nibble;
    assert hex[i..][2..] == hex[i + 2..];
  }

  method HexToBytes(hex: string) returns (bytes: Bytes)
    ensures bytes == FromHex(hex)
  {
    bytes := [];
    var i := 0;
    assert hex[0..] == hex;
    while i + 1 < |hex|
      invariant i <= |hex|
      invariant bytes + FromHex(hex[i..]) == FromHex(hex)
    {
      hide Nibble, FromHex;
      FromHexStep(hex, i);
      var b := (Nibble(hex[i]) << 4) | Nibble(hex[i + 1]);
      assert bytes + ([b] + FromHex(hex[i + 2..])) == (bytes + [b]) + FromHex(hex[i + 2..]);
      bytes, i := bytes + [b], i + 2;
    }
    hide Nibble;
    assert FromHex(hex[i..]) == [];
  }

  /** Hex is read back to the bytes it was printed from, and holds no separator. */
  lemma {:induction false} HexRoundTrip(bytes: Bytes)
    ensures FromHex(ToHex(bytes)) == bytes
    ensures |ToHex(bytes)| == 2 * |bytes| && '$' !in ToHex(bytes)
  {
    hide *;
    HexLength(bytes);
    if bytes == [] {
      NoHex();
    } else {
      HexRoundTrip(bytes[1..]);
      HexHead(bytes);
      assert bytes == [bytes[0]] + bytes[1..];
    }
  }

  lemma NoHex()
    ensures ToHex([]) == [] && FromHex([]) == []
  {
  }

  lemma {:induction false} HexHead(bytes: Bytes)
    requires bytes != [] && '$' !in ToHex(bytes[1..])
    ensures FromHex(ToHex(bytes)) == [bytes[0]] + FromHex(ToHex(bytes[1..])) && '$' !in ToHex(bytes)
  {
    ToHexStep(bytes, 0);
    hide *;
    assert bytes[0..] == bytes;
    OneByte(bytes[0], ToHex(bytes[1..]));
  }

  lemma {:induction false} OneByte(b: bv8, rest: string)
    requires '$' !in rest
    ensures b >> 4 < 16 && b & 0x0F < 16
    ensures var hex := [HexDigit(b >> 4), HexDigit(b & 0x0F)] + rest; FromHex(hex) == [b] + FromHex(rest) && '$' !in hex
  {
    TwoNibbles(b);
    NibbleOfDigit(b >> 4);
    NibbleOfDigit(b & 0x0F);
    hide *;
    var hex := [HexDigit(b >> 4), HexDigit(b & 0x0F)] + rest;
    FromHexStep(hex, 0);
    assert hex[0..] == hex && hex[2..] == rest;
  }

  const LOWER := "0123456789abcdef"
  const UPPER := "0123456789ABCDEF"

  /** The digits are the sixteen of lower-case hex, and upper case reads alike. */
  lemma HexDigits(n: bv8)
    requires n < 16
    ensures n as int < 16 && HexDigit(n) == LOWER[n as int] && Nibble(LOWER[n as int]) == n && Nibble(UPPER[n as int]) == n
  {
  }

  /** Anything else reads as zero. */
  lemma OtherReadsZero(c: char)
    requires c !in LOWER && c !in UPPER
    ensures Nibble(c) == 0
  {
  }

  lemma {:induction false} HexLength(bytes: Bytes)
    ensures |ToHex(bytes)| == 2 * |bytes|
  {
    if bytes != [] {
      ToHexStep(bytes, 0);
      assert bytes[0..] == bytes;
      hide *;
      HexLength(bytes[1..]);
    }
  }

  /** Byte k is printed as its two nibbles, high one first. */
  lemma {:induction false} HexAt(bytes: Bytes, k: nat)
    requires k < |bytes|
    ensures |ToHex(bytes)| == 2 * |bytes|
    ensures bytes[k] >> 4 < 16 && bytes[k] & 0x0F < 16
    ensures ToHex(bytes)[2 * k] == HexDigit(bytes[k] >> 4) && ToHex(bytes)[2 * k + 1] == HexDigit(bytes[k] & 0x0F)
  {
    ToHexStep(bytes, k);
    HexAfter(bytes, k);
    HexLength(bytes);
    hide *;
    assert ToHex(bytes)[2 * k..][0] == ToHex(bytes)[2 * k];
    assert ToHex(bytes)[2 * k..][1] == ToHex(bytes)[2 * k + 1];
  }

  lemma AfterPair(pair: string, rest: string, n: nat)
    requires |pair| == 2 && n <= |rest|
    ensures (pair + rest)[n + 2..] == rest[n..]
  {
  }

  lemma {:induction false} HexAfter(bytes: Bytes, k: nat)
    requires k <= |bytes|
    ensures 2 * k <= |ToHex(bytes)| && ToHex(bytes)[2 * k..] == ToHex(bytes[k..])
  {
    HexLength(bytes);
    if k == 0 {
      assert bytes[0..] == bytes;
    } else {
      ToHexStep(bytes, 0);
      assert bytes[0..] == bytes && bytes[1..][k - 1..] == bytes[k..];
      hide *;
      HexAfter(bytes[1..], k - 1);
      AfterPair([HexDigit(bytes[0] >> 4), HexDigit(bytes[0] & 0x0F)], ToHex(bytes[1..]), 2 * (k - 1));
    }
  }

  // ---------- Decimal ----------

  predicate IsDigit(c: char) { '0' <= c <= '9' }

  function Digit(n: nat): (c: char)
    requires n < 10
    ensures IsDigit(c) && c as int - '0' as int == n
  {
    '0' + n as char
  }

  /** std::to_string. */
  function Decimal(n: nat): (s: string) { if n < 10 then [Digit(n)] else Decimal(n / 10) + [Digit(n % 10)] }

  function DigitRun(s: string): (n: nat)
    ensures n <= |s| && forall i :: 0 <= i < n ==> IsDigit(s[i])
  {
    if s != [] && IsDigit(s[0]) then 1 + DigitRun(s[1..]) else 0
  }

  function Number(s: string): (n: int)
    requires forall i :: 0 <= i < |s| ==> IsDigit(s[i])
  {
    if s == [] then 0 else 10 * Number(s[..|s| - 1]) + (s[|s| - 1] as int - '0' as int)
  }

  predicate IsBlank(c: char) { c == ' ' || '\t' <= c <= '\r' }

  function SkipBlanks(s: string): (r: string) { if s != [] && IsBlank(s[0]) then SkipBlanks(s[1..]) else s }

  /** std::stoi: blanks, a sign, then the leading digits; an exception if there are none or the
      value is out of range. */
  function Stoi(s: string): (r: Option<int>)
  {
    var t := SkipBlanks(s);
    var signed := t != [] && t[0] in "+-";
    var digits := if signed then t[1..] else t;
    var n := DigitRun(digits);
    if n == 0 then None
    else
      var v: int := if signed && t[0] == '-' then -Number(digits[..n]) else Number(digits[..n]);
      if -MAX_INT - 1 <= v <= MAX_INT then Some(v) else None
  }

  lemma {:induction false} DecimalIsNumber(n: nat)
    ensures var s := Decimal(n);
      s != [] && (forall i :: 0 <= i < |s| ==> IsDigit(s[i])) && Number(s) == n
  {
    if n >= 10 {
      DecimalIsNumber(n / 10);
      assert Decimal(n)[..|Decimal(n)| - 1] == Decimal(n / 10);
    } else {
      assert Number([]) == 0;
    }
  }

  lemma {:induction false} AllDigits(s: string)
    requires forall i :: 0 <= i < |s| ==> IsDigit(s[i])
    ensures DigitRun(s) == |s|
  {
    if s != [] { AllDigits(s[1..]); }
  }

  /** An int is read back as it was printed, without separators. */
  lemma {:induction false} DecimalRoundTrip(n: nat)
    requires n <= MAX_INT
    ensures Stoi(Decimal(n)) == Some(n) && Decimal(n) != [] && '$' !in Decimal(n)
  {
    var s := Decimal(n);
    DecimalIsNumber(n);
    AllDigits(s);
    assert IsDigit(s[0]);
    assert s[..|s|] == s;
    hide Decimal;
  }

  /** The last digit counts ones, what is before it tens: Number is the usual positional value. */
  lemma {:induction false} NumberOf(s: string, c: char)
    requires (forall i :: 0 <= i < |s| ==> IsDigit(s[i])) && IsDigit(c)
    ensures Number(s + [c]) == 10 * Number(s) + (c as int - '0' as int)
  {
    assert (s + [c])[..|s|] == s;
  }

  /** stoi reads past leading blanks and a sign, and stops at the first character that is no digit. */
  lemma {:induction false} StoiReads(blanks: string, sign: string, digits: string, rest: string)
    requires forall i :: 0 <= i < |blanks| ==> IsBlank(blanks[i])
    requires sign in ["", "+", "-"] && digits != "" && forall i :: 0 <= i < |digits| ==> IsDigit(digits[i])
    requires rest == "" || !IsDigit(rest[0])
    ensures var v := if sign == "-" then -Number(digits) else Number(digits);
      Stoi(blanks + (sign + (digits + rest))) == if -MAX_INT - 1 <= v <= MAX_INT then Some(v) else None
  {
    var t := sign + (digits + rest);
    hide SkipBlanks, DigitRun, Number, Stoi;
    SkipsBlanks(blanks, t);
    DigitsThen(digits, rest);
    SignThen(sign, digits, rest);
    StoiOf(blanks + t, t, sign != "", digits, rest);
  }

  lemma SignThen(sign: string, digits: string, rest: string)
    requires sign in ["", "+", "-"] && digits != "" && IsDigit(digits[0])
    ensures var t := sign + (digits + rest); var signed := t[0] in "+-";
      && signed == (sign != "") && (if signed then t[1..] else t) == digits + rest
      && (signed && t[0] == '-' <==> sign == "-")
  {
    var t := sign + (digits + rest);
    if sign == "" { assert t == digits + rest; } else { assert t[1..] == digits + rest && t[0] == sign[0]; }
  }

  lemma StoiOf(s: string, t: string, signed: bool, digits: string, rest: string)
    requires SkipBlanks(s) == t && t != [] && signed == (t[0] in "+-") && (if signed then t[1..] else t) == digits + rest
    requires digits != "" && (forall i :: 0 <= i < |digits| ==> IsDigit(digits[i])) && DigitRun(digits + rest) == |digits|
    ensures var v: int := if signed && t[0] == '-' then -Number(digits) else Number(digits);
      Stoi(s) == if -MAX_INT - 1 <= v <= MAX_INT then Some(v) else None
  {
    hide SkipBlanks, DigitRun, Number;
    assert (digits + rest)[..|digits|] == digits;
  }

  lemma {:induction false} SkipsBlanks(blanks: string, t: string)
    requires (forall i :: 0 <= i < |blanks| ==> IsBlank(blanks[i])) && t != "" && !IsBlank(t[0])
    ensures SkipBlanks(blanks + t) == t
  {
    if blanks == "" {
      assert blanks + t == t;
    } else {
      assert (blanks + t)[1..] == blanks[1..] + t;
      SkipsBlanks(blanks[1..], t);
    }
  }

  lemma {:induction false} DigitsThen(digits: string, rest: string)
    requires (forall i :: 0 <= i < |digits| ==> IsDigit(digits[i])) && (rest == "" || !IsDigit(rest[0]))
    ensures DigitRun(digits + rest) == |digits|
  {
    if digits == "" {
      assert digits + rest == rest;
    } else {
      assert (digits + rest)[1..] == digits[1..] + rest;
      DigitsThen(digits[1..], rest);
    }
  }

  // ---------- The '$' fields ----------

  function FieldLength(s: string): (n: nat)
    ensures n <= |s| && (n < |s| ==> s[n] == '$')
  {
    if s == [] || s[0] == '$' then 0 else 1 + FieldLength(s[1..])
  }

  function Kept(token: string): (parts: seq<string>) { if token == [] then [] else [token] }

  /** getline on '$', keeping the tokens that are not empty. */
  function Fields(s: string): (parts: seq<string>)
    decreases |s|
  {
    if s == [] then []
    else
      var n := FieldLength(s);
      Kept(s[..n]) + Fields(s[if n < |s| then n + 1 else n..])
  }

  lemma {:induction false} WholeAndNothing(s: string)
    ensures s[0..] == s && Fields(s[|s|..]) == []
  {
  }

  method FieldEnd(s: string, start: nat) returns (i: nat)
    requires start <= |s|
    ensures start <= i <= |s| && FieldLength(s[start..]) == i - start
  {
    i := start;
    while i < |s| && s[i] != '$'
      invariant start <= i <= |s|
      invariant i - start + FieldLength(s[i..]) == FieldLength(s[start..])
    {
      assert s[i..][1..] == s[i + 1..];
      i := i + 1;
    }
  }

  method SplitFields(s: string) returns (parts: seq<string>)
    ensures parts == Fields(s)
  {
    hide *;
    parts := [];
    var i := 0;
    WholeAndNothing(s);
    while i < |s|
      invariant i <= |s|
      invariant parts + Fields(s[i..]) == Fields(s)
    {
      hide *;
      var end := FieldEnd(s, i);
      var token := s[i..end];
      var kept := Kept(token);
      var next := if end < |s| then end + 1 else end;
      NextField(s, i, end);
      assert parts + (kept + Fields(s[next..])) == (parts + kept) + Fields(s[next..]);
      parts, i := parts + kept, next;
    }
  }

  lemma {:induction false} NextField(s: string, start: nat, i: nat)
    requires start <= i <= |s| && start < |s| && FieldLength(s[start..]) == i - start
    ensures Fields(s[start..]) == Kept(s[start..i]) + Fields(s[if i < |s| then i + 1 else i..])
  {
    hide *;
    var t, n := s[start..], i - start;
    var m := if n < |t| then n + 1 else n;
    FieldsUnfold(t);
    assert t[..n] == s[start..i];
    assert t[m..] == s[start + m..];
  }

  lemma {:induction false} FieldsUnfold(t: string)
    requires t != []
    ensures var n := FieldLength(t); Fields(t) == Kept(t[..n]) + Fields(t[if n < |t| then n + 1 else n..])
  {
    hide Kept, FieldLength;
  }

  lemma {:induction false} FieldLengthOf(part: string, rest: string)
    requires '$' !in part && (rest == [] || rest[0] == '$')
    ensures FieldLength(part + rest) == |part|
  {
    if part != [] {
      assert (part + rest)[1..] == part[1..] + rest;
      FieldLengthOf(part[1..], rest);
    } else {
      assert part + rest == rest;
    }
  }

  /** Putting '$' before a field adds it in front. */
  lemma {:induction false} FieldsOf(part: string, rest: string)
    requires part != [] && '$' !in part && (rest == [] || rest[0] == '$')
    ensures Fields(Field(part, rest)) == [part] + Fields(rest)
    ensures Field(part, rest) != [] && Field(part, rest)[0] == '$'
  {
    var s, t := "$" + (part + rest), part + rest;
    assert s[1..] == t;
    assert Fields(s) == Fields(t);
    FieldLengthOf(part, rest);
    assert t[..|part|] == part;
    if rest != [] {
      assert t[|part| + 1..] == rest[1..];
      assert Fields(rest) == Fields(rest[1..]);
    }
  }

  // ---------- Hash and verify ----------

  predicate IsLegacy(stored: string) { !("$" + SCHEME + "$" <= stored) }

  function Field(part: string, rest: string): (s: string) { "$" + (part + rest) }

  function Printed(scheme: string, iterations: string, salt: string, key: string): (s: string)
  {
    Field(scheme, Field(iterations, Field(salt, Field(key, []))))
  }

  /** hashPassword, given the salt drawn; None for the exception on a key of the wrong size. */
  function Hash(password: string, salt: Bytes, kdf: Kdf): (r: Option<string>)
  {
    var derived := kdf(password, salt, ITERATIONS, KEY_LENGTH);
    if |derived| != KEY_LENGTH then None
    else Some(Printed(SCHEME, Decimal(ITERATIONS), ToHex(salt), ToHex(derived)))
  }

  method HashPassword(password: string, salt: Bytes, kdf: Kdf) returns (r: Option<string>)
    ensures r == Hash(password, salt, kdf)
  {
    var derived := kdf(password, salt, ITERATIONS, KEY_LENGTH);
    if |derived| != KEY_LENGTH { return None; }
    var hexSalt := BytesToHex(salt);
    var hexKey := BytesToHex(derived);
    return Some(Printed(SCHEME, Decimal(ITERATIONS), hexSalt, hexKey));
  }

  /** The comparison loop: the or of all xors is zero exactly when the bytes are equal. */
  method SameBytes(a: Bytes, b: Bytes) returns (same: bool)
    ensures same == (a == b)
  {
    if |a| != |b| { return false; }
    var diff: bv8 := 0;
    for i := 0 to |a|
      invariant diff == 0 <==> a[..i] == b[..i]
    {
      XorIsZero(diff, a[i], b[i]);
      assert a[..i + 1] == a[..i] + [a[i]] && b[..i + 1] == b[..i] + [b[i]];
      diff := diff | (a[i] ^ b[i]);
    }
    assert a[..|a|] == a && b[..|b|] == b;
    return diff == 0;
  }

  lemma XorIsZero(d: bv8, x: bv8, y: bv8)
    ensures d | (x ^ y) == 0 <==> d == 0 && x == y
  {
  }

  /** What verifyPassword accepts when the stored string is not a legacy digest. */
  predicate Accepts(password: string, stored: string, kdf: Kdf)
  {
    var parts := Fields(stored);
    && |parts| == 4 && Stoi(parts[1]).Some?
    && kdf(password, FromHex(parts[2]), Stoi(parts[1]).value, KEY_LENGTH) == FromHex(parts[3])
  }

  method VerifyPbkdf2(password: string, stored: string, kdf: Kdf) returns (ok: bool)
    ensures ok == Accepts(password, stored, kdf)
  {
    var parts := SplitFields(stored);
    if |parts| != 4 { return false; }
    var iterations := Stoi(parts[1]);
    if iterations.None? { return false; }
    var salt := HexToBytes(parts[2]);
    var expected := HexToBytes(parts[3]);
    var derived := kdf(password, salt, iterations.value, KEY_LENGTH);
    ok := SameBytes(derived, expected);
  }

  /** Printing four fields and splitting gives them back. */
  lemma {:induction false} FieldsOfPrinted(a: string, b: string, c: string, d: string)
    requires a != [] && b != [] && c != [] && d != []
    requires '$' !in a && '$' !in b && '$' !in c && '$' !in d
    ensures Fields(Printed(a, b, c, d)) == [a, b, c, d]
  {
    hide Fields, Field;
    var r3 := Field(d, []);
    var r2 := Field(c, r3);
    var r1 := Field(b, r2);
    FieldsOf(d, []);
    FieldsOf(c, r3);
    FieldsOf(b, r2);
    FieldsOf(a, r1);
    NoFields();
  }

  lemma NoFields() ensures Fields([]) == [] { }

  /** For every password, salt and key derivation returning 32 bytes, verifyPassword on the string
      hashPassword builds accepts a candidate exactly when the two derived keys are equal. */
  lemma {:induction false} VerifyAcceptsEqualKeys(password: string, candidate: string, salt: Bytes, kdf: Kdf)
    requires |salt| == SALT_LENGTH && |kdf(password, salt, ITERATIONS, KEY_LENGTH)| == KEY_LENGTH
    ensures var stored := Hash(password, salt, kdf);
      && stored.Some? && !IsLegacy(stored.value)
      && (Accepts(candidate, stored.value, kdf) <==>
            kdf(candidate, salt, ITERATIONS, KEY_LENGTH) == kdf(password, salt, ITERATIONS, KEY_LENGTH))
  {
    var key := kdf(password, salt, ITERATIONS, KEY_LENGTH);
    PrintedIsNotLegacy(Decimal(ITERATIONS), ToHex(salt), ToHex(key));
    AcceptsPrinted(candidate, ITERATIONS, salt, key, kdf);
    hide ToHex, Decimal, Printed, IsLegacy, Accepts;
  }

  /** Whatever iteration count a string was stored with, that is the count a candidate is derived
      with: it is accepted exactly when its key equals the stored one. */
  lemma {:induction false} AcceptsPrinted(candidate: string, n: nat, salt: Bytes, key: Bytes, kdf: Kdf)
    requires n <= MAX_INT && salt != [] && key != []
    ensures Accepts(candidate, Printed(SCHEME, Decimal(n), ToHex(salt), ToHex(key)), kdf) <==>
              kdf(candidate, salt, n, KEY_LENGTH) == key
  {
    HexRoundTrip(salt);
    HexRoundTrip(key);
    DecimalRoundTrip(n);
    assert '$' !in SCHEME;
    hide ToHex, FromHex, Decimal, Stoi, Fields, Printed;
    FieldsOfPrinted(SCHEME, Decimal(n), ToHex(salt), ToHex(key));
  }

  function PrintAll(parts: seq<string>): (s: string) { if parts == [] then [] else Field(parts[0], PrintAll(parts[1..])) }

  /** Any list of fields, each preceded by '$', splits into itself. */
  lemma {:induction false} FieldsOfAll(parts: seq<string>)
    requires forall i :: 0 <= i < |parts| ==> parts[i] != [] && '$' !in parts[i]
    ensures Fields(PrintAll(parts)) == parts
    ensures parts != [] ==> PrintAll(parts) != [] && PrintAll(parts)[0] == '$'
  {
    hide Fields, Field;
    if parts == [] {
      NoFields();
    } else {
      FieldsOfAll(parts[1..]);
      FieldsOf(parts[0], PrintAll(parts[1..]));
    }
  }

  /** Starts with neither a blank, a sign nor a digit. */
  predicate NotANumber(s: string) { s != "" && !IsBlank(s[0]) && s[0] !in "+-" && !IsDigit(s[0]) }

  /** A stored string with any other number of fields, or whose count is not a number, is refused
      whatever the candidate. */
  lemma {:induction false} MalformedIsRefused(candidate: string, parts: seq<string>, kdf: Kdf)
    requires forall i :: 0 <= i < |parts| ==> parts[i] != [] && '$' !in parts[i]
    requires |parts| != 4 || NotANumber(parts[1])
    ensures !Accepts(candidate, PrintAll(parts), kdf)
  {
    FieldsOfAll(parts);
    hide Fields, PrintAll;
  }

  /** A string without separators, such as a bare hex digest, goes to the legacy branch. */
  lemma DigestIsLegacy(stored: string)
    requires '$' !in stored
    ensures IsLegacy(stored)
  {
    var prefix := "$" + SCHEME + "$";
    assert prefix[0] == '$';
    assert stored != "" ==> stored[0] != '$';
  }

  lemma PrintedIsNotLegacy(iterations: string, salt: string, key: string)
    ensures !IsLegacy(Printed(SCHEME, iterations, salt, key))
  {
    var rest := Field(iterations, Field(salt, Field(key, [])));
    assert Field(SCHEME, rest)[..|SCHEME| + 2] == "$" + SCHEME + "$";
  }
}
