/** The Argon2id password strings: printed by Hash, parsed and checked by Verify. */
module PasswordHash {
  import opened Types
  import opened Matching
  import opened Base64

  datatype Params = Params(memory: nat, iterations: nat, parallelism: nat, saltLength: nat, keyLength: nat)
  {
    /** The widths of the fields: uint32, and uint8 for the parallelism. */
    predicate InRange() {
      memory < UINT32 && iterations < UINT32 && parallelism < UINT8 && saltLength < UINT32 && keyLength < UINT32
    }

    /** What the key derivation asks for: it panics on zero iterations, zero parallelism and an empty key. */
    predicate Usable() {
      iterations >= 1 && parallelism >= 1 && keyLength >= 1
    }
  }

  const UINT8: nat := 0x100

  const UINT32: nat := 0x1_0000_0000

  const INT64: nat := 0x8000_0000_0000_0000

  const ARGON2_VERSION: nat := 19

  const DEFAULT_PARAMS := Params(65536, 3, 2, 16, 32)

  const TEST_PARAMS := Params(4096, 1, 1, 16, 32)

  /** The key derivation: password, salt, iterations, memory, parallelism, key length. */
  type Kdf = (string, Bytes, nat, nat, nat, nat) -> Bytes

  ghost predicate KeepsLength(kdf: Kdf) {
    forall plain, salt, t, m, p, n :: |kdf(plain, salt, t, m, p, n)| == n
  }

  // ---- decimals ----

  predicate IsDecimal(c: char) {
    '0' <= c <= '9'
  }

  function DecimalDigit(d: nat): char
    requires d < 10
  {
    '0' + d as char
  }

  function DigitValue(c: char): nat
    requires IsDecimal(c)
  {
    (c - '0') as nat
  }

  function Decimal(n: nat): string {
    (if n < 10 then [] else Decimal(n / 10)) + [DecimalDigit(n % 10)]
  }

  function DecimalValue(s: string): nat
    requires forall i | 0 <= i < |s| :: IsDecimal(s[i])
  {
    if s == [] then 0
    else assert IsDecimal(s[|s| - 1]); 10 * DecimalValue(s[..|s| - 1]) + DigitValue(s[|s| - 1])
  }

  lemma DigitRoundTrip(d: nat)
    requires d < 10
    ensures IsDecimal(DecimalDigit(d)) && DigitValue(DecimalDigit(d)) == d
  {
  }

  lemma {:induction false} DecimalRoundTrip(n: nat)
    ensures Decimal(n) != [] && forall i | 0 <= i < |Decimal(n)| :: IsDecimal(Decimal(n)[i])
    ensures DecimalValue(Decimal(n)) == n
  {
    DigitRoundTrip(n % 10);
    var front, last := if n < 10 then "" else Decimal(n / 10), DecimalDigit(n % 10);
    if n >= 10 {
      DecimalRoundTrip(n / 10);
    }
    AppendDigit(front, last);
    assert Decimal(n) == front + [last];
  }

  lemma AppendDigit(front: string, last: char)
    requires (forall i | 0 <= i < |front| :: IsDecimal(front[i])) && IsDecimal(last)
    ensures forall i | 0 <= i < |front + [last]| :: IsDecimal((front + [last])[i])
    ensures DecimalValue(front + [last]) == 10 * DecimalValue(front) + DigitValue(last)
  {
    assert (front + [last])[..|front|] == front;
  }

  // ---- printing ----

  /** $argon2id$v=19$m=...,t=...,p=...$salt$hash */
  function Print(p: Params, salt: Bytes, key: Bytes): string {
    PrintVersion(ARGON2_VERSION, p, salt, key)
  }

  function PrintVersion(version: nat, p: Params, salt: Bytes, key: Bytes): string {
    "$argon2id$" + ("v=" + Decimal(version)) + "$" + PrintCost(p) + "$" + Encode(salt) + "$" + Encode(key)
  }

  function PrintCost(p: Params): string {
    "m=" + Decimal(p.memory) + ",t=" + Decimal(p.iterations) + ",p=" + Decimal(p.parallelism)
  }

  // ---- parsing ----

  /** strings.Split(s, "$"), `part` being the part under way. */
  function Split(s: string, part: string): seq<string> {
    if s == [] then [part]
    else if s[0] == '$' then [part] + Split(s[1..], [])
    else Split(s[1..], part + [s[0]])
  }

  /** Sscanf's literal text: the rest of the input after it. */
  function ScanLiteral(s: string, text: string): Option<string> {
    if HasPrefix(s, text) then Some(s[|text|..]) else None
  }

  function SkipBlanks(s: string): string {
    if s != [] && (s[0] == ' ' || s[0] == '\t' || s[0] == '\r' || s[0] == 11 as char || s[0] == 12 as char)
    then SkipBlanks(s[1..])
    else s
  }

  /** The length of the longest run of decimal digits at the front. */
  function DigitRun(s: string): (n: nat)
    ensures n <= |s| && forall i | 0 <= i < n :: IsDecimal(s[i])
    ensures n < |s| ==> !IsDecimal(s[n])
  {
    if s != [] && IsDecimal(s[0]) then 1 + DigitRun(s[1..]) else 0
  }

  /** Sscanf's %d into an unsigned field below `limit`: blanks, then digits; the value and the rest of the input. */
  function ScanUnsigned(s: string, limit: nat): Option<(nat, string)> {
    var t := SkipBlanks(s);
    var n := DigitRun(t);
    if n == 0 || DecimalValue(t[..n]) >= limit then None else Some((DecimalValue(t[..n]), t[n..]))
  }

  /** Sscanf's %d into an int: an optional sign before the digits. */
  function ScanSigned(s: string): Option<int> {
    var t := SkipBlanks(s);
    if t != [] && t[0] == '-' then
      var n := DigitRun(t[1..]);
      if n == 0 || DecimalValue(t[1..][..n]) > INT64 then None else Some(0 - DecimalValue(t[1..][..n]))
    else
      var u := if t != [] && t[0] == '+' then t[1..] else t;
      var n := DigitRun(u);
      if n == 0 || DecimalValue(u[..n]) >= INT64 then None else Some(DecimalValue(u[..n]))
  }

  /** Sscanf(part, "m=%d,t=%d,p=%d"); input after the last number is ignored. */
  function ScanCost(s: string): Option<(nat, nat, nat)> {
    match ScanField(s, "m=", UINT32)
    case None => None
    case Some((memory, afterMemory)) =>
      match ScanField(afterMemory, ",t=", UINT32)
      case None => None
      case Some((iterations, afterIterations)) =>
        match ScanField(afterIterations, ",p=", UINT8)
        case None => None
        case Some((parallelism, _)) => Some((memory, iterations, parallelism))
  }

  function ScanField(s: string, name: string, limit: nat): Option<(nat, string)> {
    match ScanLiteral(s, name)
    case None => None
    case Some(rest) => ScanUnsigned(rest, limit)
  }

  function ScanVersion(s: string): Option<int> {
    match ScanLiteral(s, "v=")
    case None => None
    case Some(rest) => ScanSigned(rest)
  }

  /** The parameters, salt and key a stored string names; the salt length is not among what it fills in. */
  function DecodeArgon2id(stored: string): Option<(Params, Bytes, Bytes)> {
    var parts := Split(stored, []);
    if |parts| != 6 || parts[1] != "argon2id" then None
    else DecodeFields(parts[2], parts[3], parts[4], parts[5])
  }

  function DecodeFields(version: string, cost: string, b64Salt: string, b64Key: string)
    : Option<(Params, Bytes, Bytes)>
  {
    if ScanVersion(version) != Some(ARGON2_VERSION) then None
    else
      match (ScanCost(cost), Decode(b64Salt), Decode(b64Key))
      case (Some((m, t, p)), Some(salt), Some(key)) => Some((Params(m, t, p, 0, |key| % UINT32), salt, key))
      case _ => None
  }

  // ---- checking ----

  /** Some(needsRehash) when the password matches; a bcrypt match asks for a new hash. */
  function Verify(kdf: Kdf, bcrypt: (string, string) -> bool, stored: string, plain: string): Option<bool> {
    if HasPrefix(stored, "$2a$") || HasPrefix(stored, "$2b$") then
      if bcrypt(stored, plain) then Some(true) else None
    else if HasPrefix(stored, "$argon2id$") then
      match DecodeArgon2id(stored)
      case None => None
      case Some((p, salt, key)) =>
        if kdf(plain, salt, p.iterations, p.memory, p.parallelism, p.keyLength) == key then Some(false) else None
    else None
  }

  /** The package's state: the parameters new hashes are made with, and the hash unknown users are checked against. */
  class Hasher {
    const kdf: Kdf
    var activeParams: Params
    var dummyHash: string

    /** The dummy is made with the cheap parameters, and the defaults are in force afterwards. */
    constructor (kdf: Kdf, salt: Bytes)
      requires |salt| == TEST_PARAMS.saltLength && KeepsLength(kdf)
      ensures this.kdf == kdf && activeParams == DEFAULT_PARAMS
      ensures forall bcrypt :: Verify(kdf, bcrypt, dummyHash, "timing-equalizer-dummy") == Some(false)
    {
      this.kdf := kdf;
      this.activeParams := DEFAULT_PARAMS;
      this.dummyHash := "";
      new;
      var prev := activeParams;
      activeParams := TEST_PARAMS;
      var h := Hash("timing-equalizer-dummy", salt);
      activeParams := prev;
      dummyHash := h;
    }

    method SetParams(p: Params)
      modifies this`activeParams
      ensures activeParams == p
    {
      activeParams := p;
    }

    /** `salt` is what the random source delivered. */
    method Hash(plain: string, salt: Bytes) returns (stored: string)
      requires |salt| == activeParams.saltLength && KeepsLength(kdf)
      requires activeParams.InRange() && activeParams.Usable()
      ensures DecodeArgon2id(stored) ==
              Some((activeParams.(saltLength := 0),
                    salt,
                    kdf(plain, salt, activeParams.iterations, activeParams.memory, activeParams.parallelism,
                        activeParams.keyLength)))
      ensures forall bcrypt :: Verify(kdf, bcrypt, stored, plain) == Some(false)
    {
      var p := activeParams;
      var key := kdf(plain, salt, p.iterations, p.memory, p.parallelism, p.keyLength);
      stored := Print(p, salt, key);
      PrintIsDecoded(p, salt, key);
      PrintIsArgon2id(p, salt, key);
    }
  }

  // ---- round trip ----

  predicate NoDollar(s: string) {
    '$' !in s
  }

  lemma {:induction false} SplitTakesPart(word: string, rest: string, part: string)
    requires NoDollar(word)
    ensures Split(word + "$" + rest, part) == [part + word] + Split(rest, [])
  {
    var s := word + "$" + rest;
    if word == [] {
      assert s == "$" + rest && s[1..] == rest;
      assert part + word == part;
    } else {
      assert s[1..] == word[1..] + "$" + rest;
      SplitTakesPart(word[1..], rest, part + [word[0]]);
      assert part + [word[0]] + word[1..] == part + word;
    }
  }

  lemma {:induction false} SplitTakesLast(word: string, part: string)
    requires NoDollar(word)
    ensures Split(word, part) == [part + word]
  {
    if word == [] {
      assert part + word == part;
    } else {
      SplitTakesLast(word[1..], part + [word[0]]);
      assert part + [word[0]] + word[1..] == part + word;
    }
  }

  lemma EncodingHasNoDollar(data: Bytes)
    ensures NoDollar(Encode(data))
  {
    EncodeIsDigits(data);
  }

  lemma DecimalHasNoDollar(n: nat)
    ensures NoDollar(Decimal(n))
  {
    DecimalRoundTrip(n);
  }

  lemma CostHasNoDollar(p: Params)
    ensures NoDollar(PrintCost(p))
  {
    DecimalHasNoDollar(p.memory);
    DecimalHasNoDollar(p.iterations);
    DecimalHasNoDollar(p.parallelism);
  }

  /** A printed number is read back, up to the first character that is not a digit. */
  lemma {:induction false} DigitRunIsWord(word: string, rest: string)
    requires forall i | 0 <= i < |word| :: IsDecimal(word[i])
    requires rest != [] ==> !IsDecimal(rest[0])
    ensures DigitRun(word + rest) == |word|
  {
    if word == [] {
      assert word + rest == rest;
    } else {
      assert (word + rest)[1..] == word[1..] + rest;
      DigitRunIsWord(word[1..], rest);
    }
  }

  lemma NumberIsScanned(n: nat, rest: string, limit: nat)
    requires n < limit && (rest != [] ==> !IsDecimal(rest[0]))
    ensures ScanUnsigned(Decimal(n) + rest, limit) == Some((n, rest))
  {
    DecimalRoundTrip(n);
    var d, t := Decimal(n), Decimal(n) + rest;
    assert IsDecimal(d[0]) && t[0] == d[0];
    DigitRunIsWord(d, rest);
    assert t[..|d|] == d && t[|d|..] == rest;
  }

  lemma FieldIsScanned(name: string, n: nat, rest: string, limit: nat)
    requires n < limit && (rest != [] ==> !IsDecimal(rest[0]))
    ensures ScanField(name + (Decimal(n) + rest), name, limit) == Some((n, rest))
  {
    NumberIsScanned(n, rest, limit);
    var t := Decimal(n) + rest;
    assert (name + t)[|name|..] == t;
  }

  lemma CostIsScanned(p: Params)
    requires p.InRange()
    ensures ScanCost(PrintCost(p)) == Some((p.memory, p.iterations, p.parallelism))
  {
    var three := ",p=" + (Decimal(p.parallelism) + "");
    var two := ",t=" + (Decimal(p.iterations) + three);
    assert PrintCost(p) == "m=" + (Decimal(p.memory) + two);
    FieldIsScanned("m=", p.memory, two, UINT32);
    FieldIsScanned(",t=", p.iterations, three, UINT32);
    FieldIsScanned(",p=", p.parallelism, "", UINT8);
  }

  lemma VersionIsScanned(version: nat)
    requires version < INT64
    ensures NoDollar("v=" + Decimal(version))
    ensures ScanVersion("v=" + Decimal(version)) == Some(version)
  {
    var d := Decimal(version);
    DecimalRoundTrip(version);
    DigitRunIsWord(d, "");
    assert d + "" == d && d[..|d|] == d;
    var s := "v=" + d;
    assert s[..2] == "v=" && s[2..] == d;
    assert IsDecimal(d[0]) && SkipBlanks(d) == d;
  }

  lemma SixPartsSplit(a: string, b: string, c: string, d: string, e: string, f: string)
    requires NoDollar(a) && NoDollar(b) && NoDollar(c) && NoDollar(d) && NoDollar(e) && NoDollar(f)
    ensures Split(a + "$" + (b + "$" + (c + "$" + (d + "$" + (e + "$" + f)))), "") == [a, b, c, d, e, f]
  {
    SplitTakesPart(a, b + "$" + (c + "$" + (d + "$" + (e + "$" + f))), "");
    SplitTakesPart(b, c + "$" + (d + "$" + (e + "$" + f)), "");
    SplitTakesPart(c, d + "$" + (e + "$" + f), "");
    SplitTakesPart(d, e + "$" + f, "");
    SplitTakesPart(e, f, "");
    SplitTakesLast(f, "");
    assert "" + a == a && "" + b == b && "" + c == c && "" + d == d && "" + e == e && "" + f == f;
  }

  lemma PrintSplits(version: nat, p: Params, salt: Bytes, key: Bytes)
    requires version < INT64
    ensures Split(PrintVersion(version, p, salt, key), []) ==
            ["", "argon2id", "v=" + Decimal(version), PrintCost(p), Encode(salt), Encode(key)]
  {
    VersionIsScanned(version);
    CostHasNoDollar(p);
    EncodingHasNoDollar(salt);
    EncodingHasNoDollar(key);
    var v, c, s, k := "v=" + Decimal(version), PrintCost(p), Encode(salt), Encode(key);
    SixPartsSplit("", "argon2id", v, c, s, k);
    Regroup(v, c, s, k);
  }

  lemma Regroup(v: string, c: string, s: string, k: string)
    ensures "$argon2id$" + v + "$" + c + "$" + s + "$" + k ==
            "" + "$" + ("argon2id" + "$" + (v + "$" + (c + "$" + (s + "$" + k))))
  {
  }

  /** Decoding what Hash printed gives back the cost, the salt and the key, with the key's own length. */
  lemma PrintIsDecoded(p: Params, salt: Bytes, key: Bytes)
    requires p.InRange() && |key| < UINT32
    ensures DecodeArgon2id(Print(p, salt, key)) ==
              Some((Params(p.memory, p.iterations, p.parallelism, 0, |key|), salt, key))
  {
    PrintSplits(ARGON2_VERSION, p, salt, key);
    FieldsAreDecoded(p, salt, key);
    PartsAreDecoded(Print(p, salt, key), "v=" + Decimal(ARGON2_VERSION), PrintCost(p), Encode(salt), Encode(key));
  }

  lemma PartsAreDecoded(stored: string, version: string, cost: string, b64Salt: string, b64Key: string)
    requires Split(stored, []) == ["", "argon2id", version, cost, b64Salt, b64Key]
    ensures DecodeArgon2id(stored) == DecodeFields(version, cost, b64Salt, b64Key)
  {
    var parts := Split(stored, []);
    assert parts[1] == "argon2id" && parts[2] == version && parts[3] == cost && parts[4] == b64Salt
        && parts[5] == b64Key;
  }

  lemma FieldsAreDecoded(p: Params, salt: Bytes, key: Bytes)
    requires p.InRange() && |key| < UINT32
    ensures DecodeFields("v=" + Decimal(ARGON2_VERSION), PrintCost(p), Encode(salt), Encode(key)) ==
            Some((Params(p.memory, p.iterations, p.parallelism, 0, |key|), salt, key))
  {
    VersionIsScanned(ARGON2_VERSION);
    CostIsScanned(p);
    RoundTrip(salt);
    RoundTrip(key);
    FieldsAgree("v=" + Decimal(ARGON2_VERSION), PrintCost(p), Encode(salt), Encode(key), p, salt, key);
  }

  lemma FieldsAgree(version: string, cost: string, b64Salt: string, b64Key: string, p: Params, salt: Bytes,
                    key: Bytes)
    requires ScanVersion(version) == Some(ARGON2_VERSION)
               && ScanCost(cost) == Some((p.memory, p.iterations, p.parallelism))
    requires Decode(b64Salt) == Some(salt) && Decode(b64Key) == Some(key) && |key| < UINT32
    ensures DecodeFields(version, cost, b64Salt, b64Key) ==
            Some((Params(p.memory, p.iterations, p.parallelism, 0, |key|), salt, key))
  {
  }

  /** The same string with another version number is refused. */
  lemma OtherVersionsAreRefused(version: nat, p: Params, salt: Bytes, key: Bytes)
    requires version < INT64 && p.InRange() && |key| < UINT32
    ensures DecodeArgon2id(PrintVersion(version, p, salt, key)).Some? <==> version == 19
  {
    if version == ARGON2_VERSION {
      PrintIsDecoded(p, salt, key);
    } else {
      PrintSplits(version, p, salt, key);
      VersionIsScanned(version);
      PartsAreDecoded(PrintVersion(version, p, salt, key), "v=" + Decimal(version), PrintCost(p), Encode(salt),
          Encode(key));
    }
  }

  lemma PrintIsArgon2id(p: Params, salt: Bytes, key: Bytes)
    ensures HasPrefix(Print(p, salt, key), "$argon2id$")
    ensures !HasPrefix(Print(p, salt, key), "$2a$") && !HasPrefix(Print(p, salt, key), "$2b$")
  {
    assert Print(p, salt, key)[1] == 'a';
  }

  /**
   A password string made from `plain` accepts exactly the passwords that derive the same key, never asks
   for a rehash, and so always accepts `plain`.
   */
  lemma VerifyIsExact(kdf: Kdf, bcrypt: (string, string) -> bool, p: Params, salt: Bytes, plain: string,
                      tried: string)
    requires p.InRange() && KeepsLength(kdf)
    ensures var key := kdf(plain, salt, p.iterations, p.memory, p.parallelism, p.keyLength);
            var verdict := Verify(kdf, bcrypt, Print(p, salt, key), tried);
            && verdict != Some(true)
            && (verdict == Some(false) <==> kdf(tried, salt, p.iterations, p.memory, p.parallelism, p.keyLength) == key)
  {
    var key := kdf(plain, salt, p.iterations, p.memory, p.parallelism, p.keyLength);
    PrintIsDecoded(p, salt, key);
    PrintIsArgon2id(p, salt, key);
  }

  // ---- all stored strings ----

  predicate IsBcrypt(stored: string) {
    |stored| >= 4 && stored[0] == '$' && stored[1] == '2' && stored[2] in {'a', 'b'} && stored[3] == '$'
  }

  /** The string names parameters, a salt and a key, and the password derives that key. */
  ghost predicate Derives(kdf: Kdf, stored: string, plain: string) {
    exists p: Params, salt: Bytes, key: Bytes ::
      DecodeArgon2id(stored) == Some((p, salt, key))
      && kdf(plain, salt, p.iterations, p.memory, p.parallelism, p.keyLength) == key
  }

  /**
   Whatever is stored: a match that asks for a rehash is exactly a bcrypt string that bcrypt accepts, one that
   does not is exactly an Argon2id string whose parameters derive its key, and there is no other match.
   */
  lemma VerifyOutcome(kdf: Kdf, bcrypt: (string, string) -> bool, stored: string, plain: string)
    ensures var verdict := Verify(kdf, bcrypt, stored, plain);
            && (verdict == Some(true) <==> IsBcrypt(stored) && bcrypt(stored, plain))
            && (verdict == Some(false) <==> stored[..Min(10, |stored|)] == "$argon2id$" && Derives(kdf, stored, plain))
  {
    assert "$2a$"[0] == '$' && "$2a$"[1] == '2' && "$2a$"[2] == 'a' && "$2a$"[3] == '$';
    assert "$2b$"[0] == '$' && "$2b$"[1] == '2' && "$2b$"[2] == 'b' && "$2b$"[3] == '$';
    assert "$argon2id$"[1] == 'a';
    assert HasPrefix(stored, "$2a$") || HasPrefix(stored, "$2b$") <==> IsBcrypt(stored);
    assert HasPrefix(stored, "$argon2id$") <==> stored[..Min(10, |stored|)] == "$argon2id$";
  }

  function Min(a: nat, b: nat): nat {
    if a < b then a else b
  }

  /** A bcrypt user who has logged in, and whose string is replaced by a new one, is not asked for another rehash. */
  lemma RehashSettles(kdf: Kdf, bcrypt: (string, string) -> bool, stored: string, plain: string, p: Params, salt: Bytes)
    requires p.InRange() && p.Usable() && KeepsLength(kdf)
    requires Verify(kdf, bcrypt, stored, plain) == Some(true)
    ensures var key := kdf(plain, salt, p.iterations, p.memory, p.parallelism, p.keyLength);
            Verify(kdf, bcrypt, Print(p, salt, key), plain) == Some(false)
  {
    VerifyIsExact(kdf, bcrypt, p, salt, plain, plain);
  }
}
