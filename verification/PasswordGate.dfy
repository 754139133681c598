/**
 The two password gates: the server's checks before the breach lookup, and the strength score of the
 client's user form.  Both are stated for passwords, names and emails in printable ASCII.
 */
module PasswordGate {
  import opened Scanners

  predicate Printable(s: string) {
    forall i :: 0 <= i < |s| ==> ' ' <= s[i] <= '~'
  }

  // ---- character classes ----

  predicate IsLower(c: char) {
    'a' <= c <= 'z'
  }

  predicate IsUpper(c: char) {
    'A' <= c <= 'Z'
  }

  predicate IsDigit(c: char) {
    '0' <= c <= '9'
  }

  predicate Has(s: string, class_: char -> bool) {
    exists i | 0 <= i < |s| :: class_(s[i])
  }

  // ---- personal data ----

  /** The separators the server splits a name at. */
  predicate IsSeparator(c: char) {
    c == ' ' || c == '-' || c == '_' || c == '.'
  }

  /** The client's class [\s\-_.], white space included. */
  predicate IsClientSeparator(c: char) {
    IsSeparator(c) || c == '\t' || c == '\n' || c == '\r' || c == 11 as char || c == 12 as char
  }

  /** strings.FieldsFunc: the maximal separator-free runs, `field` being the run under way. */
  function Fields(s: string, field: string): seq<string> {
    if s == [] then (if field == [] then [] else [field])
    else if IsSeparator(s[0]) then (if field == [] then [] else [field]) + Fields(s[1..], [])
    else Fields(s[1..], field + [s[0]])
  }

  predicate Separates(c: char) {
    c in {' ', '-', '_', '.'}
  }

  /** s[i..j] has no separator, and cannot be made longer at either end. */
  predicate IsField(s: string, i: int, j: int) {
    && 0 <= i < j <= |s|
    && (forall k | i <= k < j :: !Separates(s[k]))
    && (i > 0 ==> Separates(s[i - 1]))
    && (j < |s| ==> Separates(s[j]))
  }

  /** The fields with `field` read before s are those of the whole text from there on. */
  lemma {:induction false} FieldsOf(s: string, from: nat, at: nat, part: string)
    requires from <= at <= |s| && (from > 0 ==> Separates(s[from - 1]))
    requires forall k | from <= k < at :: !Separates(s[k])
    ensures part in Fields(s[at..], s[from..at]) <==>
            exists i, j :: from <= i && IsField(s, i, j) && s[i..j] == part
    decreases |s| - at
  {
    if at == |s| {
      LastField(s, from, part);
    } else if IsSeparator(s[at]) {
      assert s[at..][1..] == s[at + 1..] && s[at + 1..at + 1] == [];
      FieldsOf(s, at + 1, at + 1, part);
      FieldEnds(s, from, at, part);
    } else {
      assert s[at..][1..] == s[at + 1..] && s[from..at] + [s[at]] == s[from..at + 1];
      FieldsOf(s, from, at + 1, part);
    }
  }

  lemma LastField(s: string, from: nat, part: string)
    requires from <= |s| && (from > 0 ==> Separates(s[from - 1]))
    requires forall k | from <= k < |s| :: !Separates(s[k])
    ensures part in Fields(s[|s|..], s[from..|s|]) <==>
            exists i, j :: from <= i && IsField(s, i, j) && s[i..j] == part
  {
    if from < |s| {
      assert IsField(s, from, |s|);
    }
    forall i, j | from <= i && IsField(s, i, j)
      ensures i == from && j == |s|
    {
    }
  }

  /** The field under way at a separator is the one field that starts before it. */
  lemma FieldEnds(s: string, from: nat, at: nat, part: string)
    requires from <= at < |s| && Separates(s[at]) && (from > 0 ==> Separates(s[from - 1]))
    requires forall k | from <= k < at :: !Separates(s[k])
    ensures (exists i, j :: from <= i && IsField(s, i, j) && s[i..j] == part) <==>
            || (from < at && s[from..at] == part)
            || exists i, j :: at + 1 <= i && IsField(s, i, j) && s[i..j] == part
  {
    if from < at {
      assert IsField(s, from, at);
    }
    forall i, j | from <= i && IsField(s, i, j)
      ensures (i == from && j == at) || i >= at + 1
    {
    }
  }

  /** The server's split yields exactly the maximal stretches of the text without blank, '-', '_' and '.'. */
  lemma FieldsAreMaximal(s: string, part: string)
    ensures part in Fields(s, []) <==> exists i, j :: IsField(s, i, j) && s[i..j] == part
  {
    assert s[0..] == s && s[0..0] == [];
    FieldsOf(s, 0, 0, part);
  }

  /** split(/[\s\-_.]+/): the pieces between maximal runs of separators, the first and last possibly empty. */
  function Pieces(s: string, piece: string): seq<string>
    decreases |s|
  {
    if s == [] then [piece]
    else if IsClientSeparator(s[0]) then [piece] + Pieces(SkipSeparators(s), [])
    else Pieces(s[1..], piece + [s[0]])
  }

  function SkipSeparators(s: string): (rest: string)
    ensures |rest| <= |s| && (s != [] && IsClientSeparator(s[0]) ==> |rest| < |s|)
    ensures Printable(s) ==> Printable(rest)
  {
    if s != [] && IsClientSeparator(s[0]) then SkipSeparators(s[1..]) else s
  }

  /** A part long enough to count occurs in the text. */
  predicate SomePartOccurs(parts: seq<string>, text: string) {
    exists i | 0 <= i < |parts| :: |parts[i]| >= 3 && Contains(text, parts[i])
  }

  function IndexOfAt(s: string): (i: int)
    ensures -1 <= i < |s|
    ensures i >= 0 ==> s[i] == '@' && '@' !in s[..i]
    ensures i < 0 ==> '@' !in s
  {
    if s == [] then -1
    else if s[0] == '@' then 0
    else
      var rest := IndexOfAt(s[1..]);
      if rest < 0 then -1 else assert s[..rest + 1] == [s[0]] + s[1..][..rest]; rest + 1
  }

  predicate EmailOccurs(text: string, email: string) {
    || Contains(text, email)
    || (IndexOfAt(email) >= 3 && Contains(text, email[..IndexOfAt(email)]))
  }

  predicate ContainsPersonal(password: string, name: string, email: string) {
    || (name != "" && SomePartOccurs(Fields(Lower(name), []), Lower(password)))
    || (email != "" && EmailOccurs(Lower(password), Lower(email)))
  }

  predicate ClientContainsPersonal(password: string, name: string, email: string) {
    || (name != "" && SomePartOccurs(Pieces(Lower(name), []), Lower(password)))
    || (email != "" && EmailOccurs(Lower(password), Lower(email)))
  }

  method ContainsPersonalData(password: string, name: string, email: string) returns (found: bool)
    ensures found == ContainsPersonal(password, name, email)
  {
    var pLower := Lower(password);
    if name != "" {
      var parts := Fields(Lower(name), []);
      for i := 0 to |parts|
        invariant forall j :: 0 <= j < i ==> !(|parts[j]| >= 3 && Contains(pLower, parts[j]))
      {
        if |parts[i]| >= 3 && Contains(pLower, parts[i]) {
          return true;
        }
      }
    }
    if email != "" {
      var eLower := Lower(email);
      if Contains(pLower, eLower) {
        return true;
      }
      var idx := IndexOfAt(eLower);
      if idx > 0 {
        var prefix := eLower[..idx];
        if |prefix| >= 3 && Contains(pLower, prefix) {
          return true;
        }
      }
    }
    return false;
  }

  // ---- the server's gate ----

  datatype Verdict = TooShort | TooLong | LacksComplexity | Weak | Passes

  const COMMON_PASSWORDS := {
    "123456", "123456789", "password", "senha123", "qwerty", "admin", "12345678", "87654321",
    "senha123456", "mudar123", "welcome", "letmein", "login123"
  }

  /** What the server decides before it asks the breach service. */
  ghost function ServerVerdict(password: string, name: string, email: string): Verdict {
    if |password| < 12 then TooShort
    else if |password| > 128 then TooLong
    else if !Has(password, IsLower) || !Has(password, IsUpper) || !Has(password, IsDigit) then LacksComplexity
    else if Lower(password) in COMMON_PASSWORDS || Sequential(password) || Repetitive(password)
            || ContainsPersonal(password, name, email) then Weak
    else Passes
  }

  method ValidatePasswordSecure(password: string, name: string, email: string) returns (verdict: Verdict)
    ensures verdict == ServerVerdict(password, name, email)
  {
    if |password| < 12 {
      return TooShort;
    }
    if |password| > 128 {
      return TooLong;
    }
    var hasLower, hasUpper, hasDigit := ScanClasses(password);
    if !hasLower || !hasUpper || !hasDigit {
      return LacksComplexity;
    }
    if Lower(password) in COMMON_PASSWORDS {
      return Weak;
    }
    var sequence := HasSequence(password);
    if sequence {
      return Weak;
    }
    var repetition := HasRepetitivePatterns(password);
    if repetition {
      return Weak;
    }
    var personal := ContainsPersonalData(password, name, email);
    return if personal then Weak else Passes;
  }

  method ScanClasses(s: string) returns (hasLower: bool, hasUpper: bool, hasDigit: bool)
    ensures hasLower == Has(s, IsLower) && hasUpper == Has(s, IsUpper) && hasDigit == Has(s, IsDigit)
  {
    hasLower, hasUpper, hasDigit := false, false, false;
    for i := 0 to |s|
      invariant hasLower == exists j :: 0 <= j < i && IsLower(s[j])
      invariant hasUpper == exists j :: 0 <= j < i && IsUpper(s[j])
      invariant hasDigit == exists j :: 0 <= j < i && IsDigit(s[j])
    {
      if IsLower(s[i]) {
        hasLower := true;
      } else if IsUpper(s[i]) {
        hasUpper := true;
      } else if IsDigit(s[i]) {
        hasDigit := true;
      }
    }
  }

  // ---- the client's gate ----

  ghost function ClientScore(password: string, name: string, email: string): nat {
    (if |password| >= 12 then 1 else 0)
    + (if Has(password, IsUpper) && Has(password, IsLower) then 1 else 0)
    + (if Has(password, IsDigit) then 1 else 0)
    + (if !Sequential(password) && !Repetitive(password) && !ClientContainsPersonal(password, name, email)
        then 1 else 0)
  }

  method CheckPasswordStrength(password: string, name: string, email: string) returns (score: nat)
    ensures score == ClientScore(password, name, email)
  {
    var hasUpper, hasLower, hasDigit := Has(password, IsUpper), Has(password, IsLower), Has(password, IsDigit);
    var lower := Lower(password);

    var noSequenceOrRepetition := true;
    if |lower| >= 8 {
      var stepping := FindsSteps(lower);
      noSequenceOrRepetition := !stepping;
    }
    if noSequenceOrRepetition && |lower| >= 8 {
      var keyboard := HasKeyboardRun(lower);
      noSequenceOrRepetition := !keyboard;
    }
    assert noSequenceOrRepetition <==> !Sequential(password);
    if noSequenceOrRepetition {
      var repetition := FindsRepetition(password);
      noSequenceOrRepetition := !repetition;
    }
    var containsPersonal := FindsPersonal(lower, name, email);

    score := 0;
    if |password| >= 12 { score := score + 1; }
    if hasUpper && hasLower { score := score + 1; }
    if hasDigit { score := score + 1; }
    if noSequenceOrRepetition && !containsPersonal { score := score + 1; }
  }

  /** The client tests both directions in one pass over each window, without leaving it early. */
  method FindsSteps(t: string) returns (found: bool)
    requires |t| >= 8
    ensures found <==> exists i :: Steps(t, i, 1) || Steps(t, i, -1)
  {
    found := false;
    for i := 0 to |t| - 7
      invariant forall i' :: i' < i ==> !Steps(t, i', 1) && !Steps(t, i', -1)
    {
      var isAsc, isDesc := true, true;
      for j := 0 to 7
        invariant isAsc <==> forall j' :: i <= j' < i + j ==> t[j' + 1] as int == t[j'] as int + 1
        invariant isDesc <==> forall j' :: i <= j' < i + j ==> t[j' + 1] as int == t[j'] as int - 1
      {
        if t[i + j + 1] as int != t[i + j] as int + 1 { isAsc := false; }
        if t[i + j + 1] as int != t[i + j] as int - 1 { isDesc := false; }
      }
      assert isAsc <==> Steps(t, i, 1);
      assert isDesc <==> Steps(t, i, -1);
      if isAsc || isDesc {
        return true;
      }
    }
  }

  /** The client leaves its two outer repetition loops by a flag where the server returns. */
  method FindsRepetition(s: string) returns (found: bool)
    ensures found <==> Repetitive(s)
  {
    found := false;
    var k := 1;
    while k <= 3
      invariant 1 <= k <= 4
      invariant found ==> Repetitive(s)
      invariant !found ==> forall k', i :: 1 <= k' < k ==> !Periodic(s, i, RepetitionLength(k'), k')
      decreases 4 - k
    {
      var i := 0;
      while i <= |s| - k * 3
        invariant 0 <= i && !found
        invariant forall i' :: 0 <= i' < i ==> !Periodic(s, i', RepetitionLength(k), k)
      {
        var repeats := CountRepeats(s, i, k);
        RunDecidesWindow(s, i, k, repeats);
        if repeats * k >= 10 {
          found := true;
          break;
        }
        i := i + 1;
      }
      if found {
        break;
      }
      assert RepetitionLength(k) >= 3 * k;
      k := k + 1;
    }
  }

  /** The client looks at every part, and at both the email and its local part, before it answers. */
  method FindsPersonal(lower: string, name: string, email: string) returns (found: bool)
    ensures found == ((name != "" && SomePartOccurs(Pieces(Lower(name), []), lower))
                      || (email != "" && EmailOccurs(lower, Lower(email))))
  {
    found := false;
    if name != "" {
      var parts := Pieces(Lower(name), []);
      for i := 0 to |parts|
        invariant found <==> exists j :: 0 <= j < i && |parts[j]| >= 3 && Contains(lower, parts[j])
      {
        if |parts[i]| >= 3 && Contains(lower, parts[i]) {
          found := true;
        }
      }
    }
    if email != "" {
      var eLower := Lower(email);
      if Contains(lower, eLower) {
        found := true;
      }
      var idx := IndexOfAt(eLower);
      if idx > 0 {
        var prefix := eLower[..idx];
        if |prefix| >= 3 && Contains(lower, prefix) {
          found := true;
        }
      }
    }
  }

  // ---- agreement ----

  /** The entries of the common-password list are all shorter than the minimum length. */
  lemma NoCommonPasswordIsLongEnough(password: string)
    requires |password| >= 12
    ensures Lower(password) !in COMMON_PASSWORDS
  {
    assert |Lower(password)| >= 12;
    assert forall p | p in COMMON_PASSWORDS :: |p| <= 11;
  }

  /** The pieces the client sees are the server's fields, plus possibly empty ones. */
  lemma {:induction false} PiecesAreFields(s: string, piece: string, part: string)
    requires Printable(s) && part != []
    ensures part in Pieces(s, piece) <==> part in Fields(s, piece)
    decreases |s|
  {
    if s != [] {
      if IsSeparator(s[0]) {
        PiecesAreFields(SkipSeparators(s), [], part);
        SkippingKeepsFields(s[1..]);
        assert part in Pieces(s, piece) <==> part == piece || part in Pieces(SkipSeparators(s), []);
      } else {
        PiecesAreFields(s[1..], piece + [s[0]], part);
      }
    }
  }

  lemma {:induction false} SkippingKeepsFields(s: string)
    requires Printable(s)
    ensures Fields(SkipSeparators(s), []) == Fields(s, [])
  {
    if s != [] && IsClientSeparator(s[0]) {
      SkippingKeepsFields(s[1..]);
    }
  }

  lemma PersonalChecksAgree(password: string, name: string, email: string)
    requires Printable(name)
    ensures ClientContainsPersonal(password, name, email) <==> ContainsPersonal(password, name, email)
  {
    var t := Lower(name);
    var pieces, fields := Pieces(t, []), Fields(t, []);
    forall part: string | part != []
      ensures part in pieces <==> part in fields
    {
      PiecesAreFields(t, [], part);
    }
    assert SomePartOccurs(pieces, Lower(password)) <==> SomePartOccurs(fields, Lower(password)) by {
      if i :| 0 <= i < |pieces| && |pieces[i]| >= 3 && Contains(Lower(password), pieces[i]) {
        assert pieces[i] in fields;
      }
      if i :| 0 <= i < |fields| && |fields[i]| >= 3 && Contains(Lower(password), fields[i]) {
        assert fields[i] in pieces;
      }
    }
  }

  /**
   For every printable name, the client's score is full and the password within the server's limit exactly
   when the server passes every check that precedes the breach lookup.
   */
  lemma GatesAgree(password: string, name: string, email: string)
    requires Printable(name)
    ensures ClientScore(password, name, email) == 4 && |password| <= 128 <==>
              ServerVerdict(password, name, email) == Passes
  {
    PersonalChecksAgree(password, name, email);
    if |password| >= 12 {
      NoCommonPasswordIsLongEnough(password);
    }
  }

  /** Too short is fewer than twelve characters, too long more than 128; only between them do the classes count. */
  lemma LengthsComeFirst(password: string, name: string, email: string)
    ensures var verdict := ServerVerdict(password, name, email);
            && (verdict == TooShort <==> |password| <= 11)
            && (verdict == TooLong <==> |password| >= 129)
            && (verdict == LacksComplexity <==>
                  && 12 <= |password| <= 128
                  && ((forall i | 0 <= i < |password| :: !('a' <= password[i] <= 'z'))
                      || (forall i | 0 <= i < |password| :: !('A' <= password[i] <= 'Z'))
                      || (forall i | 0 <= i < |password| :: !('0' <= password[i] <= '9'))))
  {
    assert Has(password, IsLower) <==> exists i :: 0 <= i < |password| && 'a' <= password[i] <= 'z';
    assert Has(password, IsUpper) <==> exists i :: 0 <= i < |password| && 'A' <= password[i] <= 'Z';
    assert Has(password, IsDigit) <==> exists i :: 0 <= i < |password| && '0' <= password[i] <= '9';
  }

  // ---- personal data, said without splitting ----

  /** Some field of the lowered name, three characters long or more, occurs in the lowered password. */
  ghost predicate NamesIn(password: string, name: string) {
    exists i, j :: IsField(Lower(name), i, j) && j - i >= 3 && Contains(Lower(password), Lower(name)[i..j])
  }

  /** The lowered email, or what precedes its first '@' if that is three characters or more, occurs in the password. */
  ghost predicate EmailIn(password: string, email: string) {
    || (email != "" && Contains(Lower(password), Lower(email)))
    || exists i :: 3 <= i < |email| && email[i] == '@' && '@' !in email[..i]
                   && Contains(Lower(password), Lower(email)[..i])
  }

  lemma PersonalDataIsExact(password: string, name: string, email: string)
    ensures ContainsPersonal(password, name, email) <==> NamesIn(password, name) || EmailIn(password, email)
  {
    NamePartsAreFields(password, name);
    EmailPrefix(password, email);
  }

  lemma NamePartsAreFields(password: string, name: string)
    ensures name != "" && SomePartOccurs(Fields(Lower(name), []), Lower(password)) <==> NamesIn(password, name)
  {
    var t, parts := Lower(name), Fields(Lower(name), []);
    if k :| 0 <= k < |parts| && |parts[k]| >= 3 && Contains(Lower(password), parts[k]) {
      FieldsAreMaximal(t, parts[k]);
      assert name != "";
    }
    if i, j :| IsField(t, i, j) && j - i >= 3 && Contains(Lower(password), t[i..j]) {
      FieldsAreMaximal(t, t[i..j]);
      var k :| 0 <= k < |parts| && parts[k] == t[i..j];
    }
  }

  lemma EmailPrefix(password: string, email: string)
    ensures email != "" && EmailOccurs(Lower(password), Lower(email)) <==> EmailIn(password, email)
  {
    var e, at := Lower(email), IndexOfAt(Lower(email));
    assert forall i | 0 <= i < |email| :: e[i] == '@' <==> email[i] == '@';
    if at >= 0 {
      assert forall k | 0 <= k < at :: e[k] == e[..at][k] != '@';
      assert '@' !in email[..at];
    }
    forall i | 0 <= i < |email| && email[i] == '@' && '@' !in email[..i]
      ensures i == at
    {
      assert e[i] == '@';
      assert forall k | 0 <= k < i :: email[..i][k] != '@';
    }
  }
}
