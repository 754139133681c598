/**
 Permission codes: which granted codes cover a required one, and which codes the catalogue accepts.
 */
module Matching {

  predicate HasPrefix(s: string, prefix: string) {
    prefix <= s
  }

  predicate HasSuffix(s: string, suffix: string) {
    |suffix| <= |s| && s[|s| - |suffix|..] == suffix
  }

  function TrimSuffix(s: string, suffix: string): string {
    if HasSuffix(s, suffix) then s[..|s| - |suffix|] else s
  }

  /** One granted code covers a required code: globally, exactly, or as a module wildcard. */
  predicate Covers(granted: string, required: string) {
    || granted == "*"
    || granted == required
    || (HasSuffix(granted, ".*") && HasPrefix(required, TrimSuffix(granted, ".*") + "."))
  }

  /** The server's matcher. */
  predicate MatchPermission(granted: seq<string>, required: string) {
    if granted == [] then false
    else if granted[0] == "*" || granted[0] == required then true
    else if HasSuffix(granted[0], ".*") && HasPrefix(required, TrimSuffix(granted[0], ".*") + ".") then true
    else MatchPermission(granted[1..], required)
  }

  /** The client's matcher, which drops the final '*' instead of trimming ".*" and adding the dot back. */
  predicate ClientMatchPermission(granted: seq<string>, required: string) {
    if granted == [] then false
    else if granted[0] == "*" || granted[0] == required then true
    else if HasSuffix(granted[0], ".*") && HasPrefix(required, granted[0][..|granted[0]| - 1]) then true
    else ClientMatchPermission(granted[1..], required)
  }

  /** Coverage of a set of codes, the form in which Redis and the join deliver them. */
  predicate Authorised(codes: set<string>, required: string) {
    exists g :: g in codes && Covers(g, required)
  }

  function Elements(codes: seq<string>): set<string> {
    set c | c in codes
  }

  lemma CoversIsReflexive(code: string)
    ensures Covers(code, code)
  {
  }

  /** A wildcard "x.*" covers exactly itself, and the codes that extend "x.". */
  lemma WildcardPrefix(granted: string)
    requires HasSuffix(granted, ".*")
    ensures TrimSuffix(granted, ".*") + "." == granted[..|granted| - 1]
    ensures granted[|granted| - 1] == '*'
  {
    var n := |granted|;
    assert granted[n - 1] == granted[n - 2..][1] == '*';
    assert granted[n - 2] == granted[n - 2..][0] == '.';
    assert granted[..n - 1] == granted[..n - 2] + [granted[n - 2]];
  }

  lemma CoversIsTransitive(a: string, b: string, c: string)
    requires Covers(a, b) && Covers(b, c)
    ensures Covers(a, c)
  {
    if a != "*" && a != b && b != c {
      WildcardPrefix(a);
      var p := a[..|a| - 1];
      assert p[|p| - 1] == '.' && p <= b;
      WildcardPrefix(b);
      assert |p| < |b|;
      assert p <= b[..|b| - 1] <= c;
    }
  }

  /** The recursive matcher decides coverage by the set of granted codes, whatever their order or repetition. */
  lemma {:induction false} MatchIsAuthorised(granted: seq<string>, required: string)
    ensures MatchPermission(granted, required) <==> Authorised(Elements(granted), required)
  {
    if granted != [] {
      MatchIsAuthorised(granted[1..], required);
      assert Elements(granted) == {granted[0]} + Elements(granted[1..]);
      if Authorised(Elements(granted), required) {
        var g :| g in Elements(granted) && Covers(g, required);
      }
    }
  }

  /** Server and client agree on every list of codes and every requirement. */
  lemma {:induction false} ClientAgrees(granted: seq<string>, required: string)
    ensures ClientMatchPermission(granted, required) <==> MatchPermission(granted, required)
  {
    if granted != [] {
      if HasSuffix(granted[0], ".*") {
        WildcardPrefix(granted[0]);
      }
      ClientAgrees(granted[1..], required);
    }
  }

  lemma MatchIsMonotone(few: seq<string>, many: seq<string>, required: string)
    requires Elements(few) <= Elements(many)
    ensures MatchPermission(few, required) ==> MatchPermission(many, required)
  {
    MatchIsAuthorised(few, required);
    MatchIsAuthorised(many, required);
  }

  /** A holder of codes that cover `via` is authorised for all that `via` covers. */
  lemma AuthorityIsTransitive(codes: set<string>, via: string, required: string)
    requires Authorised(codes, via) && Covers(via, required)
    ensures Authorised(codes, required)
  {
    var g :| g in codes && Covers(g, via);
    CoversIsTransitive(g, via, required);
  }

  // ---- codes the catalogue accepts ----

  predicate IsLower(c: char) {
    'a' <= c <= 'z'
  }

  predicate IsWordChar(c: char) {
    IsLower(c) || '0' <= c <= '9' || c == '_'
  }

  /** [a-z][a-z0-9_]* */
  predicate IsWord(s: string) {
    && s != [] && 'a' <= s[0] <= 'z'
    && forall i :: 0 <= i < |s| ==> 'a' <= s[i] <= 'z' || '0' <= s[i] <= '9' || s[i] == '_'
  }

  function Dotted(words: seq<string>): string
    requires words != []
  {
    if |words| == 1 then words[0] else words[0] + "." + Dotted(words[1..])
  }

  /** The language of ^[a-z][a-z0-9_]*(\.[a-z][a-z0-9_]*)+$ */
  ghost predicate MatchesPattern(code: string) {
    exists words: seq<string> ::
      |words| >= 2 && (forall i :: 0 <= i < |words| ==> IsWord(words[i])) && code == Dotted(words)
  }

  /** What is left of the pattern after the text read so far. */
  datatype Scan = AtWordStart(dots: nat) | InWord(dots: nat)

  /** One left-to-right scan deciding the pattern, as the compiled regular expression does. */
  predicate ScanPattern(code: string, state: Scan) {
    if code == [] then state.InWord? && state.dots >= 1
    else
      match state
      case AtWordStart(dots) => IsLower(code[0]) && ScanPattern(code[1..], InWord(dots))
      case InWord(dots) =>
        if code[0] == '.' then ScanPattern(code[1..], AtWordStart(dots + 1))
        else IsWordChar(code[0]) && ScanPattern(code[1..], InWord(dots))
  }

  lemma {:induction false} ScanSkipsWord(word: string, rest: string, dots: nat)
    requires forall i :: 0 <= i < |word| ==> IsWordChar(word[i])
    ensures ScanPattern(word + rest, InWord(dots)) <==> ScanPattern(rest, InWord(dots))
  {
    if word == [] {
      assert word + rest == rest;
    } else {
      assert (word + rest)[1..] == word[1..] + rest;
      ScanSkipsWord(word[1..], rest, dots);
    }
  }

  lemma {:induction false} ScanAcceptsDotted(words: seq<string>, dots: nat)
    requires words != [] && (forall i :: 0 <= i < |words| ==> IsWord(words[i])) && dots + |words| >= 2
    ensures ScanPattern(Dotted(words), AtWordStart(dots))
  {
    var w := words[0];
    assert w[1..] + [] == w[1..];
    if |words| == 1 {
      ScanSkipsWord(w[1..], [], dots);
    } else {
      var rest := "." + Dotted(words[1..]);
      assert Dotted(words) == w + rest;
      assert (w + rest)[1..] == w[1..] + rest;
      assert rest[1..] == Dotted(words[1..]);
      ScanSkipsWord(w[1..], rest, dots);
      ScanAcceptsDotted(words[1..], dots + 1);
    }
  }

  /** The words the scan cuts the text into, `read` being the word under way. */
  lemma {:induction false} ScanFindsWords(read: string, code: string, dots: nat) returns (words: seq<string>)
    requires IsWord(read) && ScanPattern(code, InWord(dots))
    ensures words != [] && forall i :: 0 <= i < |words| ==> IsWord(words[i])
    ensures Dotted(words) == read + code && dots + |words| >= 2
    decreases |code|
  {
    if code == [] {
      words := [read];
    } else if code[0] == '.' {
      var later := ScanFindsWords([code[1]], code[2..], dots + 1);
      words := [read] + later;
      assert words[1..] == later;
      assert read + code == read + "." + ([code[1]] + code[2..]);
    } else {
      words := ScanFindsWords(read + [code[0]], code[1..], dots);
      assert read + [code[0]] + code[1..] == read + code;
    }
  }

  lemma PatternIsScanned(code: string)
    ensures MatchesPattern(code) <==> ScanPattern(code, AtWordStart(0))
  {
    if MatchesPattern(code) {
      var words :| |words| >= 2 && (forall i :: 0 <= i < |words| ==> IsWord(words[i])) && code == Dotted(words);
      ScanAcceptsDotted(words, 0);
    }
    if ScanPattern(code, AtWordStart(0)) {
      var words := ScanFindsWords([code[0]], code[1..], 0);
      assert [code[0]] + code[1..] == code;
    }
  }

  predicate ValidatePermissionCode(code: string) {
    && code != "*" && code != "users.*"
    && !HasSuffix(code, ".manage")
    && ScanPattern(code, AtWordStart(0))
  }

  predicate IsProtectedPermissionCode(code: string) {
    code == "*" || code == "users.*" || code == "audit_logs.read"
  }

  lemma {:induction false} ScanRejectsStar(code: string, state: Scan)
    requires ScanPattern(code, state)
    ensures '*' !in code
  {
    if code != [] {
      var next := match state
                  case AtWordStart(dots) => InWord(dots)
                  case InWord(dots) => if code[0] == '.' then AtWordStart(dots + 1) else InWord(dots);
      ScanRejectsStar(code[1..], next);
      assert code == [code[0]] + code[1..];
    }
  }

  /** A code that can enter the catalogue has the documented shape and covers nothing but itself. */
  lemma CatalogueCodesCoverThemselves(code: string, required: string)
    requires ValidatePermissionCode(code)
    ensures MatchesPattern(code)
    ensures Covers(code, required) <==> required == code
  {
    PatternIsScanned(code);
    ScanRejectsStar(code, AtWordStart(0));
    if HasSuffix(code, ".*") {
      WildcardPrefix(code);
    }
  }
}
