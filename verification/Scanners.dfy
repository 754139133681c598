/**
 The password pattern scanners.  Strings are ASCII, so a byte, a rune and a UTF-16 unit are all one `char`.
 */
module Scanners {

  // ---- text ----

  function LowerChar(c: char): char {
    if 'A' <= c <= 'Z' then c - 'A' + 'a' else c
  }

  function Lower(s: string): (t: string)
    ensures |t| == |s| && forall i :: 0 <= i < |s| ==> t[i] == LowerChar(s[i])
  {
    seq(|s|, i requires 0 <= i < |s| => LowerChar(s[i]))
  }

  function Reversed(s: string): (t: string)
    ensures |t| == |s| && forall i :: 0 <= i < |s| ==> t[i] == s[|s| - 1 - i]
  {
    seq(|s|, i requires 0 <= i < |s| => s[|s| - 1 - i])
  }

  /** Lowering moves the capitals by 32 and leaves every other character as it is. */
  lemma LowerIsExact(s: string, i: nat)
    requires i < |s|
    ensures Lower(s)[i] as int == if 65 <= s[i] as int <= 90 then s[i] as int + 32 else s[i] as int
  {
  }

  predicate OccursAt(s: string, sub: string, k: int) {
    0 <= k <= |s| - |sub| && s[k..k + |sub|] == sub
  }

  predicate Contains(s: string, sub: string) {
    exists k | 0 <= k <= |s| - |sub| :: OccursAt(s, sub, k)
  }

  /** The loop of reverseString, swapping from both ends. */
  method ReverseInPlace(a: array<char>)
    modifies a
    ensures a[..] == Reversed(old(a[..]))
  {
    var i, j := 0, a.Length - 1;
    while i < j
      invariant 0 <= i <= j + 1 && i + j == a.Length - 1
      invariant forall k :: (0 <= k < i || j < k < a.Length) ==> a[k] == old(a[a.Length - 1 - k])
      invariant forall k :: i <= k <= j ==> a[k] == old(a[k])
    {
      a[i], a[j] := a[j], a[i];
      i, j := i + 1, j - 1;
    }
  }

  method ReverseString(s: string) returns (t: string)
    ensures t == Reversed(s)
  {
    var runes := new char[|s|](i requires 0 <= i < |s| => s[i]);
    assert runes[..] == s;
    ReverseInPlace(runes);
    t := runes[..];
  }

  lemma ReversedTwice(s: string)
    ensures Reversed(Reversed(s)) == s
  {
  }

  lemma ReversedWindow(s: string, i: nat, len: nat)
    requires i + len <= |s|
    ensures Reversed(s)[|s| - len - i..|s| - i] == Reversed(s[i..i + len])
  {
  }

  lemma ContainsReversed(s: string, sub: string)
    requires Contains(s, sub)
    ensures Contains(Reversed(s), Reversed(sub))
  {
    var k :| 0 <= k <= |s| - |sub| && OccursAt(s, sub, k);
    ReversedWindow(s, k, |sub|);
    assert OccursAt(Reversed(s), Reversed(sub), |s| - |sub| - k);
  }

  // ---- repetition ----

  /** The window of length `len` at `i` repeats with period `k`. */
  ghost predicate Periodic(s: string, i: int, len: int, k: int) {
    0 <= i && 0 <= k <= len && i + len <= |s| && forall j :: i <= j < i + len - k ==> s[j] == s[j + k]
  }

  /** The fewest whole repetitions of a k-character pattern that make ten characters: k * ceil(10 / k). */
  function RepetitionLength(k: int): int
    requires k > 0
  {
    k * ((10 + k - 1) / k)
  }

  ghost predicate Repetitive(s: string) {
    exists k, i :: 1 <= k <= 3 && Periodic(s, i, RepetitionLength(k), k)
  }

  /** After `repeats` copies of the pattern at i there is no further copy. */
  ghost predicate RunEnds(s: string, i: nat, k: int, repeats: int) {
    var j := i + repeats * k;
    && 1 <= k <= 3 && 1 <= repeats
    && Periodic(s, i, repeats * k, k)
    && (j + k > |s| || s[j..j + k] != s[j - k..j])
  }

  lemma ShortRunMissesWindow(s: string, i: nat, k: int, repeats: int)
    requires RunEnds(s, i, k, repeats) && repeats * k < 10
    ensures !Periodic(s, i, RepetitionLength(k), k)
  {
    var j := i + repeats * k;
    assert j + k <= i + RepetitionLength(k);
    if j + k <= |s| {
      var x :| 0 <= x < k && s[j..j + k][x] != s[j - k..j][x];
      assert s[j - k + x] != s[j - k + x + k];
    }
  }

  /** A run and its end decide the window. */
  lemma RunDecidesWindow(s: string, i: nat, k: int, repeats: int)
    requires RunEnds(s, i, k, repeats)
    ensures repeats * k >= 10 <==> Periodic(s, i, RepetitionLength(k), k)
  {
    if repeats * k >= 10 {
      assert repeats * k >= RepetitionLength(k);
    } else {
      ShortRunMissesWindow(s, i, k, repeats);
    }
  }

  method HasRepetitivePatterns(s: string) returns (found: bool)
    ensures found <==> Repetitive(s)
  {
    var n := |s|;
    for k := 1 to 4
      invariant forall k', i :: 1 <= k' < k ==> !Periodic(s, i, RepetitionLength(k'), k')
    {
      var i := 0;
      while i <= n - k * 3
        invariant 0 <= i
        invariant forall i' :: 0 <= i' < i ==> !Periodic(s, i', RepetitionLength(k), k)
      {
        var repeats := CountRepeats(s, i, k);
        RunDecidesWindow(s, i, k, repeats);
        if repeats * k >= 10 {
          return true;
        }
        i := i + 1;
      }
      assert RepetitionLength(k) >= 3 * k;
    }
    return false;
  }

  /** The inner loop: copies of the k-character pattern at i, one after another. */
  method CountRepeats(s: string, i: nat, k: int) returns (repeats: int)
    requires 1 <= k <= 3 && i + 3 * k <= |s|
    ensures RunEnds(s, i, k, repeats)
  {
    var pattern := s[i..i + k];
    repeats := 1;
    var j := i + k;
    while j + k <= |s|
      invariant 1 <= repeats && j == i + repeats * k <= |s|
      invariant Periodic(s, i, repeats * k, k) && s[j - k..j] == pattern
      decreases |s| - j
    {
      if s[j..j + k] == pattern {
        OneMoreCopy(s, i, k, repeats);
        repeats := repeats + 1;
      } else {
        break;
      }
      j := j + k;
    }
  }

  lemma OneMoreCopy(s: string, i: nat, k: int, repeats: int)
    requires 1 <= k <= 3 && 1 <= repeats && Periodic(s, i, repeats * k, k)
    requires var j := i + repeats * k; j + k <= |s| && s[j - k..j] == s[j..j + k]
    ensures Periodic(s, i, (repeats + 1) * k, k)
  {
    var j := i + repeats * k;
    forall x | j - k <= x < j
      ensures s[x] == s[x + k]
    {
      assert s[x] == s[j - k..j][x - (j - k)] && s[x + k] == s[j..j + k][x - (j - k)];
    }
  }

  lemma RepetitionSurvivesPadding(before: string, s: string, after: string)
    requires Repetitive(s)
    ensures Repetitive(before + s + after)
  {
    var k, i :| 1 <= k <= 3 && Periodic(s, i, RepetitionLength(k), k);
    var t := before + s + after;
    forall j | |before| + i <= j < |before| + i + RepetitionLength(k) - k
      ensures t[j] == t[j + k]
    {
      assert t[j] == s[j - |before|] && t[j + k] == s[j - |before| + k];
    }
    assert Periodic(t, |before| + i, RepetitionLength(k), k);
  }

  lemma ReversedRepetition(s: string)
    requires Repetitive(s)
    ensures Repetitive(Reversed(s))
  {
    var k, i :| 1 <= k <= 3 && Periodic(s, i, RepetitionLength(k), k);
    var t, n, len := Reversed(s), |s|, RepetitionLength(k);
    forall j | n - len - i <= j < n - i - k
      ensures t[j] == t[j + k]
    {
      assert s[n - 1 - j - k] == s[n - 1 - j - k + k];
    }
    assert Periodic(t, n - len - i, len, k);
  }

  lemma RepetitionIgnoresDirection(s: string)
    ensures Repetitive(Reversed(s)) <==> Repetitive(s)
  {
    if Repetitive(s) {
      ReversedRepetition(s);
    }
    if Repetitive(Reversed(s)) {
      ReversedRepetition(Reversed(s));
      ReversedTwice(s);
    }
  }

  // ---- sequences ----

  const KEYBOARD_ROWS := ["qwertyuiop", "asdfghjkl", "zxcvbnm"]

  /** Eight characters from i, each `step` above the one before. */
  ghost predicate Steps(t: string, i: int, step: int) {
    0 <= i <= |t| - 8 && forall j :: i <= j < i + 7 ==> t[j + 1] as int == t[j] as int + step
  }

  /** Eight characters from i that lie in the row, read either way. */
  predicate AlongRow(t: string, i: int, row: string) {
    0 <= i <= |t| - 8 && (Contains(row, t[i..i + 8]) || Contains(Reversed(row), t[i..i + 8]))
  }

  ghost predicate AlongKeyboard(t: string, i: int) {
    exists r :: 0 <= r < |KEYBOARD_ROWS| && AlongRow(t, i, KEYBOARD_ROWS[r])
  }

  ghost predicate Sequential(s: string) {
    var t := Lower(s);
    exists i :: Steps(t, i, 1) || Steps(t, i, -1) || AlongKeyboard(t, i)
  }

  method StepsBy(t: string, i: nat, step: int) returns (all: bool)
    requires i + 8 <= |t|
    ensures all <==> Steps(t, i, step)
  {
    all := true;
    for j := 0 to 7
      invariant all
      invariant forall j' :: i <= j' < i + j ==> t[j' + 1] as int == t[j'] as int + step
    {
      if t[i + j + 1] as int != t[i + j] as int + step {
        return false;
      }
    }
  }

  method HasSequence(s: string) returns (found: bool)
    ensures found <==> Sequential(s)
  {
    var t := Lower(s);
    var n := |t|;
    if n < 8 {
      return false;
    }
    for i := 0 to n - 7
      invariant forall i' :: i' < i ==> !Steps(t, i', 1) && !Steps(t, i', -1)
    {
      var isAsc := StepsBy(t, i, 1);
      if isAsc {
        return true;
      }
      var isDesc := StepsBy(t, i, -1);
      if isDesc {
        return true;
      }
    }
    found := HasKeyboardRun(t);
  }

  method HasKeyboardRun(t: string) returns (found: bool)
    requires |t| >= 8
    ensures found <==> exists i :: AlongKeyboard(t, i)
  {
    for r := 0 to |KEYBOARD_ROWS|
      invariant forall r', i :: 0 <= r' < r ==> !AlongRow(t, i, KEYBOARD_ROWS[r'])
    {
      var row := KEYBOARD_ROWS[r];
      var reverse := ReverseString(row);
      for i := 0 to |t| - 7
        invariant forall i' :: i' < i ==> !AlongRow(t, i', row)
      {
        var sub := t[i..i + 8];
        if Contains(row, sub) || Contains(reverse, sub) {
          assert AlongRow(t, i, KEYBOARD_ROWS[r]);
          assert AlongKeyboard(t, i);
          return true;
        }
      }
    }
    return false;
  }

  /** A window of t is the same window, shifted, of any text that has t at offset b. */
  lemma ShiftedWindow(t: string, u: string, b: nat, i: int, step: int)
    requires b + |t| <= |u| && u[b..b + |t|] == t
    ensures Steps(t, i, step) ==> Steps(u, b + i, step)
    ensures AlongKeyboard(t, i) ==> AlongKeyboard(u, b + i)
  {
    assert forall j :: 0 <= j < |t| ==> t[j] == u[b..b + |t|][j];
    if Steps(t, i, step) {
      forall j | b + i <= j < b + i + 7
        ensures u[j + 1] as int == u[j] as int + step
      {
        assert u[j] == t[j - b] && u[j + 1] == t[j - b + 1];
      }
    }
    if AlongKeyboard(t, i) {
      var r :| 0 <= r < |KEYBOARD_ROWS| && AlongRow(t, i, KEYBOARD_ROWS[r]);
      var shifted, window := u[b + i..b + i + 8], t[i..i + 8];
      forall x | 0 <= x < 8
        ensures shifted[x] == window[x]
      {
        assert t[i + x] == u[b..b + |t|][i + x];
      }
      assert shifted == window;
      assert AlongRow(u, b + i, KEYBOARD_ROWS[r]);
    }
  }

  lemma SequenceSurvivesPadding(before: string, s: string, after: string)
    requires Sequential(s)
    ensures Sequential(before + s + after)
  {
    var t, u, b := Lower(s), Lower(before + s + after), |before|;
    assert u[b..b + |t|] == t;
    var i :| Steps(t, i, 1) || Steps(t, i, -1) || AlongKeyboard(t, i);
    ShiftedWindow(t, u, b, i, 1);
    ShiftedWindow(t, u, b, i, -1);
  }

  lemma ReversedSequence(s: string)
    requires Sequential(s)
    ensures Sequential(Reversed(s))
  {
    var t, u, n := Lower(s), Lower(Reversed(s)), |s|;
    assert u == Reversed(t);
    var i :| Steps(t, i, 1) || Steps(t, i, -1) || AlongKeyboard(t, i);
    var i' := n - 8 - i;
    if Steps(t, i, 1) || Steps(t, i, -1) {
      ReversedSteps(t, i, 1);
      ReversedSteps(t, i, -1);
    } else {
      var r :| 0 <= r < |KEYBOARD_ROWS| && AlongRow(t, i, KEYBOARD_ROWS[r]);
      ReversedAlongRow(t, i, KEYBOARD_ROWS[r]);
      assert AlongKeyboard(u, i');
    }
  }

  lemma ReversedSteps(t: string, i: int, step: int)
    ensures Steps(t, i, step) ==> Steps(Reversed(t), |t| - 8 - i, -step)
  {
    if Steps(t, i, step) {
      forall j | |t| - 8 - i <= j < |t| - 8 - i + 7
        ensures Reversed(t)[j + 1] as int == Reversed(t)[j] as int - step
      {
        var k := |t| - 2 - j;
        assert t[k + 1] as int == t[k] as int + step;
      }
    }
  }

  lemma ReversedAlongRow(t: string, i: int, row: string)
    requires AlongRow(t, i, row)
    ensures AlongRow(Reversed(t), |t| - 8 - i, row)
  {
    var w := t[i..i + 8];
    ReversedWindow(t, i, 8);
    assert Reversed(t)[|t| - 8 - i..|t| - 8 - i + 8] == Reversed(w);
    if Contains(row, w) {
      ContainsReversed(row, w);
    } else {
      ContainsReversed(Reversed(row), w);
      ReversedTwice(row);
    }
  }

  lemma SequenceIgnoresDirection(s: string)
    ensures Sequential(Reversed(s)) <==> Sequential(s)
  {
    if Sequential(s) {
      ReversedSequence(s);
    }
    if Sequential(Reversed(s)) {
      ReversedSequence(Reversed(s));
      ReversedTwice(s);
    }
  }
}
