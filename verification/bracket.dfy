/** The bracketed printing reference that both decklist parsers accept
    after the optional quantity: the pattern `\[([A-Z0-9]+)#?([A-Z0-9]+)\] `
    (models/Deck.php line 65 writes the runs as `{1,}`, js/Card.ts line 6 as `+`).
    The recogniser follows the regex engines' greedy, backtracking choice. */
module Bracket {
  import opened Wrappers
  import opened Text

  /** `[A-Z0-9]`: upper-case ASCII letters and digits only. */
  predicate IsCodeChar(c: char) {
    'A' <= c <= 'Z' || '0' <= c <= '9'
  }

  predicate IsCode(w: String) {
    |w| >= 1 && forall i :: 0 <= i < |w| ==> IsCodeChar(w[i])
  }

  /** The length of the longest run of code characters that starts at `from`. */
  function CodeRun(s: String, from: nat): (n: nat)
    requires from <= |s|
    ensures from + n <= |s|
    ensures forall k :: from <= k < from + n ==> IsCodeChar(s[k])
    ensures from + n == |s| || !IsCodeChar(s[from + n])
    decreases |s| - from
  {
    if from < |s| && IsCodeChar(s[from]) then 1 + CodeRun(s, from + 1) else 0
  }

  /** A run that is known to stop at a given place has that length. */
  lemma {:induction false} CodeRunExact(s: String, from: nat, n: nat)
    requires from + n <= |s|
    requires forall k :: from <= k < from + n ==> IsCodeChar(s[k])
    requires from + n == |s| || !IsCodeChar(s[from + n])
    ensures CodeRun(s, from) == n
    decreases n
  {
    if n > 0 {
      CodeRunExact(s, from + 1, n - 1);
    }
  }

  /** The two capture groups, and whether the `#` was consumed. */
  datatype Ref = Ref(first: String, second: String, hash: bool)

  /** The text a reference spans, closing "] " included. */
  function Spelling(r: Ref): String {
    "[" + r.first + (if r.hash then "#" else "") + r.second + "] "
  }

  /** A recognised reference spans no line terminator. */
  lemma SpellingPrintable(r: Ref)
    requires IsCode(r.first) && IsCode(r.second)
    ensures forall c :: c in Spelling(r) ==> !IsLineTerminator(c)
  {
    var sp := Spelling(r);
    forall c | c in sp
      ensures !IsLineTerminator(c)
    {
      assert c in "[" || c in r.first || c in (if r.hash then "#" else "") || c in r.second || c in "] ";
      if c in r.first {
        var j :| 0 <= j < |r.first| && r.first[j] == c;
      }
      if c in r.second {
        var j :| 0 <= j < |r.second| && r.second[j] == c;
      }
    }
  }

  predicate ClosesAt(s: String, i: nat) {
    i + 2 <= |s| && s[i] == ']' && s[i + 1] == ' '
  }

  /** The bracket group matched at the start of s, or None when the group
      cannot match there. The first run is taken as long as possible; when no
      `#` follows it, the engine gives back one character so that the second
      run can match, which is why `[MIR]` yields MI and R. What it recognises
      is a spelling of the pattern: two codes between `[` and `] `, with or
      without a `#`, at the start of the text (MatchComplete is the converse). */
  function Match(s: String): (r: Option<Ref>)
    ensures r.Some? ==> IsCode(r.value.first) && IsCode(r.value.second)
    ensures r.Some? ==> Spelling(r.value) <= s
  {
    if |s| == 0 || s[0] != '[' then None
    else
      var n := CodeRun(s, 1);
      if n == 0 then None
      else if 1 + n < |s| && s[1 + n] == '#' then
        var m := CodeRun(s, 2 + n);
        if m >= 1 && ClosesAt(s, 2 + n + m) then
          SpelledWithHash(s, n, m);
          Some(Ref(s[1..1 + n], s[2 + n..2 + n + m], true))
        else None
      else if n >= 2 && ClosesAt(s, 1 + n) then
        SpelledWithoutHash(s, n);
        Some(Ref(s[1..n], s[n..1 + n], false))
      else None
  }

  lemma SpelledWithHash(s: String, n: nat, m: nat)
    requires 4 + n + m <= |s| && s[0] == '[' && s[1 + n] == '#' && ClosesAt(s, 2 + n + m)
    ensures Spelling(Ref(s[1..1 + n], s[2 + n..2 + n + m], true)) == s[..4 + n + m]
  {
  }

  lemma SpelledWithoutHash(s: String, n: nat)
    requires 3 + n <= |s| && n >= 1 && s[0] == '[' && ClosesAt(s, 1 + n)
    ensures Spelling(Ref(s[1..n], s[n..1 + n], false)) == s[..3 + n]
  {
  }

  /** With a `#` between two codes, the codes are the two groups. */
  lemma MatchWithHash(a: String, b: String, rest: String)
    requires IsCode(a) && IsCode(b)
    ensures Match("[" + a + "#" + b + "] " + rest) == Some(Ref(a, b, true))
  {
    HashLayout(a, b, rest);
    MatchHashAt("[" + a + "#" + b + "] " + rest, a, b);
  }

  lemma MatchHashAt(s: String, a: String, b: String)
    requires IsCode(a) && IsCode(b)
    requires 4 + |a| + |b| <= |s| && s[0] == '['
    requires s[1..1 + |a|] == a && s[1 + |a|] == '#'
    requires s[2 + |a|..2 + |a| + |b|] == b && ClosesAt(s, 2 + |a| + |b|)
    ensures Match(s) == Some(Ref(a, b, true))
  {
    CodeRunOf(s, 1, a);
    CodeRunOf(s, 2 + |a|, b);
    MatchHashRuns(s, |a|, |b|);
  }

  /** Match once the lengths of both runs are known. */
  lemma MatchHashRuns(s: String, n: nat, m: nat)
    requires 4 + n + m <= |s| && s[0] == '[' && s[1 + n] == '#' && ClosesAt(s, 2 + n + m)
    requires n >= 1 && m >= 1 && CodeRun(s, 1) == n && CodeRun(s, 2 + n) == m
    ensures Match(s) == Some(Ref(s[1..1 + n], s[2 + n..2 + n + m], true))
  {
  }

  /** The run at `from` is a code spelled there, when no code character follows it. */
  lemma CodeRunOf(s: String, from: nat, w: String)
    requires IsCode(w) && from + |w| <= |s| && s[from..from + |w|] == w
    requires from + |w| == |s| || !IsCodeChar(s[from + |w|])
    ensures CodeRun(s, from) == |w|
  {
    forall k | from <= k < from + |w|
      ensures IsCodeChar(s[k])
    {
      assert s[k] == w[k - from];
    }
    CodeRunExact(s, from, |w|);
  }

  /** Where the parts of "[a#b] rest" sit. */
  lemma HashLayout(a: String, b: String, rest: String)
    ensures var s := "[" + a + "#" + b + "] " + rest;
      && |s| == 4 + |a| + |b| + |rest| && s[0] == '['
      && s[1..1 + |a|] == a && s[1 + |a|] == '#'
      && s[2 + |a|..2 + |a| + |b|] == b && ClosesAt(s, 2 + |a| + |b|)
  {
    var s := "[" + a + "#" + b + "] " + rest;
    assert s[1..1 + |a|] == a;
    assert s[2 + |a|..2 + |a| + |b|] == b;
  }

  /** Without a `#`, the last character of the code becomes the second group. */
  lemma MatchWithoutHash(w: String, rest: String)
    requires IsCode(w) && |w| >= 2
    ensures Match("[" + w + "] " + rest) == Some(Ref(w[..|w| - 1], w[|w| - 1..], false))
  {
    var s := "[" + w + "] " + rest;
    assert s[1..1 + |w|] == w;
    CodeRunExact(s, 1, |w|);
    assert ClosesAt(s, 1 + |w|);
    assert s[1..|w|] == w[..|w| - 1];
    assert s[|w|..1 + |w|] == w[|w| - 1..];
  }

  /** Whenever the text starts with some spelling of the pattern, the group
      matches; together with Match's postcondition this makes Match an exact
      recogniser of the pattern. */
  lemma MatchComplete(s: String, a: String, b: String, hash: bool)
    requires IsCode(a) && IsCode(b)
    requires Spelling(Ref(a, b, hash)) <= s
    ensures Match(s).Some?
  {
    var k := |Spelling(Ref(a, b, hash))|;
    var rest := s[k..];
    if hash {
      assert s == "[" + a + "#" + b + "] " + rest;
      MatchWithHash(a, b, rest);
    } else {
      var w := a + b;
      assert s == "[" + w + "] " + rest;
      MatchWithoutHash(w, rest);
    }
  }

  /** A lower-case code is never recognised. */
  lemma LowerCaseRejected(s: String)
    requires |s| >= 2 && s[0] == '[' && 'a' <= s[1] <= 'z'
    ensures Match(s) == None
  {
  }
}
