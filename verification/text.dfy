/** String operations the PHP and TypeScript code relies on: PHP trim(),
    explode() and JavaScript split() on one character, the part before the
    first "//", strpos() containment, ASCII strtolower(), leading digit runs
    and PHP's empty() on strings. */
module Text {

  type String = seq<char>

  /** The characters PHP's trim() strips by default: space, tab, line feed,
      carriage return, NUL and vertical tab. */
  predicate IsTrimmable(c: char) {
    c == ' ' || c == '\t' || c == '\n' || c == '\r' || c == '\0' || c == '\U{000B}'
  }

  /** Every character is one trim() removes. */
  predicate AllTrimmable(t: String) {
    forall k :: 0 <= k < |t| ==> IsTrimmable(t[k])
  }

  /** How many trimmable characters run from `from` onwards. */
  function LeadRun(s: String, from: nat): (n: nat)
    requires from <= |s|
    ensures from + n <= |s|
    ensures forall k :: from <= k < from + n ==> IsTrimmable(s[k])
    ensures from + n == |s| || !IsTrimmable(s[from + n])
    decreases |s| - from
  {
    if from < |s| && IsTrimmable(s[from]) then 1 + LeadRun(s, from + 1) else 0
  }

  /** Where the run of trimmable characters that ends at `hi` begins, not
      going below `lo`. */
  function TrailStart(s: String, lo: nat, hi: nat): (e: nat)
    requires lo <= hi <= |s|
    ensures lo <= e <= hi
    ensures forall k :: e <= k < hi ==> IsTrimmable(s[k])
    ensures e == lo || !IsTrimmable(s[e - 1])
    decreases hi
  {
    if lo < hi && IsTrimmable(s[hi - 1]) then TrailStart(s, lo, hi - 1) else hi
  }

  /** PHP trim(): the middle slice of the text, with only trimmable
      characters dropped on either side (LeadRun(s, 0) of them on the left). */
  function Trim(s: String): (r: String)
    ensures var i := LeadRun(s, 0);
      && i + |r| <= |s| && r == s[i..i + |r|]
      && AllTrimmable(s[..i]) && AllTrimmable(s[i + |r|..])
    ensures r == [] || (!IsTrimmable(r[0]) && !IsTrimmable(r[|r| - 1]))
    ensures (s == [] || (!IsTrimmable(s[0]) && !IsTrimmable(s[|s| - 1]))) ==> r == s
  {
    var i := LeadRun(s, 0);
    var j := TrailStart(s, i, |s|);
    TrimmedSlice(s, i, j);
    s[i..j]
  }

  /** The slice between the two runs, and what the runs cut. */
  lemma TrimmedSlice(s: String, i: nat, j: nat)
    requires i <= j <= |s|
    requires forall k :: 0 <= k < i ==> IsTrimmable(s[k])
    requires forall k :: j <= k < |s| ==> IsTrimmable(s[k])
    ensures AllTrimmable(s[..i]) && AllTrimmable(s[j..])
  {
    forall k | 0 <= k < i
      ensures IsTrimmable(s[..i][k])
    {
      assert s[..i][k] == s[k];
    }
    forall k | 0 <= k < |s| - j
      ensures IsTrimmable(s[j..][k])
    {
      assert s[j..][k] == s[j + k];
    }
  }

  /** PHP explode() and JavaScript String.prototype.split() with a
      one-character separator: the maximal separator-free pieces, in order. */
  function Split(s: String, sep: char): (parts: seq<String>)
    ensures |parts| >= 1
    ensures forall i :: 0 <= i < |parts| ==> sep !in parts[i]
  {
    if s == [] then [[]]
    else
      var rest := Split(s[1..], sep);
      if s[0] == sep then [[]] + rest else [[s[0]] + rest[0]] + rest[1..]
  }

  /** PHP implode(): the pieces with the separator between neighbours. */
  function Join(parts: seq<String>, sep: char): String
    requires |parts| >= 1
  {
    if |parts| == 1 then parts[0] else parts[0] + [sep] + Join(parts[1..], sep)
  }

  /** Splitting loses nothing: joining the pieces gives back the string. */
  lemma {:induction false} JoinSplit(s: String, sep: char)
    ensures Join(Split(s, sep), sep) == s
  {
    if s != [] {
      var rest := Split(s[1..], sep);
      JoinSplit(s[1..], sep);
      if s[0] != sep {
        if |rest| == 1 {
          assert Split(s, sep) == [[s[0]] + rest[0]];
        } else {
          assert Split(s, sep)[1..] == rest[1..];
        }
      }
    }
  }

  /** Splitting a join of separator-free pieces gives back the pieces. */
  lemma {:induction false} SplitJoin(parts: seq<String>, sep: char)
    requires |parts| >= 1
    requires forall i :: 0 <= i < |parts| ==> sep !in parts[i]
    ensures Split(Join(parts, sep), sep) == parts
  {
    if |parts| == 1 {
      SplitFree(parts[0], sep);
    } else {
      SplitJoin(parts[1..], sep);
      SplitPrefix(parts[0], Join(parts[1..], sep), sep);
      assert Join(parts, sep) == parts[0] + ([sep] + Join(parts[1..], sep));
      assert [parts[0]] + parts[1..] == parts;
    }
  }

  /** A string without the separator is a single piece. */
  lemma {:induction false} SplitFree(s: String, sep: char)
    requires sep !in s
    ensures Split(s, sep) == [s]
  {
    if s != [] {
      assert s[0] in s;
      assert forall c :: c in s[1..] ==> c in s;
      SplitFree(s[1..], sep);
      assert [s[0]] + s[1..] == s;
    }
  }

  lemma {:induction false} SplitPrefix(w: String, t: String, sep: char)
    requires sep !in w
    ensures Split(w + [sep] + t, sep) == [w] + Split(t, sep)
  {
    if w == [] {
      assert w + [sep] + t == [sep] + t;
      assert ([sep] + t)[1..] == t;
    } else {
      var s := w + [sep] + t;
      assert s[1..] == w[1..] + [sep] + t;
      SplitPrefix(w[1..], t, sep);
      var rest := Split(s[1..], sep);
      assert rest == [w[1..]] + Split(t, sep);
      assert Split(s, sep) == [[w[0]] + rest[0]] + rest[1..];
      assert [w[0]] + w[1..] == w;
      assert rest[1..] == Split(t, sep);
    }
  }

  /** A string contains the separator exactly when it splits into two or more pieces. */
  lemma {:induction false} SplitCount(s: String, sep: char)
    ensures sep in s <==> |Split(s, sep)| >= 2
  {
    if s != [] {
      SplitCount(s[1..], sep);
      assert sep in s <==> s[0] == sep || sep in s[1..];
    }
  }

  /** There is a "//" starting at index i. */
  predicate SlashesAt(s: String, i: int) {
    0 <= i && i + 1 < |s| && s[i] == '/' && s[i + 1] == '/'
  }

  predicate HasDoubleSlash(s: String) {
    exists i :: 0 <= i < |s| && SlashesAt(s, i)
  }

  /** explode('//', s)[0]: everything before the first "//", or s itself. */
  function BeforeDoubleSlash(s: String): (r: String)
    ensures r <= s
    ensures forall i :: 0 <= i < |r| ==> !SlashesAt(s, i)
    ensures |r| < |s| ==> SlashesAt(s, |r|)
  {
    if |s| < 2 then s
    else if s[0] == '/' && s[1] == '/' then []
    else
      var rest := BeforeDoubleSlash(s[1..]);
      assert forall i :: 1 <= i <= |rest| ==> (SlashesAt(s, i) <==> SlashesAt(s[1..], i - 1));
      [s[0]] + rest
  }

  /** Appending "//" and any comment to a line that has none leaves the part before it unchanged. */
  lemma {:induction false} BeforeDoubleSlashOfComment(line: String, comment: String)
    requires !HasDoubleSlash(line)
    requires line == [] || line[|line| - 1] != '/'
    ensures BeforeDoubleSlash(line + "//" + comment) == line
  {
    var s := line + "//" + comment;
    assert SlashesAt(s, |line|);
    forall i | 0 <= i < |line|
      ensures !SlashesAt(s, i)
    {
      if i + 1 < |line| {
        assert s[i] == line[i] && s[i + 1] == line[i + 1];
        assert !SlashesAt(line, i);
      } else {
        assert s[i] == line[|line| - 1];
      }
    }
  }

  /** A string without "//" is kept whole. */
  lemma BeforeDoubleSlashWithout(s: String)
    requires !HasDoubleSlash(s)
    ensures BeforeDoubleSlash(s) == s
  {
    assert |BeforeDoubleSlash(s)| < |s| ==> SlashesAt(s, |BeforeDoubleSlash(s)|);
  }

  /** strpos($s, $sub) !== false. */
  function Contains(s: String, sub: String): (b: bool)
    ensures b <==> exists i :: 0 <= i <= |s| && sub <= s[i..]
  {
    if sub <= s then assert s[0..] == s; true
    else if s == [] then false
    else
      var b := Contains(s[1..], sub);
      assert forall i :: 1 <= i <= |s| ==> s[i..] == s[1..][i - 1..];
      b
  }

  /** PHP strtolower() on one character (ASCII only). */
  function LowerChar(c: char): char {
    if 'A' <= c <= 'Z' then (c as int + 32) as char else c
  }

  function Lower(s: String): (r: String)
    ensures |r| == |s|
    ensures forall i :: 0 <= i < |s| ==> r[i] == LowerChar(s[i])
  {
    seq(|s|, i requires 0 <= i < |s| => LowerChar(s[i]))
  }

  /** ECMAScript line terminators, which `.` in a JavaScript regex does not
      match; PCRE's `.` (PHP) excludes only the line feed. */
  predicate IsLineTerminator(c: char) {
    c == '\n' || c == '\r' || c == '\U{2028}' || c == '\U{2029}'
  }

  predicate IsDigit(c: char) {
    '0' <= c <= '9'
  }

  predicate AllDigits(s: String) {
    forall i :: 0 <= i < |s| ==> IsDigit(s[i])
  }

  /** The length of the longest run of digits that starts at `from`. */
  function DigitRun(s: String, from: nat): (n: nat)
    requires from <= |s|
    ensures from + n <= |s|
    ensures forall k :: from <= k < from + n ==> IsDigit(s[k])
    ensures from + n == |s| || !IsDigit(s[from + n])
    decreases |s| - from
  {
    if from < |s| && IsDigit(s[from]) then 1 + DigitRun(s, from + 1) else 0
  }

  lemma {:induction false} DigitRunExact(s: String, from: nat, n: nat)
    requires from + n <= |s|
    requires forall k :: from <= k < from + n ==> IsDigit(s[k])
    requires from + n == |s| || !IsDigit(s[from + n])
    ensures DigitRun(s, from) == n
    decreases n
  {
    if n > 0 {
      DigitRunExact(s, from + 1, n - 1);
    }
  }

  /** The decimal value of a digit string. */
  function DigitsValue(d: String): nat
    requires AllDigits(d)
  {
    if d == [] then 0 else DigitsValue(d[..|d| - 1]) * 10 + (d[|d| - 1] as int - '0' as int)
  }

  /** PHP empty() on a string: true for "" and for "0". */
  predicate PhpEmpty(s: String) {
    s == "" || s == "0"
  }
}
