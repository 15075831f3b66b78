/** The mana-symbol markup of models/Deprecated/Card.php:
    convertManaSymbolsToHtml rewrites every `{X}` or `{X/Y}` token of a text
    with the pattern `\{(([A-z0-9]+)(\/([A-z0-9]+))?)\}` and leaves every other
    character alone; convertIndividualManaSymbolToHtml renders one symbol. */
module ManaCodec {
  import opened Wrappers
  import opened Text
  import Seqs

  /** `[A-z0-9]`: the range A-z runs from 'A' to 'z' and so also admits
      `[`, `\`, `]`, `^`, `_` and the backtick. */
  predicate IsSymbolChar(c: char) {
    'A' <= c <= 'z' || '0' <= c <= '9'
  }

  predicate IsSymbol(w: String) {
    |w| >= 1 && forall i :: 0 <= i < |w| ==> IsSymbolChar(w[i])
  }

  /** The length of the longest run of symbol characters that starts at `from`. */
  function SymbolRun(s: String, from: nat): (n: nat)
    requires from <= |s|
    ensures from + n <= |s|
    ensures forall k :: from <= k < from + n ==> IsSymbolChar(s[k])
    ensures from + n == |s| || !IsSymbolChar(s[from + n])
    decreases |s| - from
  {
    if from < |s| && IsSymbolChar(s[from]) then 1 + SymbolRun(s, from + 1) else 0
  }

  lemma {:induction false} SymbolRunExact(s: String, from: nat, n: nat)
    requires from + n <= |s|
    requires forall k :: from <= k < from + n ==> IsSymbolChar(s[k])
    requires from + n == |s| || !IsSymbolChar(s[from + n])
    ensures SymbolRun(s, from) == n
    decreases n
  {
    if n > 0 {
      SymbolRunExact(s, from + 1, n - 1);
    }
  }

  /** A text as the replacement sees it: characters left alone, and tokens
      with capture group 2 (`first`) and, when present, group 4 (`second`). */
  datatype Piece = Literal(c: char) | Token(first: String, second: Option<String>)

  predicate WellFormed(p: Piece) {
    p.Token? ==> IsSymbol(p.first) && (p.second.Some? ==> IsSymbol(p.second.value))
  }

  /** The text a piece spans. */
  function Spell(p: Piece): String {
    match p
    case Literal(c) => [c]
    case Token(a, None) => "{" + a + "}"
    case Token(a, Some(b)) => "{" + a + "/" + b + "}"
  }

  /** The token the pattern matches at the start of `s`, or None: a
      well-formed token spelled at the start of the text (MatchTokenComplete
      is the converse). Neither `/` nor `}` is a symbol character, so the
      greedy runs never give anything back. */
  function MatchToken(s: String): (r: Option<Piece>)
    ensures r.Some? ==> r.value.Token? && WellFormed(r.value)
    ensures r.Some? ==> Spell(r.value) <= s
  {
    if |s| == 0 || s[0] != '{' then None
    else
      var n := SymbolRun(s, 1);
      if n == 0 || 1 + n == |s| then None
      else if s[1 + n] == '}' then
        SpelledSingle(s, n);
        Some(Token(s[1..1 + n], None))
      else if s[1 + n] == '/' then
        var m := SymbolRun(s, 2 + n);
        if m >= 1 && 2 + n + m < |s| && s[2 + n + m] == '}' then
          SpelledPair(s, n, m);
          Some(Token(s[1..1 + n], Some(s[2 + n..2 + n + m])))
        else None
      else None
  }

  lemma SpelledSingle(s: String, n: nat)
    requires 2 + n <= |s| && s[0] == '{' && s[1 + n] == '}'
    ensures Spell(Token(s[1..1 + n], None)) == s[..2 + n]
  {
  }

  lemma SpelledPair(s: String, n: nat, m: nat)
    requires 3 + n + m <= |s| && s[0] == '{' && s[1 + n] == '/' && s[2 + n + m] == '}'
    ensures Spell(Token(s[1..1 + n], Some(s[2 + n..2 + n + m]))) == s[..3 + n + m]
  {
  }

  /** A well-formed token at the start of the text is matched as itself. */
  lemma MatchTokenComplete(t: Piece, rest: String)
    requires t.Token? && WellFormed(t)
    ensures MatchToken(Spell(t) + rest) == Some(t)
  {
    if t.second.Some? {
      MatchPair(t.first, t.second.value, rest);
    } else {
      MatchSingle(t.first, rest);
    }
  }

  lemma MatchSingle(a: String, rest: String)
    requires IsSymbol(a)
    ensures MatchToken("{" + a + "}" + rest) == Some(Token(a, None))
  {
    var s := "{" + a + "}" + rest;
    assert s[1..1 + |a|] == a;
    assert s[1 + |a|] == '}';
    SymbolRunExact(s, 1, |a|);
  }

  lemma MatchPair(a: String, b: String, rest: String)
    requires IsSymbol(a) && IsSymbol(b)
    ensures MatchToken("{" + a + "/" + b + "}" + rest) == Some(Token(a, Some(b)))
  {
    PairLayout(a, b, rest);
    MatchPairAt("{" + a + "/" + b + "}" + rest, a, b);
  }

  lemma MatchPairAt(s: String, a: String, b: String)
    requires IsSymbol(a) && IsSymbol(b)
    requires 3 + |a| + |b| <= |s| && s[0] == '{'
    requires s[1..1 + |a|] == a && s[1 + |a|] == '/'
    requires s[2 + |a|..2 + |a| + |b|] == b && s[2 + |a| + |b|] == '}'
    ensures MatchToken(s) == Some(Token(a, Some(b)))
  {
    SymbolRunOf(s, 1, a);
    SymbolRunOf(s, 2 + |a|, b);
    MatchPairRuns(s, |a|, |b|);
  }

  /** MatchToken once the lengths of both runs are known. */
  lemma MatchPairRuns(s: String, n: nat, m: nat)
    requires 3 + n + m <= |s| && s[0] == '{' && s[1 + n] == '/' && s[2 + n + m] == '}'
    requires n >= 1 && m >= 1 && SymbolRun(s, 1) == n && SymbolRun(s, 2 + n) == m
    ensures MatchToken(s) == Some(Token(s[1..1 + n], Some(s[2 + n..2 + n + m])))
  {
  }

  /** The run at `from` is a symbol spelled there, when no symbol character follows it. */
  lemma SymbolRunOf(s: String, from: nat, w: String)
    requires IsSymbol(w) && from + |w| <= |s| && s[from..from + |w|] == w
    requires from + |w| == |s| || !IsSymbolChar(s[from + |w|])
    ensures SymbolRun(s, from) == |w|
  {
    forall k | from <= k < from + |w|
      ensures IsSymbolChar(s[k])
    {
      assert s[k] == w[k - from];
    }
    SymbolRunExact(s, from, |w|);
  }

  /** Where the parts of "{a/b}rest" sit. */
  lemma PairLayout(a: String, b: String, rest: String)
    ensures var s := "{" + a + "/" + b + "}" + rest;
      && |s| == 3 + |a| + |b| + |rest| && s[0] == '{'
      && s[1..1 + |a|] == a && s[1 + |a|] == '/'
      && s[2 + |a|..2 + |a| + |b|] == b && s[2 + |a| + |b|] == '}'
  {
    var s := "{" + a + "/" + b + "}" + rest;
    assert s[1..1 + |a|] == a;
    assert s[2 + |a|..2 + |a| + |b|] == b;
  }

  /** The pieces preg_replace_callback finds, scanning left to right: every
      token is well formed, and a `{` is left alone only where no token starts. */
  function Tokenize(s: String): (r: seq<Piece>)
    ensures forall i :: 0 <= i < |r| ==> WellFormed(r[i])
    ensures r == [] <==> s == []
    ensures s != [] && MatchToken(s).None? ==> r[0] == Literal(s[0])
    ensures s != [] && MatchToken(s).Some? ==> r[0] == MatchToken(s).value
    decreases |s|
  {
    if s == [] then []
    else match MatchToken(s)
      case Some(t) => [t] + Tokenize(s[|Spell(t)|..])
      case None => [Literal(s[0])] + Tokenize(s[1..])
  }

  /** The text the pieces span. */
  function Unparse(ps: seq<Piece>): String {
    Seqs.FlatMap(ps, Spell)
  }

  /** Tokenising loses and invents nothing: the pieces spell the text. */
  lemma {:induction false} TokenizeRoundTrip(s: String)
    ensures Unparse(Tokenize(s)) == s
    decreases |s|
  {
    if s != [] {
      match MatchToken(s)
      case Some(t) =>
        TokenizeRoundTrip(s[|Spell(t)|..]);
        Seqs.FlatMapCons(t, Tokenize(s[|Spell(t)|..]), Spell);
        Seqs.PrefixSplit(Spell(t), s);
      case None =>
        TokenizeRoundTrip(s[1..]);
        Seqs.FlatMapCons(Literal(s[0]), Tokenize(s[1..]), Spell);
        Seqs.ConsSplit(s, []);
    }
  }

  /** A character other than `{` is always left alone. */
  lemma TokenizeLiteral(c: char, rest: String)
    requires c != '{'
    ensures Tokenize([c] + rest) == [Literal(c)] + Tokenize(rest)
  {
    assert ([c] + rest)[1..] == rest;
  }

  /** A well-formed token at the start of the text is found as one piece. */
  lemma TokenizeToken(t: Piece, rest: String)
    requires t.Token? && WellFormed(t)
    ensures Tokenize(Spell(t) + rest) == [t] + Tokenize(rest)
  {
    MatchTokenComplete(t, rest);
    assert (Spell(t) + rest)[|Spell(t)|..] == rest;
  }

  // ---- Rendering -------------------------------------------------------

  /** The icon name of a symbol: lower-cased, with `q` renamed `untap`. */
  function IconName(symbol: String): String {
    var l := Lower(symbol);
    if l == "q" then "untap" else l
  }

  /** The class list after `mi mi-`: ` mi-mana` for a whole symbol, nothing
      for half of a split symbol, `p mi-mana-` before a Phyrexian half. The
      Phyrexian flag only counts for split symbols. */
  function ClassOf(icon: String, split: bool, phyrexian: bool): String {
    if !split then icon + " mi-mana"
    else if phyrexian then "p mi-mana-" + icon
    else icon
  }

  /** convertIndividualManaSymbolToHtml: the lower-cased icon name in one of
      three class lists. */
  function RenderSymbol(symbol: String, split: bool, phyrexian: bool): (r: String)
    ensures !split ==> r == "<i class='mi mi-" + IconName(symbol) + " mi-mana'></i>"
    ensures split && phyrexian ==> r == "<i class='mi mi-p mi-mana-" + IconName(symbol) + "'></i>"
    ensures split && !phyrexian ==> r == "<i class='mi mi-" + IconName(symbol) + "'></i>"
    ensures |r| >= 5 && r[..5] == "<i cl"
  {
    var icon := IconName(symbol);
    WholeMarkup(icon);
    PhyrexianMarkup(icon);
    MarkupStart(ClassOf(icon, split, phyrexian));
    "<i class='mi mi-" + ClassOf(icon, split, phyrexian) + "'></i>"
  }

  lemma WholeMarkup(icon: String)
    ensures "<i class='mi mi-" + (icon + " mi-mana") + "'></i>" == "<i class='mi mi-" + icon + " mi-mana'></i>"
  {
    var pre: String := "<i class='mi mi-";
    var mana: String := " mi-mana";
    var post: String := "'></i>";
    assert mana + post == " mi-mana'></i>";
    assert pre + (icon + mana) + post == pre + icon + (mana + post);
  }

  lemma PhyrexianMarkup(icon: String)
    ensures "<i class='mi mi-" + ("p mi-mana-" + icon) + "'></i>" == "<i class='mi mi-p mi-mana-" + icon + "'></i>"
  {
    var pre: String := "<i class='mi mi-";
    var p: String := "p mi-mana-";
    var post: String := "'></i>";
    assert pre + p == "<i class='mi mi-p mi-mana-";
    assert pre + (p + icon) + post == (pre + p) + icon + post;
  }

  lemma MarkupStart(c: String)
    ensures |"<i class='mi mi-" + c + "'></i>"| >= 5
    ensures ("<i class='mi mi-" + c + "'></i>")[..5] == "<i cl"
  {
    var pre: String := "<i class='mi mi-";
    assert (pre + c + "'></i>")[..5] == pre[..5];
  }

  /** The callback: a symbol with an empty (or "0") second half renders whole;
      a `P` second half makes the first Phyrexian; a `P` first half makes the
      second Phyrexian; anything else renders as a split pair. The output is
      a split `<div>` exactly when both halves are there, the second is not
      PHP-empty, and neither is `P`. */
  function RenderToken(first: String, second: Option<String>): (r: String)
    ensures second.None? || PhpEmpty(second.value) ==> r == RenderSymbol(first, false, false)
    ensures second == Some("P") ==> r == RenderSymbol(first, true, true)
    ensures first == "P" && second.Some? && !PhpEmpty(second.value) ==> r == RenderSymbol(second.value, true, true)
    ensures |r| >= 5 && (r[..5] == "<div " <==> second.Some? && !PhpEmpty(second.value) && second.value != "P" && first != "P")
    ensures second.Some? && !PhpEmpty(second.value) && second.value != "P" && first != "P" ==>
      r == "<div class=\"mi-split\">" + RenderSymbol(first, true, false) + RenderSymbol(second.value, true, false) + "</div>"
  {
    if second.None? || PhpEmpty(second.value) then RenderSymbol(first, false, false)
    else if second.value == "P" then RenderSymbol(first, true, true)
    else if first == "P" then RenderSymbol(second.value, true, true)
    else "<div class=\"mi-split\">" + RenderSymbol(first, true, false) + RenderSymbol(second.value, true, false) + "</div>"
  }

  /** `{P/X}` and `{X/P}` render the same Phyrexian symbol. */
  lemma PhyrexianEitherSide(x: String)
    requires !PhpEmpty(x)
    ensures RenderToken("P", Some(x)) == RenderToken(x, Some("P"))
  {
  }

  function Render(p: Piece): String {
    match p
    case Literal(c) => [c]
    case Token(a, b) => RenderToken(a, b)
  }

  /** convertManaSymbolsToHtml: a text without `{` comes back unchanged. */
  function ConvertManaSymbols(s: String): (r: String)
    ensures '{' !in s ==> r == s
  {
    NoBraceRendersAsIs(s);
    Seqs.FlatMap(Tokenize(s), Render)
  }

  /** Without a `{`, every piece is a literal and renders as itself. */
  lemma {:induction false} NoBraceRendersAsIs(s: String)
    ensures '{' !in s ==> Seqs.FlatMap(Tokenize(s), Render) == s
    decreases |s|
  {
    if s != [] && '{' !in s {
      Seqs.NotInTail('{', s);
      NoBraceRendersAsIs(s[1..]);
      Seqs.FlatMapCons(Literal(s[0]), Tokenize(s[1..]), Render);
      Seqs.ConsSplit(s, []);
    }
  }

  /** A character other than `{` is copied and the rest converted on its own. */
  lemma ConvertLiteral(c: char, rest: String)
    requires c != '{'
    ensures ConvertManaSymbols([c] + rest) == [c] + ConvertManaSymbols(rest)
  {
    TokenizeLiteral(c, rest);
    var ps := Tokenize(rest);
    assert ([Literal(c)] + ps)[1..] == ps;
  }

  /** Text before the first `{` passes through unchanged. */
  lemma {:induction false} ConvertLiteralPrefix(lit: String, rest: String)
    requires '{' !in lit
    ensures ConvertManaSymbols(lit + rest) == lit + ConvertManaSymbols(rest)
  {
    if lit == [] {
      assert lit + rest == rest;
    } else {
      Seqs.NotInTail('{', lit);
      Seqs.ConsSplit(lit, rest);
      ConvertLiteral(lit[0], lit[1..] + rest);
      ConvertLiteralPrefix(lit[1..], rest);
      Seqs.ConsSplit(lit, ConvertManaSymbols(rest));
    }
  }

  /** A token is replaced by its markup and the rest is converted on its own. */
  lemma ConvertTokenPrefix(t: Piece, rest: String)
    requires t.Token? && WellFormed(t)
    ensures ConvertManaSymbols(Spell(t) + rest) == RenderToken(t.first, t.second) + ConvertManaSymbols(rest)
  {
    TokenizeToken(t, rest);
  }

  /** Two symbols render alike exactly when their icon names agree. */
  lemma RenderSymbolInjective(a: String, b: String, split: bool, phyrexian: bool)
    ensures RenderSymbol(a, split, phyrexian) == RenderSymbol(b, split, phyrexian) <==> IconName(a) == IconName(b)
  {
    if RenderSymbol(a, split, phyrexian) == RenderSymbol(b, split, phyrexian) {
      var ca := ClassOf(IconName(a), split, phyrexian);
      var cb := ClassOf(IconName(b), split, phyrexian);
      var pre: String := "<i class='mi mi-";
      var post: String := "'></i>";
      assert |ca| == |cb|;
      assert ca == RenderSymbol(a, split, phyrexian)[|pre|..|pre| + |ca|];
      assert cb == RenderSymbol(b, split, phyrexian)[|pre|..|pre| + |cb|];
      if !split {
        assert IconName(a) == ca[..|ca| - 8] && IconName(b) == cb[..|cb| - 8];
      } else if phyrexian {
        assert IconName(a) == ca[10..] && IconName(b) == cb[10..];
      }
    }
  }

  /** `q` is renamed before any class is added, whether split or Phyrexian. */
  lemma UntapEverywhere(split: bool, phyrexian: bool)
    ensures RenderSymbol("Q", split, phyrexian) == RenderSymbol("untap", split, phyrexian)
    ensures RenderSymbol("q", split, phyrexian) == RenderSymbol("untap", split, phyrexian)
  {
    assert Lower("Q") == "q";
    assert Lower("q") == "q";
    assert Lower("untap") == "untap";
  }

  /** A text that is exactly one token converts to that token's markup. */
  lemma ConvertOneToken(t: Piece)
    requires t.Token? && WellFormed(t)
    ensures ConvertManaSymbols(Spell(t)) == RenderToken(t.first, t.second)
  {
    ConvertTokenPrefix(t, []);
    assert Spell(t) + [] == Spell(t);
  }

  /** `{Q}` is the untap icon. */
  lemma ExampleUntap()
    ensures RenderToken("Q", None) == "<i class='mi mi-untap mi-mana'></i>"
  {
    assert Lower("Q") == "q";
  }

  /** `{W/P}` is the Phyrexian white symbol. */
  lemma ExamplePhyrexian()
    ensures RenderToken("W", Some("P")) == "<i class='mi mi-p mi-mana-w'></i>"
  {
    assert Lower("W") == "w";
  }

  /** `{2/U}` is a split pair, 2 before u. */
  lemma ExampleSplit()
    ensures RenderToken("2", Some("U"))
         == "<div class=\"mi-split\">" + "<i class='mi mi-2'></i>" + "<i class='mi mi-u'></i>" + "</div>"
  {
    assert IconName("2") == "2" by {
      assert Lower("2") == "2";
    }
    assert IconName("U") == "u" by {
      assert Lower("U") == "u";
    }
    var a: String := "<i class='mi mi-2'></i>";
    var b: String := "<i class='mi mi-u'></i>";
    assert RenderSymbol("2", true, false) == a;
    assert RenderSymbol("U", true, false) == b;
  }

  /** `{P/W}` is the Phyrexian white symbol as well. */
  lemma ExamplePhyrexianFirst()
    ensures RenderToken("P", Some("W")) == "<i class='mi mi-p mi-mana-w'></i>"
  {
    assert Lower("W") == "w";
  }

  /** A `{` where no token starts is copied, and the scan resumes right after it. */
  lemma UnmatchedBraceKept(s: String)
    requires s != [] && s[0] == '{' && MatchToken(s).None?
    ensures ConvertManaSymbols(s) == "{" + ConvertManaSymbols(s[1..])
  {
    var ps := Tokenize(s[1..]);
    assert Tokenize(s) == [Literal('{')] + ps;
    assert ([Literal('{')] + ps)[1..] == ps;
  }

  /** Braces that do not enclose a symbol are left as they are. */
  lemma MalformedUnchanged()
    ensures ConvertManaSymbols("{}") == "{}"
    ensures ConvertManaSymbols("{W") == "{W"
  {
    var s: String := "{}";
    assert MatchToken(s) == None;
    UnmatchedBraceKept(s);
    assert ConvertManaSymbols(s[1..]) == s[1..];
    var t: String := "{W";
    assert SymbolRun(t, 1) == 1;
    assert MatchToken(t) == None;
    UnmatchedBraceKept(t);
    assert ConvertManaSymbols(t[1..]) == t[1..];
  }
}
