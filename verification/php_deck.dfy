/** The server-side decklist reader of models/Deck.php: one line becomes a
    quantity, an optional set code and collector number, and a name
    (interpretLine); the non-empty fields form a search (findCards); and the
    constructor appends the first card found `quantity` times per line.
    The card database query `Card::where(...)->all()` is a parameter. */
module PhpDeck {
  import opened Wrappers
  import opened Text
  import opened Seqs
  import Bracket

  /** The search handed to the card database: keys "name", "set", "number". */
  type Search = map<String, String>

  /** The capture groups of `^([0-9]* )?(\[...\] )?(.*)$` (groups 0, 1, 3, 4 and 5).
      Groups that did not take part are "". */
  datatype Groups = Groups(whole: String, quantity: String, setCode: String, number: String, name: String)

  /** What group 1 can hold: nothing, or digits followed by a space. */
  predicate IsCountGroup(q: String) {
    q == [] || (q[|q| - 1] == ' ' && AllDigits(q[..|q| - 1]))
  }

  /** Group 1, `([0-9]* )?`: the leading digits with the space after them,
      or "" when no space follows the digits. */
  function QuantityGroup(s: String): (q: String)
    ensures q <= s
    ensures IsCountGroup(q)
    ensures '\n' !in q
    ensures q == [] <==> (DigitRun(s, 0) == |s| || s[DigitRun(s, 0)] != ' ')
  {
    var d := DigitRun(s, 0);
    if d < |s| && s[d] == ' ' then s[..d + 1] else []
  }

  /** Group 5 and the closing `$`: `.` stops at a line feed, and `$` also
      matches just before a line feed that ends the subject. */
  function TailGroup(s: String): (r: Option<String>)
    ensures r.Some? <==> '\n' !in s || ('\n' !in s[..|s| - 1] && s[|s| - 1] == '\n')
    ensures r.Some? ==> r.value <= s && '\n' !in r.value
    ensures r.Some? ==> s == r.value || s == r.value + "\n"
  {
    if '\n' !in s then Some(s)
    else if s[|s| - 1] == '\n' && '\n' !in s[..|s| - 1] then Some(s[..|s| - 1])
    else None
  }

  /** The bracket group, tried right after group 1. */
  function BracketGroup(s: String): Option<Bracket.Ref> {
    Bracket.Match(s[|QuantityGroup(s)|..])
  }

  /** How many characters groups 1 and 2 take. */
  function Lead(s: String): (n: nat)
    ensures |QuantityGroup(s)| <= n <= |s|
  {
    var q := QuantityGroup(s);
    var br := BracketGroup(s);
    if br.Some? then |q| + |Bracket.Spelling(br.value)| else |q|
  }

  /** Groups 1 and 2 never take a line feed. */
  lemma LeadHasNoLineFeed(s: String)
    ensures '\n' !in s[..Lead(s)]
  {
    var q := QuantityGroup(s);
    var br := BracketGroup(s);
    assert s[..|q|] == q;
    if br.Some? {
      var sp := Bracket.Spelling(br.value);
      var rest := s[|q|..];
      assert sp == rest[..|sp|];
      Bracket.SpellingPrintable(br.value);
      assert '\n' !in sp;
      NoLineFeedInJoin(s, q, sp);
    }
  }

  lemma NoLineFeedInJoin(s: String, q: String, sp: String)
    requires q + sp <= s
    requires '\n' !in sp && '\n' !in q
    ensures '\n' !in s[..|q| + |sp|]
  {
    assert s[..|q| + |sp|] == q + sp;
  }

  /** The text groups 1 and 2 span. */
  lemma LeadSplits(s: String)
    ensures s[..Lead(s)] == QuantityGroup(s) + (if BracketGroup(s).Some? then Bracket.Spelling(BracketGroup(s).value) else [])
  {
    var q := QuantityGroup(s);
    var br := BracketGroup(s);
    assert s[..|q|] == q;
    if br.Some? {
      var sp := Bracket.Spelling(br.value);
      assert s[|q|..][..|sp|] == sp;
      assert s[..|q| + |sp|] == s[..|q|] + s[|q|..][..|sp|];
    }
  }

  /** Cutting the text after the name that follows position n. */
  lemma JoinTail(s: String, n: nat, name: String)
    requires n <= |s|
    requires s[n..] == name || s[n..] == name + "\n"
    ensures s[..n + |name|] == s[..n] + name
    ensures s == s[..n + |name|] || s == s[..n + |name|] + "\n"
  {
    assert s == s[..n] + s[n..];
  }

  /** preg_match of the line pattern: None when it fails, else its groups.
      The whole match is group 1, then the spelling of group 2's bracket, then
      the name; it is the subject, or the subject less its final line feed;
      set and number come from the bracket and are "" without one. */
  function MatchLine(s: String): (r: Option<Groups>)
    ensures r.Some? ==> r.value.quantity == QuantityGroup(s) && IsCountGroup(r.value.quantity)
    ensures r.Some? ==>
      var q := QuantityGroup(s);
      var br := Bracket.Match(s[|q|..]);
      && r.value.whole == q + (if br.Some? then Bracket.Spelling(br.value) else []) + r.value.name
      && (s == r.value.whole || s == r.value.whole + "\n")
      && '\n' !in r.value.name
      && r.value.setCode == (if br.Some? then br.value.first else [])
      && r.value.number == (if br.Some? then br.value.second else [])
  {
    var br := BracketGroup(s);
    var n := Lead(s);
    LeadSplits(s);
    match TailGroup(s[n..])
    case None => None
    case Some(name) =>
      JoinTail(s, n, name);
      var setCode := if br.Some? then br.value.first else [];
      var number := if br.Some? then br.value.second else [];
      Some(Groups(s[..n + |name|], QuantityGroup(s), setCode, number, name))
  }

  /** On a string that does not end in a line feed, the pattern fails exactly
      when the string holds a line feed. */
  lemma MatchLineFailsOnLineFeed(s: String)
    requires s == [] || s[|s| - 1] != '\n'
    ensures MatchLine(s).None? <==> '\n' in s
  {
    var n := Lead(s);
    LeadHasNoLineFeed(s);
    assert s == s[..n] + s[n..];
    TailGroupFails(s[n..]);
  }

  lemma TailGroupFails(t: String)
    requires t == [] || t[|t| - 1] != '\n'
    ensures TailGroup(t).None? <==> '\n' in t
  {
  }

  /** The 'quantity' entry: the integer 1 when `$matches[1] < 1`, otherwise
      the raw group text "N " with its trailing space. */
  datatype Quantity = One | Raw(text: String)

  predicate ValidQuantity(q: Quantity) {
    q.Raw? ==> |q.text| >= 2 && q.text[|q.text| - 1] == ' '
               && AllDigits(q.text[..|q.text| - 1]) && DigitsValue(q.text[..|q.text| - 1]) >= 1
  }

  /** PHP 8's `$matches[1] < 1`: "" and " " are not numeric, so they compare
      as strings and are below "1"; "N " is numeric and compares as N. */
  function QuantityOf(group: String): (q: Quantity)
    requires IsCountGroup(group)
    ensures ValidQuantity(q)
    ensures q.Raw? ==> q.text == group
    ensures q.One? <==> |group| <= 1 || DigitsValue(group[..|group| - 1]) == 0
  {
    if |group| >= 2 && DigitsValue(group[..|group| - 1]) >= 1 then Raw(group) else One
  }

  /** The number of iterations of `$i < $foundCards['quantity']`. */
  function Copies(q: Quantity): (n: nat)
    requires ValidQuantity(q)
    ensures n >= 1
    ensures q.One? ==> n == 1
    ensures q.Raw? ==> n == DigitsValue(q.text[..|q.text| - 1])
  {
    match q
    case One => 1
    case Raw(t) => DigitsValue(t[..|t| - 1])
  }

  /** "N " gives N copies when N is at least one, and "0 " gives one copy. */
  lemma CountedCopies(d: String)
    requires d != [] && AllDigits(d)
    ensures Copies(QuantityOf(d + " ")) == if DigitsValue(d) >= 1 then DigitsValue(d) else 1
  {
    assert (d + " ")[..|d|] == d;
  }

  /** findCards's result: false when there was nothing to search for,
      otherwise the list the database returned (possibly empty). */
  datatype Found<C> = NoTerms | Cards(cards: seq<C>)

  /** The search array: only the fields PHP does not consider empty. */
  function SearchTerms(name: String, setCode: String, number: String): (m: Search)
    ensures "name" in m <==> !PhpEmpty(name)
    ensures "set" in m <==> !PhpEmpty(setCode)
    ensures "number" in m <==> !PhpEmpty(number)
    ensures m.Keys <= {"name", "set", "number"}
    ensures forall k :: k in m ==> m[k] == (if k == "name" then name else if k == "set" then setCode else number)
  {
    var m1: Search := if !PhpEmpty(name) then map["name" := name] else map[];
    var m2 := if !PhpEmpty(setCode) then m1["set" := setCode] else m1;
    if !PhpEmpty(number) then m2["number" := number] else m2
  }

  /** Deck::findCards with the database lookup as a parameter. */
  function FindCards<C>(name: String, setCode: String, number: String, lookup: Search -> seq<C>): (r: Found<C>)
    ensures r.NoTerms? <==> PhpEmpty(name) && PhpEmpty(setCode) && PhpEmpty(number)
    ensures r.Cards? ==> r.cards == lookup(SearchTerms(name, setCode, number))
  {
    var terms := SearchTerms(name, setCode, number);
    if terms != map[] then Cards(lookup(terms))
    else NoTerms
  }

  /** The array interpretLine returns. */
  datatype Interpretation<C> =
    Interpretation(rawString: String, quantity: Quantity, setCode: String, number: String, name: String, cards: Found<C>)

  /** The line with its comment removed and its ends trimmed. */
  function Clean(line: String): String {
    Trim(BeforeDoubleSlash(line))
  }

  /** Deck::interpretLine: None stands for `false`. */
  function InterpretLine<C>(line: String, lookup: Search -> seq<C>): (r: Option<Interpretation<C>>)
    ensures r.Some? ==> ValidQuantity(r.value.quantity)
    ensures r.Some? ==> r.value.cards == FindCards(r.value.name, r.value.setCode, r.value.number, lookup)
  {
    match MatchLine(Clean(line))
    case None => None
    case Some(g) =>
      Some(Interpretation(g.whole, QuantityOf(g.quantity), g.setCode, g.number, g.name,
                          FindCards(g.name, g.setCode, g.number, lookup)))
  }

  /** interpretLine fails exactly when the cleaned line still holds a line
      feed; every other line yields an interpretation, perhaps with an empty name. */
  lemma InterpretFailsOnlyOnLineFeed<C>(line: String, lookup: Search -> seq<C>)
    ensures InterpretLine(line, lookup).None? <==> '\n' in Clean(line)
  {
    MatchLineFailsOnLineFeed(Clean(line));
  }

  /** The name comes out empty only for a line that is blank once cleaned
      (trimming leaves no space for a name to follow), and such a line has no
      search terms and adds no card. */
  lemma EmptyNameOnlyForBlankLine<C>(line: String, lookup: Search -> seq<C>)
    requires InterpretLine(line, lookup).Some?
    ensures InterpretLine(line, lookup).value.name == [] <==> Clean(line) == []
    ensures Clean(line) == [] ==> InterpretLine(line, lookup).value.cards == NoTerms
    ensures Clean(line) == [] ==> LineCards(line, lookup) == []
  {
    var s := Clean(line);
    InterpretUnfold(line, lookup);
    NameEmptyOnlyWhenBlank(s);
  }

  lemma NameEmptyOnlyWhenBlank(s: String)
    requires s == [] || !IsTrimmable(s[|s| - 1])
    requires MatchLine(s).Some?
    ensures MatchLine(s).value.name == [] <==> s == []
  {
    if s == [] {
      assert QuantityGroup(s) == [];
    } else if MatchLine(s).value.name == [] {
      NamelessEndsTrimmable(s);
    }
  }

  /** Without a name the match ends in the space of group 1 or 2, or the
      subject in its final line feed. */
  lemma NamelessEndsTrimmable(s: String)
    requires s != [] && MatchLine(s).Some? && MatchLine(s).value.name == []
    ensures IsTrimmable(s[|s| - 1])
  {
    var g := MatchLine(s).value;
    var q := QuantityGroup(s);
    var br := Bracket.Match(s[|q|..]);
    var sp := if br.Some? then Bracket.Spelling(br.value) else [];
    assert g.whole == q + sp;
    if s != g.whole {
      assert s == g.whole + "\n";
    } else if br.Some? {
      assert s[|s| - 1] == sp[|sp| - 1] == ' ';
    } else {
      assert s == q;
    }
  }

  /** The effective number of copies is at least one, and without leading digits it is one. */
  lemma QuantityDefaultsToOne<C>(line: String, lookup: Search -> seq<C>)
    requires InterpretLine(line, lookup).Some?
    requires Clean(line) == [] || !IsDigit(Clean(line)[0])
    ensures InterpretLine(line, lookup).value.quantity == One
  {
    var s := Clean(line);
    assert DigitRun(s, 0) == 0;
  }

  /** A bracket that matched gives a non-empty set and number; no bracket gives "" for both. */
  lemma SetAndNumberTogether<C>(line: String, lookup: Search -> seq<C>)
    requires InterpretLine(line, lookup).Some?
    ensures var r := InterpretLine(line, lookup).value;
      (r.setCode == [] <==> r.number == []) && (r.setCode != [] ==> Bracket.IsCode(r.setCode) && Bracket.IsCode(r.number))
  {
    var s := Clean(line);
  }

  /** A line without "//" and without trimmable ends is its own cleaned form. */
  lemma CleanKeeps(s: String)
    requires forall i :: 0 <= i < |s| ==> s[i] != '/'
    requires s != [] && !IsTrimmable(s[0]) && !IsTrimmable(s[|s| - 1])
    ensures Clean(s) == s
  {
    assert !HasDoubleSlash(s);
    BeforeDoubleSlashWithout(s);
  }

  lemma InterpretUnfold<C>(line: String, lookup: Search -> seq<C>)
    ensures InterpretLine(line, lookup)
      == match MatchLine(Clean(line))
         case None => None
         case Some(g) =>
           Some(Interpretation(g.whole, QuantityOf(g.quantity), g.setCode, g.number, g.name,
                               FindCards(g.name, g.setCode, g.number, lookup)))
  {
  }

  /** The pattern on "N name": group 1 is "N " and the name is the rest. */
  lemma MatchCountedLine(d: String, name: String)
    requires d != [] && AllDigits(d)
    requires name == [] || name[0] != '['
    requires '\n' !in name
    ensures MatchLine(d + " " + name) == Some(Groups(d + " " + name, d + " ", "", "", name))
  {
    var line := d + " " + name;
    DigitRunExact(line, 0, |d|);
    assert line[..|d| + 1] == d + " ";
    assert QuantityGroup(line) == d + " ";
    assert line[|d| + 1..] == name;
    assert BracketGroup(line) == None;
    assert Lead(line) == |d| + 1;
    assert TailGroup(name) == Some(name);
    assert line[..|line|] == line;
  }

  /** The pattern on "[A#B] name": no group 1, the codes, and the name. */
  lemma MatchBracketLine(a: String, b: String, name: String)
    requires Bracket.IsCode(a) && Bracket.IsCode(b)
    requires '\n' !in name
    ensures var line := "[" + a + "#" + b + "] " + name;
      MatchLine(line) == Some(Groups(line, "", a, b, name))
  {
    var line := "[" + a + "#" + b + "] " + name;
    var ref := Bracket.Ref(a, b, true);
    BracketLineShape(a, b, name);
    NoCountBeforeBracket(line);
    Bracket.MatchWithHash(a, b, name);
    MatchBracketed(line, [], ref, name);
  }

  lemma BracketLineShape(a: String, b: String, name: String)
    ensures var line := "[" + a + "#" + b + "] " + name;
      line == [] + Bracket.Spelling(Bracket.Ref(a, b, true)) + name && line[0] == '['
  {
  }

  /** A line opening with `[` has no group 1. */
  lemma NoCountBeforeBracket(line: String)
    requires line != [] && line[0] == '['
    ensures QuantityGroup(line) == [] && line[|QuantityGroup(line)|..] == line
  {
    assert DigitRun(line, 0) == 0;
  }

  /** "3 Lightning Bolt": a count and a space, then a name that does not open
      a bracket, gives that name with no set or number; the quantity is the raw
      "3 ", or one when the count is zero ("0 " compares below 1). */
  lemma InterpretCountedLine<C>(d: String, name: String, lookup: Search -> seq<C>)
    requires d != [] && AllDigits(d)
    requires name != [] && name[0] != '[' && !IsTrimmable(name[|name| - 1])
    requires '\n' !in name && '/' !in name
    ensures var line := d + " " + name;
      InterpretLine(line, lookup)
        == Some(Interpretation(line, if DigitsValue(d) >= 1 then Raw(d + " ") else One, "", "", name,
                               FindCards(name, "", "", lookup)))
  {
    var line := d + " " + name;
    assert line[0] == d[0] && line[|line| - 1] == name[|name| - 1];
    assert forall i :: 0 <= i < |line| ==> line[i] != '/' by {
      forall i | 0 <= i < |line| ensures line[i] != '/' {
        if i > |d| { assert line[i] == name[i - |d| - 1]; }
      }
    }
    CleanKeeps(line);
    MatchCountedLine(d, name);
    InterpretMatched(line, Groups(line, d + " ", "", "", name), lookup);
    QuantityOfCount(d);
  }

  /** interpretLine on a line whose cleaned form matches: the groups become
      the entry, and the search is made from them. */
  lemma InterpretMatched<C>(line: String, g: Groups, lookup: Search -> seq<C>)
    ensures MatchLine(Clean(line)) == Some(g) ==>
      InterpretLine(line, lookup)
        == Some(Interpretation(g.whole, QuantityOf(g.quantity), g.setCode, g.number, g.name,
                               FindCards(g.name, g.setCode, g.number, lookup)))
  {
    InterpretUnfold(line, lookup);
  }

  /** The quantity entry for group 1 "N ". */
  lemma QuantityOfCount(d: String)
    requires d != [] && AllDigits(d)
    ensures QuantityOf(d + " ") == if DigitsValue(d) >= 1 then Raw(d + " ") else One
  {
    assert (d + " ")[..|d|] == d;
  }

  /** The pattern on "N [A#B] name": group 1, the codes, and the name. */
  lemma MatchFullLine(d: String, a: String, b: String, name: String)
    requires d != [] && AllDigits(d)
    requires Bracket.IsCode(a) && Bracket.IsCode(b)
    requires '\n' !in name
    ensures var line := d + " [" + a + "#" + b + "] " + name;
      MatchLine(line) == Some(Groups(line, d + " ", a, b, name))
  {
    var rest := "[" + a + "#" + b + "] " + name;
    var ref := Bracket.Ref(a, b, true);
    FullLineShape(d, a, b, name);
    CountPrefix(d, rest);
    Bracket.MatchWithHash(a, b, name);
    MatchBracketed(d + " " + rest, d + " ", ref, name);
  }

  /** The two ways of grouping "N [A#B] name". */
  lemma FullLineShape(d: String, a: String, b: String, name: String)
    ensures var rest := "[" + a + "#" + b + "] " + name;
      && d + " [" + a + "#" + b + "] " + name == d + " " + rest
      && d + " " + rest == (d + " ") + Bracket.Spelling(Bracket.Ref(a, b, true)) + name
  {
  }

  /** A line that is group 1, a recognised reference and a name matches with
      those groups. */
  lemma MatchBracketed(line: String, q: String, ref: Bracket.Ref, name: String)
    requires QuantityGroup(line) == q
    requires line == q + Bracket.Spelling(ref) + name
    requires Bracket.Match(line[|q|..]) == Some(ref)
    requires '\n' !in name
    ensures MatchLine(line) == Some(Groups(line, q, ref.first, ref.second, name))
  {
    var n := |q| + |Bracket.Spelling(ref)|;
    assert Lead(line) == n;
    assert line[n..] == name;
    assert TailGroup(name) == Some(name);
    assert line[..n + |name|] == line;
  }

  /** A count and a space are group 1, whatever follows them. */
  lemma CountPrefix(d: String, rest: String)
    requires d != [] && AllDigits(d)
    ensures QuantityGroup(d + " " + rest) == d + " "
    ensures (d + " " + rest)[|d| + 1..] == rest
  {
    var line := d + " " + rest;
    DigitRunExact(line, 0, |d|);
    assert line[..|d| + 1] == d + " ";
  }

  /** "4 [M19#71] Lightning Bolt", the form the decklist help text shows: the
      quantity, then the set code and collector number, then the name. */
  lemma InterpretFullLine<C>(d: String, a: String, b: String, name: String, lookup: Search -> seq<C>)
    requires d != [] && AllDigits(d)
    requires Bracket.IsCode(a) && Bracket.IsCode(b)
    requires name != [] && !IsTrimmable(name[|name| - 1])
    requires '\n' !in name && '/' !in name
    ensures var line := d + " [" + a + "#" + b + "] " + name;
      InterpretLine(line, lookup)
        == Some(Interpretation(line, if DigitsValue(d) >= 1 then Raw(d + " ") else One, a, b, name,
                               FindCards(name, a, b, lookup)))
  {
    var line := d + " [" + a + "#" + b + "] " + name;
    var k := |d| + 2;
    assert line[0] == d[0] && line[|line| - 1] == name[|name| - 1];
    assert forall i :: 0 <= i < |line| ==> line[i] != '/' by {
      forall i | 0 <= i < |line| ensures line[i] != '/' {
        if i < |d| { assert line[i] == d[i]; }
        else if k <= i < k + |a| { assert line[i] == a[i - k]; }
        else if k + 1 + |a| <= i < k + 1 + |a| + |b| { assert line[i] == b[i - k - 1 - |a|]; }
        else if i >= k + 3 + |a| + |b| { assert line[i] == name[i - k - 3 - |a| - |b|]; }
      }
    }
    CleanKeeps(line);
    MatchFullLine(d, a, b, name);
    InterpretMatched(line, Groups(line, d + " ", a, b, name), lookup);
    QuantityOfCount(d);
  }

  /** "[MIR] name": without a `#` the last code character is the number. */
  lemma MatchUnhashedLine(w: String, name: String)
    requires Bracket.IsCode(w) && |w| >= 2
    requires '\n' !in name
    ensures var line := "[" + w + "] " + name;
      MatchLine(line) == Some(Groups(line, "", w[..|w| - 1], w[|w| - 1..], name))
  {
    var line := "[" + w + "] " + name;
    assert DigitRun(line, 0) == 0;
    assert QuantityGroup(line) == [];
    assert line[0..] == line;
    Bracket.MatchWithoutHash(w, name);
    var n := |w| + 3;
    assert Lead(line) == n;
    assert line[n..] == name;
    assert TailGroup(name) == Some(name);
    assert line[..n + |name|] == line;
  }

  /** "[m19#71] name": a lower-case bracket is no reference and stays in the name. */
  lemma MatchLowerCaseBracketLine(line: String)
    requires |line| >= 2 && line[0] == '[' && 'a' <= line[1] <= 'z'
    requires '\n' !in line
    ensures MatchLine(line) == Some(Groups(line, "", "", "", line))
  {
    assert DigitRun(line, 0) == 0;
    assert QuantityGroup(line) == [];
    assert line[0..] == line;
    Bracket.LowerCaseRejected(line);
    assert Lead(line) == 0;
    assert TailGroup(line) == Some(line);
    assert line[..|line|] == line;
  }

  /** "[MIR#71] Kukemssa Pirates": the set and number are the two codes and the quantity is one. */
  lemma InterpretBracketLine<C>(a: String, b: String, name: String, lookup: Search -> seq<C>)
    requires Bracket.IsCode(a) && Bracket.IsCode(b)
    requires name != [] && !IsTrimmable(name[|name| - 1])
    requires '\n' !in name && '/' !in name
    ensures var line := "[" + a + "#" + b + "] " + name;
      InterpretLine(line, lookup) == Some(Interpretation(line, One, a, b, name, FindCards(name, a, b, lookup)))
  {
    var line := "[" + a + "#" + b + "] " + name;
    assert line[|line| - 1] == name[|name| - 1];
    assert forall i :: 0 <= i < |line| ==> line[i] != '/' by {
      forall i | 0 <= i < |line| ensures line[i] != '/' {
        if 1 <= i < 1 + |a| { assert line[i] == a[i - 1]; }
        else if 2 + |a| <= i < 2 + |a| + |b| { assert line[i] == b[i - 2 - |a|]; }
        else if i >= 4 + |a| + |b| { assert line[i] == name[i - 4 - |a| - |b|]; }
      }
    }
    CleanKeeps(line);
    MatchBracketLine(a, b, name);
    InterpretUnfold(line, lookup);
  }

  /** Everything from the first "//" on is ignored. */
  lemma CommentIgnored<C>(line: String, comment: String, lookup: Search -> seq<C>)
    requires !HasDoubleSlash(line)
    requires line == [] || line[|line| - 1] != '/'
    ensures InterpretLine(line + "//" + comment, lookup) == InterpretLine(line, lookup)
  {
    BeforeDoubleSlashOfComment(line, comment);
    BeforeDoubleSlashWithout(line);
    assert Clean(line + "//" + comment) == Clean(line);
    SameCleanSameInterpretation(line + "//" + comment, line, lookup);
  }

  /** interpretLine looks at nothing but the cleaned line. */
  lemma SameCleanSameInterpretation<C>(a: String, b: String, lookup: Search -> seq<C>)
    requires Clean(a) == Clean(b)
    ensures InterpretLine(a, lookup) == InterpretLine(b, lookup)
  {
    InterpretUnfold(a, lookup);
    InterpretUnfold(b, lookup);
  }

  /** What one line adds to the deck: `quantity` copies of the first card
      found, or nothing when the line failed, had no search terms or found nothing. */
  function LineCards<C>(line: String, lookup: Search -> seq<C>): (r: seq<C>)
  {
    match InterpretLine(line, lookup)
    case None => []
    case Some(it) =>
      match it.cards
      case NoTerms => []
      case Cards(cs) => if cs == [] then [] else Repeat(cs[0], Copies(it.quantity))
  }

  function LineCardsOf<C>(lookup: Search -> seq<C>): String -> seq<C> {
    line => LineCards(line, lookup)
  }

  /** The cards of the whole deck, line by line. */
  function Expand<C>(lines: seq<String>, lookup: Search -> seq<C>): seq<C>
  {
    FlatMap(lines, LineCardsOf(lookup))
  }

  /** A line's contribution does not depend on the other lines. */
  lemma ExpandAppend<C>(a: seq<String>, b: seq<String>, lookup: Search -> seq<C>)
    ensures Expand(a + b, lookup) == Expand(a, lookup) + Expand(b, lookup)
  {
    FlatMapAppend(a, b, LineCardsOf(lookup));
  }

  /** Each line contributes either nothing or exactly its number of copies
      of the first card found; it contributes nothing exactly when the line
      failed, had no search terms or found no card. */
  lemma LineContribution<C>(line: String, lookup: Search -> seq<C>)
    ensures var r := LineCards(line, lookup);
      var found := InterpretLine(line, lookup);
      && (r != [] <==> found.Some? && found.value.cards.Cards? && found.value.cards.cards != [])
      && (r != [] ==> r == Repeat(found.value.cards.cards[0], Copies(found.value.quantity)))
  {
    var found := InterpretLine(line, lookup);
    if found.Some? && found.value.cards.Cards? && found.value.cards.cards != [] {
      assert |Repeat(found.value.cards.cards[0], Copies(found.value.quantity))| >= 1;
    }
  }

  /** Appends n copies of a card, one at a time. */
  method AppendCopies<C>(cards: seq<C>, card: C, n: nat) returns (r: seq<C>)
    ensures r == cards + Repeat(card, n)
  {
    r := cards;
    var i := 0;
    while i < n
      invariant 0 <= i <= n
      invariant r == cards + Repeat(card, i)
    {
      r := r + [card];
      i := i + 1;
    }
  }

  /** The Deck constructor: for every line, in order, appends `quantity`
      copies of the first card found. */
  method BuildDeck<C>(lines: seq<String>, lookup: Search -> seq<C>) returns (cards: seq<C>)
    ensures cards == Expand(lines, lookup)
  {
    cards := [];
    var k := 0;
    while k < |lines|
      invariant 0 <= k <= |lines|
      invariant cards == Expand(lines[..k], lookup)
    {
      ghost var before := cards;
      cards := AddLine(cards, lines[k], lookup);
      StepCards(lines, k, lookup, before, cards);
      k := k + 1;
    }
    assert lines[..|lines|] == lines;
  }

  /** The constructor's loop body for one line: interpret it and, when a card
      was found, append `quantity` copies of the first one. */
  method AddLine<C>(cards: seq<C>, line: String, lookup: Search -> seq<C>) returns (r: seq<C>)
    ensures r == cards + LineCards(line, lookup)
  {
    r := cards;
    var found := InterpretLine(line, lookup);
    if found.Some? && found.value.cards.Cards? && found.value.cards.cards != [] {
      r := AppendCopies(cards, found.value.cards.cards[0], Copies(found.value.quantity));
    }
    LineCardsUnfold(line, lookup);
  }

  lemma LineCardsUnfold<C>(line: String, lookup: Search -> seq<C>)
    ensures var found := InterpretLine(line, lookup);
      LineCards(line, lookup)
        == if found.Some? && found.value.cards.Cards? && found.value.cards.cards != []
           then Repeat(found.value.cards.cards[0], Copies(found.value.quantity)) else []
  {
  }

  /** Appending line k's cards to the first k lines' cards gives the first
      k + 1 lines' cards. */
  lemma StepCards<C>(lines: seq<String>, k: nat, lookup: Search -> seq<C>, before: seq<C>, after: seq<C>)
    requires k < |lines|
    ensures before == Expand(lines[..k], lookup) && after == before + LineCards(lines[k], lookup)
      ==> after == Expand(lines[..k + 1], lookup)
  {
    StepExpand(lines, k, lookup);
  }

  lemma StepExpand<C>(lines: seq<String>, k: nat, lookup: Search -> seq<C>)
    requires k < |lines|
    ensures Expand(lines[..k + 1], lookup) == Expand(lines[..k], lookup) + LineCards(lines[k], lookup)
  {
    assert lines[..k + 1] == lines[..k] + [lines[k]];
    ExpandAppend(lines[..k], [lines[k]], lookup);
    FlatMapSingle(lines[k], LineCardsOf(lookup));
  }
}
