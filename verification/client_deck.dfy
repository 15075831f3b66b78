/** The browser-side deck of js/Deck.ts: the constructor splits the decklist
    into lines and pushes one card per copy, `push` and `splice` keep the
    array-like surface, the request lists the cards' names, and
    processMultiCardResponse hands every card its lookup result. */
module ClientDeck {
  import opened Wrappers
  import opened Text
  import Seqs
  import ClientCard

  /** `length` is a separate field that only `push` updates. */
  datatype Deck = Deck(length: int, cards: seq<ClientCard.Card>)

  predicate NotEmptyLine(s: String) {
    s != ""
  }

  /** decklist.split('\n') without the elements that are exactly ''. */
  function Lines(decklist: String): (ls: seq<String>)
    ensures forall i :: 0 <= i < |ls| ==> ls[i] != "" && '\n' !in ls[i]
    ensures forall l :: l in ls <==> l in Split(decklist, '\n') && l != ""
    ensures forall l :: l != "" ==> multiset(ls)[l] == multiset(Split(decklist, '\n'))[l]
  {
    var ls := Seqs.Filter(Split(decklist, '\n'), NotEmptyLine);
    assert forall i :: 0 <= i < |ls| ==> ls[i] in Split(decklist, '\n');
    ls
  }

  /** The lines of a decklist written line by line are the written lines,
      in order, with the blank ones dropped; without blank lines they are
      exactly the written lines. */
  lemma LinesOfJoin(ps: seq<String>)
    requires |ps| >= 1
    requires forall i :: 0 <= i < |ps| ==> '\n' !in ps[i]
    ensures Lines(Join(ps, '\n')) == Seqs.Filter(ps, NotEmptyLine)
    ensures (forall i :: 0 <= i < |ps| ==> ps[i] != "") ==> Lines(Join(ps, '\n')) == ps
  {
    SplitJoin(ps, '\n');
    if forall i :: 0 <= i < |ps| ==> ps[i] != "" {
      Seqs.FilterAll(ps, NotEmptyLine);
    }
  }

  /** Group 1 of `/^([0-9]+ )?(.*)/`: at least one digit and a space, or
      "" when the group does not take part. */
  function QuantityGroup(line: String): (q: String)
    ensures q <= line
    ensures q == [] || (|q| >= 2 && q[|q| - 1] == ' ' && AllDigits(q[..|q| - 1]))
    ensures var d := DigitRun(line, 0);
      q == [] <==> d == 0 || d == |line| || line[d] != ' '
  {
    var d := DigitRun(line, 0);
    if d >= 1 && d < |line| && line[d] == ' ' then line[..d + 1] else []
  }

  /** The longest prefix free of line terminators: what `(.*)` takes, with
      no `$` to force it to the end. */
  function UpToTerminator(s: String): (r: String)
    ensures r <= s && ClientCard.Printable(r)
    ensures |r| == |s| || IsLineTerminator(s[|r|])
  {
    if s == [] || IsLineTerminator(s[0]) then []
    else
      var rest := UpToTerminator(s[1..]);
      assert [s[0]] + rest <= s;
      [s[0]] + rest
  }

  /** Group 2: the name part of the line, from after the quantity group up
      to the first line terminator. The pattern always matches, so the
      constructor's "No Text Provided for Deck" error cannot be raised. */
  function NameOf(line: String): (name: String)
    ensures ClientCard.Printable(name)
    ensures var rest := line[|QuantityGroup(line)|..];
      name <= rest && (|name| == |rest| || IsLineTerminator(rest[|name|]))
  {
    UpToTerminator(line[|QuantityGroup(line)|..])
  }

  /** Number(group 1) when that is a number above 0, else 1; an absent group
      is Number(undefined), which is NaN. */
  function Quantity(line: String): (n: nat)
    ensures n >= 1
    ensures QuantityGroup(line) == [] ==> n == 1
    ensures QuantityGroup(line) != [] ==>
      var v := DigitsValue(QuantityGroup(line)[..|QuantityGroup(line)| - 1]);
      n == if v > 0 then v else 1
  {
    var q := QuantityGroup(line);
    if q == [] then 1
    else
      var v := DigitsValue(q[..|q| - 1]);
      if v > 0 then v else 1
  }

  /** The names one line contributes: its name, `quantity` times. */
  function LineNames(line: String): seq<String> {
    Seqs.Repeat(NameOf(line), Quantity(line))
  }

  function LineNamesOf(): String -> seq<String> {
    line => LineNames(line)
  }

  /** The text each card of the deck is built from, in push order. */
  function DeckNames(decklist: String): seq<String> {
    Seqs.FlatMap(Lines(decklist), LineNamesOf())
  }

  /** The deck holds one card per name, card i built from name i with id
      i + 1, and its length field agrees. */
  predicate Built(d: Deck, names: seq<String>) {
    |d.cards| == |names| && d.length == |names|
    && forall i :: 0 <= i < |names| ==> ClientCard.Parse(names[i], i + 1) == Ok(d.cards[i])
  }

  /** push: `this.length = this.cards.push(card)`; returns the new length. */
  function Push(d: Deck, card: ClientCard.Card): (r: (Deck, int))
    ensures r.0.cards == d.cards + [card]
    ensures r.0.length == |r.0.cards| == r.1
  {
    var cards := d.cards + [card];
    (Deck(|cards|, cards), |cards|)
  }

  /** The constructor. */
  method NewDeck(decklist: String) returns (d: Deck)
    ensures Built(d, DeckNames(decklist))
  {
    var lines := Lines(decklist);
    d := Deck(0, []);
    var k := 0;
    while k < |lines|
      invariant 0 <= k <= |lines|
      invariant Built(d, Seqs.FlatMap(lines[..k], LineNamesOf()))
    {
      d := PushCopies(d, Seqs.FlatMap(lines[..k], LineNamesOf()), NameOf(lines[k]), Quantity(lines[k]));
      BuiltStep(d, lines, k);
      k := k + 1;
    }
    assert lines[..|lines|] == lines;
  }

  /** The constructor's inner loop: `quantity` pushes of a card built from
      the line's name, each numbered one past the current length. */
  method PushCopies(d: Deck, ghost names: seq<String>, name: String, quantity: nat) returns (e: Deck)
    requires Built(d, names) && ClientCard.Printable(name)
    ensures Built(e, names + Seqs.Repeat(name, quantity))
  {
    e := d;
    var i := 0;
    while i < quantity
      invariant 0 <= i <= quantity
      invariant Built(e, names + Seqs.Repeat(name, i))
    {
      PushCard(e, names + Seqs.Repeat(name, i), name);
      var card := ClientCard.Parse(name, e.length + 1);
      e := Push(e, card.value).0;
      assert names + Seqs.Repeat(name, i + 1) == (names + Seqs.Repeat(name, i)) + [name];
      i := i + 1;
    }
  }

  /** One more copy: the card parses, and pushing it keeps the deck built. */
  lemma PushCard(d: Deck, names: seq<String>, name: String)
    requires Built(d, names) && ClientCard.Printable(name)
    ensures ClientCard.Parse(name, d.length + 1).Ok?
    ensures Built(Push(d, ClientCard.Parse(name, d.length + 1).value).0, names + [name])
  {
    ClientCard.ParseFailsOnlyOnTerminator(name, d.length + 1);
    var card := ClientCard.Parse(name, d.length + 1).value;
    NumberedSnoc(names, d.cards, name, card);
  }

  /** Card i built from name i with id i + 1 survives appending one more
      name and the card built from it. */
  lemma NumberedSnoc(names: seq<String>, cards: seq<ClientCard.Card>, name: String, card: ClientCard.Card)
    requires |cards| == |names|
    requires forall i :: 0 <= i < |names| ==> ClientCard.Parse(names[i], i + 1) == Ok(cards[i])
    requires ClientCard.Parse(name, |names| + 1) == Ok(card)
    ensures forall i :: 0 <= i < |names| + 1 ==>
      ClientCard.Parse((names + [name])[i], i + 1) == Ok((cards + [card])[i])
  {
    var all := names + [name];
    var deck := cards + [card];
    forall i | 0 <= i < |all|
      ensures ClientCard.Parse(all[i], i + 1) == Ok(deck[i])
    {
      if i < |names| {
        assert all[i] == names[i] && deck[i] == cards[i];
      }
    }
  }

  /** After line k's copies the deck is built from the first k + 1 lines. */
  lemma BuiltStep(d: Deck, lines: seq<String>, k: nat)
    requires k < |lines|
    requires Built(d, Seqs.FlatMap(lines[..k], LineNamesOf()) + Seqs.Repeat(NameOf(lines[k]), Quantity(lines[k])))
    ensures Built(d, Seqs.FlatMap(lines[..k + 1], LineNamesOf()))
  {
    StepNames(lines, k);
  }

  lemma StepNames(lines: seq<String>, k: nat)
    requires k < |lines|
    ensures Seqs.FlatMap(lines[..k + 1], LineNamesOf())
         == Seqs.FlatMap(lines[..k], LineNamesOf()) + LineNames(lines[k])
  {
    assert lines[..k + 1] == lines[..k] + [lines[k]];
    Seqs.FlatMapAppend(lines[..k], [lines[k]], LineNamesOf());
    Seqs.FlatMapSingle(lines[k], LineNamesOf());
  }

  /** A built deck numbers its cards 1, 2, ..., n in push order. */
  lemma BuiltIds(d: Deck, names: seq<String>)
    requires Built(d, names)
    ensures forall i :: 0 <= i < |d.cards| ==> d.cards[i].id == i + 1
  {
    forall i | 0 <= i < |d.cards|
      ensures d.cards[i].id == i + 1
    {
      assert ClientCard.Parse(names[i], i + 1) == Ok(d.cards[i]);
    }
  }

  /** "N name": a count N and a space give N copies of the name, and a
      count of 0 gives one copy; the count never reaches the name. */
  lemma CountedLine(digits: String, name: String)
    requires digits != [] && AllDigits(digits)
    requires ClientCard.Printable(name)
    ensures LineNames(digits + " " + name)
         == Seqs.Repeat(name, if DigitsValue(digits) >= 1 then DigitsValue(digits) else 1)
  {
    var line := digits + " " + name;
    DigitRunExact(line, 0, |digits|);
    assert line[..|digits| + 1] == digits + " ";
    assert QuantityGroup(line) == digits + " ";
    assert (digits + " ")[..|digits|] == digits;
    assert line[|digits| + 1..] == name;
    PrintableWhole(name);
  }

  lemma PrintableWhole(s: String)
    requires ClientCard.Printable(s)
    ensures UpToTerminator(s) == s
  {
  }

  /** A line without a leading count is one copy of itself, up to the first
      line terminator. */
  lemma UncountedLine(line: String)
    requires line == [] || !IsDigit(line[0])
    ensures LineNames(line) == [UpToTerminator(line)]
  {
    assert DigitRun(line, 0) == 0;
    assert line[0..] == line;
  }

  // ---- splice ------------------------------------------------------------

  /** Array.prototype.splice's start: a negative start counts from the end,
      and both ends are clamped to the array. */
  function SpliceStart(start: int, len: nat): (s: nat)
    ensures s <= len
    ensures start < 0 && len + start >= 0 ==> s == len + start
    ensures len + start < 0 ==> s == 0
    ensures 0 <= start <= len ==> s == start
    ensures start > len ==> s == len
  {
    if start < 0 then (if len + start < 0 then 0 else len + start)
    else if start > len then len else start
  }

  /** The number of cards actually removed: clamped to [0, len - start]. */
  function SpliceCount(count: int, start: nat, len: nat): (n: nat)
    requires start <= len
    ensures n <= len - start
    ensures 0 <= count <= len - start ==> n == count
    ensures count < 0 ==> n == 0
    ensures count > len - start ==> n == len - start
  {
    if count < 0 then 0 else if count > len - start then len - start else count
  }

  /** splice: replaces cards in the array but leaves `length` as it was. */
  function Splice(d: Deck, start: int, deleteCount: int, items: seq<ClientCard.Card>): (r: Deck)
    ensures r.length == d.length
    ensures var s := SpliceStart(start, |d.cards|);
      var n := SpliceCount(deleteCount, s, |d.cards|);
      |r.cards| == |d.cards| - n + |items|
      && r.cards[..s] == d.cards[..s]
      && r.cards[s..s + |items|] == items
      && r.cards[s + |items|..] == d.cards[s + n..]
  {
    var s := SpliceStart(start, |d.cards|);
    var n := SpliceCount(deleteCount, s, |d.cards|);
    Deck(d.length, d.cards[..s] + items + d.cards[s + n..])
  }

  /** Removing nothing and inserting nothing changes nothing. */
  lemma SpliceNothing(d: Deck, start: int)
    ensures Splice(d, start, 0, []) == d
  {
    var s := SpliceStart(start, |d.cards|);
    assert d.cards[..s] + [] + d.cards[s..] == d.cards;
  }

  /** Removing a card from a deck whose length was right leaves a stale
      length; the next push puts it right again. */
  lemma SpliceLeavesLengthStale(d: Deck, start: nat, card: ClientCard.Card)
    requires d.length == |d.cards| && start < |d.cards|
    ensures Splice(d, start, 1, []).length == |Splice(d, start, 1, []).cards| + 1
    ensures var p := Push(Splice(d, start, 1, []), card).0; p.length == |p.cards| == |d.cards|
  {
  }

  // ---- Request and response ------------------------------------------------

  function CardName(c: ClientCard.Card): String {
    c.name
  }

  /** The names sent to the lookup: every card's name in deck order, with
      duplicates. */
  function RequestNames(d: Deck): (names: seq<String>)
    ensures |names| == |d.cards|
    ensures forall i :: 0 <= i < |d.cards| ==> names[i] == d.cards[i].name
  {
    Seqs.Map(d.cards, CardName)
  }

  /** "N name" asks for the name N times: the request keeps duplicates. */
  lemma RequestKeepsDuplicates(d: Deck, digits: String, name: String)
    requires digits != [] && AllDigits(digits) && DigitsValue(digits) >= 1
    requires ClientCard.Printable(name) && (name == [] || name[0] != '[')
    requires Built(d, LineNames(digits + " " + name))
    ensures RequestNames(d) == Seqs.Repeat(name, DigitsValue(digits))
  {
    CountedLine(digits, name);
    var names := LineNames(digits + " " + name);
    forall i | 0 <= i < |names|
      ensures d.cards[i].name == name
    {
      ClientCard.NoBracketWholeName(name, i + 1);
    }
  }

  /** The calls a card receives while the response is processed. The
      methods behind them are not part of js/Card.ts as it stands, so the
      model records the calls rather than their effect. */
  datatype Call<D> = SetLoading(on: bool) | ImportData(data: D) | SetError(message: String)

  /** The calls for one card: loading cleared, then its data if its name is a
      key of `found`, else the not-found error. */
  function Treat<D>(c: ClientCard.Card, found: map<String, D>): seq<Call<D>> {
    [SetLoading(false), if c.name in found then ImportData(found[c.name]) else SetError("Card not found")]
  }

  /** processMultiCardResponse, card by card in deck order. */
  function ProcessResponse<D>(d: Deck, found: map<String, D>): (calls: seq<seq<Call<D>>>)
    ensures |calls| == |d.cards|
    ensures forall i :: 0 <= i < |d.cards| ==> calls[i] == Treat(d.cards[i], found)
  {
    seq(|d.cards|, i requires 0 <= i < |d.cards| => Treat(d.cards[i], found))
  }

  /** Every card has loading cleared and then exactly one of the two
      treatments: imported exactly when its name was found, and then with
      the data found under that name. */
  lemma ResponsePartitions<D>(d: Deck, found: map<String, D>)
    ensures var calls := ProcessResponse(d, found);
      forall i :: 0 <= i < |d.cards| ==>
        |calls[i]| == 2 && calls[i][0] == SetLoading(false)
        && (calls[i][1].ImportData? <==> d.cards[i].name in found)
        && (calls[i][1].SetError? <==> d.cards[i].name !in found)
        && (calls[i][1].ImportData? ==> calls[i][1].data == found[d.cards[i].name])
  {
  }

  /** Cards with the same name are treated alike, wherever they sit. */
  lemma SameNameSameTreatment<D>(d: Deck, found: map<String, D>, i: nat, k: nat)
    requires i < |d.cards| && k < |d.cards| && d.cards[i].name == d.cards[k].name
    ensures ProcessResponse(d, found)[i] == ProcessResponse(d, found)[k]
  {
  }

  /** A response that finds more names only turns errors into imports. */
  lemma MoreFoundOnlyImportsMore<D>(d: Deck, found: map<String, D>, more: map<String, D>)
    requires found.Keys <= more.Keys
    requires forall n :: n in found ==> more[n] == found[n]
    ensures forall i :: 0 <= i < |d.cards| && ProcessResponse(d, found)[i][1].ImportData? ==>
              ProcessResponse(d, more)[i] == ProcessResponse(d, found)[i]
  {
  }
}
