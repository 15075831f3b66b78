/** The browser-side card of js/Card.ts: its constructor reads the name, set
    and collector number off a decklist line with
    `/^(\[([A-Z0-9]+)#?([A-Z0-9]+)] )?(.*)$/` and keeps the id it is given. */
module ClientCard {
  import opened Wrappers
  import opened Text
  import Bracket
  import PhpDeck

  /** `set` and `number` are undefined (None) when the line has no bracket. */
  datatype Card = Card(id: int, name: String, cardSet: Option<String>, number: Option<String>)

  /** No JavaScript line terminator: `.` matches every character, and `$`
      (without the m flag) matches only at the end of the input. */
  predicate Printable(s: String) {
    forall i :: 0 <= i < |s| ==> !IsLineTerminator(s[i])
  }

  /** The constructor. When the bracket group matches, the rest must be
      printable; when it does not, backtracking tries the whole text as the
      name, which fails for the same reason (the bracket itself is printable).
      The text is the bracket as spelled, if any, followed by the name; the
      number is the bracket's first code and the set its second. */
  function Parse(input: String, id: int): (r: Result<Card, String>)
    ensures r.Ok? ==> r.value.id == id
    ensures r.Ok? ==> Printable(r.value.name)
    ensures r.Ok? ==> (r.value.cardSet.Some? <==> r.value.number.Some?)
    ensures r.Ok? ==>
      var br := Bracket.Match(input);
      && input == (if br.Some? then Bracket.Spelling(br.value) else []) + r.value.name
      && r.value.cardSet == (if br.Some? then Some(br.value.second) else None)
      && r.value.number == (if br.Some? then Some(br.value.first) else None)
  {
    var ref := Bracket.Match(input);
    var skip := if ref.Some? then |Bracket.Spelling(ref.value)| else 0;
    var rest := input[skip..];
    assert input == input[..skip] + rest;
    if !Printable(rest) then Err("No Text Provided for Card")
    else if ref.Some? then Ok(Card(id, rest, Some(ref.value.second), Some(ref.value.first)))
    else Ok(Card(id, rest, None, None))
  }

  /** A text is printable exactly when both its parts are. */
  lemma PrintableConcat(a: String, b: String)
    ensures Printable(a + b) <==> Printable(a) && Printable(b)
  {
    var s := a + b;
    assert forall j :: 0 <= j < |a| ==> s[j] == a[j];
    assert forall j :: 0 <= j < |b| ==> s[|a| + j] == b[j];
  }

  /** The constructor throws exactly for text holding a line terminator. */
  lemma ParseFailsOnlyOnTerminator(input: String, id: int)
    ensures Parse(input, id).Err? <==> !Printable(input)
  {
    var ref := Bracket.Match(input);
    if ref.Some? {
      var sp := Bracket.Spelling(ref.value);
      Bracket.SpellingPrintable(ref.value);
      assert forall j :: 0 <= j < |sp| ==> sp[j] in sp;
      assert Printable(sp);
      var rest := input[|sp|..];
      assert input == sp + rest;
      PrintableConcat(sp, rest);
    } else {
      assert input[0..] == input;
    }
  }

  /** "[MIR#71] Name": the number is the first code and the set the second,
      the reverse of the server's reading of the same line. */
  lemma BracketSwapped(a: String, b: String, name: String, id: int)
    requires Bracket.IsCode(a) && Bracket.IsCode(b) && Printable(name)
    ensures var line := "[" + a + "#" + b + "] " + name;
      Parse(line, id) == Ok(Card(id, name, Some(b), Some(a)))
      && PhpDeck.MatchLine(line).Some?
      && PhpDeck.MatchLine(line).value.setCode == a && PhpDeck.MatchLine(line).value.number == b
  {
    var line := "[" + a + "#" + b + "] " + name;
    Bracket.MatchWithHash(a, b, name);
    var sp := Bracket.Spelling(Bracket.Ref(a, b, true));
    assert line == sp + name;
    assert line[|sp|..] == name;
    assert forall i :: 0 <= i < |name| ==> name[i] != '\n';
    PhpDeck.MatchBracketLine(a, b, name);
  }

  /** Text that does not open a bracket is the name as it stands, so a
      leading quantity stays in the name. */
  lemma NoBracketWholeName(input: String, id: int)
    requires Printable(input)
    requires input == [] || input[0] != '['
    ensures Parse(input, id) == Ok(Card(id, input, None, None))
  {
    assert input[0..] == input;
  }

  /** "[M] X": a bracket with a single code is not a reference, and stays in the name. */
  lemma ShortBracketKept(id: int)
    ensures Parse("[M] X", id) == Ok(Card(id, "[M] X", None, None))
  {
    var s: String := "[M] X";
    assert Bracket.CodeRun(s, 2) == 0;
    assert Bracket.CodeRun(s, 1) == 1;
    assert Bracket.Match(s) == None;
    assert s[0..] == s;
  }
}
