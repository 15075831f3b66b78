/** The card record of models/Card.php: construction from a Scryfall payload,
    the type-line derivations (supertypes, card types, subtypes) and the JSON
    form. */
module CardRecord {
  import opened Wrappers
  import opened Text
  import Seqs

  /** The fields of a decoded Scryfall payload that the constructor reads;
      None is an absent (or null) property. */
  datatype Payload = Payload(
    id: Option<String>,
    name: Option<String>,
    manaCost: Option<String>,
    typeLine: Option<String>,
    oracleText: Option<String>,
    power: Option<String>,
    toughness: Option<String>,
    loyalty: Option<String>,
    collectorNumber: Option<String>,
    setName: Option<String>,
    setCode: Option<String>,
    colors: Option<seq<String>>)

  /** A set's full name and code. */
  datatype CardSet = CardSet(name: String, code: String)

  datatype Card = Card(
    id: String,
    name: String,
    manaCost: String,
    typeLine: String,
    text: String,
    power: Option<String>,
    toughness: Option<String>,
    loyalty: Option<String>,
    setNumber: String,
    cardSet: CardSet,
    colors: seq<String>)

  /** The constructor's failures: the Exception for a PHP-empty id, and the
      TypeError of storing null into a non-nullable string property. */
  datatype CardError = NoId | MissingField(field: String)

  /** The first required field (in the order the constructor stores them)
      that the payload lacks. */
  function FirstMissing(p: Payload): (r: Option<String>)
    ensures r.None? <==> p.name.Some? && p.typeLine.Some? && p.collectorNumber.Some? && p.setName.Some? && p.setCode.Some?
  {
    if p.name.None? then Some("name")
    else if p.typeLine.None? then Some("type_line")
    else if p.collectorNumber.None? then Some("collector_number")
    else if p.setName.None? then Some("set_name")
    else if p.setCode.None? then Some("set")
    else None
  }

  function OrElse<T>(o: Option<T>, default: T): T {
    if o.Some? then o.value else default
  }

  /** Card::__construct on a decoded payload. */
  function NewCard(p: Payload): (r: Result<Card, CardError>)
    ensures r == Err(NoId) <==> p.id.None? || PhpEmpty(p.id.value)
    ensures r.Ok? <==> p.id.Some? && !PhpEmpty(p.id.value) && FirstMissing(p).None?
    ensures r.Err? && r.error.MissingField? ==> FirstMissing(p) == Some(r.error.field)
    ensures r.Ok? ==> r.value.id == p.id.value && Some(r.value.name) == p.name
    ensures r.Ok? ==> Some(r.value.typeLine) == p.typeLine && Some(r.value.setNumber) == p.collectorNumber
    ensures r.Ok? ==> Some(r.value.cardSet.name) == p.setName && Some(r.value.cardSet.code) == p.setCode
    ensures r.Ok? ==> r.value.manaCost == (if p.manaCost.Some? then p.manaCost.value else "")
    ensures r.Ok? ==> r.value.text == (if p.oracleText.Some? then p.oracleText.value else "")
    ensures r.Ok? ==> r.value.colors == (if p.colors.Some? then p.colors.value else [])
    ensures r.Ok? ==> r.value.power == p.power && r.value.toughness == p.toughness && r.value.loyalty == p.loyalty
  {
    if p.id.None? || PhpEmpty(p.id.value) then Err(NoId)
    else match FirstMissing(p)
      case Some(field) => Err(MissingField(field))
      case None =>
        Ok(Card(p.id.value, p.name.value, OrElse(p.manaCost, ""), p.typeLine.value,
                OrElse(p.oracleText, ""), p.power, p.toughness, p.loyalty,
                p.collectorNumber.value, CardSet(p.setName.value, p.setCode.value),
                OrElse(p.colors, [])))
  }

  /** The payload a card's own fields describe. */
  function PayloadOf(c: Card): Payload {
    Payload(Some(c.id), Some(c.name), Some(c.manaCost), Some(c.typeLine), Some(c.text),
            c.power, c.toughness, c.loyalty, Some(c.setNumber),
            Some(c.cardSet.name), Some(c.cardSet.code), Some(c.colors))
  }

  /** Constructing from a card's own fields gives the card back, provided its
      id is not PHP-empty. */
  lemma CardRoundTrip(c: Card)
    requires !PhpEmpty(c.id)
    ensures NewCard(PayloadOf(c)) == Ok(c)
  {
  }

  /** Every constructed card comes back from its own payload. */
  lemma PayloadRoundTrip(p: Payload)
    requires NewCard(p).Ok?
    ensures NewCard(PayloadOf(NewCard(p).value)) == NewCard(p)
  {
  }

  // ---- Type line -------------------------------------------------------

  const SuperTypeNames: seq<String> := ["Basic", "Legendary", "Snow", "World"]
  const CardTypeNames: seq<String> := ["Artifact", "Creature", "Enchantment", "Instant", "Land", "Planeswalker", "Sorcery"]

  predicate IsSuperType(w: String) {
    w in SuperTypeNames
  }

  predicate IsCardType(w: String) {
    w in CardTypeNames
  }

  /** A subtype word survives array_filter: PHP drops "" and "0". */
  predicate IsKept(w: String) {
    !PhpEmpty(w)
  }

  /** The getters' return shape: a bare string for exactly one match, a list
      (possibly empty) otherwise. */
  datatype Shape = Single(word: String) | List(words: seq<String>)

  function ShapeOf(ws: seq<String>): (r: Shape)
    ensures r.Single? <==> |ws| == 1
    ensures Flatten(r) == ws
  {
    if |ws| == 1 then Single(ws[0]) else List(ws)
  }

  /** The matched words, whatever the shape. */
  function Flatten(s: Shape): seq<String> {
    match s
    case Single(w) => [w]
    case List(ws) => ws
  }

  /** explode(' ', $type) followed by array_map('trim', ...). */
  function Words(typeLine: String): (ws: seq<String>)
    ensures |ws| >= 1
  {
    Seqs.Map(Split(typeLine, ' '), Trim)
  }

  /** getSuperTypes. */
  function SuperTypes(typeLine: String): (r: Shape)
    ensures forall w :: w in Flatten(r) <==> w in Words(typeLine) && IsSuperType(w)
    ensures forall w :: IsSuperType(w) ==> multiset(Flatten(r))[w] == multiset(Words(typeLine))[w]
    ensures r.Single? <==> |Flatten(r)| == 1
  {
    ShapeOf(Seqs.Filter(Words(typeLine), IsSuperType))
  }

  /** getCardTypes. */
  function CardTypes(typeLine: String): (r: Shape)
    ensures forall w :: w in Flatten(r) <==> w in Words(typeLine) && IsCardType(w)
    ensures forall w :: IsCardType(w) ==> multiset(Flatten(r))[w] == multiset(Words(typeLine))[w]
    ensures r.Single? <==> |Flatten(r)| == 1
  {
    ShapeOf(Seqs.Filter(Words(typeLine), IsCardType))
  }

  /** getSubTypes: the kept words of the text between the first and second
      em dash, or an empty list when the line has no em dash. */
  function SubTypes(typeLine: String): (r: Shape)
    ensures r.Single? <==> |Flatten(r)| == 1
    ensures '—' !in typeLine ==> r == List([])
  {
    var parts := Split(typeLine, '—');
    SplitCount(typeLine, '—');
    if |parts| <= 1 then List([])
    else ShapeOf(Seqs.Filter(Seqs.Map(Split(parts[1], ' '), Trim), IsKept))
  }

  /** The subtypes are the kept words of the text after the first em dash and
      before the second; whatever follows a second dash is ignored. */
  lemma SubTypesBetweenDashes(before: String, mid: String, rest: String)
    requires '—' !in before && '—' !in mid
    ensures Flatten(SubTypes(before + "—" + mid)) == Seqs.Filter(Words(mid), IsKept)
    ensures SubTypes(before + "—" + mid + "—" + rest) == SubTypes(before + "—" + mid)
  {
    SplitPrefix(before, mid, '—');
    SplitFree(mid, '—');
    assert before + "—" + mid == before + ['—'] + mid;
    assert before + "—" + mid + "—" + rest == before + ['—'] + (mid + ['—'] + rest);
    SplitPrefix(before, mid + ['—'] + rest, '—');
    SplitPrefix(mid, rest, '—');
  }

  /** Every subtype is a kept word: non-empty, not "0", and free of spaces. */
  lemma SubTypesAreWords(typeLine: String)
    ensures forall w :: w in Flatten(SubTypes(typeLine)) ==> IsKept(w) && ' ' !in w
  {
    var parts := Split(typeLine, '—');
    if |parts| > 1 {
      var pieces := Split(parts[1], ' ');
      var ws := Seqs.Map(pieces, Trim);
      forall i | 0 <= i < |pieces|
        ensures ' ' !in ws[i]
      {
        TrimInside(pieces[i]);
      }
      var kept := Seqs.Filter(ws, IsKept);
      assert Flatten(SubTypes(typeLine)) == kept;
    }
  }

  lemma TrimInside(s: String)
    ensures forall c :: c in Trim(s) ==> c in s
  {
    var i := LeadRun(s, 0);
    var t := Trim(s);
    assert t == s[i..i + |t|];
    assert forall c :: c in s[i..i + |t|] ==> c in s;
  }

  /** A word as the type line's spaces delimit it: no space inside, nothing
      for trim() to strip at either end. */
  predicate CleanWord(w: String) {
    ' ' !in w && (w == [] || (!IsTrimmable(w[0]) && !IsTrimmable(w[|w| - 1])))
  }

  /** A type line written as words joined by single spaces splits back into
      exactly those words. */
  lemma WordsOfJoin(ws: seq<String>)
    requires |ws| >= 1
    requires forall i :: 0 <= i < |ws| ==> CleanWord(ws[i])
    ensures Words(Join(ws, ' ')) == ws
  {
    SplitJoin(ws, ' ');
  }

  /** getSuperTypes and getCardTypes list the matching words in type-line
      order, duplicates kept. */
  lemma TypesInLineOrder(ws: seq<String>)
    requires |ws| >= 1
    requires forall i :: 0 <= i < |ws| ==> CleanWord(ws[i])
    ensures Flatten(SuperTypes(Join(ws, ' '))) == Seqs.Filter(ws, IsSuperType)
    ensures Flatten(CardTypes(Join(ws, ' '))) == Seqs.Filter(ws, IsCardType)
  {
    WordsOfJoin(ws);
  }

  /** "Legendary Creature — Elf Warrior": the subtypes are the words after the
      dash, in order. */
  lemma SubTypesAfterDash(before: String, ws: seq<String>)
    requires '—' !in before
    requires |ws| >= 1
    requires forall i :: 0 <= i < |ws| ==> CleanWord(ws[i]) && IsKept(ws[i]) && '—' !in ws[i]
    ensures Flatten(SubTypes(before + "— " + Join(ws, ' '))) == ws
  {
    var mid := " " + Join(ws, ' ');
    var line := before + "— " + Join(ws, ' ');
    Regroup(before, Join(ws, ' '));
    DashFreeAfterSpace(ws);
    SubTypesBetweenDashes(before, mid, []);
    assert Flatten(SubTypes(line)) == Seqs.Filter(Words(mid), IsKept);
    WordsAfterSpace(ws);
    KeptAfterEmpty(ws);
  }

  lemma Regroup(before: String, j: String)
    ensures before + "— " + j == before + "—" + (" " + j)
  {
  }

  lemma DashFreeAfterSpace(ws: seq<String>)
    requires |ws| >= 1
    requires forall i :: 0 <= i < |ws| ==> '—' !in ws[i]
    ensures '—' !in " " + Join(ws, ' ')
  {
    NoSeparatorInJoin(ws, '—', ' ');
  }

  lemma KeptAfterEmpty(ws: seq<String>)
    requires forall i :: 0 <= i < |ws| ==> IsKept(ws[i])
    ensures Seqs.Filter([[]] + ws, IsKept) == ws
  {
    Seqs.FilterAppend([[]], ws, IsKept);
    Seqs.FilterAll(ws, IsKept);
    assert Seqs.Filter([[]], IsKept) == [];
  }

  /** The words of " " + the joined words: an empty word, then the words. */
  lemma WordsAfterSpace(ws: seq<String>)
    requires |ws| >= 1
    requires forall i :: 0 <= i < |ws| ==> CleanWord(ws[i])
    ensures Seqs.Map(Split(" " + Join(ws, ' '), ' '), Trim) == [[]] + ws
  {
    SpaceThenWords(ws);
    TrimKeepsCleanWords(ws);
    TrimAfterEmpty(ws);
  }

  lemma SpaceThenWords(ws: seq<String>)
    requires |ws| >= 1
    requires forall i :: 0 <= i < |ws| ==> ' ' !in ws[i]
    ensures Split(" " + Join(ws, ' '), ' ') == [[]] + ws
  {
    var j := Join(ws, ' ');
    LeadingSpace(j);
    SplitPrefix([], j, ' ');
    SplitJoin(ws, ' ');
  }

  lemma LeadingSpace(j: String)
    ensures " " + j == [] + [' '] + j
  {
  }

  lemma TrimAfterEmpty(ws: seq<String>)
    ensures Seqs.Map([[]] + ws, Trim) == [[]] + Seqs.Map(ws, Trim)
  {
    assert Trim([]) == [];
  }

  /** trim() leaves clean words as they are. */
  lemma TrimKeepsCleanWords(ws: seq<String>)
    requires forall i :: 0 <= i < |ws| ==> CleanWord(ws[i])
    ensures Seqs.Map(ws, Trim) == ws
  {
    var ts := Seqs.Map(ws, Trim);
    forall i | 0 <= i < |ws|
      ensures ts[i] == ws[i]
    {
      assert ts[i] == Trim(ws[i]);
    }
  }

  /** Joining pieces free of a character with another separator leaves the
      character out. */
  lemma {:induction false} NoSeparatorInJoin(ws: seq<String>, c: char, sep: char)
    requires |ws| >= 1 && c != sep
    requires forall i :: 0 <= i < |ws| ==> c !in ws[i]
    ensures c !in Join(ws, sep)
  {
    if |ws| > 1 {
      NoSeparatorInJoin(ws[1..], c, sep);
    }
  }

  // ---- JSON form -------------------------------------------------------

  /** The array jsonSerialize returns. The shape fields hold a bare string or
      a list; `power`, `toughness` and `loyalty` are None when the key is
      absent and Some(None) when it is present with a null value. */
  datatype CardJson = CardJson(
    id: String, name: String, manaCost: String, colors: seq<String>, typeLine: String,
    text: String, cardSet: CardSet, setNumber: String,
    superTypes: Shape, cardTypes: Shape, subTypes: Shape,
    power: Option<Option<String>>, toughness: Option<Option<String>>, loyalty: Option<Option<String>>)

  /** The keys of the JSON object. */
  datatype Key = IdKey | NameKey | ManaCostKey | ColorsKey | TypeKey | TextKey | SetKey | SetNumberKey
               | SuperTypesKey | CardTypesKey | SubTypesKey | PowerKey | ToughnessKey | LoyaltyKey

  /** The text of each key. */
  function KeyName(k: Key): String {
    match k
    case IdKey => "id"
    case NameKey => "name"
    case ManaCostKey => "manaCost"
    case ColorsKey => "colors"
    case TypeKey => "type"
    case TextKey => "text"
    case SetKey => "set"
    case SetNumberKey => "setNumber"
    case SuperTypesKey => "superTypes"
    case CardTypesKey => "cardTypes"
    case SubTypesKey => "subTypes"
    case PowerKey => "power"
    case ToughnessKey => "toughness"
    case LoyaltyKey => "loyalty"
  }

  const FixedKeys: seq<Key> := [IdKey, NameKey, ManaCostKey, ColorsKey, TypeKey, TextKey, SetKey,
                                SetNumberKey, SuperTypesKey, CardTypesKey, SubTypesKey]

  /** The keys of the JSON object, in PHP insertion order. */
  function Keys(j: CardJson): seq<Key> {
    FixedKeys
      + (if j.power.Some? then [PowerKey] else [])
      + (if j.toughness.Some? then [ToughnessKey] else [])
      + (if j.loyalty.Some? then [LoyaltyKey] else [])
  }

  /** jsonSerialize. */
  function Serialize(c: Card): (j: CardJson)
    ensures j.id == c.id && j.name == c.name && j.manaCost == c.manaCost && j.colors == c.colors
    ensures j.typeLine == c.typeLine && j.text == c.text && j.cardSet == c.cardSet && j.setNumber == c.setNumber
    ensures j.superTypes == SuperTypes(c.typeLine) && j.cardTypes == CardTypes(c.typeLine)
    ensures j.subTypes == SubTypes(c.typeLine)
    ensures j.power.Some? <==> Contains(c.typeLine, "Creature")
    ensures j.toughness.Some? <==> Contains(c.typeLine, "Creature")
    ensures j.loyalty.Some? <==> Contains(c.typeLine, "Planeswalker")
    ensures j.power.Some? ==> j.power.value == c.power && j.toughness.value == c.toughness
    ensures j.loyalty.Some? ==> j.loyalty.value == c.loyalty
  {
    var creature := Contains(c.typeLine, "Creature");
    CardJson(c.id, c.name, c.manaCost, c.colors, c.typeLine, c.text, c.cardSet, c.setNumber,
             SuperTypes(c.typeLine), CardTypes(c.typeLine), SubTypes(c.typeLine),
             if creature then Some(c.power) else None,
             if creature then Some(c.toughness) else None,
             if Contains(c.typeLine, "Planeswalker") then Some(c.loyalty) else None)
  }

  /** The serialised card's keys: the eleven fixed ones, then power and
      toughness for a creature, then loyalty for a planeswalker. */
  lemma SerializedKeys(c: Card)
    ensures Keys(Serialize(c)) == FixedKeys
      + (if Contains(c.typeLine, "Creature") then [PowerKey, ToughnessKey] else [])
      + (if Contains(c.typeLine, "Planeswalker") then [LoyaltyKey] else [])
  {
    KeysByFlags(Serialize(c));
  }

  lemma KeysByFlags(j: CardJson)
    requires j.power.Some? == j.toughness.Some?
    ensures Keys(j) == FixedKeys + (if j.power.Some? then [PowerKey, ToughnessKey] else [])
                      + (if j.loyalty.Some? then [LoyaltyKey] else [])
  {
    if j.power.Some? {
      assert FixedKeys + [PowerKey] + [ToughnessKey] == FixedKeys + [PowerKey, ToughnessKey];
    } else {
      assert FixedKeys + [] + [] == FixedKeys;
    }
  }

  /** Every field of the card other than an absent power, toughness or
      loyalty can be read back from its JSON form. */
  lemma SerializeKeepsCard(c: Card)
    requires Contains(c.typeLine, "Creature") && Contains(c.typeLine, "Planeswalker")
    ensures var j := Serialize(c);
      Card(j.id, j.name, j.manaCost, j.typeLine, j.text, j.power.value, j.toughness.value,
           j.loyalty.value, j.setNumber, j.cardSet, j.colors) == c
  {
  }
}
