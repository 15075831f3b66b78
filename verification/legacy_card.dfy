/** The presentation helpers of models/Deprecated/Card.php: the colour label
    (getColorString, getTwoHouseColorName), the type icons (getImageIcon,
    getSingleImageIcon) and the footer that toHTML chooses. */
module LegacyCard {
  import opened Wrappers
  import opened Text
  import Seqs

  // ---- Colour label ------------------------------------------------------

  /** getTwoHouseColorName as written: membership tests of the full colour
      names, Black first, then Blue, Green, and Red with White. A label
      comes out only for two different full colour names. */
  function TwoHouse(colors: seq<String>): (r: String)
    ensures r != "" ==> |colors| == 2 && colors[0] != colors[1]
    ensures r != "" ==> ColourNamed(colors[0]).Some? && ColourNamed(colors[1]).Some?
  {
    if |colors| != 2 then ""
    else if "Black" in colors && "Blue" in colors then "dimir"
    else if "Black" in colors && "Green" in colors then "golgari"
    else if "Black" in colors && "Red" in colors then "rakdos"
    else if "Black" in colors && "White" in colors then "orzhov"
    else if "Blue" in colors && "Green" in colors then "simic"
    else if "Blue" in colors && "Red" in colors then "izzet"
    else if "Blue" in colors && "White" in colors then "azorius"
    else if "Green" in colors && "Red" in colors then "gruul"
    else if "Green" in colors && "White" in colors then "selesnya"
    else if "Red" in colors && "White" in colors then "boros"
    else ""
  }

  /** getColorString: by the number of colours, with a pair named by the
      guild table. */
  function ColorString(colors: seq<String>): (r: String)
    ensures |colors| == 0 ==> r == "colorless"
    ensures |colors| == 1 ==> r == Lower(colors[0])
    ensures |colors| == 2 ==> r == GuildOfNames(colors[0], colors[1])
    ensures |colors| > 2 ==> r == "multicolored"
  {
    if |colors| == 0 then "colorless"
    else if |colors| > 2 then "multicolored"
    else if |colors| == 2 then
      TwoHouseIsGuildTable(colors[0], colors[1]);
      assert colors == [colors[0], colors[1]];
      TwoHouse(colors)
    else Lower(colors[0])
  }

  /** The five colours, as an independent reference for the guild table. */
  datatype Colour = Black | Blue | Green | Red | White

  /** The full name the payload uses for a colour. */
  function NameOf(c: Colour): String {
    match c
    case Black => "Black"
    case Blue => "Blue"
    case Green => "Green"
    case Red => "Red"
    case White => "White"
  }

  /** The colour a name stands for; single-letter codes stand for none. */
  function ColourNamed(name: String): (r: Option<Colour>)
    ensures r.Some? ==> NameOf(r.value) == name
    ensures r.None? ==> forall c :: NameOf(c) != name
  {
    if name == "Black" then Some(Black)
    else if name == "Blue" then Some(Blue)
    else if name == "Green" then Some(Green)
    else if name == "Red" then Some(Red)
    else if name == "White" then Some(White)
    else None
  }

  function Rank(c: Colour): nat {
    match c
    case Black => 0
    case Blue => 1
    case Green => 2
    case Red => 3
    case White => 4
  }

  /** The guild of two different colours, whatever their order. */
  function Guild(a: Colour, b: Colour): String
    requires a != b
  {
    var lo := if Rank(a) < Rank(b) then a else b;
    var hi := if Rank(a) < Rank(b) then b else a;
    match (lo, hi)
    case (Black, Blue) => "dimir"
    case (Black, Green) => "golgari"
    case (Black, Red) => "rakdos"
    case (Black, White) => "orzhov"
    case (Blue, Green) => "simic"
    case (Blue, Red) => "izzet"
    case (Blue, White) => "azorius"
    case (Green, Red) => "gruul"
    case (Green, White) => "selesnya"
    case (Red, White) => "boros"
    case _ => ""
  }

  /** The guild table read off the colour names: a pair of two different
      full colour names has its guild, anything else has none. */
  function GuildOfNames(a: String, b: String): String {
    match (ColourNamed(a), ColourNamed(b))
    case (Some(x), Some(y)) => if x != y then Guild(x, y) else ""
    case _ => ""
  }

  lemma ColourNamedOf(c: Colour)
    ensures ColourNamed(NameOf(c)) == Some(c)
  {
  }

  /** getTwoHouseColorName agrees with the guild table on every pair. */
  lemma TwoHouseIsGuildTable(a: String, b: String)
    ensures TwoHouse([a, b]) == GuildOfNames(a, b)
  {
    match (ColourNamed(a), ColourNamed(b))
    case (Some(x), Some(y)) =>
      TwoHouseOfColours(x, y);
    case _ =>
      TwoHouseOfNonColour(a, b);
  }

  lemma TwoHouseOfColours(x: Colour, y: Colour)
    ensures TwoHouse([NameOf(x), NameOf(y)]) == if x != y then Guild(x, y) else ""
  {
    var cs := [NameOf(x), NameOf(y)];
    assert forall n :: n in cs <==> n == NameOf(x) || n == NameOf(y);
    match x
    case Black =>
    case Blue =>
    case Green =>
    case Red =>
    case White =>
  }

  lemma TwoHouseOfNonColour(a: String, b: String)
    requires ColourNamed(a).None? || ColourNamed(b).None?
    ensures TwoHouse([a, b]) == ""
  {
    var cs := [a, b];
    assert forall n :: n in cs <==> n == a || n == b;
  }

  /** The order of the pair does not matter. */
  lemma TwoHouseSymmetric(a: String, b: String)
    ensures TwoHouse([a, b]) == TwoHouse([b, a])
  {
    TwoHouseIsGuildTable(a, b);
    TwoHouseIsGuildTable(b, a);
  }

  /** Every pair of different colours reaches a guild name. */
  lemma EveryPairHasAGuild(x: Colour, y: Colour)
    requires x != y
    ensures TwoHouse([NameOf(x), NameOf(y)]) == Guild(x, y) && Guild(x, y) != ""
  {
    TwoHouseIsGuildTable(NameOf(x), NameOf(y));
    ColourNamedOf(x);
    ColourNamedOf(y);
  }

  /** Single-letter codes and a repeated colour have no guild. */
  lemma NoGuildForCodes()
    ensures TwoHouse(["B", "U"]) == ""
    ensures TwoHouse(["Red", "Red"]) == ""
  {
    TwoHouseIsGuildTable("B", "U");
    TwoHouseIsGuildTable("Red", "Red");
  }

  /** The label of a list of colours: none, one, two or more. */
  lemma ColorStringClassifies(cs: seq<Colour>)
    requires |cs| != 2 || cs[0] != cs[1]
    ensures var names := Seqs.Map(cs, NameOf);
      ColorString(names) == (if |cs| == 0 then "colorless"
                             else if |cs| == 1 then Lower(NameOf(cs[0]))
                             else if |cs| == 2 then Guild(cs[0], cs[1])
                             else "multicolored")
  {
    if |cs| == 2 {
      var names := Seqs.Map(cs, NameOf);
      assert names == [NameOf(cs[0]), NameOf(cs[1])];
      EveryPairHasAGuild(cs[0], cs[1]);
    }
  }

  // ---- Type icons --------------------------------------------------------

  const ValidCardTypes: seq<String> := ["Artifact", "Creature", "Enchantment", "Instant", "Land", "Planeswalker", "Sorcery"]

  predicate IsValidType(t: String) {
    t in ValidCardTypes
  }

  /** getSingleImageIcon: an icon is drawn exactly for the seven card types,
      as a div carrying the extra class around the type's lower-case svg. */
  function SingleImageIcon(t: String, extraClass: String): (r: String)
    ensures r != "" <==> IsValidType(t)
    ensures IsValidType(t) ==>
      r == "<div class='image-icon " + extraClass + "'><img src='svg/" + Lower(t) + ".svg' /></div>"
  {
    if IsValidType(t) then
      var icon := "<div class='image-icon " + extraClass + "'><img src='svg/" + Lower(t) + ".svg' /></div>";
      assert |icon| > 0;
      icon
    else ""
  }

  /** Reading an index that array_intersect did not keep: PHP passes null to
      the string parameter of getSingleImageIcon and raises a TypeError. */
  datatype IconError = MissingKey(index: nat)

  /** getImageIcon as written: array_intersect keeps the original indexes, so
      `$types[0]` and `$types[1]` exist only when those entries are card types.
      It fails exactly when one or two card types are present and a non-type
      comes before one of them. */
  function ImageIconAsWritten(types: seq<String>): (r: Result<String, IconError>)
    ensures var n := |Seqs.Filter(types, IsValidType)|;
      r.Err? <==> (n == 1 || n == 2) && exists i :: 0 <= i < n && !IsValidType(types[i])
  {
    var n := |Seqs.Filter(types, IsValidType)|;
    if n == 1 then
      if IsValidType(types[0]) then Ok(SingleImageIcon(types[0], "")) else Err(MissingKey(0))
    else if n == 2 then
      if !IsValidType(types[0]) then Err(MissingKey(0))
      else if !IsValidType(types[1]) then Err(MissingKey(1))
      else Ok(SingleImageIcon(types[0], "split") + SingleImageIcon(types[1], "split"))
    else Ok("")
  }

  /** getImageIcon as intended: the card types of the list, re-indexed.
      Icons are drawn exactly when one or two card types are present, and a
      single type gives its own icon. */
  function ImageIcon(types: seq<String>): (r: String)
    ensures var ws := Seqs.Filter(types, IsValidType);
      r != "" <==> |ws| == 1 || |ws| == 2
    ensures var ws := Seqs.Filter(types, IsValidType);
      |ws| == 1 ==> r == SingleImageIcon(ws[0], "")
    ensures var ws := Seqs.Filter(types, IsValidType);
      |ws| == 2 ==> r == SingleImageIcon(ws[0], "split") + SingleImageIcon(ws[1], "split")
  {
    var ws := Seqs.Filter(types, IsValidType);
    if |ws| == 1 then
      assert IsValidType(ws[0]);
      SingleImageIcon(ws[0], "")
    else if |ws| == 2 then
      assert IsValidType(ws[0]);
      SingleImageIcon(ws[0], "split") + SingleImageIcon(ws[1], "split")
    else ""
  }

  /** "Tribal Instant": the written method fails where the intended one draws
      the instant icon. */
  lemma TribalInstantFails()
    ensures ImageIconAsWritten(["Tribal", "Instant"]) == Err(MissingKey(0))
    ensures ImageIcon(["Tribal", "Instant"]) == SingleImageIcon("Instant", "")
  {
    var ts: seq<String> := ["Tribal", "Instant"];
    assert !IsValidType("Tribal");
    assert IsValidType("Instant");
    assert ts[1..] == ["Instant"];
    assert ["Instant"][1..] == [];
    assert Seqs.Filter(ts, IsValidType) == ["Instant"];
  }

  /** Whenever the written method returns, it returns the intended icons. */
  lemma ImageIconAsWrittenAgrees(types: seq<String>)
    ensures ImageIconAsWritten(types).Ok? ==> ImageIconAsWritten(types).value == ImageIcon(types)
  {
    var ws := Seqs.Filter(types, IsValidType);
    if (|ws| == 1 || |ws| == 2) && IsValidType(types[0]) {
      assert ws == [types[0]] + Seqs.Filter(types[1..], IsValidType);
      if |ws| == 2 && IsValidType(types[1]) {
        var tail := types[1..];
        assert tail[0] == types[1];
        assert Seqs.Filter(tail, IsValidType) == [types[1]] + Seqs.Filter(tail[1..], IsValidType);
      }
    }
  }

  // ---- Footer ------------------------------------------------------------

  /** The footer toHTML puts under the text box. */
  datatype Footer = NoFooter | PowerToughness(power: Option<String>, toughness: Option<String>) | Loyalty(loyalty: Option<String>)

  /** The creature check runs first and the planeswalker check second, so a
      planeswalker creature gets the loyalty footer; a footer appears exactly
      for a creature or a planeswalker. */
  function SelectFooter(typeLine: String, power: Option<String>, toughness: Option<String>, loyalty: Option<String>): (r: Footer)
    ensures r.NoFooter? <==> !Contains(typeLine, "Creature") && !Contains(typeLine, "Planeswalker")
    ensures r.Loyalty? <==> Contains(typeLine, "Planeswalker")
    ensures r.Loyalty? ==> r.loyalty == loyalty
    ensures r.PowerToughness? ==> r.power == power && r.toughness == toughness
  {
    if Contains(typeLine, "Planeswalker") then Loyalty(loyalty)
    else if Contains(typeLine, "Creature") then PowerToughness(power, toughness)
    else NoFooter
  }

  /** A null property interpolates as the empty string. */
  function Interpolate(o: Option<String>): String {
    if o.Some? then o.value else ""
  }

  /** The footer's HTML and the extra class of the text box. */
  function FooterHtml(f: Footer): (String, String) {
    match f
    case NoFooter => ("", "")
    case PowerToughness(p, t) =>
      ("<div class='card-footer'><div class='power-block'>" + Interpolate(p) + " / " + Interpolate(t) + "</div></div>", "has-footer")
    case Loyalty(l) => ("<div class='card-footer'><div class='power-block'>" + Interpolate(l) + "</div></div>", "has-footer")
  }

  /** The footer as the two sequential checks of toHTML assign it. */
  function FooterBySteps(typeLine: String, power: Option<String>, toughness: Option<String>, loyalty: Option<String>): Footer {
    var afterCreature := if Contains(typeLine, "Creature") then PowerToughness(power, toughness) else NoFooter;
    if Contains(typeLine, "Planeswalker") then Loyalty(loyalty) else afterCreature
  }

  /** Choosing the footer by priority is the same as running the two
      assignments in order, and the text box is marked exactly when a footer
      appears. */
  lemma FooterChoice(typeLine: String, power: Option<String>, toughness: Option<String>, loyalty: Option<String>)
    ensures SelectFooter(typeLine, power, toughness, loyalty) == FooterBySteps(typeLine, power, toughness, loyalty)
    ensures FooterHtml(SelectFooter(typeLine, power, toughness, loyalty)).1 == "has-footer"
        <==> Contains(typeLine, "Creature") || Contains(typeLine, "Planeswalker")
  {
  }
}
