/** The ArrayAccess and Iterator surface of models/Deck.php: the deck's
    `$cards` PHP array (integer keys, with PHP's next append key) and the
    iteration `$pointer`. */
module DeckArray {
  import opened Wrappers

  /** `$cards` as a key-to-card map, the key `$cards[] = ...` would use next,
      and `$pointer`. */
  datatype Deck<C> = Deck(cards: map<int, C>, nextKey: int, pointer: int)

  /** Every key is below the next append key, as PHP arrays maintain. */
  predicate Wf<C>(d: Deck<C>) {
    d.nextKey >= 0 && forall k :: k in d.cards ==> k < d.nextKey
  }

  /** A new deck: `$cards = []` and `$pointer = 0`. */
  function Empty<C>(): (d: Deck<C>)
    ensures Wf(d) && Count(d) == 0
  {
    Deck(map[], 0, 0)
  }

  /** count($this->cards). */
  function Count<C>(d: Deck<C>): nat {
    |d.cards|
  }

  /** The cards of a list under keys 0, 1, 2, ... */
  function ListMap<C>(cs: seq<C>): (m: map<int, C>)
    ensures |m| == |cs|
    ensures forall k :: k in m <==> 0 <= k < |cs|
    ensures forall i :: 0 <= i < |cs| ==> m[i] == cs[i]
  {
    if cs == [] then map[]
    else
      var prev := ListMap(cs[..|cs| - 1]);
      assert |cs| - 1 !in prev;
      prev[|cs| - 1 := cs[|cs| - 1]]
  }

  /** The deck whose cards are the list, under keys 0, 1, 2, ... */
  function FromList<C>(cs: seq<C>): (d: Deck<C>)
    ensures Wf(d) && Count(d) == |cs| && d.pointer == 0
    ensures forall i :: 0 <= i < |cs| ==> i in d.cards && d.cards[i] == cs[i]
  {
    Deck(ListMap(cs), |cs|, 0)
  }

  /** offsetExists: isset($this->cards[$offset]). */
  function OffsetExists<C>(d: Deck<C>, offset: int): (b: bool)
    ensures b <==> OffsetGet(d, offset).Some?
  {
    offset in d.cards
  }

  /** offsetGet: the card at the offset, or null (None) when there is none. */
  function OffsetGet<C>(d: Deck<C>, offset: int): (r: Option<C>)
    ensures r.None? <==> offset !in d.cards
    ensures r.Some? ==> r.value == d.cards[offset]
  {
    if offset in d.cards then Some(d.cards[offset]) else None
  }

  /** offsetSet: a null offset appends under the next key; any other offset
      stores under that key. Neither moves the pointer. */
  function OffsetSet<C>(d: Deck<C>, offset: Option<int>, value: C): (r: Deck<C>)
    requires Wf(d)
    ensures Wf(r) && r.pointer == d.pointer
    ensures offset.None? ==> Count(r) == Count(d) + 1 && d.nextKey in r.cards && r.cards[d.nextKey] == value
    ensures offset.Some? ==> offset.value in r.cards && r.cards[offset.value] == value
    ensures forall k :: k in d.cards && Some(k) != offset ==> k in r.cards && r.cards[k] == d.cards[k]
    ensures forall k :: k in r.cards ==> k in d.cards || (offset.None? && k == d.nextKey) || Some(k) == offset
  {
    match offset
    case None =>
      assert d.nextKey !in d.cards;
      Deck(d.cards[d.nextKey := value], d.nextKey + 1, d.pointer)
    case Some(k) =>
      Deck(d.cards[k := value], if k >= d.nextKey then k + 1 else d.nextKey, d.pointer)
  }

  /** offsetUnset: removes the key; PHP does not lower the next append key. */
  function OffsetUnset<C>(d: Deck<C>, offset: int): (r: Deck<C>)
    requires Wf(d)
    ensures Wf(r) && r.nextKey == d.nextKey && r.pointer == d.pointer
    ensures offset !in r.cards
    ensures Count(r) == if offset in d.cards then Count(d) - 1 else Count(d)
    ensures forall k :: k != offset ==> (k in r.cards <==> k in d.cards)
    ensures forall k :: k in r.cards ==> r.cards[k] == d.cards[k]
  {
    Deck(d.cards - {offset}, d.nextKey, d.pointer)
  }

  /** current(): the card under the pointer. None stands for the TypeError
      PHP raises when that key is missing (null is not a Card). */
  function Current<C>(d: Deck<C>): (r: Option<C>)
    ensures r.Some? <==> d.pointer in d.cards
    ensures r.Some? ==> r.value == d.cards[d.pointer]
    ensures r == OffsetGet(d, d.pointer)
  {
    if d.pointer in d.cards then Some(d.cards[d.pointer]) else None
  }

  /** next(): $this->pointer++. */
  function Next<C>(d: Deck<C>): (r: Deck<C>)
    ensures r.pointer == d.pointer + 1 && r.cards == d.cards && r.nextKey == d.nextKey
  {
    d.(pointer := d.pointer + 1)
  }

  /** key(). */
  function Key<C>(d: Deck<C>): int {
    d.pointer
  }

  /** valid(): $this->pointer < count($this->cards). */
  function Valid<C>(d: Deck<C>): (b: bool)
    ensures b <==> d.pointer < Count(d)
  {
    d.pointer < |d.cards|
  }

  /** rewind(): $this->pointer = 0. */
  function Rewind<C>(d: Deck<C>): (r: Deck<C>)
    ensures r.pointer == 0 && r.cards == d.cards && r.nextKey == d.nextKey
  {
    d.(pointer := 0)
  }

  /** rewind() then next() walks the keys 0, 1, 2, ...: valid() right after
      rewind() holds exactly for a non-empty deck, and current() then yields
      the first card of a deck built from a list. */
  lemma IteratorWalk<C>(d: Deck<C>, cs: seq<C>)
    ensures Key(Rewind(d)) == 0 && Key(Next(d)) == Key(d) + 1
    ensures Valid(Rewind(d)) <==> Count(d) > 0
    ensures Current(Rewind(FromList(cs))) == if cs == [] then None else Some(cs[0])
  {
  }

  /** `$this->cards[] = $card` for each card of the list, in order. */
  function AppendAll<C>(d: Deck<C>, cs: seq<C>): (r: Deck<C>)
    requires Wf(d)
    ensures Wf(r)
  {
    if cs == [] then d else OffsetSet(AppendAll(d, cs[..|cs| - 1]), None, cs[|cs| - 1])
  }

  /** The constructor's appends to a new deck file the cards under keys 0 .. n-1 in order. */
  lemma {:induction false} AppendsNumberFromZero<C>(cs: seq<C>)
    ensures AppendAll(Empty(), cs) == FromList(cs)
  {
    if cs != [] {
      var n := |cs|;
      AppendsNumberFromZero(cs[..n - 1]);
      var prev := FromList(cs[..n - 1]);
      var r := AppendAll(Empty(), cs);
      assert r == OffsetSet(prev, None, cs[n - 1]);
      assert r.cards == FromList(cs).cards;
    }
  }

  /** A foreach over the deck: rewind, then current()/next() while valid().
      It yields every card in key order when the keys are 0 .. count-1, and
      stops with the TypeError of current() (None) at the first gap otherwise. */
  method Traverse<C>(d: Deck<C>) returns (r: Option<seq<C>>)
    ensures r.Some? <==> forall k :: 0 <= k < Count(d) ==> k in d.cards
    ensures r.Some? ==> |r.value| == Count(d) && forall i :: 0 <= i < Count(d) ==> r.value[i] == d.cards[i]
  {
    var it := Rewind(d);
    var out: seq<C> := [];
    while Valid(it)
      invariant it.cards == d.cards && 0 <= it.pointer <= Count(d)
      invariant |out| == it.pointer
      invariant forall i :: 0 <= i < it.pointer ==> i in d.cards && out[i] == d.cards[i]
      decreases Count(d) - it.pointer
    {
      var c := Current(it);
      if c.None? {
        return None;
      }
      out := out + [c.value];
      it := Next(it);
    }
    return Some(out);
  }
}
