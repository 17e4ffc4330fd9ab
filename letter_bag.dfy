/**
 * The letter bag of scrabble.ts: the fixed letter distribution it is built
 * from, and how a rack is topped up from the end of the bag.
 */
module LetterBag {

  /** Letters per tile letter, in the order of the source's distribution table. */
  const Distribution: seq<(char, nat)> := [
    ('A', 9), ('B', 2), ('C', 2), ('D', 4), ('E', 12), ('F', 2), ('G', 3), ('H', 2), ('I', 9), ('J', 1),
    ('K', 1), ('L', 4), ('M', 2), ('N', 6), ('O', 8), ('P', 2), ('Q', 1), ('R', 6), ('S', 4), ('T', 6),
    ('U', 4), ('V', 2), ('W', 2), ('X', 1), ('Y', 2), ('Z', 1)
  ]

  /** How many tiles a rack is filled up to. */
  const RackSize: nat := 7

  /** `Array(count).fill(letter)`. */
  function Repeat(letter: char, count: nat): (s: seq<char>)
    ensures |s| == count
    ensures multiset(s)[letter] == count
    ensures forall x :: x != letter ==> multiset(s)[x] == 0
  {
    if count == 0 then [] else Repeat(letter, count - 1) + [letter]
  }

  /** The bag before shuffling: the letters of the first k table entries, in table order. */
  function Expand(table: seq<(char, nat)>, k: nat): seq<char>
    requires k <= |table|
  {
    if k == 0 then [] else Expand(table, k - 1) + Repeat(table[k - 1].0, table[k - 1].1)
  }

  /** Number of tiles of letter x the first k table entries ask for. */
  function CountIn(table: seq<(char, nat)>, k: nat, x: char): nat
    requires k <= |table|
  {
    if k == 0 then 0
    else CountIn(table, k - 1, x) + (if table[k - 1].0 == x then table[k - 1].1 else 0)
  }

  /** Number of tiles the first k table entries ask for. */
  function Total(table: seq<(char, nat)>, k: nat): nat
    requires k <= |table|
  {
    if k == 0 then 0 else Total(table, k - 1) + table[k - 1].1
  }

  /** The expanded bag holds, of every letter, exactly the count the table gives. */
  lemma {:induction false} ExpandCounts(table: seq<(char, nat)>, k: nat)
    requires k <= |table|
    ensures |Expand(table, k)| == Total(table, k)
    ensures forall x :: multiset(Expand(table, k))[x] == CountIn(table, k, x)
  {
    if k > 0 {
      ExpandCounts(table, k - 1);
    }
  }

  /** The distribution table asks for 98 tiles in all. */
  lemma DistributionTotal()
    ensures Total(Distribution, |Distribution|) == 98
  {
    assert Total(Distribution, 1) == 9;
    assert Total(Distribution, 2) == 11;
    assert Total(Distribution, 3) == 13;
    assert Total(Distribution, 4) == 17;
    assert Total(Distribution, 5) == 29;
    assert Total(Distribution, 6) == 31;
    assert Total(Distribution, 7) == 34;
    assert Total(Distribution, 8) == 36;
    assert Total(Distribution, 9) == 45;
    assert Total(Distribution, 10) == 46;
    assert Total(Distribution, 11) == 47;
    assert Total(Distribution, 12) == 51;
    assert Total(Distribution, 13) == 53;
    assert Total(Distribution, 14) == 59;
    assert Total(Distribution, 15) == 67;
    assert Total(Distribution, 16) == 69;
    assert Total(Distribution, 17) == 70;
    assert Total(Distribution, 18) == 76;
    assert Total(Distribution, 19) == 80;
    assert Total(Distribution, 20) == 86;
    assert Total(Distribution, 21) == 90;
    assert Total(Distribution, 22) == 92;
    assert Total(Distribution, 23) == 94;
    assert Total(Distribution, 24) == 95;
    assert Total(Distribution, 25) == 97;
    assert Total(Distribution, 26) == 98;
  }

  /** The full bag: 98 tiles, of each letter as many as the distribution table says. */
  lemma FullBag()
    ensures |Expand(Distribution, |Distribution|)| == 98
    ensures forall x :: multiset(Expand(Distribution, |Distribution|))[x] == CountIn(Distribution, |Distribution|, x)
  {
    ExpandCounts(Distribution, |Distribution|);
    DistributionTotal();
  }

  /**
   * The rack filling loop of initializeRacks for one player: while the rack
   * holds fewer than RackSize tiles and the bag is not empty, pop the bag's last
   * letter onto the rack. Yields the new rack and the new bag.
   */
  function FillRack(rack: seq<char>, bag: seq<char>): (seq<char>, seq<char>)
    decreases |bag|
  {
    if |rack| < RackSize && |bag| > 0 then FillRack(rack + [bag[|bag| - 1]], bag[..|bag| - 1])
    else (rack, bag)
  }

  /** Filling moves tiles from the bag to the rack: no tile is created or lost. */
  lemma {:induction false} FillRackConserves(rack: seq<char>, bag: seq<char>)
    ensures var (rack', bag') := FillRack(rack, bag);
            multiset(rack') + multiset(bag') == multiset(rack) + multiset(bag)
    decreases |bag|
  {
    if |rack| < RackSize && |bag| > 0 {
      var last := bag[|bag| - 1];
      FillRackConserves(rack + [last], bag[..|bag| - 1]);
      assert bag == bag[..|bag| - 1] + [last];
      assert multiset(bag) == multiset(bag[..|bag| - 1]) + multiset{last};
    }
  }

  /**
   * Filling keeps the rack's tiles and adds to its end, takes from the end of
   * the bag, and stops exactly when the rack holds RackSize tiles or the bag is empty.
   */
  lemma {:induction false} FillRackShape(rack: seq<char>, bag: seq<char>)
    ensures var (rack', bag') := FillRack(rack, bag);
            && rack <= rack'
            && bag' <= bag
            && |rack'| - |rack| == |bag| - |bag'|
            && |rack'| == (if |rack| >= RackSize then |rack|
                           else if |rack| + |bag| < RackSize then |rack| + |bag|
                           else RackSize)
            && (|rack'| >= RackSize || bag' == [])
    decreases |bag|
  {
    if |rack| < RackSize && |bag| > 0 {
      FillRackShape(rack + [bag[|bag| - 1]], bag[..|bag| - 1]);
      var (rack', bag') := FillRack(rack, bag);
      assert rack <= rack + [bag[|bag| - 1]] <= rack';
      assert bag' <= bag[..|bag| - 1] <= bag;
    }
  }
}
