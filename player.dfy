/**
 * `Player` of src/scrabble/Player.ts: a name, a score accumulator and a list
 * of tiles (letters) with append and first-occurrence removal.
 */
module Players {

  /** `s.indexOf(t)`: the first index holding t, or -1 when t does not occur. */
  function IndexOf(s: seq<string>, t: string): (i: int)
    ensures i == -1 <==> t !in s
    ensures i != -1 ==> 0 <= i < |s| && s[i] == t && forall j :: 0 <= j < i ==> s[j] != t
  {
    if s == [] then -1
    else if s[0] == t then 0
    else
      var j := IndexOf(s[1..], t);
      if j == -1 then -1 else j + 1
  }

  /** Reference definition: s with its first occurrence of t deleted, if there is one. */
  function RemoveFirst(s: seq<string>, t: string): seq<string> {
    if s == [] then []
    else if s[0] == t then s[1..]
    else [s[0]] + RemoveFirst(s[1..], t)
  }

  /** `splice(indexOf(t), 1)` guarded by `index > -1` is RemoveFirst. */
  lemma {:induction false} SpliceIsRemoveFirst(s: seq<string>, t: string)
    ensures var i := IndexOf(s, t);
            RemoveFirst(s, t) == if i > -1 then s[..i] + s[i + 1..] else s
  {
    if s == [] {
    } else if s[0] == t {
      assert IndexOf(s, t) == 0;
    } else {
      var tail := s[1..];
      SpliceIsRemoveFirst(tail, t);
      var j := IndexOf(tail, t);
      assert RemoveFirst(s, t) == [s[0]] + RemoveFirst(tail, t);
      assert IndexOf(s, t) == if j == -1 then -1 else j + 1;
      if j > -1 {
        assert RemoveFirst(tail, t) == tail[..j] + tail[j + 1..];
        SpliceStep(s, j);
      } else {
        assert RemoveFirst(tail, t) == tail;
        assert [s[0]] + tail == s;
      }
    }
  }

  /** Splicing index j + 1 out of s keeps s[0] in front of the splice of index j out of s[1..]. */
  lemma SpliceStep(s: seq<string>, j: nat)
    requires j + 1 < |s|
    ensures s[..j + 1] + s[j + 2..] == [s[0]] + (s[1..][..j] + s[1..][j + 1..])
  {
    assert s[..j + 1] == [s[0]] + s[1..][..j];
    assert s[j + 2..] == s[1..][j + 1..];
  }

  /** RemoveFirst as multisets: one copy of t fewer. */
  lemma {:induction false} RemoveFirstMultiset(s: seq<string>, t: string)
    ensures multiset(RemoveFirst(s, t)) == multiset(s) - multiset{t}
  {
    if s != [] {
      assert s == [s[0]] + s[1..];
      assert multiset(s) == multiset{s[0]} + multiset(s[1..]);
      if s[0] != t {
        RemoveFirstMultiset(s[1..], t);
        assert multiset(RemoveFirst(s, t)) == multiset{s[0]} + multiset(RemoveFirst(s[1..], t));
      }
    }
  }

  /** Removing drops the count of t by one when t is present, and changes no other count. */
  lemma RemoveFirstCounts(s: seq<string>, t: string)
    ensures multiset(RemoveFirst(s, t)) == multiset(s) - multiset{t}
    ensures t in s ==> multiset(RemoveFirst(s, t))[t] == multiset(s)[t] - 1
    ensures forall u :: u != t ==> multiset(RemoveFirst(s, t))[u] == multiset(s)[u]
  {
    RemoveFirstMultiset(s, t);
  }

  /** Removing a tile that is not there changes nothing. */
  lemma {:induction false} RemoveAbsent(s: seq<string>, t: string)
    requires t !in s
    ensures RemoveFirst(s, t) == s
  {
    if s != [] {
      RemoveAbsent(s[1..], t);
    }
  }

  /** Adding a tile that was not held and then removing it gives back the tiles held before. */
  lemma {:induction false} AddThenRemove(s: seq<string>, t: string)
    requires t !in s
    ensures RemoveFirst(s + [t], t) == s
  {
    if s != [] {
      assert (s + [t])[1..] == s[1..] + [t];
      AddThenRemove(s[1..], t);
    }
  }

  class Player {
    var name: string
    var score: int
    var tiles: seq<string>

    /** A new player: the given name, score 0, no tiles. */
    constructor(name: string)
      ensures this.name == name && score == 0 && tiles == []
    {
      this.name := name;
      score := 0;
      tiles := [];
    }

    /** addScore adds points to the score and leaves the tiles alone. */
    method AddScore(points: int)
      modifies this
      ensures score == old(score) + points
      ensures tiles == old(tiles) && name == old(name)
    {
      score := score + points;
    }

    /** addTile appends t; the tiles already held keep their places. */
    method AddTile(t: string)
      modifies this
      ensures tiles == old(tiles) + [t]
      ensures score == old(score) && name == old(name)
    {
      tiles := tiles + [t];
    }

    /**
     * removeTile deletes the first occurrence of t, keeping the others in
     * order, and does nothing when t is not held.
     */
    method RemoveTile(t: string)
      modifies this
      ensures tiles == RemoveFirst(old(tiles), t)
      ensures score == old(score) && name == old(name)
    {
      var index := IndexOf(tiles, t);
      SpliceIsRemoveFirst(tiles, t);
      if index > -1 {
        tiles := tiles[..index] + tiles[index + 1..];
      }
    }
  }
}
