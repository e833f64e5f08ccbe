/** The roster: players, the name trimming applied when one is added, removal
    by id, and the rotation that turns the roster into a guess order. */
module Roster {
  import opened Util

  /** A player; `joinedAtSet` is how many sets were complete when they joined. */
  datatype Player = Player(id: int, name: string, joinedAtSet: nat)

  /** The characters JavaScript's `String.prototype.trim` removes: the white
      space and line terminator code points of ECMAScript. */
  predicate IsSpace(c: char)
  {
    || c == '\t' || c == '\n' || c == '\U{B}' || c == '\U{C}' || c == '\r'
    || c == ' ' || c == '\U{A0}' || c == '\U{1680}'
    || ('\U{2000}' <= c <= '\U{200A}')
    || c == '\U{2028}' || c == '\U{2029}' || c == '\U{202F}' || c == '\U{205F}'
    || c == '\U{3000}' || c == '\U{FEFF}'
  }

  /** `s` holds nothing but white space. */
  predicate AllSpace(s: string)
  {
    forall i :: 0 <= i < |s| ==> IsSpace(s[i])
  }

  /** The first position at or after `i` that does not hold white space
      (`|s|` if there is none). */
  function SkipSpaces(s: string, i: nat): (k: nat)
    requires i <= |s|
    ensures i <= k <= |s|
    ensures forall j :: i <= j < k ==> IsSpace(s[j])
    ensures k == |s| || !IsSpace(s[k])
    decreases |s| - i
  {
    if i < |s| && IsSpace(s[i]) then SkipSpaces(s, i + 1) else i
  }

  /** The end of `s[lo..hi]` once trailing white space is dropped. */
  function SkipSpacesBack(s: string, lo: nat, hi: nat): (k: nat)
    requires lo <= hi <= |s|
    ensures lo <= k <= hi
    ensures forall j :: k <= j < hi ==> IsSpace(s[j])
    ensures k == lo || !IsSpace(s[k - 1])
    decreases hi
  {
    if lo < hi && IsSpace(s[hi - 1]) then SkipSpacesBack(s, lo, hi - 1) else hi
  }

  /** `name.trim()`: white space removed at both ends. */
  function Trim(s: string): (r: string)
    ensures |r| <= |s|
  {
    var lo := SkipSpaces(s, 0);
    s[lo..SkipSpacesBack(s, lo, |s|)]
  }

  /** The trimmed name is the slice of `s` left after removing the longest
      run of white space at either end; it is empty exactly when `s` is all
      white space. */
  lemma TrimSpec(s: string)
    ensures var lo := SkipSpaces(s, 0); var hi := SkipSpacesBack(s, lo, |s|);
            && lo <= hi <= |s| && Trim(s) == s[lo..hi]
            && (forall i :: 0 <= i < lo ==> IsSpace(s[i]))
            && (forall i :: hi <= i < |s| ==> IsSpace(s[i]))
            && (lo == hi || (!IsSpace(s[lo]) && !IsSpace(s[hi - 1])))
    ensures Trim(s) == [] <==> AllSpace(s)
  {
    var lo := SkipSpaces(s, 0);
    var hi := SkipSpacesBack(s, lo, |s|);
    if lo < hi {
      assert Trim(s)[0] == s[lo];
    }
  }

  /** Trimming a trimmed name changes nothing. */
  lemma TrimIdempotent(s: string)
    ensures Trim(Trim(s)) == Trim(s)
  {
    var t := Trim(s);
    TrimSpec(s);
    if t != [] {
      assert SkipSpaces(t, 0) == 0;
      assert SkipSpacesBack(t, 0, |t|) == |t|;
    }
  }

  /** The ids of the players, in roster order (`players.map(p => p.id)`). */
  function Ids(ps: seq<Player>): (r: seq<int>)
    ensures |r| == |ps|
    ensures forall i :: 0 <= i < |ps| ==> r[i] == ps[i].id
  {
    if ps == [] then [] else [ps[0].id] + Ids(ps[1..])
  }

  /** Mapping to ids distributes over concatenation. */
  lemma {:induction false} IdsAppend(ps: seq<Player>, qs: seq<Player>)
    ensures Ids(ps + qs) == Ids(ps) + Ids(qs)
    decreases |ps|
  {
    if ps == [] {
      assert ps + qs == qs;
    } else {
      assert (ps + qs)[1..] == ps[1..] + qs;
      IdsAppend(ps[1..], qs);
    }
  }

  /** `players.filter(p => p.id !== id)`. */
  function RemovePlayer(ps: seq<Player>, id: int): (r: seq<Player>)
    ensures |r| <= |ps|
    ensures forall p :: p in r <==> p in ps && p.id != id
  {
    if ps == [] then []
    else if ps[0].id == id then RemovePlayer(ps[1..], id)
    else [ps[0]] + RemovePlayer(ps[1..], id)
  }

  /** Removal keeps roster order: removing from two rosters laid end to end
      is removing from each and laying the results end to end. With the one
      player cases this pins `RemovePlayer` down as the order-keeping filter. */
  lemma {:induction false} RemoveAppend(ps: seq<Player>, qs: seq<Player>, id: int)
    ensures RemovePlayer(ps + qs, id) == RemovePlayer(ps, id) + RemovePlayer(qs, id)
    decreases |ps|
  {
    if ps == [] {
      assert ps + qs == qs;
    } else {
      assert (ps + qs)[0] == ps[0];
      assert (ps + qs)[1..] == ps[1..] + qs;
      RemoveAppend(ps[1..], qs, id);
    }
  }

  /** A single player is dropped exactly when it has the id. */
  lemma RemoveOne(p: Player, id: int)
    ensures RemovePlayer([p], id) == if p.id == id then [] else [p]
  {
  }

  /** Removing an id occurring nowhere in the roster leaves it as it was. */
  lemma {:induction false} RemoveAbsent(ps: seq<Player>, id: int)
    requires id !in Ids(ps)
    ensures RemovePlayer(ps, id) == ps
  {
    if ps != [] {
      assert id !in Ids(ps[1..]) by {
        assert forall k :: 0 <= k < |ps| - 1 ==> Ids(ps[1..])[k] == Ids(ps)[k + 1];
      }
      RemoveAbsent(ps[1..], id);
      assert ps == [ps[0]] + ps[1..];
    }
  }

  /** Removal takes away every occurrence of the id and no other. */
  lemma {:induction false} RemoveCounts(ps: seq<Player>, id: int)
    ensures multiset(Ids(RemovePlayer(ps, id))) == multiset(Ids(ps))[id := 0]
  {
    if ps != [] {
      RemoveCounts(ps[1..], id);
      assert Ids(ps) == [ps[0].id] + Ids(ps[1..]);
      if ps[0].id != id {
        assert Ids([ps[0]] + RemovePlayer(ps[1..], id))
            == [ps[0].id] + Ids(RemovePlayer(ps[1..], id));
      }
    }
  }

  /** Removing the same id twice is the same as removing it once. */
  lemma RemoveIdempotent(ps: seq<Player>, id: int)
    ensures RemovePlayer(RemovePlayer(ps, id), id) == RemovePlayer(ps, id)
  {
    var r := RemovePlayer(ps, id);
    RemoveCounts(ps, id);
    assert multiset(Ids(r))[id] == 0;
    RemoveAbsent(r, id);
  }

  /** A duplicate-free roster stays duplicate-free after a removal. */
  lemma RemoveKeepsUnique(ps: seq<Player>, id: int)
    requires NoDuplicates(Ids(ps))
    ensures NoDuplicates(Ids(RemovePlayer(ps, id)))
  {
    RemoveCounts(ps, id);
  }

  /** `players.findIndex(p => p.id === id)`: the first position holding the id,
      or -1. */
  function IndexOf(ps: seq<Player>, id: int): (r: int)
    ensures -1 <= r < |ps|
    ensures r == -1 <==> id !in Ids(ps)
    ensures 0 <= r ==> ps[r].id == id && forall j :: 0 <= j < r ==> ps[j].id != id
  {
    if ps == [] then -1
    else if ps[0].id == id then 0
    else
      var k := IndexOf(ps[1..], id);
      assert forall j :: 0 <= j < |ps| - 1 ==> Ids(ps[1..])[j] == Ids(ps)[j + 1];
      if k == -1 then -1 else k + 1
  }

  /** `s.slice(k).concat(s.slice(0, k))`: position `i` of the result holds the
      element `i` places after position `k`, wrapping round the end. */
  function Rotate<T>(s: seq<T>, k: nat): (r: seq<T>)
    requires k <= |s|
    ensures |r| == |s|
    ensures forall i :: 0 <= i < |s| ==> r[i] == if k + i < |s| then s[k + i] else s[k + i - |s|]
    ensures multiset(r) == multiset(s)
  {
    assert s == s[..k] + s[k..];
    s[k..] + s[..k]
  }

  /** Rotating the roster and then taking ids is rotating the ids. */
  lemma IdsRotate(ps: seq<Player>, k: nat)
    requires k <= |ps|
    ensures Ids(Rotate(ps, k)) == Rotate(Ids(ps), k)
  {
    assert ps == ps[..k] + ps[k..];
    IdsAppend(ps[..k], ps[k..]);
    IdsAppend(ps[k..], ps[..k]);
    var ids := Ids(ps);
    assert ids == Ids(ps[..k]) + Ids(ps[k..]);
    assert Ids(ps[..k]) == ids[..k];
    assert Ids(ps[k..]) == ids[k..];
  }

  /** The guess order for a set that starts at `startId`: the roster rotated so
      that `startId` comes first, as ids. It is a permutation of the roster's
      ids and keeps their cyclic order. */
  function GuessOrderFrom(ps: seq<Player>, startId: int): (r: seq<int>)
    requires startId in Ids(ps)
    ensures |r| == |ps|
    ensures r[0] == startId
    ensures multiset(r) == multiset(Ids(ps))
    ensures r == Rotate(Ids(ps), IndexOf(ps, startId))
  {
    var k := IndexOf(ps, startId);
    IdsRotate(ps, k);
    Ids(Rotate(ps, k))
  }
}
