/** Tokens: one waiting party each, kept by the manager dashboard in an
    ordered array per queue, and the facts about their 1-based positions. */
module Tokens {

  /** Token ids come from two places: the dashboard's own counter numbers
      the parties it adds, and the persons the backend returns when a queue
      is selected carry their database `_id` strings. A number never equals
      a string under `===`, so the two kinds never match each other. */
  datatype TokenId = Counter(n: nat) | Stored(key: string)

  /** One waiting party. `addedAt` is a timestamp in milliseconds and
      `position` the 1-based rank shown on the party's card. */
  datatype Token = Token(id: TokenId, name: string, addedAt: int, position: int)

  /** The ids of a token sequence, in queue order. */
  function Ids(s: seq<Token>): (r: seq<TokenId>)
    ensures |r| == |s| && forall i :: 0 <= i < |s| ==> r[i] == s[i].id
  {
    seq(|s|, i requires 0 <= i < |s| => s[i].id)
  }

  /** No id occurs twice. */
  predicate UniqueIds(s: seq<Token>)
  {
    forall i, j :: 0 <= i < j < |s| ==> s[i].id != s[j].id
  }

  /** No element occurs twice. */
  predicate Distinct<T(==)>(s: seq<T>)
  {
    forall i, j :: 0 <= i < j < |s| ==> s[i] != s[j]
  }

  /** Distinct exactly when no element has multiplicity above one. */
  lemma {:induction false} DistinctByCount<T>(s: seq<T>)
    ensures Distinct(s) <==> forall x :: multiset(s)[x] <= 1
  {
    if s != [] {
      var t := s[1..];
      assert s == [s[0]] + t;
      assert multiset(s) == multiset([s[0]]) + multiset(t);
      DistinctByCount(t);
      if Distinct(s) {
        forall i, j | 0 <= i < j < |t| ensures t[i] != t[j] {
          assert t[i] == s[i + 1] && t[j] == s[j + 1];
        }
        forall i | 0 <= i < |t| ensures t[i] != s[0] {
          assert t[i] == s[i + 1];
        }
        assert s[0] !in multiset(t);
      } else {
        var i, j :| 0 <= i < j < |s| && s[i] == s[j];
        if i == 0 {
          assert t[j - 1] == s[0];
          assert multiset(s)[s[0]] >= 2;
        } else {
          assert t[i - 1] == t[j - 1];
          var x :| multiset(t)[x] > 1;
          assert multiset(s)[x] > 1;
        }
      }
    }
  }

  /** No counter id in the queue has reached `counter`: the counter has not
      issued it yet. */
  predicate CounterIdsBelow(s: seq<Token>, counter: nat)
  {
    forall i :: 0 <= i < |s| && s[i].id.Counter? ==> s[i].id.n < counter
  }

  /** The id invariant the dashboard keeps for every queue: unique ids, and
      none the counter will issue next. */
  predicate WellFormedIds(s: seq<Token>, counter: nat)
  {
    UniqueIds(s) && CounterIdsBelow(s, counter)
  }

  /** A queue whose ids are a sub-multiset of a well-formed queue's ids is
      well-formed too: dropping or rearranging tokens cannot create a
      duplicate or a counter id the counter has not issued. */
  lemma SubIdsKeepWellFormed(s: seq<Token>, r: seq<Token>, counter: nat)
    requires WellFormedIds(s, counter) && multiset(Ids(r)) <= multiset(Ids(s))
    ensures WellFormedIds(r, counter)
  {
    DistinctByCount(Ids(s));
    DistinctByCount(Ids(r));
    forall i | 0 <= i < |r| && r[i].id.Counter? ensures r[i].id.n < counter {
      assert Ids(r)[i] in multiset(Ids(r));
      var j :| 0 <= j < |s| && Ids(s)[j] == r[i].id;
    }
  }

  /** Every token's position is its index + 1: the state the dashboard
      restores after each structural change. */
  predicate Numbered(s: seq<Token>)
  {
    forall i :: 0 <= i < |s| ==> s[i].position == i + 1
  }

  /** `a` and `b` hold the same parties in the same order; only the
      positions may differ. */
  predicate SameButPositions(a: seq<Token>, b: seq<Token>)
  {
    |a| == |b| &&
    forall i :: 0 <= i < |a| ==>
      a[i].id == b[i].id && a[i].name == b[i].name && a[i].addedAt == b[i].addedAt
  }

  /** The set of positions a sequence shows. */
  function Positions(s: seq<Token>): set<int>
  {
    set t | t in s :: t.position
  }

  /** `tokens.findIndex(t => t.id === id)`: the first index holding `id`,
      or -1 when no token has it. */
  function IndexOf(s: seq<Token>, id: TokenId): (r: int)
    ensures -1 <= r < |s|
    ensures r == -1 <==> id !in Ids(s)
    ensures r >= 0 ==> s[r].id == id && forall i :: 0 <= i < r ==> s[i].id != id
  {
    if s == [] then -1
    else if s[0].id == id then 0
    else
      var k := IndexOf(s[1..], id);
      assert Ids(s[1..]) == Ids(s)[1..];
      if k == -1 then -1 else k + 1
  }

  /** With unique ids, `IndexOf` finds exactly the index that holds the id. */
  lemma IndexOfUnique(s: seq<Token>, k: nat)
    requires UniqueIds(s) && k < |s|
    ensures IndexOf(s, s[k].id) == k
  {
  }

  /** A numbered sequence shows each of the positions 1..n exactly once:
      no gaps and no duplicates. */
  lemma NumberedShowsOneToN(s: seq<Token>)
    requires Numbered(s)
    ensures forall p :: p in Positions(s) <==> 1 <= p <= |s|
    ensures forall i, j :: 0 <= i < j < |s| ==> s[i].position != s[j].position
  {
    forall p | 1 <= p <= |s| ensures p in Positions(s) {
      assert s[p - 1] in s;
    }
  }

  /** Positions rise strictly in service order. */
  predicate Rising(s: seq<Token>)
  {
    forall i, j :: 0 <= i < j < |s| ==> s[i].position < s[j].position
  }

  /** Every position lies in 1..n. */
  predicate InRange(s: seq<Token>)
  {
    forall i :: 0 <= i < |s| ==> 1 <= s[i].position <= |s|
  }

  lemma {:induction false} RisingFloor(s: seq<Token>, i: nat)
    requires Rising(s) && InRange(s) && i < |s|
    ensures s[i].position >= i + 1
  {
    if i > 0 {
      RisingFloor(s, i - 1);
    }
  }

  lemma {:induction false} RisingCeiling(s: seq<Token>, i: nat)
    requires Rising(s) && InRange(s) && i < |s|
    ensures s[i].position <= i + 1
    decreases |s| - i
  {
    if i < |s| - 1 {
      RisingCeiling(s, i + 1);
    }
  }

  /** Numbered exactly when the positions rise strictly in service order
      and stay within 1..n: position 1 is the next party to serve. */
  lemma NumberedIffRising(s: seq<Token>)
    ensures Numbered(s) <==> Rising(s) && InRange(s)
  {
    if Rising(s) && InRange(s) {
      forall i | 0 <= i < |s| ensures s[i].position == i + 1 {
        RisingFloor(s, i);
        RisingCeiling(s, i);
      }
    }
  }
}
