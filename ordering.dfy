/** The ordering engine of the manager dashboard: what each handler does to
    the token array of the selected queue, written as functions on
    sequences, and the properties each result has. The dashboard's methods
    (module Dashboard) are proved to compute exactly these results. */
module Ordering {
  import opened Tokens

  // ---------------------------------------------------------------------
  // Renumbering

  /** The renumbering pass `forEach((token, idx) => token.position = idx + 1)`
      run after every structural change. */
  function Renumbered(s: seq<Token>): (r: seq<Token>)
    ensures Numbered(r) && SameButPositions(r, s)
  {
    seq(|s|, i requires 0 <= i < |s| => s[i].(position := i + 1))
  }

  /** Renumbering only rewrites positions, so the ids stay in place. */
  lemma IdsRenumbered(s: seq<Token>)
    ensures Ids(Renumbered(s)) == Ids(s)
  {
  }

  /** Renumbering is idempotent: a numbered sequence is left as it is. */
  lemma RenumberedFixesNumbered(s: seq<Token>)
    requires Numbered(s)
    ensures Renumbered(s) == s
  {
  }

  // ---------------------------------------------------------------------
  // The array primitives the handlers use, on sequences of any element type

  /** `splice(k, 1)`: the sequence without its element at `k`. */
  function RemoveAt<T>(s: seq<T>, k: nat): (r: seq<T>)
    requires k < |s|
    ensures |r| == |s| - 1
    ensures forall i :: 0 <= i < k ==> r[i] == s[i]
    ensures forall i :: k <= i < |r| ==> r[i] == s[i + 1]
  {
    s[..k] + s[k + 1..]
  }

  /** `splice(k, 0, x)`: `x` inserted before index `k`. */
  function InsertAt<T>(s: seq<T>, k: nat, x: T): (r: seq<T>)
    requires k <= |s|
    ensures |r| == |s| + 1 && r[k] == x
    ensures forall i :: 0 <= i < k ==> r[i] == s[i]
    ensures forall i :: k < i < |r| ==> r[i] == s[i - 1]
  {
    s[..k] + [x] + s[k..]
  }

  /** `splice(k, 1)` then `unshift`: element `k` brought to the front. */
  function MoveToFront<T>(s: seq<T>, k: nat): (r: seq<T>)
    requires k < |s|
    ensures |r| == |s| && r[0] == s[k]
  {
    [s[k]] + RemoveAt(s, k)
  }

  /** The two splices of a drop: element `from` taken out and put back
      before index `to` of what is left. */
  function Reorder<T>(s: seq<T>, from: nat, to: nat): (r: seq<T>)
    requires from < |s| && to < |s|
    ensures |r| == |s| && r[to] == s[from]
  {
    InsertAt(RemoveAt(s, from), to, s[from])
  }

  /** The destructuring swap `[a[i], a[j]] = [a[j], a[i]]`. */
  function Swapped<T>(s: seq<T>, i: nat, j: nat): (r: seq<T>)
    requires i < |s| && j < |s|
    ensures |r| == |s| && r[i] == s[j] && r[j] == s[i]
    ensures forall m :: 0 <= m < |s| && m != i && m != j ==> r[m] == s[m]
  {
    s[i := s[j]][j := s[i]]
  }

  /** JavaScript's reading of a `splice` start index: a negative start
      counts from the end (so -1 is the last element), clamped to 0..len. */
  function SpliceStart(start: int, len: nat): (r: nat)
    ensures r <= len
    ensures 0 <= start <= len ==> r == start
    ensures -(len as int) <= start < 0 ==> r == len + start
  {
    if start < 0 then (if len + start < 0 then 0 else len + start)
    else if start > len then len
    else start
  }

  // ---------------------------------------------------------------------
  // The primitives rearrange and lose nothing

  lemma SplitAt<T>(s: seq<T>, k: nat)
    requires k < |s|
    ensures s == s[..k] + [s[k]] + s[k + 1..]
  {
  }

  /** Bringing an element to the front is a permutation whose tail keeps
      the others in their relative order. */
  lemma {:induction false} MoveToFrontPermutes<T>(s: seq<T>, k: nat)
    requires k < |s|
    ensures |MoveToFront(s, k)| == |s| && MoveToFront(s, k)[0] == s[k]
    ensures MoveToFront(s, k)[1..] == RemoveAt(s, k)
    ensures multiset(MoveToFront(s, k)) == multiset(s)
  {
    SplitAt(s, k);
    calc {
      multiset(MoveToFront(s, k));
      multiset([s[k]]) + multiset(s[..k]) + multiset(s[k + 1..]);
      multiset(s[..k] + [s[k]] + s[k + 1..]);
    }
  }

  /** A drop is a permutation that puts the moved element at `to` and keeps
      every other element in its relative order. */
  lemma {:induction false} ReorderPermutes<T>(s: seq<T>, from: nat, to: nat)
    requires from < |s| && to < |s|
    ensures |Reorder(s, from, to)| == |s| && Reorder(s, from, to)[to] == s[from]
    ensures RemoveAt(Reorder(s, from, to), to) == RemoveAt(s, from)
    ensures multiset(Reorder(s, from, to)) == multiset(s)
  {
    var rest := RemoveAt(s, from);
    var r := Reorder(s, from, to);
    SplitAt(s, from);
    SplitAt(r, to);
    assert r[..to] == rest[..to];
    assert r[to + 1..] == rest[to..];
    assert rest == rest[..to] + rest[to..];
    calc {
      multiset(r);
      multiset(rest[..to]) + multiset([s[from]]) + multiset(rest[to..]);
      multiset(rest) + multiset([s[from]]);
      multiset(s[..from]) + multiset(s[from + 1..]) + multiset([s[from]]);
      multiset(s[..from] + [s[from]] + s[from + 1..]);
    }
  }

  /** A swap is a permutation. */
  lemma SwappedPermutes<T>(s: seq<T>, i: nat, j: nat)
    requires i < |s| && j < |s|
    ensures multiset(Swapped(s, i, j)) == multiset(s)
  {
  }

  lemma IdsRemoveAt(s: seq<Token>, k: nat)
    requires k < |s|
    ensures Ids(RemoveAt(s, k)) == RemoveAt(Ids(s), k)
  {
  }

  lemma IdsInsertAt(s: seq<Token>, k: nat, t: Token)
    requires k <= |s|
    ensures Ids(InsertAt(s, k, t)) == InsertAt(Ids(s), k, t.id)
  {
  }

  lemma IdsSwapped(s: seq<Token>, i: nat, j: nat)
    requires i < |s| && j < |s|
    ensures Ids(Swapped(s, i, j)) == Swapped(Ids(s), i, j)
  {
  }

  lemma IdsMoveToFront(s: seq<Token>, k: nat)
    requires k < |s|
    ensures Ids(MoveToFront(s, k)) == MoveToFront(Ids(s), k)
  {
    IdsRemoveAt(s, k);
  }

  lemma IdsReorder(s: seq<Token>, from: nat, to: nat)
    requires from < |s| && to < |s|
    ensures Ids(Reorder(s, from, to)) == Reorder(Ids(s), from, to)
  {
    IdsRemoveAt(s, from);
    IdsInsertAt(RemoveAt(s, from), to, s[from]);
  }

  // ---------------------------------------------------------------------
  // moveToTop

  /** The token array after `moveToTop(id)`: the same tokens, numbered if
      they were. */
  function MoveToTopResult(s: seq<Token>, id: TokenId): (r: seq<Token>)
    ensures |r| == |s|
    ensures Numbered(s) ==> Numbered(r)
  {
    var k := IndexOf(s, id);
    if k <= 0 then s else Renumbered(MoveToFront(s, k))
  }

  /** `moveToTop` does nothing when the token is already first or is not in
      the queue. */
  lemma MoveToTopNoOp(s: seq<Token>, id: TokenId)
    requires s != [] ==> s[0].id == id || id !in Ids(s)
    ensures MoveToTopResult(s, id) == s
  {
  }

  /** After `moveToTop(id)` the token is first, the others keep their
      relative order, nothing is lost or duplicated, and positions are 1..n. */
  lemma MoveToTopPromotes(s: seq<Token>, id: TokenId)
    requires id in Ids(s)
    ensures var r := MoveToTopResult(s, id);
      && Ids(r)[0] == id
      && Ids(r)[1..] == RemoveAt(Ids(s), IndexOf(s, id))
      && multiset(Ids(r)) == multiset(Ids(s))
      && (IndexOf(s, id) > 0 ==> Numbered(r))
  {
    var k := IndexOf(s, id);
    if k > 0 {
      IdsRenumbered(MoveToFront(s, k));
      IdsMoveToFront(s, k);
      MoveToFrontPermutes(Ids(s), k);
    }
  }

  // ---------------------------------------------------------------------
  // handleDrop

  /** Whether `handleDrop` gets past its two guards: the drop lands on the
      dragged token's own card, or on the first card. */
  predicate DropApplies(s: seq<Token>, dragged: TokenId, dropIndex: nat)
  {
    IndexOf(s, dragged) != dropIndex && dropIndex != 0
  }

  /** The token array after dropping the dragged token on card `dropIndex`.
      When the dragged id is no longer in the queue, `findIndex` gives -1
      and `splice(-1, 1)` takes the last token instead. */
  function DropResult(s: seq<Token>, dragged: TokenId, dropIndex: nat): (r: seq<Token>)
    requires dropIndex < |s|
    ensures |r| == |s|
    ensures Numbered(s) ==> Numbered(r)
  {
    if !DropApplies(s, dragged, dropIndex) then s
    else Renumbered(Reorder(s, SpliceStart(IndexOf(s, dragged), |s|), dropIndex))
  }

  /** A drop that passes the guards, in terms of the splice start. */
  lemma DropAt(s: seq<Token>, dragged: TokenId, dropIndex: nat)
    requires dropIndex < |s| && DropApplies(s, dragged, dropIndex)
    ensures DropResult(s, dragged, dropIndex)
      == Renumbered(Reorder(s, SpliceStart(IndexOf(s, dragged), |s|), dropIndex))
  {
  }

  /** A drop moves the dragged token to the drop index, keeps every other
      token in its relative order and loses nothing. */
  lemma DropPlacesDragged(s: seq<Token>, dragged: TokenId, dropIndex: nat)
    requires dropIndex < |s| && DropApplies(s, dragged, dropIndex) && dragged in Ids(s)
    ensures var r := DropResult(s, dragged, dropIndex);
      && Ids(r)[dropIndex] == dragged
      && RemoveAt(Ids(r), dropIndex) == RemoveAt(Ids(s), IndexOf(s, dragged))
      && multiset(Ids(r)) == multiset(Ids(s))
      && Numbered(r)
  {
    var k := IndexOf(s, dragged);
    IdsRenumbered(Reorder(s, k, dropIndex));
    IdsReorder(s, k, dropIndex);
    ReorderPermutes(Ids(s), k, dropIndex);
  }

  /** A drag that started from a card other than the first, of a token still
      in the queue, never changes which token is first. */
  lemma DropKeepsHead(s: seq<Token>, dragged: TokenId, dropIndex: nat)
    requires dropIndex < |s| && IndexOf(s, dragged) > 0
    ensures Ids(DropResult(s, dragged, dropIndex))[0] == Ids(s)[0]
  {
    if DropApplies(s, dragged, dropIndex) {
      var k := IndexOf(s, dragged);
      IdsRenumbered(Reorder(s, k, dropIndex));
      IdsReorder(s, k, dropIndex);
    }
  }

  /** As written: a drop whose dragged id has left the queue moves the last
      token to the drop index. */
  lemma DropOfMissingTokenMovesLast(s: seq<Token>, dragged: TokenId, dropIndex: nat)
    requires dropIndex < |s| && dropIndex != 0 && dragged !in Ids(s)
    ensures Ids(DropResult(s, dragged, dropIndex))[dropIndex] == Ids(s)[|s| - 1]
  {
    var last := |s| - 1;
    assert IndexOf(s, dragged) == -1 && SpliceStart(-1, |s|) == last;
    var r := Reorder(s, last, dropIndex);
    assert r[dropIndex] == s[last];
    assert DropResult(s, dragged, dropIndex) == Renumbered(r);
  }

  /** As written: a drop whose dragged id is the first token's (left over
      from an earlier drag whose drop was refused) takes the first token off
      the head: it lands on the drop index and the second token leads. */
  lemma DropOfStaleHeadDemotesHead(s: seq<Token>, dropIndex: nat)
    requires 0 < dropIndex < |s|
    ensures var r := DropResult(s, s[0].id, dropIndex);
      Ids(r)[dropIndex] == s[0].id && Ids(r)[0] == s[1].id
  {
    assert IndexOf(s, s[0].id) == 0 && SpliceStart(0, |s|) == 0;
    var r := Reorder(s, 0, dropIndex);
    assert r[dropIndex] == s[0] && r[0] == s[1];
    assert DropResult(s, s[0].id, dropIndex) == Renumbered(r);
  }

  /** The drop as its guards intend it: refused unless the dragged token is
      in the queue and not first, and the target is neither its own card
      nor the first card. */
  function GuardedDropResult(s: seq<Token>, dragged: TokenId, dropIndex: nat): (r: seq<Token>)
    requires dropIndex < |s|
    ensures |r| == |s|
    ensures Numbered(s) ==> Numbered(r)
  {
    var k := IndexOf(s, dragged);
    if k <= 0 || k == dropIndex || dropIndex == 0 then s
    else Renumbered(Reorder(s, k, dropIndex))
  }

  /** The guarded drop never changes which token is first, and it is always
      a permutation. */
  lemma GuardedDropKeepsHead(s: seq<Token>, dragged: TokenId, dropIndex: nat)
    requires dropIndex < |s|
    ensures var r := GuardedDropResult(s, dragged, dropIndex);
      && Ids(r)[0] == Ids(s)[0]
      && multiset(Ids(r)) == multiset(Ids(s))
  {
    var k := IndexOf(s, dragged);
    if !(k <= 0 || k == dropIndex || dropIndex == 0) {
      IdsRenumbered(Reorder(s, k, dropIndex));
      IdsReorder(s, k, dropIndex);
      ReorderPermutes(Ids(s), k, dropIndex);
    }
  }

  // ---------------------------------------------------------------------
  // moveUp and moveDown

  /** The token array after `moveUp(id)`: the same tokens, numbered if
      they were. */
  function MoveUpResult(s: seq<Token>, id: TokenId): (r: seq<Token>)
    ensures |r| == |s|
    ensures Numbered(s) ==> Numbered(r)
  {
    var k := IndexOf(s, id);
    if k <= 0 then s else Renumbered(Swapped(s, k, k - 1))
  }

  /** The token array after `moveDown(id)`. An id that is not in a non-empty
      queue makes the source throw before it commits, so nothing changes. */
  function MoveDownResult(s: seq<Token>, id: TokenId): (r: seq<Token>)
    ensures |r| == |s|
    ensures Numbered(s) ==> Numbered(r)
  {
    var k := IndexOf(s, id);
    if k < 0 || k >= |s| - 1 then s else Renumbered(Swapped(s, k, k + 1))
  }

  /** `moveUp` swaps the token with the one before it and leaves every other
      token where it was; at the head, or for an unknown id, it does nothing. */
  lemma MoveUpSwaps(s: seq<Token>, id: TokenId)
    ensures var k := IndexOf(s, id); var r := MoveUpResult(s, id);
      && (k <= 0 ==> r == s)
      && (k > 0 ==> Ids(r) == Swapped(Ids(s), k, k - 1) && Numbered(r))
  {
    var k := IndexOf(s, id);
    if k > 0 {
      MoveUpSwapsAt(s, id, k);
    } else {
      MoveUpNoOp(s, id);
    }
  }

  /** `moveUp` of the first token or of an unknown id. */
  lemma MoveUpNoOp(s: seq<Token>, id: TokenId)
    requires IndexOf(s, id) <= 0
    ensures MoveUpResult(s, id) == s
  {
  }

  /** `moveUp` of the token found at `k > 0`, on the ids. */
  lemma MoveUpSwapsAt(s: seq<Token>, id: TokenId, k: nat)
    requires IndexOf(s, id) == k > 0
    ensures Ids(MoveUpResult(s, id)) == Swapped(Ids(s), k, k - 1)
    ensures Numbered(MoveUpResult(s, id))
  {
    var w := Swapped(s, k, k - 1);
    MoveUpAt(s, id, k);
    IdsRenumbered(w);
    IdsSwapped(s, k, k - 1);
  }

  /** `moveDown` swaps the token with the one after it and leaves every other
      token where it was; at the tail, or for an unknown id, it does nothing. */
  lemma MoveDownSwaps(s: seq<Token>, id: TokenId)
    ensures var k := IndexOf(s, id); var r := MoveDownResult(s, id);
      && (k == -1 || k == |s| - 1 ==> r == s)
      && (0 <= k < |s| - 1 ==> Ids(r) == Swapped(Ids(s), k, k + 1) && Numbered(r))
  {
    var k := IndexOf(s, id);
    if 0 <= k < |s| - 1 {
      MoveDownSwapsAt(s, id, k);
    } else {
      MoveDownNoOp(s, id);
    }
  }

  /** `moveDown` of the last token or of an unknown id. */
  lemma MoveDownNoOp(s: seq<Token>, id: TokenId)
    requires IndexOf(s, id) == -1 || IndexOf(s, id) == |s| - 1
    ensures MoveDownResult(s, id) == s
  {
  }

  /** `moveDown` of the token found at `k < |s| - 1`, on the ids. */
  lemma MoveDownSwapsAt(s: seq<Token>, id: TokenId, k: nat)
    requires IndexOf(s, id) == k && k < |s| - 1
    ensures Ids(MoveDownResult(s, id)) == Swapped(Ids(s), k, k + 1)
    ensures Numbered(MoveDownResult(s, id))
  {
    var w := Swapped(s, k, k + 1);
    MoveDownAt(s, id, k);
    IdsRenumbered(w);
    IdsSwapped(s, k, k + 1);
  }

  /** Tokens that agree except on positions renumber to the same array. */
  lemma RenumberedIgnoresPositions(a: seq<Token>, b: seq<Token>)
    requires SameButPositions(a, b)
    ensures Renumbered(a) == Renumbered(b)
  {
    assert forall i :: 0 <= i < |a| ==> a[i].(position := i + 1) == b[i].(position := i + 1);
  }

  /** Swapping back after a renumbered swap gives the renumbered original. */
  lemma SwapBack(s: seq<Token>, i: nat, j: nat)
    requires i < |s| && j < |s|
    ensures Renumbered(Swapped(Renumbered(Swapped(s, i, j)), j, i)) == Renumbered(s)
  {
    var d := Renumbered(Swapped(s, i, j));
    assert Swapped(Swapped(s, i, j), j, i) == s;
    assert SameButPositions(Swapped(d, j, i), s);
    RenumberedIgnoresPositions(Swapped(d, j, i), s);
  }

  /** A renumbered swap keeps the ids unique. */
  lemma SwapKeepsUniqueIds(s: seq<Token>, i: nat, j: nat)
    requires UniqueIds(s) && i < |s| && j < |s|
    ensures UniqueIds(Renumbered(Swapped(s, i, j)))
  {
    var d := Renumbered(Swapped(s, i, j));
    forall a, b | 0 <= a < b < |d| ensures d[a].id != d[b].id {
      var x := if a == i then j else if a == j then i else a;
      var y := if b == i then j else if b == j then i else b;
      assert d[a].id == s[x].id && d[b].id == s[y].id;
    }
  }

  /** `moveUp` of the token found at `k > 0`. */
  lemma MoveUpAt(s: seq<Token>, id: TokenId, k: nat)
    requires IndexOf(s, id) == k > 0
    ensures MoveUpResult(s, id) == Renumbered(Swapped(s, k, k - 1))
  {
  }

  /** `moveDown` of the token found at `k < |s| - 1`. */
  lemma MoveDownAt(s: seq<Token>, id: TokenId, k: nat)
    requires IndexOf(s, id) == k && k < |s| - 1
    ensures MoveDownResult(s, id) == Renumbered(Swapped(s, k, k + 1))
  {
  }

  /** With unique ids, after a renumbered swap of the token found at `k`
      with the one at `j`, the token is found at `j`. */
  lemma FoundAfterSwap(s: seq<Token>, id: TokenId, k: nat, j: nat)
    requires UniqueIds(s) && IndexOf(s, id) == k && j < |s|
    ensures UniqueIds(Renumbered(Swapped(s, k, j)))
    ensures IndexOf(Renumbered(Swapped(s, k, j)), id) == j
  {
    var d := Renumbered(Swapped(s, k, j));
    SwapKeepsUniqueIds(s, k, j);
    assert d[j].id == id;
    IndexOfUnique(d, j);
  }

  /** `moveUp` of a token that a renumbered swap moved down from `k`. */
  lemma UpAfterDownAt(s: seq<Token>, id: TokenId, k: nat)
    requires UniqueIds(s) && IndexOf(s, id) == k && k < |s| - 1
    ensures MoveUpResult(Renumbered(Swapped(s, k, k + 1)), id) == Renumbered(s)
  {
    FoundAfterSwap(s, id, k, k + 1);
    MoveUpAt(Renumbered(Swapped(s, k, k + 1)), id, k + 1);
    SwapBack(s, k, k + 1);
  }

  /** `moveDown` of a token that a renumbered swap moved up from `k`. */
  lemma DownAfterUpAt(s: seq<Token>, id: TokenId, k: nat)
    requires UniqueIds(s) && IndexOf(s, id) == k && 0 < k
    ensures MoveDownResult(Renumbered(Swapped(s, k, k - 1)), id) == Renumbered(s)
  {
    FoundAfterSwap(s, id, k, k - 1);
    MoveDownAt(Renumbered(Swapped(s, k, k - 1)), id, k - 1);
    SwapBack(s, k, k - 1);
  }

  /** With unique ids, `moveUp` undoes `moveDown` (up to renumbering). */
  lemma MoveUpUndoesMoveDown(s: seq<Token>, id: TokenId)
    requires UniqueIds(s) && 0 <= IndexOf(s, id) < |s| - 1
    ensures MoveUpResult(MoveDownResult(s, id), id) == Renumbered(s)
  {
    var k := IndexOf(s, id);
    MoveDownAt(s, id, k);
    UpAfterDownAt(s, id, k);
  }

  /** With unique ids, `moveDown` undoes `moveUp` (up to renumbering). */
  lemma MoveDownUndoesMoveUp(s: seq<Token>, id: TokenId)
    requires UniqueIds(s) && 0 < IndexOf(s, id)
    ensures MoveDownResult(MoveUpResult(s, id), id) == Renumbered(s)
  {
    var k := IndexOf(s, id);
    MoveUpAt(s, id, k);
    DownAfterUpAt(s, id, k);
  }

  // ---------------------------------------------------------------------
  // cancelToken and serveNext

  /** `tokens.filter(t => t.id !== id)`. */
  function WithoutId(s: seq<Token>, id: TokenId): (r: seq<Token>)
    ensures |r| <= |s|
    ensures forall t :: t in r <==> t in s && t.id != id
    ensures id !in Ids(s) ==> r == s
  {
    if s == [] then []
    else
      assert Ids(s[1..]) == Ids(s)[1..];
      (if s[0].id == id then [] else [s[0]]) + WithoutId(s[1..], id)
  }

  lemma IdsCons(t: Token, s: seq<Token>)
    ensures Ids([t] + s) == [t.id] + Ids(s)
  {
  }

  /** Filtering never adds an id: each id occurs in the result at most as
      often as in the queue. */
  lemma {:induction false} WithoutIdSubIds(s: seq<Token>, id: TokenId)
    ensures multiset(Ids(WithoutId(s, id))) <= multiset(Ids(s))
  {
    if s != [] {
      var tail := s[1..];
      var rest := WithoutId(tail, id);
      WithoutIdSubIds(tail, id);
      IdsCons(s[0], tail);
      assert s == [s[0]] + tail;
      if s[0].id == id {
        assert WithoutId(s, id) == rest;
      } else {
        assert WithoutId(s, id) == [s[0]] + rest;
        IdsCons(s[0], rest);
      }
    }
  }

  /** With unique ids, filtering out the id held at `k` removes exactly that
      token and keeps the rest in order. */
  lemma WithoutIdOfHead(s: seq<Token>)
    requires UniqueIds(s) && s != []
    ensures WithoutId(s, s[0].id) == s[1..]
  {
    var tail := s[1..];
    assert s[0].id !in Ids(tail) by {
      forall i | 0 <= i < |tail| ensures tail[i].id != s[0].id {
        assert tail[i] == s[i + 1];
      }
    }
  }

  lemma UniqueIdsTail(s: seq<Token>)
    requires UniqueIds(s) && s != []
    ensures UniqueIds(s[1..])
  {
    forall i, j | 0 <= i < j < |s| - 1 ensures s[1..][i].id != s[1..][j].id {
      assert s[1..][i] == s[i + 1] && s[1..][j] == s[j + 1];
    }
  }

  lemma RemoveAtAfterHead<T>(s: seq<T>, k: nat)
    requires 0 < k < |s|
    ensures RemoveAt(s, k) == [s[0]] + RemoveAt(s[1..], k - 1)
  {
    assert s[1..][..k - 1] == s[1..k];
    assert s[1..][k..] == s[k + 1..];
  }

  lemma {:induction false} WithoutIdRemovesOne(s: seq<Token>, k: nat)
    requires UniqueIds(s) && k < |s|
    ensures WithoutId(s, s[k].id) == RemoveAt(s, k)
  {
    if k == 0 {
      WithoutIdOfHead(s);
    } else {
      var id, tail := s[k].id, s[1..];
      assert tail[k - 1] == s[k] && s[0].id != id;
      UniqueIdsTail(s);
      WithoutIdRemovesOne(tail, k - 1);
      RemoveAtAfterHead(s, k);
    }
  }

  /** The token array after `cancelToken(id)`: numbered and no longer than
      the queue (`WithoutIdSubIds` shows it holds no id more often). */
  function CancelResult(s: seq<Token>, id: TokenId): (r: seq<Token>)
    ensures |r| <= |s| && Numbered(r)
  {
    Renumbered(WithoutId(s, id))
  }

  /** Cancelling removes the token with that id, keeps every other token in
      its relative order, and leaves positions 1..n. */
  lemma CancelRemovesToken(s: seq<Token>, k: nat)
    requires UniqueIds(s) && k < |s|
    ensures var r := CancelResult(s, s[k].id);
      Ids(r) == RemoveAt(Ids(s), k) && Numbered(r) && s[k].id !in Ids(r)
  {
    WithoutIdRemovesOne(s, k);
    IdsRenumbered(RemoveAt(s, k));
    IdsRemoveAt(s, k);
  }

  /** With unique ids, cancelling an id that is in the queue removes exactly
      the token `findIndex` finds. */
  lemma CancelRemovesFound(s: seq<Token>, id: TokenId)
    requires UniqueIds(s)
    ensures id in Ids(s) ==> Ids(CancelResult(s, id)) == RemoveAt(Ids(s), IndexOf(s, id))
  {
    var k := IndexOf(s, id);
    if k >= 0 {
      CancelRemovesToken(s, k);
    }
  }

  /** Cancelling an id that is not in the queue only renumbers it. */
  lemma CancelAbsentRenumbers(s: seq<Token>, id: TokenId)
    requires id !in Ids(s)
    ensures CancelResult(s, id) == Renumbered(s)
  {
  }

  /** The token array after `serveNext` on a non-empty queue: `slice(1)`
      and renumbering. */
  function ServeResult(s: seq<Token>): (r: seq<Token>)
    requires s != []
    ensures |r| == |s| - 1 && Numbered(r)
  {
    Renumbered(s[1..])
  }

  /** Serving removes exactly the head token and keeps the rest in order. */
  lemma ServeRemovesHead(s: seq<Token>)
    requires s != []
    ensures Ids(ServeResult(s)) == Ids(s)[1..] && Numbered(ServeResult(s))
  {
    IdsRenumbered(s[1..]);
  }

  /** With unique ids, serving is cancelling the head token: the two removal
      paths agree on the array they leave. */
  lemma ServeIsCancelOfHead(s: seq<Token>)
    requires s != [] && UniqueIds(s)
    ensures ServeResult(s) == CancelResult(s, s[0].id)
  {
    WithoutIdRemovesOne(s, 0);
  }

  // ---------------------------------------------------------------------
  // The id invariant: no handler creates a duplicate id or a counter id the
  // counter has yet to issue

  lemma MoveToTopKeepsIds(s: seq<Token>, id: TokenId, counter: nat)
    requires WellFormedIds(s, counter)
    ensures WellFormedIds(MoveToTopResult(s, id), counter)
  {
    if id in Ids(s) {
      MoveToTopPromotes(s, id);
      SubIdsKeepWellFormed(s, MoveToTopResult(s, id), counter);
    }
  }

  lemma DropKeepsIds(s: seq<Token>, dragged: TokenId, dropIndex: nat, counter: nat)
    requires dropIndex < |s| && WellFormedIds(s, counter)
    ensures WellFormedIds(DropResult(s, dragged, dropIndex), counter)
  {
    if DropApplies(s, dragged, dropIndex) {
      var from := SpliceStart(IndexOf(s, dragged), |s|);
      IdsRenumbered(Reorder(s, from, dropIndex));
      IdsReorder(s, from, dropIndex);
      ReorderPermutes(Ids(s), from, dropIndex);
      SubIdsKeepWellFormed(s, DropResult(s, dragged, dropIndex), counter);
    }
  }

  lemma MoveUpKeepsIds(s: seq<Token>, id: TokenId, counter: nat)
    requires WellFormedIds(s, counter)
    ensures WellFormedIds(MoveUpResult(s, id), counter)
  {
    var k := IndexOf(s, id);
    if k > 0 {
      MoveUpSwapsAt(s, id, k);
      SwappedPermutes(Ids(s), k, k - 1);
      SubIdsKeepWellFormed(s, MoveUpResult(s, id), counter);
    } else {
      MoveUpNoOp(s, id);
    }
  }

  lemma MoveDownKeepsIds(s: seq<Token>, id: TokenId, counter: nat)
    requires WellFormedIds(s, counter)
    ensures WellFormedIds(MoveDownResult(s, id), counter)
  {
    var k := IndexOf(s, id);
    if 0 <= k < |s| - 1 {
      MoveDownSwapsAt(s, id, k);
      SwappedPermutes(Ids(s), k, k + 1);
      SubIdsKeepWellFormed(s, MoveDownResult(s, id), counter);
    } else {
      MoveDownNoOp(s, id);
    }
  }

  lemma CancelKeepsIds(s: seq<Token>, id: TokenId, counter: nat)
    requires WellFormedIds(s, counter)
    ensures WellFormedIds(CancelResult(s, id), counter)
  {
    IdsRenumbered(WithoutId(s, id));
    WithoutIdSubIds(s, id);
    SubIdsKeepWellFormed(s, CancelResult(s, id), counter);
  }

  lemma ServeKeepsIds(s: seq<Token>, counter: nat)
    requires s != [] && WellFormedIds(s, counter)
    ensures WellFormedIds(ServeResult(s), counter)
  {
    ServeRemovesHead(s);
    assert Ids(s) == [s[0].id] + Ids(s)[1..];
    SubIdsKeepWellFormed(s, ServeResult(s), counter);
  }

  // ---------------------------------------------------------------------
  // addToQueue

  /** The token `addToQueue` builds: the next counter value as id, the clock
      reading as `addedAt`, and the old length + 1 as position. Appended, it
      keeps a numbered queue numbered without a renumbering pass. */
  function NewToken(s: seq<Token>, counter: nat, name: string, now: int): (r: Token)
    ensures Numbered(s) ==> Numbered(s + [r])
  {
    Token(Counter(counter), name, now, |s| + 1)
  }

  /** The new token's id is new to a queue whose counter ids are all below
      the counter, so appending it and advancing the counter keeps the
      queue's ids well-formed. */
  lemma AppendKeepsIds(s: seq<Token>, counter: nat, name: string, now: int)
    requires WellFormedIds(s, counter)
    ensures WellFormedIds(s + [NewToken(s, counter, name, now)], counter + 1)
  {
    var t := NewToken(s, counter, name, now);
    assert t.id !in Ids(s);
    assert (s + [t])[..|s|] == s;
  }

  // ---------------------------------------------------------------------
  // Worked examples

  /** Three tokens with distinct ids; the last is moved to the top and
      the other two move down one place each. */
  lemma MoveToTopExample(a: Token, b: Token, c: Token)
    requires a.id != b.id && a.id != c.id && b.id != c.id
    ensures MoveToTopResult([a, b, c], c.id)
         == [c.(position := 1), a.(position := 2), b.(position := 3)]
  {
    var s := [a, b, c];
    IndexOfUnique(s, 2);
    assert MoveToFront(s, 2) == [c, a, b];
  }

  /** Cancelling the second of three tokens with distinct ids renumbers the
      other two to 1, 2. */
  lemma CancelExample(a: Token, b: Token, c: Token)
    requires a.id != b.id && a.id != c.id && b.id != c.id
    ensures CancelResult([a, b, c], b.id) == [a.(position := 1), c.(position := 2)]
  {
    var s := [a, b, c];
    WithoutIdRemovesOne(s, 1);
    assert RemoveAt(s, 1) == [a, c];
  }
}
