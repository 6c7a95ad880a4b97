/** The manager dashboard's state and its queue handlers. Each handler
    rearranges a copy of the selected queue's token array (`moveUp` and
    `moveDown` swap in place on the copied array), runs the renumbering loop
    over it and stores it back, and is proved to leave exactly the array
    that module Ordering specifies. */
module Dashboard {
  import opened Text
  import opened Tokens
  import opened Ordering
  import opened WaitAnalytics

  datatype Option<T> = None | Some(value: T)

  /** Queue ids as the backend issues them; the selector's placeholder
      option sends the empty string. */
  type QueueId = string

  /** One queue as the dashboard keeps it; replaced as a whole (`{ ...queue,
      tokens: newTokens }`) whenever its tokens change. */
  datatype QueueRecord = QueueRecord(id: QueueId, name: string, tokens: seq<Token>, createdAt: int, totalServed: nat)

  /** What `addToQueue` did: the token it appended, or which guard refused. */
  datatype AddOutcome = Added(token: Token) | BlankName | NoQueueSelected

  /** The truthiness test `!draggedItem`: no id, the falsy number 0 or the
      falsy empty string. */
  predicate Truthy(item: Option<TokenId>)
  {
    item.Some? &&
    match item.value
    case Counter(n) => n != 0
    case Stored(key) => key != ""
  }

  /** What the backend returns for a queue's persons: each carries its own
      distinct database id. */
  predicate FromBackend(s: seq<Token>)
  {
    UniqueIds(s) && forall i :: 0 <= i < |s| ==> s[i].id.Stored?
  }

  /** Every queue's ids are well-formed for the counter. */
  predicate AllWellFormed(queues: map<QueueId, QueueRecord>, counter: nat)
  {
    forall q :: q in queues ==> WellFormedIds(queues[q].tokens, counter)
  }

  /** Storing a record with well-formed ids keeps every queue well-formed. */
  lemma StoreKeepsWellFormed(queues: map<QueueId, QueueRecord>, key: QueueId, rec: QueueRecord, counter: nat)
    requires AllWellFormed(queues, counter) && WellFormedIds(rec.tokens, counter)
    ensures AllWellFormed(queues[key := rec], counter)
  {
  }

  /** Appending the counter's token to one queue and advancing the counter
      keeps every queue well-formed. */
  lemma AppendKeepsWellFormed(queues: map<QueueId, QueueRecord>, key: QueueId, counter: nat, name: string, now: int)
    requires AllWellFormed(queues, counter) && key in queues
    ensures var s := queues[key].tokens;
      AllWellFormed(queues[key := queues[key].(tokens := s + [NewToken(s, counter, name, now)])], counter + 1)
  {
    var s := queues[key].tokens;
    AppendKeepsIds(s, counter, name, now);
    assert AllWellFormed(queues, counter + 1);
    StoreKeepsWellFormed(queues, key, queues[key].(tokens := s + [NewToken(s, counter, name, now)]), counter + 1);
  }

  /** The record `{ ...prev[queueId], tokens }` starts from: the queue's own
      record, or, for a key the page has no record under, one with only the
      key filled in. */
  function RecordFor(queues: map<QueueId, QueueRecord>, queueId: QueueId): (r: QueueRecord)
    ensures queueId in queues ==> r == queues[queueId]
    ensures queueId !in queues ==> r.id == queueId && r.tokens == [] && r.totalServed == 0
  {
    if queueId in queues then queues[queueId] else QueueRecord(queueId, "", [], 0, 0)
  }

  /** `[...tokens]`: a fresh array holding the tokens. */
  method ToArray(s: seq<Token>) returns (a: array<Token>)
    ensures fresh(a) && a[..] == s
  {
    a := new Token[|s|](i requires 0 <= i < |s| => s[i]);
  }

  /** The destructuring swap `[a[i], a[j]] = [a[j], a[i]]`, in place. */
  method Swap(a: array<Token>, i: nat, j: nat)
    requires i < a.Length && j < a.Length
    modifies a
    ensures a[..] == Swapped(old(a[..]), i, j)
  {
    a[i], a[j] := a[j], a[i];
  }

  /** The loop `newTokens.forEach((token, idx) => (token.position = idx + 1))`. */
  method Renumber(a: array<Token>)
    modifies a
    ensures a[..] == Renumbered(old(a[..]))
  {
    var i := 0;
    while i < a.Length
      invariant 0 <= i <= a.Length
      invariant forall j :: 0 <= j < i ==> a[j] == old(a[j]).(position := j + 1)
      invariant forall j :: i <= j < a.Length ==> a[j] == old(a[j])
    {
      a[i] := a[i].(position := i + 1);
      i := i + 1;
    }
  }

  /** `[...tokens]` followed by the renumbering loop, as `moveToTop`,
      `handleDrop`, `serveNext` and `cancelToken` do it once their array is
      rearranged. */
  method CopyRenumbered(s: seq<Token>) returns (r: seq<Token>)
    ensures r == Renumbered(s)
  {
    var a := ToArray(s);
    Renumber(a);
    r := a[..];
  }

  /** The copy, swap and renumbering of `moveUp` and `moveDown`. */
  method SwapRenumbered(s: seq<Token>, i: nat, j: nat) returns (r: seq<Token>)
    requires i < |s| && j < |s|
    ensures r == Renumbered(Swapped(s, i, j))
  {
    var a := ToArray(s);
    Swap(a, i, j);
    Renumber(a);
    r := a[..];
  }

  class ManagerDashboard {
    var queues: map<QueueId, QueueRecord>
    var currentQueueId: Option<QueueId>
    var tokenCounter: nat
    var draggedItem: Option<TokenId>
    var draggedIndex: Option<nat>
    var analytics: Analytics

    /** The selected queue exists; every queue holds each id at most once
        and no counter id the counter has yet to issue; and the two served
        counters, which only `ServeNext` touches and always together, agree.
        `currentQueueId` is None while the page's id is falsy (null, or the
        placeholder's empty string). */
    ghost predicate Valid()
      reads this
    {
      && (currentQueueId.Some? ==> currentQueueId.value in queues)
      && AllWellFormed(queues, tokenCounter)
      && analytics.totalTokensServed == analytics.servedTokens
      && tokenCounter >= 1
    }

    /** The selected queue. */
    ghost function Current(): QueueRecord
      reads this
      requires Valid() && currentQueueId.Some?
    {
      queues[currentQueueId.value]
    }

    /** The state once the page has mounted and loaded the manager's queues,
        each still without tokens. */
    constructor (loaded: map<QueueId, QueueRecord>)
      requires forall q :: q in loaded ==> loaded[q].id == q && loaded[q].tokens == []
      ensures Valid()
      ensures queues == loaded && currentQueueId == None && tokenCounter == 1
      ensures draggedItem == None && draggedIndex == None
      ensures analytics == Analytics(|loaded|, 0, 0, 0)
    {
      queues := loaded;
      currentQueueId := None;
      tokenCounter := 1;
      draggedItem := None;
      draggedIndex := None;
      analytics := Analytics(|loaded|, 0, 0, 0);
    }

    /** `selectQueue`: selects the queue (the placeholder's empty id selects
        none) and stores the persons the backend returned, or none when the
        request failed, as the tokens under that key, creating a record when
        the page has none under it. */
    method SelectQueue(queueId: QueueId, fetched: Option<seq<Token>>)
      requires Valid()
      requires fetched.Some? ==> FromBackend(fetched.value)
      modifies this`currentQueueId, this`queues
      ensures Valid()
      ensures currentQueueId == if queueId == "" then None else Some(queueId)
      ensures queues == old(queues)[queueId :=
        RecordFor(old(queues), queueId).(tokens := if fetched.Some? then fetched.value else [])]
    {
      currentQueueId := if queueId == "" then None else Some(queueId);
      var tokens := if fetched.Some? then fetched.value else [];
      queues := queues[queueId := RecordFor(queues, queueId).(tokens := tokens)];
    }

    /** `moveToTop`: brings the token to the head of the selected queue;
        a no-op when it is already first or not there. */
    method MoveToTop(tokenId: TokenId)
      requires Valid() && currentQueueId.Some?
      modifies this`queues
      ensures Valid()
      ensures queues == old(queues[currentQueueId.value := Current().(tokens := MoveToTopResult(Current().tokens, tokenId))])
      ensures tokenId in Ids(old(Current().tokens)) ==> Current().tokens[0].id == tokenId
    {
      var queue := queues[currentQueueId.value];
      var tokenIndex := IndexOf(queue.tokens, tokenId);
      if tokenIndex <= 0 {
        return;
      }
      var newTokens := CopyRenumbered(MoveToFront(queue.tokens, tokenIndex));
      MoveToTopPromotes(queue.tokens, tokenId);
      MoveToTopKeepsIds(queue.tokens, tokenId, tokenCounter);
      StoreKeepsWellFormed(queues, currentQueueId.value, queue.(tokens := newTokens), tokenCounter);
      queues := queues[currentQueueId.value := queue.(tokens := newTokens)];
    }

    /** `handleDragStart`: remembers the dragged token, except for the first
        card, which cannot be dragged. */
    method HandleDragStart(tokenId: TokenId, index: nat)
      modifies this`draggedItem, this`draggedIndex
      ensures index == 0 ==> draggedItem == old(draggedItem) && draggedIndex == old(draggedIndex)
      ensures index != 0 ==> draggedItem == Some(tokenId) && draggedIndex == Some(index)
    {
      if index == 0 {
        return;
      }
      draggedItem := Some(tokenId);
      draggedIndex := Some(index);
    }

    /** `handleDrop` on the token card at index `dropCard`. None stands for
        a drop on the list but between token cards: `closest('.card')` then
        finds the enclosing "Current Queue" card, whose index among its
        siblings is 0, so the `dropIndex === 0` guard refuses it. Only a drop
        that passes every guard moves a token and forgets the drag; the early
        returns leave the remembered drag in place. */
    method HandleDrop(dropCard: Option<nat>)
      requires Valid() && currentQueueId.Some?
      requires dropCard.Some? ==> dropCard.value < |Current().tokens|
      modifies this`queues, this`draggedItem, this`draggedIndex
      ensures Valid()
      ensures
        if Truthy(old(draggedItem)) && dropCard.Some?
           && DropApplies(old(Current().tokens), old(draggedItem).value, dropCard.value)
        then
          && queues == old(queues[currentQueueId.value :=
               Current().(tokens := DropResult(Current().tokens, draggedItem.value, dropCard.value))])
          && draggedItem == None && draggedIndex == None
        else
          queues == old(queues) && draggedItem == old(draggedItem) && draggedIndex == old(draggedIndex)
    {
      if !Truthy(draggedItem) {
        return;
      }
      if dropCard.None? {
        return;
      }
      var queue := queues[currentQueueId.value];
      var draggedTokenIndex := IndexOf(queue.tokens, draggedItem.value);
      var dropIndex := dropCard.value;
      if draggedTokenIndex == dropIndex || dropIndex == 0 {
        assert !DropApplies(queue.tokens, draggedItem.value, dropIndex);
        return;
      }
      var from := SpliceStart(draggedTokenIndex, |queue.tokens|);
      var newTokens := CopyRenumbered(Reorder(queue.tokens, from, dropIndex));
      DropAt(queue.tokens, draggedItem.value, dropIndex);
      DropKeepsIds(queue.tokens, draggedItem.value, dropIndex, tokenCounter);
      StoreKeepsWellFormed(queues, currentQueueId.value, queue.(tokens := newTokens), tokenCounter);
      queues := queues[currentQueueId.value := queue.(tokens := newTokens)];
      draggedItem := None;
      draggedIndex := None;
    }

    /** `addToQueue`: refuses a blank name, then a missing selection;
        otherwise appends a token numbered one past the old length and
        advances the id counter. */
    method AddToQueue(name: string, now: int) returns (outcome: AddOutcome)
      requires Valid()
      modifies this`queues, this`tokenCounter
      ensures Valid()
      ensures IsBlank(name) ==> outcome == BlankName
      ensures !IsBlank(name) && currentQueueId.None? ==> outcome == NoQueueSelected
      ensures !outcome.Added? ==> queues == old(queues) && tokenCounter == old(tokenCounter)
      ensures !IsBlank(name) && currentQueueId.Some? ==>
        var q := old(Current());
        var t := NewToken(q.tokens, old(tokenCounter), name, now);
        && outcome == Added(t)
        && queues == old(queues)[currentQueueId.value := q.(tokens := q.tokens + [t])]
        && tokenCounter == old(tokenCounter) + 1
    {
      var trimmed := Trim(name);
      TrimEmptyIffBlank(name);
      if trimmed == [] {
        return BlankName;
      }
      if currentQueueId.None? {
        return NoQueueSelected;
      }
      var token := AppendNewToken(name, now);
      outcome := Added(token);
    }

    /** The part of `addToQueue` past its guards: builds the token, appends
        it to the selected queue and advances the counter. */
    method AppendNewToken(name: string, now: int) returns (token: Token)
      requires Valid() && currentQueueId.Some?
      modifies this`queues, this`tokenCounter
      ensures Valid()
      ensures var q := old(Current());
        && token == NewToken(q.tokens, old(tokenCounter), name, now)
        && queues == old(queues)[currentQueueId.value := q.(tokens := q.tokens + [token])]
        && tokenCounter == old(tokenCounter) + 1
    {
      var queue := queues[currentQueueId.value];
      token := NewToken(queue.tokens, tokenCounter, name, now);
      AppendKeepsWellFormed(queues, currentQueueId.value, tokenCounter, name, now);
      queues := queues[currentQueueId.value := queue.(tokens := queue.tokens + [token])];
      tokenCounter := tokenCounter + 1;
    }

    /** `moveUp`: swaps the token with the one before it. */
    method MoveUp(tokenId: TokenId)
      requires Valid() && currentQueueId.Some?
      modifies this`queues
      ensures Valid()
      ensures queues == old(queues[currentQueueId.value := Current().(tokens := MoveUpResult(Current().tokens, tokenId))])
    {
      var queue := queues[currentQueueId.value];
      var index := IndexOf(queue.tokens, tokenId);
      if index <= 0 {
        return;
      }
      var newTokens := SwapRenumbered(queue.tokens, index, index - 1);
      MoveUpAt(queue.tokens, tokenId, index);
      MoveUpKeepsIds(queue.tokens, tokenId, tokenCounter);
      StoreKeepsWellFormed(queues, currentQueueId.value, queue.(tokens := newTokens), tokenCounter);
      queues := queues[currentQueueId.value := queue.(tokens := newTokens)];
    }

    /** `moveDown`: swaps the token with the one after it. For an id not in
        the queue the source throws before storing anything, so nothing
        changes. */
    method MoveDown(tokenId: TokenId)
      requires Valid() && currentQueueId.Some?
      modifies this`queues
      ensures Valid()
      ensures queues == old(queues[currentQueueId.value := Current().(tokens := MoveDownResult(Current().tokens, tokenId))])
    {
      var queue := queues[currentQueueId.value];
      var index := IndexOf(queue.tokens, tokenId);
      if index >= |queue.tokens| - 1 {
        return;
      }
      if index < 0 {
        return;
      }
      var newTokens := SwapRenumbered(queue.tokens, index, index + 1);
      MoveDownAt(queue.tokens, tokenId, index);
      MoveDownKeepsIds(queue.tokens, tokenId, tokenCounter);
      StoreKeepsWellFormed(queues, currentQueueId.value, queue.(tokens := newTokens), tokenCounter);
      queues := queues[currentQueueId.value := queue.(tokens := newTokens)];
    }

    /** `serveNext` at clock `now`: with no selection or an empty queue it
        changes nothing; otherwise it removes the head token, counts one more
        serve for the queue and for the analytics, and adds the head's wait. */
    method ServeNext(now: int) returns (served: Option<Token>)
      requires Valid()
      modifies this`queues, this`analytics
      ensures Valid()
      ensures
        if old(currentQueueId).None? || old(Current().tokens) == [] then
          served == None && queues == old(queues) && analytics == old(analytics)
        else
          var q := old(Current());
          && served == Some(q.tokens[0])
          && queues == old(queues)[currentQueueId.value :=
               q.(tokens := ServeResult(q.tokens), totalServed := q.totalServed + 1)]
          && analytics == RecordServe(old(analytics), now - q.tokens[0].addedAt)
    {
      if currentQueueId.None? || |queues[currentQueueId.value].tokens| == 0 {
        return None;
      }
      var queue := queues[currentQueueId.value];
      var servedToken := queue.tokens[0];
      var waitTime := now - servedToken.addedAt;
      var newTokens := CopyRenumbered(queue.tokens[1..]);
      assert newTokens == ServeResult(queue.tokens);
      ServeKeepsIds(queue.tokens, tokenCounter);
      StoreKeepsWellFormed(queues, currentQueueId.value, queue.(tokens := newTokens, totalServed := queue.totalServed + 1), tokenCounter);
      queues := queues[currentQueueId.value := queue.(tokens := newTokens, totalServed := queue.totalServed + 1)];
      analytics := RecordServe(analytics, waitTime);
      served := Some(servedToken);
    }

    /** `cancelToken`: drops every token with the id from the selected queue
        and renumbers the rest; the served counters stay as they are. As the
        ids are unique, that removes exactly the token found and keeps the
        others in order. Returns the token `find` reports, if any. */
    method CancelToken(tokenId: TokenId) returns (cancelled: Option<Token>)
      requires Valid() && currentQueueId.Some?
      modifies this`queues
      ensures Valid()
      ensures queues == old(queues[currentQueueId.value := Current().(tokens := CancelResult(Current().tokens, tokenId))])
      ensures Current().totalServed == old(Current().totalServed)
      ensures var s := old(Current().tokens);
        cancelled == if tokenId in Ids(s) then Some(s[IndexOf(s, tokenId)]) else None
      ensures var s := old(Current().tokens);
        tokenId in Ids(s) ==> Ids(Current().tokens) == RemoveAt(Ids(s), IndexOf(s, tokenId))
    {
      var queue := queues[currentQueueId.value];
      var k := IndexOf(queue.tokens, tokenId);
      cancelled := if k >= 0 then Some(queue.tokens[k]) else None;
      var newTokens := CopyRenumbered(WithoutId(queue.tokens, tokenId));
      assert newTokens == CancelResult(queue.tokens, tokenId);
      CancelRemovesFound(queue.tokens, tokenId);
      CancelKeepsIds(queue.tokens, tokenId, tokenCounter);
      StoreKeepsWellFormed(queues, currentQueueId.value, queue.(tokens := newTokens), tokenCounter);
      queues := queues[currentQueueId.value := queue.(tokens := newTokens)];
    }
  }

  /** One party joins a freshly selected empty queue: it gets the counter
      id 1 and the position 1. */
  method JoinOneScenario(q: QueueRecord, x: string, t1: int)
    returns (d: ManagerDashboard)
    requires q.id != "" && q.tokens == []
    requires !IsBlank(x)
    ensures fresh(d) && d.Valid() && d.currentQueueId == Some(q.id) && d.tokenCounter == 2
    ensures d.Current() == q.(tokens := [Token(Counter(1), x, t1, 1)])
    ensures d.analytics == Analytics(1, 0, 0, 0)
  {
    d := new ManagerDashboard(map[q.id := q]);
    d.SelectQueue(q.id, Some([]));
    var a := d.AddToQueue(x, t1);
  }

  /** A second party joins after it and gets the id 2 and position 2. */
  method JoinTwoScenario(q: QueueRecord, x: string, y: string, t1: int, t2: int)
    returns (d: ManagerDashboard)
    requires q.id != "" && q.tokens == []
    requires !IsBlank(x) && !IsBlank(y)
    ensures fresh(d) && d.Valid() && d.currentQueueId == Some(q.id) && d.tokenCounter == 3
    ensures d.Current() == q.(tokens := [Token(Counter(1), x, t1, 1), Token(Counter(2), y, t2, 2)])
    ensures d.analytics == Analytics(1, 0, 0, 0)
  {
    d := JoinOneScenario(q, x, t1);
    var b := d.AddToQueue(y, t2);
  }

  /** A third party joins after those two and gets the id 3 and position 3. */
  method JoinInOrderScenario(q: QueueRecord, x: string, y: string, z: string, t1: int, t2: int, t3: int)
    returns (d: ManagerDashboard)
    requires q.id != "" && q.tokens == []
    requires !IsBlank(x) && !IsBlank(y) && !IsBlank(z)
    ensures fresh(d) && d.Valid() && d.currentQueueId == Some(q.id)
    ensures d.Current() == q.(tokens := [Token(Counter(1), x, t1, 1), Token(Counter(2), y, t2, 2), Token(Counter(3), z, t3, 3)])
    ensures d.analytics == Analytics(1, 0, 0, 0)
  {
    d := JoinTwoScenario(q, x, y, t1, t2);
    var c := d.AddToQueue(z, t3);
  }

  /** Serving the head of three numbered parties renumbers the other two. */
  lemma ServeOfThree(s: seq<Token>)
    requires |s| == 3 && Numbered(s)
    ensures ServeResult(s) == [s[1].(position := 1), s[2].(position := 2)]
  {
  }

  /** Serving the head of the queue those three formed: the first party
      leaves, the other two are renumbered 1 and 2, one serve is counted,
      and the average wait is the first party's wait. */
  method ServeInOrderScenario(q: QueueRecord, x: string, y: string, z: string, t1: int, t2: int, t3: int, now: int)
    returns (served: Option<Token>, rest: seq<Token>, totalServed: nat, avg: int)
    requires q.id != "" && q.tokens == [] && q.totalServed == 0
    requires !IsBlank(x) && !IsBlank(y) && !IsBlank(z)
    ensures served == Some(Token(Counter(1), x, t1, 1))
    ensures rest == [Token(Counter(2), y, t2, 1), Token(Counter(3), z, t3, 2)]
    ensures totalServed == 1
    ensures avg == WaitTime(t1, now)
  {
    var d := JoinInOrderScenario(q, x, y, z, t1, t2, t3);
    ServeOfThree(d.Current().tokens);
    served := d.ServeNext(now);
    rest := d.queues[q.id].tokens;
    totalServed := d.queues[q.id].totalServed;
    AverageAfterFirstServe(Analytics(1, 0, 0, 0), t1, now);
    avg := AvgWaitTime(d.analytics);
  }

  /** The arrays of the stale-drag walk-through below. */
  lemma StaleDragArrays(a: TokenId, b: TokenId, c: TokenId, s: seq<Token>, s1: seq<Token>, s2: seq<Token>)
    requires a != b && a != c && b != c
    requires s == [Token(a, "Ann", 0, 1), Token(b, "Ben", 0, 2), Token(c, "Cy", 0, 3)]
    requires s1 == [Token(b, "Ben", 0, 1), Token(c, "Cy", 0, 2)]
    requires s2 == [Token(c, "Cy", 0, 1), Token(b, "Ben", 0, 2)]
    ensures !DropApplies(s, b, 0) && ServeResult(s) == s1
    ensures DropApplies(s1, b, 1) && DropResult(s1, b, 1) == s2
    ensures Ids(s1) == [b, c] && Ids(s2) == [c, b]
  {
    assert IndexOf(s1, b) == 0;
  }

  /** A drop on the first card is refused and leaves the drag remembered. */
  method RefusedDropScenario(a: string, b: string, c: string, s: seq<Token>)
    returns (d: ManagerDashboard)
    requires a != b && a != c && b != c && b != ""
    requires s == [Token(Stored(a), "Ann", 0, 1), Token(Stored(b), "Ben", 0, 2), Token(Stored(c), "Cy", 0, 3)]
    ensures fresh(d) && d.Valid() && d.currentQueueId == Some("q1")
    ensures d.Current().tokens == s && d.draggedItem == Some(Stored(b))
  {
    assert IndexOf(s, Stored(b)) == 1 && FromBackend(s);
    d := new ManagerDashboard(map["q1" := QueueRecord("q1", "Front desk", [], 0, 0)]);
    d.SelectQueue("q1", Some(s));
    d.HandleDragStart(Stored(b), 1);
    d.HandleDrop(Some(0));
  }

  /** Serving after that refused drop makes the dragged token the head while
      its drag is still remembered. */
  method ServeAfterRefusedDropScenario(a: string, b: string, c: string, s: seq<Token>, s1: seq<Token>)
    returns (d: ManagerDashboard)
    requires a != b && a != c && b != c && b != ""
    requires s == [Token(Stored(a), "Ann", 0, 1), Token(Stored(b), "Ben", 0, 2), Token(Stored(c), "Cy", 0, 3)]
    requires s1 == [Token(Stored(b), "Ben", 0, 1), Token(Stored(c), "Cy", 0, 2)]
    ensures fresh(d) && d.Valid() && d.currentQueueId == Some("q1")
    ensures d.Current().tokens == s1 && d.draggedItem == Some(Stored(b))
  {
    StaleDragArrays(Stored(a), Stored(b), Stored(c), s, s1,
      [Token(Stored(c), "Cy", 0, 1), Token(Stored(b), "Ben", 0, 2)]);
    d := RefusedDropScenario(a, b, c, s);
    var served := d.ServeNext(0);
  }

  /** A drop refused because it landed on the first card leaves the drag
      remembered. Once that token has become the head, a later drop on the
      second card (of anything dragged from outside the list, which starts
      no drag of a card) moves the head away. */
  method StaleDragScenario(a: string, b: string, c: string) returns (before: seq<TokenId>, after: seq<TokenId>)
    requires a != b && a != c && b != c && b != ""
    ensures before == [Stored(b), Stored(c)] && after == [Stored(c), Stored(b)]
  {
    var s := [Token(Stored(a), "Ann", 0, 1), Token(Stored(b), "Ben", 0, 2), Token(Stored(c), "Cy", 0, 3)];
    var s1 := [Token(Stored(b), "Ben", 0, 1), Token(Stored(c), "Cy", 0, 2)];
    var s2 := [Token(Stored(c), "Cy", 0, 1), Token(Stored(b), "Ben", 0, 2)];
    StaleDragArrays(Stored(a), Stored(b), Stored(c), s, s1, s2);
    var d := ServeAfterRefusedDropScenario(a, b, c, s, s1);
    before := Ids(s1);
    d.HandleDrop(Some(1));
    assert d.queues["q1"].tokens == s2;
    after := Ids(s2);
  }
}
