// The per-bank request lists in FR-FCFS order with a cap on row hits.
module DdrQueue {
  import opened Arithmetic

  // `stamp` numbers requests in the order in which they enter the bank lists; `ev` says that an event
  // still waits for the response.
  datatype Request = Request(id: nat, stamp: nat, row: nat, bank: nat, write: bool, rowHitSeq: nat, arrival: nat,
                             ev: bool)

  datatype OpenRow = OpenRow(open: bool, row: nat, hits: nat)

  // Position of the last request to the given row, or -1.
  function LastSameRow(q: seq<Request>, row: nat): (m: int)
    ensures -1 <= m < |q|
    ensures m >= 0 ==> q[m].row == row
    ensures forall i | m < i < |q| :: q[i].row != row
  {
    if q == [] then -1
    else if q[|q| - 1].row == row then |q| - 1
    else LastSameRow(q[..|q| - 1], row)
  }

  // Where a new request goes and which row-hit number it gets.
  function Place(q: seq<Request>, row: nat, o: OpenRow, limit: nat): (nat, nat) {
    var m := LastSameRow(q, row);
    if m >= 0 then
      if q[m].rowHitSeq < limit then (m + 1, q[m].rowHitSeq + 1) else (|q|, 0)
    else if o.open && row == o.row && o.hits < limit && q == [] then (0, o.hits + 1)
    else (|q|, 0)
  }

  function InsertAt(q: seq<Request>, pos: nat, r: Request): (n: seq<Request>)
    requires pos <= |q|
    ensures |n| == |q| + 1 && n[pos] == r
    ensures forall i | 0 <= i < pos :: n[i] == q[i]
    ensures forall i | pos <= i < |q| :: n[i + 1] == q[i]
  {
    q[..pos] + [r] + q[pos..]
  }

  function Queued(q: seq<Request>, r: Request, o: OpenRow, limit: nat): (n: seq<Request>)
    ensures |n| == |q| + 1
  {
    var (pos, hit) := Place(q, r.row, o, limit);
    InsertAt(q, pos, r.(rowHitSeq := hit))
  }

  // ----- Order -----

  // Requests to one row stand in the order in which they came, numbers stay within the cap, and a request with
  // a nonzero number directly follows one to the same row with the number before.
  ghost predicate Ordered(q: seq<Request>, limit: nat) {
    && (forall i | 0 <= i < |q| :: q[i].rowHitSeq <= limit)
    && (forall i, j | 0 <= i < j < |q| && q[i].row == q[j].row :: q[i].stamp < q[j].stamp)
    && (forall i | 0 < i < |q| && q[i].rowHitSeq != 0 ::
          q[i - 1].row == q[i].row && q[i - 1].rowHitSeq + 1 == q[i].rowHitSeq)
  }

  // Request j is the next to the row of request i.
  predicate NextOfRow(q: seq<Request>, i: nat, j: nat) {
    i < j < |q| && q[j].row == q[i].row && forall k | i < k < j :: q[k].row != q[i].row
  }

  // Row hits go first: the next request to a row stands right behind the one before it and counts on, unless the cap
  // has been reached, when it starts over.
  ghost predicate HitsFollow(q: seq<Request>, limit: nat) {
    forall i: nat, j: nat | NextOfRow(q, i, j) ::
      if q[i].rowHitSeq < limit then j == i + 1 && q[j].rowHitSeq == q[i].rowHitSeq + 1 else q[j].rowHitSeq == 0
  }

  ghost predicate QueueOk(q: seq<Request>, limit: nat) {
    Ordered(q, limit) && HitsFollow(q, limit)
  }

  lemma QueuedOk(q: seq<Request>, r: Request, o: OpenRow, limit: nat)
    requires QueueOk(q, limit) && forall i | 0 <= i < |q| :: q[i].stamp < r.stamp
    ensures QueueOk(Queued(q, r, o, limit), limit)
  {
    hide Ordered, HitsFollow, InsertAt;
    QueuedOrdered(q, r, o, limit);
    HitsCapped(q, limit);
    var (pos, hit) := Place(q, r.row, o, limit);
    InsertedFollows(q, pos, r.(rowHitSeq := hit), limit);
  }

  lemma HitsCapped(q: seq<Request>, limit: nat)
    requires Ordered(q, limit)
    ensures forall i | 0 <= i < |q| :: q[i].rowHitSeq <= limit
  {
  }

  lemma QueuedOrdered(q: seq<Request>, r: Request, o: OpenRow, limit: nat)
    requires Ordered(q, limit) && forall i | 0 <= i < |q| :: q[i].stamp < r.stamp
    ensures Ordered(Queued(q, r, o, limit), limit)
  {
    var (pos, hit) := Place(q, r.row, o, limit);
    InsertedOrder(q, pos, r.(rowHitSeq := hit));
    InsertedChain(q, pos, r.(rowHitSeq := hit), limit);
  }

  // Where a request to the row of a waiting one goes.
  lemma InsertedFollows(q: seq<Request>, pos: nat, r: Request, limit: nat)
    requires HitsFollow(q, limit) && pos <= |q|
    requires var m := LastSameRow(q, r.row);
             if m >= 0 && q[m].rowHitSeq < limit then pos == m + 1 && r.rowHitSeq == q[m].rowHitSeq + 1
             else pos == |q| && (m >= 0 ==> r.rowHitSeq == 0)
    ensures HitsFollow(InsertAt(q, pos, r), limit)
  {
    var n := InsertAt(q, pos, r);
    BehindLast(q, pos, r.row);
    hide LastSameRow, InsertAt, NextOfRow, HitsFollow;
    forall i: nat, j: nat | NextOfRow(n, i, j)
      ensures if n[i].rowHitSeq < limit then j == i + 1 && n[j].rowHitSeq == n[i].rowHitSeq + 1
              else n[j].rowHitSeq == 0
    {
      InsertedNext(q, pos, r, i, j, limit);
    }
    FollowFrom(n, limit);
  }

  lemma FollowFrom(q: seq<Request>, limit: nat)
    requires forall i: nat, j: nat | NextOfRow(q, i, j) ::
               if q[i].rowHitSeq < limit then j == i + 1 && q[j].rowHitSeq == q[i].rowHitSeq + 1
               else q[j].rowHitSeq == 0
    ensures HitsFollow(q, limit)
  {
  }

  lemma FollowAt(q: seq<Request>, limit: nat, i: nat, j: nat)
    requires HitsFollow(q, limit) && NextOfRow(q, i, j)
    ensures i < j < |q|
    ensures if q[i].rowHitSeq < limit then j == i + 1 && q[j].rowHitSeq == q[i].rowHitSeq + 1 else q[j].rowHitSeq == 0
  {
  }

  lemma NextParts(q: seq<Request>, i: nat, j: nat)
    requires NextOfRow(q, i, j)
    ensures i < j < |q| && q[j].row == q[i].row
  {
  }

  lemma BehindLast(q: seq<Request>, pos: nat, row: nat)
    requires pos <= |q| && (pos == |q| || pos == LastSameRow(q, row) + 1)
    ensures forall k | pos <= k < |q| :: q[k].row != row
  {
    hide LastSameRow;
  }

  lemma BehindInserted(q: seq<Request>, pos: nat, r: Request)
    requires pos <= |q| && forall k | pos <= k < |q| :: q[k].row != r.row
    ensures forall j | pos < j <= |q| :: InsertAt(q, pos, r)[j].row != r.row
  {
    forall j | pos < j <= |q| ensures InsertAt(q, pos, r)[j].row != r.row {
      assert InsertAt(q, pos, r)[j] == q[j - 1];
    }
  }

  lemma InsertedNext(q: seq<Request>, pos: nat, r: Request, i: nat, j: nat, limit: nat)
    requires HitsFollow(q, limit) && pos <= |q| && NextOfRow(InsertAt(q, pos, r), i, j)
    requires forall k | pos <= k < |q| :: q[k].row != r.row
    requires var m := LastSameRow(q, r.row);
             if m >= 0 && q[m].rowHitSeq < limit then pos == m + 1 && r.rowHitSeq == q[m].rowHitSeq + 1
             else pos == |q| && (m >= 0 ==> r.rowHitSeq == 0)
    ensures var n := InsertAt(q, pos, r);
            i < j < |n| && if n[i].rowHitSeq < limit then j == i + 1 && n[j].rowHitSeq == n[i].rowHitSeq + 1
                           else n[j].rowHitSeq == 0
  {
    hide LastSameRow, InsertAt, NextOfRow, HitsFollow;
    var n, m := InsertAt(q, pos, r), LastSameRow(q, r.row);
    NextParts(n, i, j);
    BehindInserted(q, pos, r);
    if j == pos {
      LastBefore(q, pos, r, i);
    } else if i != pos {
      var a, b := if i < pos then i else i - 1, if j < pos then j else j - 1;
      assert n[i] == q[a] && n[j] == q[b];
      NextBefore(q, pos, r, i, j);
      FollowAt(q, limit, a, b);
    }
  }

  lemma LastIs(q: seq<Request>, row: nat, i: nat)
    requires i < |q| && q[i].row == row && forall k | i < k < |q| :: q[k].row != row
    ensures LastSameRow(q, row) == i
  {
    hide LastSameRow;
    assert LastSameRow(q, row) >= i;
  }

  lemma LastBefore(q: seq<Request>, pos: nat, r: Request, i: nat)
    requires pos <= |q| && NextOfRow(InsertAt(q, pos, r), i, pos)
    requires forall k | pos <= k < |q| :: q[k].row != r.row
    ensures LastSameRow(q, r.row) == i
  {
    hide LastSameRow, InsertAt, NextOfRow;
    var n := InsertAt(q, pos, r);
    NextParts(n, i, pos);
    assert n[pos] == r && n[i] == q[i];
    forall k | i < k < |q| ensures q[k].row != r.row {
      if k < pos {
        NotBetween(n, i, pos, k);
        assert n[k] == q[k];
      }
    }
    LastIs(q, r.row, i);
  }

  lemma NotBetween(q: seq<Request>, i: nat, j: nat, k: nat)
    requires NextOfRow(q, i, j) && i < k < j
    ensures j < |q| && q[k].row != q[i].row
  {
  }

  lemma NextBefore(q: seq<Request>, pos: nat, r: Request, i: nat, j: nat)
    requires pos <= |q| && NextOfRow(InsertAt(q, pos, r), i, j) && i != pos && j != pos
    ensures NextOfRow(q, if i < pos then i else i - 1, if j < pos then j else j - 1)
  {
    var n := InsertAt(q, pos, r);
    var a, b := if i < pos then i else i - 1, if j < pos then j else j - 1;
    assert n[i] == q[a] && n[j] == q[b];
    forall k | a < k < b ensures q[k].row != q[a].row {
      assert q[k] == n[if k < pos then k else k + 1];
    }
  }

  // After the insertion point there is no request to the same row.
  lemma InsertedOrder(q: seq<Request>, pos: nat, r: Request)
    requires pos <= |q| && forall i | 0 <= i < |q| :: q[i].stamp < r.stamp
    requires forall i, j | 0 <= i < j < |q| && q[i].row == q[j].row :: q[i].stamp < q[j].stamp
    requires forall i | pos <= i < |q| :: q[i].row != r.row
    ensures var n := InsertAt(q, pos, r);
            forall i, j | 0 <= i < j < |n| && n[i].row == n[j].row :: n[i].stamp < n[j].stamp
  {
    var n := InsertAt(q, pos, r);
    forall i, j | 0 <= i < j < |n| && n[i].row == n[j].row ensures n[i].stamp < n[j].stamp {
      assert i > pos ==> n[i] == q[i - 1];
      assert j > pos ==> n[j] == q[j - 1];
    }
  }

  lemma InsertedChain(q: seq<Request>, pos: nat, r: Request, limit: nat)
    requires pos <= |q| && r.rowHitSeq <= limit
    requires forall i | 0 <= i < |q| :: q[i].rowHitSeq <= limit
    requires forall i | 0 < i < |q| && q[i].rowHitSeq != 0 ::
               q[i - 1].row == q[i].row && q[i - 1].rowHitSeq + 1 == q[i].rowHitSeq
    requires pos > 0 && r.rowHitSeq != 0 ==> q[pos - 1].row == r.row && q[pos - 1].rowHitSeq + 1 == r.rowHitSeq
    requires 0 < pos < |q| ==> q[pos].row != q[pos - 1].row
    requires pos == 0 ==> q == []
    ensures var n := InsertAt(q, pos, r);
            && (forall i | 0 <= i < |n| :: n[i].rowHitSeq <= limit)
            && (forall i | 0 < i < |n| && n[i].rowHitSeq != 0 ::
                  n[i - 1].row == n[i].row && n[i - 1].rowHitSeq + 1 == n[i].rowHitSeq)
  {
    var n := InsertAt(q, pos, r);
    forall i | 0 <= i < |n| ensures n[i].rowHitSeq <= limit {
      assert i > pos ==> n[i] == q[i - 1];
    }
    forall i | 0 < i < |n| && n[i].rowHitSeq != 0
      ensures n[i - 1].row == n[i].row && n[i - 1].rowHitSeq + 1 == n[i].rowHitSeq
    {
      assert i > pos ==> n[i] == q[i - 1];
      assert i > pos + 1 ==> n[i - 1] == q[i - 2];
    }
  }

  lemma ServedOk(q: seq<Request>, limit: nat)
    requires QueueOk(q, limit) && q != []
    ensures QueueOk(q[1..], limit)
  {
    forall i: nat, j: nat | NextOfRow(q[1..], i, j) ensures NextOfRow(q, i + 1, j + 1) {
      forall k | i + 1 < k < j + 1 ensures q[k].row != q[i + 1].row { assert q[k] == q[1..][k - 1]; }
    }
  }

  // With closed pages the row is left open after serving the head only if the next request in
  // the list wants it.
  lemma LeftOpenIsWanted(q: seq<Request>, limit: nat)
    requires QueueOk(q, limit) && |q| > 1 && q[1].rowHitSeq != 0
    ensures q[1].row == q[0].row
  {
  }

  // ----- Fairness -----

  predicate LastOfRow(q: seq<Request>, j: nat)
    requires j < |q|
  {
    forall k | j < k < |q| :: q[k].row != q[j].row
  }

  // How many later arrivals may still be put right behind request j because of its row.
  ghost function Share(q: seq<Request>, j: nat, limit: nat): nat
    requires j < |q|
  {
    if LastOfRow(q, j) && q[j].rowHitSeq <= limit then limit - q[j].rowHitSeq else 0
  }

  // How many later arrivals may still be put in front of position i: for every row whose last
  // request stands before i, what is left of its row-hit numbers.
  ghost function Budget(q: seq<Request>, i: nat, limit: nat): nat
    requires i <= |q|
  {
    if i == 0 then 0 else Budget(q, i - 1, limit) + Share(q, i - 1, limit)
  }

  ghost function Rows(q: seq<Request>, i: nat): set<nat>
    requires i <= |q|
  {
    set j | 0 <= j < i :: q[j].row
  }

  ghost function LastRows(q: seq<Request>, i: nat): set<nat>
    requires i <= |q|
  {
    set j | 0 <= j < i && LastOfRow(q, j) :: q[j].row
  }

  lemma LastRowsStep(q: seq<Request>, i: nat)
    requires 0 < i <= |q|
    ensures |LastRows(q, i)| == |LastRows(q, i - 1)| + (if LastOfRow(q, i - 1) then 1 else 0)
  {
    if LastOfRow(q, i - 1) {
      assert LastRows(q, i) == LastRows(q, i - 1) + {q[i - 1].row};
      assert q[i - 1].row !in LastRows(q, i - 1);
    } else {
      assert LastRows(q, i) == LastRows(q, i - 1);
    }
  }

  lemma {:induction false} BudgetByRows(q: seq<Request>, i: nat, limit: nat)
    requires i <= |q|
    ensures Budget(q, i, limit) <= limit * |LastRows(q, i)|
    decreases i
  {
    if i > 0 {
      BudgetByRows(q, i - 1, limit);
      LastRowsStep(q, i);
      var c := |LastRows(q, i - 1)|;
      assert limit * (c + 1) == limit * c + limit;
    }
  }

  // At most rowHitLimit per distinct row standing ahead.
  lemma BudgetBound(q: seq<Request>, i: nat, limit: nat)
    requires i <= |q|
    ensures Budget(q, i, limit) <= limit * |Rows(q, i)|
  {
    BudgetByRows(q, i, limit);
    var c, d := |LastRows(q, i)|, |Rows(q, i)|;
    assert Rows(q, i) == LastRows(q, i) + (Rows(q, i) - LastRows(q, i));
    MulMono(limit, c, d);
  }

  // An arrival that does not overtake position i leaves its budget or shrinks it.
  lemma {:induction false} BehindBudget(q: seq<Request>, n: seq<Request>, pos: nat, r: Request, i: nat, limit: nat)
    requires i <= pos <= |q| && n == InsertAt(q, pos, r)
    ensures Budget(n, i, limit) <= Budget(q, i, limit)
    decreases i
  {
    if i > 0 {
      BehindBudget(q, n, pos, r, i - 1, limit);
      if LastOfRow(n, i - 1) {
        forall k | i - 1 < k < |q| ensures q[k].row != q[i - 1].row {
          assert q[k] == if k < pos then n[k] else n[k + 1];
        }
      }
    }
  }

  // r has been put right behind the last request of its row.
  ghost predicate Follows(q: seq<Request>, n: seq<Request>, m: nat, r: Request, limit: nat) {
    && m < |q| && LastSameRow(q, r.row) == m && n == InsertAt(q, m + 1, r)
    && q[m].rowHitSeq < limit && r.rowHitSeq == q[m].rowHitSeq + 1
  }

  lemma FollowShare(q: seq<Request>, n: seq<Request>, m: nat, r: Request, j: nat, limit: nat)
    requires Follows(q, n, m, r, limit) && j < |q|
    ensures j < m ==> Share(n, j, limit) == Share(q, j, limit)
    ensures Share(n, m, limit) == 0 && Share(q, m, limit) == limit - q[m].rowHitSeq
    ensures Share(n, m + 1, limit) == limit - q[m].rowHitSeq - 1
    ensures j > m ==> Share(n, j + 1, limit) == Share(q, j, limit)
  {
    assert n[m + 1] == r;
    if j < m {
      SameLast(q, n, m, r, j);
    }
    if j > m {
      assert n[j + 1] == q[j];
      assert LastOfRow(n, j + 1) <==> LastOfRow(q, j) by {
        forall k | j < k < |q| ensures n[k + 1] == q[k] {}
        if LastOfRow(q, j) {
          forall k | j + 1 < k < |n| ensures n[k].row != n[j + 1].row { assert n[k] == q[k - 1]; }
        }
      }
    }
  }

  lemma SameLast(q: seq<Request>, n: seq<Request>, m: nat, r: Request, j: nat)
    requires m < |q| && n == InsertAt(q, m + 1, r) && j < m && q[m].row == r.row
    ensures LastOfRow(n, j) <==> LastOfRow(q, j)
  {
    if LastOfRow(n, j) {
      forall k | j < k < |q| ensures q[k].row != q[j].row {
        assert q[k] == if k <= m then n[k] else n[k + 1];
      }
    }
    if LastOfRow(q, j) {
      forall k | j < k < |n| ensures n[k].row != n[j].row {
        assert n[k] == if k <= m then q[k] else if k == m + 1 then r else q[k - 1];
      }
    }
  }

  // An arrival that overtakes position i costs one unit of its budget.
  lemma {:induction false} OvertakeBudget(q: seq<Request>, n: seq<Request>, m: nat, r: Request, i: nat, limit: nat)
    requires Follows(q, n, m, r, limit) && i <= |q|
    ensures i <= m ==> Budget(n, i, limit) == Budget(q, i, limit)
    ensures i > m ==> Budget(n, i + 1, limit) + 1 == Budget(q, i, limit)
    decreases i
  {
    if i > 0 {
      OvertakeBudget(q, n, m, r, i - 1, limit);
      FollowShare(q, n, m, r, i - 1, limit);
      if i == m + 1 {
        assert Budget(n, m + 1, limit) == Budget(n, m, limit) + Share(n, m, limit);
      }
    }
  }

  lemma {:induction false} ServeBudget(q: seq<Request>, i: nat, limit: nat)
    requires q != [] && i < |q|
    ensures Budget(q[1..], i, limit) + Share(q, 0, limit) == Budget(q, i + 1, limit)
    decreases i
  {
    if i > 0 {
      ServeBudget(q, i - 1, limit);
      assert LastOfRow(q[1..], i - 1) <==> LastOfRow(q, i) by {
        if LastOfRow(q[1..], i - 1) {
          forall k | i < k < |q| ensures q[k].row != q[i].row { assert q[k] == q[1..][k - 1]; }
        }
      }
    } else {
      assert Budget(q, 0, limit) == 0;
    }
  }

  // ----- Following one request through any number of arrivals and services -----

  datatype Event = Enter(r: Request, o: OpenRow) | Depart

  // How often the request at position i is overtaken before it is served, or the events end.
  ghost function Overtakes(q: seq<Request>, i: nat, es: seq<Event>, limit: nat): nat
    requires i < |q|
    decreases |es|
  {
    if es == [] then 0
    else match es[0]
      case Depart => if i == 0 then 0 else Overtakes(q[1..], i - 1, es[1..], limit)
      case Enter(r, o) =>
        var pos := Place(q, r.row, o, limit).0;
        if pos <= i then 1 + Overtakes(Queued(q, r, o, limit), i + 1, es[1..], limit)
        else Overtakes(Queued(q, r, o, limit), i, es[1..], limit)
  }

  lemma {:induction false} OvertakesWithinBudget(q: seq<Request>, i: nat, es: seq<Event>, limit: nat)
    requires i < |q|
    ensures Overtakes(q, i, es, limit) <= Budget(q, i, limit)
    decreases |es|
  {
    hide Budget, Share, InsertAt;
    if es != [] {
      match es[0]
      case Depart =>
        if i > 0 {
          ServeBudget(q, i - 1, limit);
          OvertakesWithinBudget(q[1..], i - 1, es[1..], limit);
        }
      case Enter(r, o) =>
        var (pos, hit) := Place(q, r.row, o, limit);
        var n := Queued(q, r, o, limit);
        if pos <= i {
          OvertakeBudget(q, n, pos - 1, r.(rowHitSeq := hit), i, limit);
          OvertakesWithinBudget(n, i + 1, es[1..], limit);
        } else {
          BehindBudget(q, n, pos, r.(rowHitSeq := hit), i, limit);
          OvertakesWithinBudget(n, i, es[1..], limit);
        }
    }
  }

  // Fairness: a request is overtaken at most rowHitLimit times per distinct row ahead of it when
  // it arrives, whatever arrives later and however long it waits.
  lemma Fairness(q: seq<Request>, r: Request, o: OpenRow, es: seq<Event>, limit: nat)
    ensures var pos := Place(q, r.row, o, limit).0;
            Overtakes(Queued(q, r, o, limit), pos, es, limit)
              <= limit * |Rows(Queued(q, r, o, limit), pos)|
  {
    var pos := Place(q, r.row, o, limit).0;
    OvertakesWithinBudget(Queued(q, r, o, limit), pos, es, limit);
    BudgetBound(Queued(q, r, o, limit), pos, limit);
  }
}
