/** Round-robin fairness of the wrapping counter. */
module RoundRobin {
  import opened Wrappers
  import opened Structs
  import opened GetHosts

  /** The positions that `m` successive increments pick from a list of `n`, starting at counter `c`. */
  function Picks(c: usize, n: nat, m: nat): (positions: seq<nat>)
    requires n > 0
    ensures |positions| == m
    decreases m
  {
    if m == 0 then [] else [c % n] + Picks(FetchAdd(c), n, m - 1)
  }

  function Count(positions: seq<nat>, k: nat): nat {
    if positions == [] then 0 else (if positions[0] == k then 1 else 0) + Count(positions[1..], k)
  }

  lemma {:induction false} CountIsMultiplicity(positions: seq<nat>, k: nat)
    ensures Count(positions, k) == multiset(positions)[k]
  {
    if positions == [] {
    } else {
      CountIsMultiplicity(positions[1..], k);
      assert positions == [positions[0]] + positions[1..];
    }
  }

  lemma {:induction false} CountOfConcat(a: seq<nat>, b: seq<nat>, k: nat)
    ensures Count(a + b, k) == Count(a, k) + Count(b, k)
  {
    if a == [] {
      assert a + b == b;
    } else {
      assert (a + b)[1..] == a[1..] + b;
      CountOfConcat(a[1..], b, k);
    }
  }

  // ----- without a wrap -----

  /** How many numbers below `x` leave remainder `k`. */
  function Below(x: nat, n: nat, k: nat): nat
    requires k < n
  {
    if x == 0 then 0 else Below(x - 1, n, k) + if (x - 1) % n == k then 1 else 0
  }

  lemma {:induction false} Multiples(a: nat, b: nat, n: nat)
    requires a < b
    ensures b * n >= a * n + n
    decreases b
  {
    if a + 1 < b {
      Multiples(a, b - 1, n);
      assert b * n == (b - 1) * n + n;
    } else {
      assert b * n == a * n + n;
    }
  }

  lemma DivModUnique(x: nat, n: nat, q: nat, r: nat)
    requires n > 0 && r < n && x == q * n + r
    ensures x / n == q && x % n == r
  {
    var q' := x / n;
    assert x == q' * n + x % n;
    if q < q' {
      Multiples(q, q', n);
    } else if q' < q {
      Multiples(q', q, n);
    }
  }

  /** Among `q` full rounds and `r` more numbers, remainder `k` occurs once a round and perhaps once more. */
  lemma {:induction false} BelowInRounds(q: nat, r: nat, n: nat, k: nat)
    requires k < n && r < n
    ensures Below(q * n + r, n, k) == q + if r > k then 1 else 0
    decreases q, r
  {
    if q == 0 && r == 0 {
    } else if r > 0 {
      BelowInRounds(q, r - 1, n, k);
      DivModUnique(q * n + (r - 1), n, q, r - 1);
    } else {
      BelowInRounds(q - 1, n - 1, n, k);
      assert q * n - 1 == (q - 1) * n + (n - 1);
      DivModUnique(q * n - 1, n, q - 1, n - 1);
    }
  }

  lemma {:induction false} CountIsDifference(c: usize, n: nat, m: nat, k: nat)
    requires k < n
    requires c + m <= USIZE_RANGE
    ensures Count(Picks(c, n, m), k) == Below(c + m, n, k) - Below(c, n, k)
    decreases m
  {
    if m == 0 {
    } else {
      var rest := Picks(FetchAdd(c), n, m - 1);
      assert Picks(c, n, m)[1..] == rest;
      if m == 1 {
        assert rest == [];
      } else {
        assert FetchAdd(c) == c + 1;
        CountIsDifference(c + 1, n, m - 1, k);
      }
    }
  }

  lemma DifferenceInRounds(q: nat, r: nat, u: nat, v: nat, n: nat, k: nat)
    requires k < n && r < n && v < n
    ensures var d := Below(q * n + r + (u * n + v), n, k) - Below(q * n + r, n, k);
      d == u || (d == u + 1 && v != 0)
  {
    BelowInRounds(q, r, n, k);
    SumOfProducts(q, r, u, v, n);
    if r + v < n {
      BelowInRounds(q + u, r + v, n, k);
    } else {
      BelowInRounds(q + u + 1, r + v - n, n, k);
    }
  }

  lemma SumOfProducts(q: nat, r: nat, u: nat, v: nat, n: nat)
    ensures q * n + r + (u * n + v) == (q + u) * n + (r + v)
    ensures q * n + r + (u * n + v) == (q + u + 1) * n + (r + v - n)
  {
    assert (q + u) * n == q * n + u * n;
    assert (q + u + 1) * n == (q + u) * n + n;
  }

  lemma Divide(x: nat, n: nat) returns (q: nat, r: nat)
    requires n > 0
    ensures x == q * n + r && r < n && q == x / n && r == x % n
  {
    q, r := x / n, x % n;
  }

  /** `count` of `m` picks among `n` is a fair share: `m / n`, rounded down or up. */
  predicate FairShare(count: nat, m: nat, n: nat)
    requires n > 0
  {
    count == m / n || (count == m / n + 1 && m % n != 0)
  }

  /** Without a counter wrap every position is picked its fair share of times. */
  lemma FairWithoutWrap(c: usize, n: nat, m: nat, k: nat)
    requires k < n
    requires c + m <= USIZE_RANGE
    ensures FairShare(Count(Picks(c, n, m), k), m, n)
  {
    CountIsDifference(c, n, m, k);
    var q, r := Divide(c, n);
    var u, v := Divide(m, n);
    DifferenceInRounds(q, r, u, v, n, k);
  }

  // ----- with a wrap -----

  /** The counter after `a` increments. */
  function Advance(c: usize, a: nat): usize
    decreases a
  {
    if a == 0 then c else Advance(FetchAdd(c), a - 1)
  }

  lemma NextTicket(c: usize)
    ensures FetchAdd(c) == if c + 1 == USIZE_RANGE then 0 else c + 1
  {
  }

  lemma {:induction false} AdvanceToWrap(c: usize, a: nat)
    requires a > 0 && c + a == USIZE_RANGE
    ensures Advance(c, a) == 0
    decreases a
  {
    hide FetchAdd;
    NextTicket(c);
    if a > 1 {
      AdvanceToWrap(c + 1, a - 1);
    } else {
      assert Advance(c, 1) == Advance(FetchAdd(c), 0) == 0;
    }
  }

  lemma {:induction false} PicksSplit(c: usize, n: nat, a: nat, b: nat)
    requires n > 0
    ensures Picks(c, n, a + b) == Picks(c, n, a) + Picks(Advance(c, a), n, b)
    decreases a
  {
    if a == 0 {
    } else {
      PicksSplit(FetchAdd(c), n, a - 1, b);
      assert Picks(c, n, a + b) == Picks(c, n, 1 + (a - 1 + b)) == Picks(c, n, a)[..1] + Picks(FetchAdd(c), n, a - 1 + b);
    }
  }

  predicate WithinTwo(a: nat, b: nat) {
    a <= b + 2 && b <= a + 2
  }

  /** For as many picks as the counter has values, wrapping once, two positions differ by two picks at most. */
  lemma FairAcrossWrap(c: usize, n: nat, m: nat, k: nat, j: nat)
    requires k < n && j < n
    requires m <= USIZE_RANGE
    ensures WithinTwo(Count(Picks(c, n, m), k), Count(Picks(c, n, m), j))
  {
    if c + m <= USIZE_RANGE {
      FairWithoutWrap(c, n, m, k);
      FairWithoutWrap(c, n, m, j);
    } else {
      var a := USIZE_RANGE - c;
      PicksSplit(c, n, a, m - a);
      AdvanceToWrap(c, a);
      var front, back := Picks(c, n, a), Picks(0, n, m - a);
      CountOfConcat(front, back, k);
      CountOfConcat(front, back, j);
      FairWithoutWrap(c, n, a, k);
      FairWithoutWrap(c, n, a, j);
      FairWithoutWrap(0, n, m - a, k);
      FairWithoutWrap(0, n, m - a, j);
    }
  }

  // ----- over request sequences -----

  datatype Request = Request(peer: string, path: string, backendId: Option<string>)

  /** The list at (peer, c) serves the request, and no sticky record of it does: it takes its turn there. */
  ghost predicate Counts(t: Table, ids: map<string, InnerMap>, r: Request, peer: string, c: string) {
    && r.peer == peer && peer in t
    && ServesPath(t[peer], r.path, c)
    && !HasStickyRecord(ids, t[peer][c].servers, r.backendId)
  }

  /** The servers handed out by counter from the list at (peer, c), in the order of the increments. */
  ghost function Handed(t: Table, ids: map<string, InnerMap>, requests: seq<Request>, peer: string, c: string): seq<InnerMap> {
    if requests == [] then []
    else
      var r := requests[0];
      var routed := Route(t, ids, r.peer, r.path, r.backendId);
      (if Counts(t, ids, r, peer, c) && routed.backend.Some? then [routed.backend.value] else [])
      + Handed(routed.table, ids, requests[1..], peer, c)
  }

  /** Where the counter of that list stands, modulo its length, when each of these requests takes its ticket. */
  ghost function Positions(t: Table, ids: map<string, InnerMap>, requests: seq<Request>, peer: string, c: string): seq<nat> {
    if requests == [] then []
    else
      var r := requests[0];
      var rest := Positions(Route(t, ids, r.peer, r.path, r.backendId).table, ids, requests[1..], peer, c);
      if Counts(t, ids, r, peer, c) && t[peer][c].servers != [] then [t[peer][c].index % |t[peer][c].servers|] + rest else rest
  }

  /** Routing moves no list, and of one list's counter at most by a request that counts, which gets the server it points at. */
  lemma RouteMovesOneCounter(t: Table, ids: map<string, InnerMap>, r: Request, peer: string, c: string)
    requires peer in t && c in t[peer]
    ensures var (list, routed) := (t[peer][c], Route(t, ids, r.peer, r.path, r.backendId));
      && peer in routed.table && c in routed.table[peer]
      && (Counts(t, ids, r, peer, c) ==>
            && list.servers != []
            && routed.table[peer][c] == list.(index := FetchAdd(list.index))
            && routed.backend == Some(list.servers[list.index % |list.servers|]))
      && (!Counts(t, ids, r, peer, c) ==> routed.table[peer][c] == list)
  {
    if r.peer == peer {
      hide ServesPath;
      SelectMeans(t[peer], r.path);
    }
  }

  /** The positions are successive ones, and the servers are those at these positions. */
  ghost predicate InTurn(list: ServerList, positions: seq<nat>, handed: seq<InnerMap>) {
    && list.servers != []
    && positions == Picks(list.index, |list.servers|, |positions|)
    && |handed| == |positions|
    && forall i | 0 <= i < |handed| :: positions[i] < |list.servers| && handed[i] == list.servers[positions[i]]
  }

  lemma OneMoreInTurn(list: ServerList, positions: seq<nat>, later: seq<InnerMap>)
    requires list.servers != []
    requires InTurn(list.(index := FetchAdd(list.index)), positions, later)
    ensures var position := list.index % |list.servers|;
      InTurn(list, [position] + positions, [list.servers[position]] + later)
  {
  }

  /** Whatever other requests run in between, to other lists or by sticky id, a list hands out its servers in turn. */
  lemma {:induction false} HandedInTurn(t: Table, ids: map<string, InnerMap>, requests: seq<Request>, peer: string, c: string)
    requires peer in t && c in t[peer] && t[peer][c].servers != []
    ensures InTurn(t[peer][c], Positions(t, ids, requests, peer, c), Handed(t, ids, requests, peer, c))
    decreases |requests|
  {
    if requests == [] {
    } else {
      var r := requests[0];
      var u := Route(t, ids, r.peer, r.path, r.backendId).table;
      var list := t[peer][c];
      hide Route, Counts, Picks;
      RouteMovesOneCounter(t, ids, r, peer, c);
      HandedInTurn(u, ids, requests[1..], peer, c);
      var positions, later := Positions(u, ids, requests[1..], peer, c), Handed(u, ids, requests[1..], peer, c);
      if Counts(t, ids, r, peer, c) {
        OneMoreInTurn(list, positions, later);
      } else {
        assert u[peer][c] == list;
        assert Handed(t, ids, requests, peer, c) == later;
      }
    }
  }

  /**
   What a list hands out by counter, in any run of requests from any counter value, is fair: every position is served its
   fair share if the counter does not wrap, and across a wrap two positions are served within two of each other.
   */
  lemma ServedFairly(t: Table, ids: map<string, InnerMap>, requests: seq<Request>, peer: string, c: string, k: nat, j: nat)
    requires peer in t && c in t[peer] && k < |t[peer][c].servers| && j < |t[peer][c].servers|
    ensures var (list, positions) := (t[peer][c], Positions(t, ids, requests, peer, c));
      var m := |positions|;
      && InTurn(list, positions, Handed(t, ids, requests, peer, c))
      && (list.index + m <= USIZE_RANGE ==> FairShare(Count(positions, k), m, |list.servers|))
      && (m <= USIZE_RANGE ==> WithinTwo(Count(positions, k), Count(positions, j)))
  {
    HandedInTurn(t, ids, requests, peer, c);
    var list, m := t[peer][c], |Positions(t, ids, requests, peer, c)|;
    if list.index + m <= USIZE_RANGE {
      FairWithoutWrap(list.index, |list.servers|, m, k);
    }
    if m <= USIZE_RANGE {
      FairAcrossWrap(list.index, |list.servers|, m, k, j);
    }
  }

  /**
   Fairness for concurrent workers: the requests are listed in the order of their atomic increments, but `finished`
   lists the positions they took in any other order, say that of their completion.
   */
  lemma FairInAnyOrder(t: Table, ids: map<string, InnerMap>, requests: seq<Request>, peer: string, c: string,
                       finished: seq<nat>, k: nat, j: nat)
    requires peer in t && c in t[peer] && k < |t[peer][c].servers| && j < |t[peer][c].servers|
    requires multiset(finished) == multiset(Positions(t, ids, requests, peer, c))
    ensures var (list, count, m) := (t[peer][c], multiset(finished), |finished|);
      && (list.index + m <= USIZE_RANGE ==> FairShare(count[k], m, |list.servers|))
      && (m <= USIZE_RANGE ==> WithinTwo(count[k], count[j]))
  {
    var positions := Positions(t, ids, requests, peer, c);
    assert |finished| == |multiset(finished)| == |multiset(positions)| == |positions|;
    ServedFairly(t, ids, requests, peer, c, k, j);
    CountIsMultiplicity(positions, k);
    CountIsMultiplicity(positions, j);
  }
}
