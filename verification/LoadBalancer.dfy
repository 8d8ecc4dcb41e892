/** Round-robin selection of backends while health checks add and remove entries
    (src/app/load_balancer.cpp). `Balancer` holds the three fields of the C++ class as a value;
    the class below updates them in place and is proved against `Step` and `Answer`. */
module LoadBalancing {
  import opened Wrappers

  /** An InetAddress, by its toIpPort() text: that is what its operators compare. */
  type Address = string

  datatype Balancer = Balancer(all: set<Address>, healthy: seq<Address>, next: nat)

  datatype Event =
    | AddBackend(addr: Address)
    | RemoveBackend(addr: Address)
    | UpdateHealth(addr: Address, up: bool)
    | GetNext

  ghost predicate Distinct(s: seq<Address>) {
    forall i, j :: 0 <= i < j < |s| ==> s[i] != s[j]
  }

  /** What every operation keeps: no backend is listed twice, and next_index_ can be dereferenced
      whenever the list is not empty. */
  ghost predicate Valid(b: Balancer) {
    && Distinct(b.healthy)
    && (if b.healthy == [] then b.next == 0 else b.next < |b.healthy|)
  }

  /** std::find: the first position of `a`, or the length when absent. */
  function IndexOf(s: seq<Address>, a: Address): (i: nat)
    ensures i <= |s|
    ensures i < |s| ==> s[i] == a
    ensures i == |s| <==> a !in s
  {
    if s == [] || s[0] == a then 0 else 1 + IndexOf(s[1..], a)
  }

  /** The erase-remove idiom: all elements different from `a`, in order. */
  function Without(s: seq<Address>, a: Address): seq<Address>
  {
    if s == [] then []
    else if s[0] == a then Without(s[1..], a)
    else [s[0]] + Without(s[1..], a)
  }

  function EraseAt(s: seq<Address>, i: nat): seq<Address>
    requires i < |s|
  {
    s[..i] + s[i + 1..]
  }

  lemma ErasedStaysDistinct(s: seq<Address>, i: nat)
    requires Distinct(s) && i < |s|
    ensures Distinct(EraseAt(s, i)) && s[i] !in EraseAt(s, i)
  {
    var t := EraseAt(s, i);
    forall j | 0 <= j < |t|
      ensures t[j] == s[if j < i then j else j + 1]
    {
    }
  }

  function Answer(b: Balancer): Option<Address>
    requires Valid(b)
  {
    if b.healthy == [] then None else Some(b.healthy[b.next])
  }

  /** One operation. Adding, removing and health updates, in any order, keep the list and the
      cursor sound. */
  function Step(b: Balancer, e: Event): (b': Balancer)
    requires Valid(b)
    ensures Valid(b')
  {
    match e
    case AddBackend(a) => b.(all := b.all + {a})
    case RemoveBackend(a) =>
      WithoutIsErase(b.healthy, a);
      assert a in b.healthy ==> Distinct(EraseAt(b.healthy, IndexOf(b.healthy, a))) by {
        if a in b.healthy { ErasedStaysDistinct(b.healthy, IndexOf(b.healthy, a)); }
      }
      var h := Without(b.healthy, a);
      Balancer(b.all - {a}, h, if b.next >= |h| && h != [] then 0 else b.next)
    case UpdateHealth(a, up) =>
      var i := IndexOf(b.healthy, a);
      if up then
        if i == |b.healthy| then b.(healthy := b.healthy + [a]) else b
      else if i == |b.healthy| then b
      else
        ErasedStaysDistinct(b.healthy, i);
        var h := EraseAt(b.healthy, i);
        b.(healthy := h, next := if b.next >= |h| then 0 else b.next)
    case GetNext =>
      if b.healthy == [] then b else b.(next := Advance(b.next, |b.healthy|))
  }

  /** The cursor's successor, wrapping at the end of the list. */
  function Advance(i: nat, n: nat): (r: nat)
    requires i < n
    ensures r == if i + 1 == n then 0 else i + 1
  {
    (i + 1) % n
  }

  lemma {:induction false} WithoutIsErase(s: seq<Address>, a: Address)
    requires Distinct(s)
    ensures a !in s ==> Without(s, a) == s
    ensures a in s ==> Without(s, a) == EraseAt(s, IndexOf(s, a))
  {
    if s != [] {
      var t := s[1..];
      assert Distinct(t);
      WithoutIsErase(t, a);
      if s[0] == a {
        assert a !in t;
        assert EraseAt(s, 0) == t;
      } else if a in t {
        assert EraseAt(s, 1 + IndexOf(t, a)) == [s[0]] + EraseAt(t, IndexOf(t, a));
      } else {
        assert a !in s by {
          assert s == [s[0]] + t;
        }
        assert [s[0]] + t == s;
      }
    }
  }

  lemma PositionIsUnique(s: seq<Address>, a: Address, i: nat)
    requires Distinct(s) && i < |s| && s[i] == a
    ensures IndexOf(s, a) == i
  {
  }

  // ---- Runs ----

  /** The answers of the getNextBackend calls of a run, oldest first. */
  function Picks(b: Balancer, es: seq<Event>): seq<Option<Address>>
    requires Valid(b)
    decreases |es|
  {
    if es == [] then []
    else
      (if es[0].GetNext? then [Answer(b)] else []) + Picks(Step(b, es[0]), es[1..])
  }

  /** How many events of the run lengthen the healthy list. */
  function Additions(b: Balancer, es: seq<Event>): nat
    requires Valid(b)
    decreases |es|
  {
    if es == [] then 0
    else
      (if |Step(b, es[0]).healthy| > |b.healthy| then 1 else 0) + Additions(Step(b, es[0]), es[1..])
  }

  /** How many events of the run shorten the healthy list. */
  function Removals(b: Balancer, es: seq<Event>): nat
    requires Valid(b)
    decreases |es|
  {
    if es == [] then 0
    else
      (if |Step(b, es[0]).healthy| < |b.healthy| then 1 else 0) + Removals(Step(b, es[0]), es[1..])
  }

  /** `a` is healthy, and at most `n` backends are, in every state of the run. */
  ghost predicate HealthyThroughout(b: Balancer, es: seq<Event>, a: Address, n: nat)
    requires Valid(b)
    decreases |es|
  {
    && a in b.healthy
    && |b.healthy| <= n
    && (es != [] ==> HealthyThroughout(Step(b, es[0]), es[1..], a, n))
  }

  // ---- Bounded waiting ----

  /** How many picks go to other backends before `a` is next, if nothing else happens. */
  function Wait(b: Balancer, a: Address): (w: nat)
    requires Valid(b) && a in b.healthy
    ensures w < |b.healthy|
  {
    var p := IndexOf(b.healthy, a);
    if p >= b.next then p - b.next else p + |b.healthy| - b.next
  }

  lemma WaitAfterPick(b: Balancer, a: Address)
    requires Valid(b) && a in b.healthy
    ensures Answer(b) == Some(a) <==> Wait(b, a) == 0
    ensures Wait(Step(b, GetNext), a) == if Wait(b, a) == 0 then |b.healthy| - 1 else Wait(b, a) - 1
  {
    var p := IndexOf(b.healthy, a);
    if b.healthy[b.next] == a {
      PositionIsUnique(b.healthy, a, b.next);
    }
  }

  /** One erased entry never pushes `a` back, except when `a` was itself next and the erased entry
      lay before it: then the cursor, which is not moved, skips over `a` for a whole turn. */
  lemma WaitAfterErase(b: Balancer, i: nat, b': Balancer, a: Address)
    requires Valid(b) && i < |b.healthy| && a in b.healthy && b.healthy[i] != a
    requires b'.healthy == EraseAt(b.healthy, i)
    requires b'.next == if b.next >= |b.healthy| - 1 then 0 else b.next
    ensures Valid(b') && a in b'.healthy
    ensures Wait(b', a) <= Wait(b, a) || (Wait(b, a) == 0 && i < b.next && Wait(b', a) == |b'.healthy| - 1)
  {
    var p := IndexOf(b.healthy, a);
    var p' := if p > i then p - 1 else p;
    assert b'.healthy[p'] == a;
    PositionIsUnique(b'.healthy, a, p');
  }

  lemma WaitAfterAppend(b: Balancer, x: Address, b': Balancer, a: Address)
    requires Valid(b) && a in b.healthy && x !in b.healthy
    requires b'.healthy == b.healthy + [x] && b'.next == b.next
    ensures Valid(b') && Wait(b', a) <= Wait(b, a) + 1
  {
    var p := IndexOf(b.healthy, a);
    assert b'.healthy[p] == a;
    PositionIsUnique(b'.healthy, a, p);
  }

  /** What one event may add to the wait: an addition one turn, a removal n - 2. */
  function Charge(b: Balancer, e: Event, n: nat): int
    requires Valid(b)
  {
    var b' := Step(b, e);
    if |b'.healthy| > |b.healthy| then 1 else if |b'.healthy| < |b.healthy| then n - 2 else 0
  }

  function Charges(b: Balancer, es: seq<Event>, n: nat): int
    requires Valid(b)
    decreases |es|
  {
    if es == [] then 0 else Charge(b, es[0], n) + Charges(Step(b, es[0]), es[1..], n)
  }

  lemma {:induction false} ChargesAre(b: Balancer, es: seq<Event>, n: nat)
    requires Valid(b)
    ensures Charges(b, es, n) == Additions(b, es) + Removals(b, es) * (n - 2)
    decreases |es|
  {
    if es != [] {
      var b' := Step(b, es[0]);
      ChargesAre(b', es[1..], n);
      if |b'.healthy| < |b.healthy| {
        OneMoreTimes(Removals(b', es[1..]), n - 2);
      } else {
        assert Removals(b, es) == Removals(b', es[1..]);
      }
    }
  }

  /** Either removal erases the entry, and the cursor moves only when it would be out of range. */
  lemma RemovalIs(b: Balancer, e: Event, x: Address)
    requires Valid(b) && x in b.healthy && (e == RemoveBackend(x) || e == UpdateHealth(x, false))
    ensures var b' := Step(b, e);
      && b'.healthy == EraseAt(b.healthy, IndexOf(b.healthy, x)) && |b'.healthy| == |b.healthy| - 1
      && b'.next == if b.next >= |b.healthy| - 1 then 0 else b.next
  {
    WithoutIsErase(b.healthy, x);
    ErasedIsShorter(b.healthy, IndexOf(b.healthy, x));
  }

  lemma ErasedIsShorter(s: seq<Address>, i: nat)
    requires i < |s|
    ensures |EraseAt(s, i)| == |s| - 1
  {}

  lemma WaitAfterRemoval(b: Balancer, e: Event, x: Address, a: Address, n: nat)
    requires Valid(b) && a in b.healthy && a in Step(b, e).healthy && |b.healthy| <= n
    requires x in b.healthy && (e == RemoveBackend(x) || e == UpdateHealth(x, false))
    ensures Wait(Step(b, e), a) <= Wait(b, a) + n - 2 && |Step(b, e).healthy| < |b.healthy|
  {
    RemovalIs(b, e, x);
    ErasedStaysDistinct(b.healthy, IndexOf(b.healthy, x));
    WaitAfterErase(b, IndexOf(b.healthy, x), Step(b, e), a);
  }

  lemma WaitAfterStep(b: Balancer, e: Event, a: Address, n: nat)
    requires Valid(b) && a in b.healthy && a in Step(b, e).healthy && |b.healthy| <= n
    requires !(e.GetNext? && Answer(b) == Some(a))
    ensures Wait(Step(b, e), a) + (if e.GetNext? then 1 else 0) <= Wait(b, a) + Charge(b, e, n)
  {
    match e
    case AddBackend(_) =>
    case GetNext => WaitAfterPick(b, a);
    case RemoveBackend(x) =>
      if x in b.healthy {
        WaitAfterRemoval(b, e, x, a, n);
      } else {
        WithoutIsErase(b.healthy, x);
      }
    case UpdateHealth(x, up) =>
      if up && x !in b.healthy {
        WaitAfterAppend(b, x, Step(b, e), a);
      } else if !up && x in b.healthy {
        WaitAfterRemoval(b, e, x, a, n);
      }
  }

  lemma OneMoreTimes(r: int, m: int)
    ensures (r + 1) * m == r * m + m
  {}

  lemma {:induction false} WaitOverRun(b: Balancer, es: seq<Event>, a: Address, n: nat)
    requires Valid(b) && HealthyThroughout(b, es, a, n)
    requires Some(a) !in Picks(b, es)
    ensures |Picks(b, es)| <= Wait(b, a) + Charges(b, es, n)
    decreases |es|
  {
    if es != [] {
      var b' := Step(b, es[0]);
      WaitAfterStep(b, es[0], a, n);
      WaitOverRun(b', es[1..], a, n);
    }
  }

  /** Nobody starves: a backend that stays healthy while at most `n` are, with A additions and R
      removals around it, is chosen within (n - 1) + A + R * (n - 2) + 1 calls of getNextBackend. */
  lemma BoundedWait(b: Balancer, es: seq<Event>, a: Address, n: nat)
    requires Valid(b) && HealthyThroughout(b, es, a, n)
    requires |Picks(b, es)| > n - 1 + Additions(b, es) + Removals(b, es) * (n - 2)
    ensures Some(a) in Picks(b, es)
  {
    if Some(a) !in Picks(b, es) {
      WaitOverRun(b, es, a, n);
      ChargesAre(b, es, n);
    }
  }

  // ---- The order of service ----

  /** The healthy backends in the order in which they would be chosen if nothing changed. */
  function Order(b: Balancer): (o: seq<Address>)
    requires Valid(b)
    ensures |o| == |b.healthy|
  {
    b.healthy[b.next..] + b.healthy[..b.next]
  }

  function Rotated(s: seq<Address>): seq<Address> {
    if s == [] then [] else s[1..] + [s[0]]
  }

  /** The order says who is chosen, and a call moves the one chosen to its end. */
  lemma PickRotates(b: Balancer)
    requires Valid(b)
    ensures Answer(b) == (if Order(b) == [] then None else Some(Order(b)[0]))
    ensures Order(Step(b, GetNext)) == Rotated(Order(b))
  {
    if b.healthy != [] {
      assert b.healthy[b.next..] == [b.healthy[b.next]] + b.healthy[b.next + 1..];
      if b.next + 1 < |b.healthy| {
        assert b.healthy[..b.next + 1] == b.healthy[..b.next] + [b.healthy[b.next]];
      }
    }
  }

  /** A backend that comes up is served just before the list wraps around, which is last exactly when the
      cursor is at the head of the list. */
  lemma UpJoinsTheOrder(b: Balancer, a: Address)
    requires Valid(b) && a !in b.healthy
    ensures Order(Step(b, UpdateHealth(a, true))) == b.healthy[b.next..] + [a] + b.healthy[..b.next]
  {
    var b' := Step(b, UpdateHealth(a, true));
    assert b'.healthy[b.next..] == b.healthy[b.next..] + [a] && b'.healthy[..b.next] == b.healthy[..b.next];
  }

  /** Nothing else changes who is served next. */
  lemma OtherwiseTheOrderStays(b: Balancer, e: Event)
    requires Valid(b)
    requires match e
             case AddBackend(_) => true
             case RemoveBackend(a) => a !in b.healthy
             case UpdateHealth(a, up) => up == (a in b.healthy)
             case GetNext => false
    ensures Order(Step(b, e)) == Order(b) && Step(b, e).healthy == b.healthy
  {
    if e.RemoveBackend? {
      WithoutIsErase(b.healthy, e.addr);
    }
  }

  /** The backends that are left after a removal, in the order they would have been served. */
  function OrderWithout(b: Balancer, i: nat): seq<Address>
    requires Valid(b) && i < |b.healthy|
  {
    if i < b.next then b.healthy[b.next..] + (b.healthy[..i] + b.healthy[i + 1..b.next])
    else (b.healthy[b.next..i] + b.healthy[i + 1..]) + b.healthy[..b.next]
  }

  lemma OrderWithoutIs(b: Balancer, i: nat)
    requires Valid(b) && i < |b.healthy|
    ensures var k := if i < b.next then |b.healthy| - b.next + i else i - b.next;
      k < |Order(b)| && Order(b)[k] == b.healthy[i] && OrderWithout(b, i) == EraseAt(Order(b), k)
  {
    var h, n := b.healthy, b.next;
    if i < n {
      assert h[..n] == h[..i] + [h[i]] + h[i + 1..n];
    } else {
      assert h[n..] == h[n..i] + [h[i]] + h[i + 1..];
    }
  }

  /** Whichever way a healthy backend goes, the others are served in their order, but when it stood before
      the cursor in the list, the one that was to be next loses its turn and is served last. */
  lemma RemovalOrder(b: Balancer, a: Address, e: Event)
    requires Valid(b) && a in b.healthy && (e == RemoveBackend(a) || e == UpdateHealth(a, false))
    ensures var i := IndexOf(b.healthy, a);
      Order(Step(b, e)) == if i < b.next then Rotated(OrderWithout(b, i)) else OrderWithout(b, i)
  {
    var h, n, i := b.healthy, b.next, IndexOf(b.healthy, a);
    RemovalIs(b, e, a);
    if i < n {
      ErasedBefore(h, i, n);
    } else {
      ErasedAfter(h, i, n);
    }
  }

  lemma ErasedBefore(h: seq<Address>, i: nat, n: nat)
    requires i < n < |h|
    ensures var h' := EraseAt(h, i);
      var n' := if n >= |h| - 1 then 0 else n;
      h'[n'..] + h'[..n'] == Rotated(h[n..] + (h[..i] + h[i + 1..n]))
  {
    var before, x, after := h[..i] + h[i + 1..n], h[n], h[n + 1..];
    assert h[n..] == [x] + after && h[i + 1..] == h[i + 1..n] + ([x] + after);
    assert EraseAt(h, i) == before + ([x] + after);
    TurnedOnce(before, x, after);
  }

  lemma TurnedOnce(before: seq<Address>, x: Address, after: seq<Address>)
    ensures Rotated([x] + after + before) == after + (before + [x])
    ensures var s, n := before + ([x] + after), |before| + 1;
      after != [] ==> s[n..] == after && s[..n] == before + [x]
    ensures after == [] ==> after + (before + [x]) == before + ([x] + after)
  {
    assert before + ([x] + after) == before + [x] + after;
    assert ([x] + after + before)[1..] == after + before;
  }

  lemma ErasedAfter(h: seq<Address>, i: nat, n: nat)
    requires n <= i < |h|
    ensures var h' := EraseAt(h, i);
      var n' := if n >= |h| - 1 then 0 else n;
      h'[n'..] + h'[..n'] == (h[n..i] + h[i + 1..]) + h[..n]
  {
    var h' := EraseAt(h, i);
    if n >= |h| - 1 {
      assert n == i && h' == h[..n];
    } else {
      assert h'[n..] == h[n..i] + h[i + 1..];
      assert h'[..n] == h[..n];
    }
  }

  /** Which addresses the balancer knows at all. */
  lemma KnownAre(b: Balancer, e: Event)
    requires Valid(b)
    ensures forall x :: x in Step(b, e).all <==>
              (x in b.all && e != RemoveBackend(x)) || e == AddBackend(x)
  {}

  // ---- Exact fairness while nothing changes ----

  function Count(s: seq<Option<Address>>, x: Option<Address>): nat {
    if s == [] then 0 else (if s[0] == x then 1 else 0) + Count(s[1..], x)
  }

  lemma QuotientIs(x: nat, n: nat, q: nat)
    requires n > 0 && q * n <= x < q * n + n
    ensures x / n == q
  {
    var p := x / n;
    assert n * p <= x < n * p + n;
    LessByFactor(n, p, q + 1);
    LessByFactor(n, q, p + 1);
  }

  /** Nobody joins or leaves the healthy list during the run. */
  ghost predicate Quiet(b: Balancer, es: seq<Event>)
    requires Valid(b)
  {
    Additions(b, es) == 0 && Removals(b, es) == 0
  }

  /** Whatever else such a run does, adding backends, removing unhealthy ones, repeating what health
      checks said, moves neither the list nor the cursor. */
  lemma QuietStep(b: Balancer, e: Event)
    requires Valid(b) && !e.GetNext? && |Step(b, e).healthy| == |b.healthy|
    ensures Step(b, e).healthy == b.healthy && Step(b, e).next == b.next
  {
    match e
    case AddBackend(_) =>
    case GetNext =>
    case RemoveBackend(x) =>
      if x in b.healthy {
        RemovalIs(b, e, x);
      } else {
        WithoutIsErase(b.healthy, x);
      }
    case UpdateHealth(x, up) => if !up && x in b.healthy { RemovalIs(b, e, x); }
  }

  lemma {:induction false} CountBounds(b: Balancer, es: seq<Event>, a: Address)
    requires Valid(b) && a in b.healthy && Quiet(b, es)
    ensures var n := |b.healthy|;
            var c := Count(Picks(b, es), Some(a));
            c * n <= |Picks(b, es)| + n - 1 - Wait(b, a) < c * n + n
    decreases |es|
  {
    if es != [] {
      var b' := Step(b, es[0]);
      if es[0].GetNext? {
        WaitAfterPick(b, a);
        CountBounds(b', es[1..], a);
        assert Picks(b, es)[1..] == Picks(b', es[1..]);
        OneMoreTimes(Count(Picks(b', es[1..]), Some(a)), |b.healthy|);
      } else {
        QuietStep(b, es[0]);
        CountBounds(b', es[1..], a);
        assert Picks(b, es) == Picks(b', es[1..]);
      }
    }
  }

  /** While nobody joins or leaves, the number of times `a` is chosen depends only on the number of calls
      and on its distance from the cursor. */
  lemma ExactCount(b: Balancer, es: seq<Event>, a: Address)
    requires Valid(b) && a in b.healthy && Quiet(b, es)
    ensures Count(Picks(b, es), Some(a)) == (|Picks(b, es)| + |b.healthy| - 1 - Wait(b, a)) / |b.healthy|
  {
    CountBounds(b, es, a);
    QuotientIs(|Picks(b, es)| + |b.healthy| - 1 - Wait(b, a), |b.healthy|, Count(Picks(b, es), Some(a)));
  }

  /** Over any run in which nobody joins or leaves, with k calls and n healthy backends, each is chosen
      floor(k/n) or ceil(k/n) times. */
  lemma {:induction false} FairShare(b: Balancer, es: seq<Event>, a: Address)
    requires Valid(b) && a in b.healthy && Quiet(b, es)
    ensures var k, n := |Picks(b, es)|, |b.healthy|;
      k / n <= Count(Picks(b, es), Some(a)) <= (k + n - 1) / n
  {
    var k, n := |Picks(b, es)|, |b.healthy|;
    ExactCount(b, es, a);
    DivMonotone(k, k + n - 1 - Wait(b, a), n);
    DivMonotone(k + n - 1 - Wait(b, a), k + n - 1, n);
  }

  lemma DivMonotone(x: nat, y: nat, n: nat)
    requires x <= y && n > 0
    ensures x / n <= y / n
  {
    assert x / n <= y / n by {
      assert n * (x / n) <= x && y < n * (y / n) + n;
      LessByFactor(n, x / n, y / n + 1);
    }
  }

  lemma LessByFactor(n: nat, p: nat, q: nat)
    requires n * p < n * q
    ensures p < q
  {}

  // ---- The class ----

  class LoadBalancer {
    var allBackends: set<Address>
    var healthyBackends: seq<Address>
    var nextIndex: nat

    ghost function Value(): Balancer
      reads this
    {
      Balancer(allBackends, healthyBackends, nextIndex)
    }

    constructor ()
      ensures Value() == Balancer({}, [], 0) && Valid(Value())
    {
      allBackends, healthyBackends, nextIndex := {}, [], 0;
    }

    method Add(addr: Address)
      requires Valid(Value())
      modifies this
      ensures Value() == Step(old(Value()), AddBackend(addr)) && Valid(Value())
      ensures allBackends == old(allBackends) + {addr}
      ensures healthyBackends == old(healthyBackends) && nextIndex == old(nextIndex)
    {
      allBackends := allBackends + {addr};
    }

    method Remove(addr: Address)
      requires Valid(Value())
      modifies this
      ensures Value() == Step(old(Value()), RemoveBackend(addr)) && Valid(Value())
      ensures addr !in healthyBackends && allBackends == old(allBackends) - {addr}
    {
      WithoutIsErase(healthyBackends, addr);
      allBackends := allBackends - {addr};
      healthyBackends := Without(healthyBackends, addr);
      if nextIndex >= |healthyBackends| && healthyBackends != [] {
        nextIndex := 0;
      }
    }

    /** `None` is the source's `false`. */
    method GetNextBackend() returns (addr: Option<Address>)
      requires Valid(Value())
      modifies this
      ensures addr == Answer(old(Value()))
      ensures Value() == Step(old(Value()), GetNext) && Valid(Value())
      ensures allBackends == old(allBackends) && healthyBackends == old(healthyBackends)
    {
      if healthyBackends == [] {
        return None;
      }
      addr := Some(healthyBackends[nextIndex]);
      nextIndex := Advance(nextIndex, |healthyBackends|);
    }

    method UpdateHealthStatus(addr: Address, healthy: bool)
      requires Valid(Value())
      modifies this
      ensures Value() == Step(old(Value()), UpdateHealth(addr, healthy)) && Valid(Value())
      ensures (addr in healthyBackends <==> healthy) && allBackends == old(allBackends)
      ensures healthyBackends == if healthy == (addr in old(healthyBackends)) then old(healthyBackends)
                                 else if healthy then old(healthyBackends) + [addr]
                                 else EraseAt(old(healthyBackends), IndexOf(old(healthyBackends), addr))
      ensures nextIndex == if old(nextIndex) >= |healthyBackends| then 0 else old(nextIndex)
    {
      var it := IndexOf(healthyBackends, addr);
      if healthy {
        if it == |healthyBackends| {
          healthyBackends := healthyBackends + [addr];
        }
      } else if it != |healthyBackends| {
        healthyBackends := EraseAt(healthyBackends, it);
        if nextIndex >= |healthyBackends| {
          nextIndex := 0;
        }
      }
    }
  }
}
