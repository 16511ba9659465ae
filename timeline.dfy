/**
 * The event list of the transaction timeline: up to six events pushed in a
 * fixed order, each only when its condition holds, then sorted by date in
 * place. Rendering (markup, locale date formatting) is not modelled.
 */
module Timeline {
  import opened Wrappers
  import opened Records

  datatype Kind = Created | PaymentRequested | PaymentReceived | DisputeRaised | RefundProcessed | Completed

  /** The position at which the builder pushes each kind. */
  function Rank(k: Kind): (r: nat)
    ensures r < 6
  {
    match k
    case Created => 0
    case PaymentRequested => 1
    case PaymentReceived => 2
    case DisputeRaised => 3
    case RefundProcessed => 4
    case Completed => 5
  }

  lemma RankInjective(a: Kind, b: Kind)
    ensures Rank(a) == Rank(b) ==> a == b
  {
  }

  datatype Event = Event(date: int, kind: Kind, title: string, description: string, icon: string, color: string)

  // ---------------------------------------------------------------------------
  // Which events a transaction has, and what each carries

  /** The condition under which the builder pushes an event of kind `k`. */
  predicate Shown(t: Transaction, k: Kind)
  {
    match k
    case Created => t.created_at.Some?
    case PaymentRequested => Truthy(t.mpesa_code) && t.status == PENDING_PAYMENT
    case PaymentReceived => t.paid_at.Some?
    case DisputeRaised => t.disputed_at.Some?
    case RefundProcessed => t.refunded_at.Some?
    case Completed => t.completed_at.Some?
  }

  /**
   * The event of kind `k`: its date column, title, description, icon and
   * colour. A null dispute reason renders as nothing, modelled as "". The
   * payment request is dated by `created_at` whether or not it is set: a null
   * date becomes `new Date(null)`, the epoch, which is instant 0.
   */
  function EventOf(t: Transaction, k: Kind): (e: Event)
    requires Shown(t, k)
    ensures e.kind == k
  {
    match k
    case Created => Event(t.created_at.value, Created, "Transaction Created", "Escrow transaction initiated", "\U{1F4CB}", "#ffc107")
    case PaymentRequested => Event(t.created_at.GetOr(0), PaymentRequested, "Payment Requested", "STK push sent to buyer", "\U{1F4F2}", "#ff9800")
    case PaymentReceived => Event(t.paid_at.value, PaymentReceived, "Payment Received", "M-Pesa Receipt: " + Interpolated(t.mpesa_receipt), "\U{1F4B3}", "#0096ff")
    case DisputeRaised => Event(t.disputed_at.value, DisputeRaised, "Dispute Raised", t.dispute_reason.GetOr(""), "\U{26A0}\U{FE0F}", "#e0132e")
    case RefundProcessed => Event(t.refunded_at.value, RefundProcessed, "Refund Processed", "Funds returned to buyer", "\U{1F4B0}", "#ff9800")
    case Completed => Event(t.completed_at.value, Completed, "Transaction Complete", "Funds released to seller", "\U{2705}", "#00c566")
  }

  /** The kind pushed at position `n`. */
  function KindAt(n: nat): (k: Kind)
    requires n < 6
    ensures Rank(k) == n
  {
    [Created, PaymentRequested, PaymentReceived, DisputeRaised, RefundProcessed, Completed][n]
  }

  /** The list after the builder has considered the first `n` kinds. */
  function PushedUpTo(t: Transaction, n: nat): (r: seq<Event>)
    requires n <= 6
    ensures |r| <= n
  {
    if n == 0 then []
    else PushedUpTo(t, n - 1) + (if Shown(t, KindAt(n - 1)) then [EventOf(t, KindAt(n - 1))] else [])
  }

  /** The list as the builder leaves it before sorting. */
  function Pushed(t: Transaction): (r: seq<Event>)
    ensures |r| <= 6
  {
    PushedUpTo(t, 6)
  }

  /** `e` is the event of a shown kind, as the builder makes it. */
  predicate Genuine(t: Transaction, e: Event)
  {
    Shown(t, e.kind) && e == EventOf(t, e.kind)
  }

  /** Every pushed event is genuine and comes from the first `n` kinds. */
  lemma {:induction false} PushedUpToSound(t: Transaction, n: nat)
    requires n <= 6
    ensures forall e :: e in PushedUpTo(t, n) ==> Rank(e.kind) < n && Genuine(t, e)
  {
    if n > 0 {
      PushedUpToSound(t, n - 1);
    }
  }

  /** Every shown kind among the first `n` is pushed. */
  lemma {:induction false} PushedUpToComplete(t: Transaction, n: nat, k: Kind)
    requires n <= 6
    requires Rank(k) < n && Shown(t, k)
    ensures EventOf(t, k) in PushedUpTo(t, n)
  {
    RankInjective(k, KindAt(n - 1));
    if Rank(k) < n - 1 {
      PushedUpToComplete(t, n - 1, k);
    }
  }

  /** The builder pushes in strictly increasing push order. */
  lemma {:induction false} PushedUpToIncreasing(t: Transaction, n: nat)
    requires n <= 6
    ensures RankIncreasing(PushedUpTo(t, n))
  {
    if n > 0 {
      PushedUpToIncreasing(t, n - 1);
      PushedUpToSound(t, n - 1);
      var p := PushedUpTo(t, n - 1);
      var r := PushedUpTo(t, n);
      forall i, j | 0 <= i < j < |r| ensures Rank(r[i].kind) < Rank(r[j].kind) {
        assert r[i] == p[i] && p[i] in p;
        if j < |p| {
          assert r[j] == p[j];
        } else {
          var k := KindAt(n - 1);
          assert Shown(t, k) && r == p + [EventOf(t, k)];
          assert r[j] == EventOf(t, k);
        }
      }
    }
  }

  // ---------------------------------------------------------------------------
  // The sort

  /**
   * Insert `e` into `s` just after the last element not later than it, as a
   * stable insertion sort does when it moves `e` down from the back.
   */
  function Insert(s: seq<Event>, e: Event): (r: seq<Event>)
    ensures |r| == |s| + 1
  {
    if s == [] then [e]
    else if s[|s| - 1].date > e.date then Insert(s[..|s| - 1], e) + [s[|s| - 1]]
    else s + [e]
  }

  /** The stable sort by date: `events.sort((a, b) => a.date - b.date)`. */
  function SortedByDate(s: seq<Event>): (r: seq<Event>)
    ensures |r| == |s|
  {
    if s == [] then []
    else Insert(SortedByDate(s[..|s| - 1]), s[|s| - 1])
  }

  /** Insertion adds exactly the inserted event. */
  lemma {:induction false} InsertPermutes(s: seq<Event>, e: Event)
    ensures multiset(Insert(s, e)) == multiset(s) + multiset{e}
    decreases |s|
  {
    if s != [] {
      assert s == s[..|s| - 1] + [s[|s| - 1]];
      if s[|s| - 1].date > e.date {
        InsertPermutes(s[..|s| - 1], e);
      }
    }
  }

  /** The sort is a permutation of its input. */
  lemma {:induction false} SortPermutes(s: seq<Event>)
    ensures multiset(SortedByDate(s)) == multiset(s)
    decreases |s|
  {
    if s != [] {
      assert s == s[..|s| - 1] + [s[|s| - 1]];
      SortPermutes(s[..|s| - 1]);
      InsertPermutes(SortedByDate(s[..|s| - 1]), s[|s| - 1]);
    }
  }

  predicate DateSorted(s: seq<Event>)
  {
    forall i, j :: 0 <= i < j < |s| ==> s[i].date <= s[j].date
  }

  /** `a` strictly precedes `b` by date, and by push order on equal dates. */
  predicate Before(a: Event, b: Event)
  {
    a.date < b.date || (a.date == b.date && Rank(a.kind) < Rank(b.kind))
  }

  predicate StrictlyOrdered(s: seq<Event>)
  {
    forall i, j :: 0 <= i < j < |s| ==> Before(s[i], s[j])
  }

  /** Every element of `s` was pushed before `e`. */
  predicate AllRankBelow(s: seq<Event>, e: Event)
  {
    forall x :: x in s ==> Rank(x.kind) < Rank(e.kind)
  }

  /** Kinds strictly increasing in push order, as the builder pushes them. */
  predicate RankIncreasing(s: seq<Event>)
  {
    forall i, j :: 0 <= i < j < |s| ==> Rank(s[i].kind) < Rank(s[j].kind)
  }

  /** Inserting an event pushed after all others keeps the strict (date, push order) ordering. */
  lemma {:induction false} InsertOrdered(s: seq<Event>, e: Event)
    requires StrictlyOrdered(s) && AllRankBelow(s, e)
    ensures StrictlyOrdered(Insert(s, e))
    decreases |s|
  {
    if s != [] && s[|s| - 1].date > e.date {
      var init, last := s[..|s| - 1], s[|s| - 1];
      assert StrictlyOrdered(init) by {
        forall i, j | 0 <= i < j < |init| ensures Before(init[i], init[j]) {
          assert init[i] == s[i] && init[j] == s[j];
        }
      }
      assert AllRankBelow(init, e) by {
        forall x | x in init ensures Rank(x.kind) < Rank(e.kind) {
          var k :| 0 <= k < |init| && init[k] == x;
          assert s[k] == x;
        }
      }
      InsertOrdered(init, e);
      var ins := Insert(init, e);
      InsertPermutes(init, e);
      var r := ins + [last];
      assert forall x :: x in ins ==> Before(x, last) by {
        forall x | x in ins ensures Before(x, last) {
          assert x in multiset(ins);
          if x == e {
          } else {
            assert x in multiset(init);
            var k :| 0 <= k < |init| && init[k] == x;
            assert Before(s[k], s[|s| - 1]);
          }
        }
      }
      forall i, j | 0 <= i < j < |r| ensures Before(r[i], r[j]) {
        if j == |r| - 1 {
          assert r[i] == ins[i] && r[i] in ins;
        } else {
          assert r[i] == ins[i] && r[j] == ins[j];
        }
      }
    } else if s != [] {
      var r := s + [e];
      forall i, j | 0 <= i < j < |r| ensures Before(r[i], r[j]) {
        if j == |r| - 1 {
          assert r[i] == s[i] && s[i] in s;
          assert Before(s[i], s[|s| - 1]) || i == |s| - 1;
        } else {
          assert r[i] == s[i] && r[j] == s[j];
        }
      }
    }
  }

  /** Sorting a list pushed in kind order orders it by date, and by push order on equal dates. */
  lemma {:induction false} SortOrdered(s: seq<Event>)
    requires RankIncreasing(s)
    ensures StrictlyOrdered(SortedByDate(s))
    decreases |s|
  {
    if s != [] {
      var init, last := s[..|s| - 1], s[|s| - 1];
      assert RankIncreasing(init) by {
        forall i, j | 0 <= i < j < |init| ensures Rank(init[i].kind) < Rank(init[j].kind) {
          assert init[i] == s[i] && init[j] == s[j];
        }
      }
      SortOrdered(init);
      var sorted := SortedByDate(init);
      SortPermutes(init);
      assert AllRankBelow(sorted, last) by {
        forall x | x in sorted ensures Rank(x.kind) < Rank(last.kind) {
          assert x in multiset(sorted);
          assert x in multiset(init);
          var k :| 0 <= k < |init| && init[k] == x;
          assert s[k] == x;
        }
      }
      InsertOrdered(sorted, last);
    }
  }

  /** The strict ordering gives the date order. */
  lemma OrderedDateSorted(s: seq<Event>)
    requires StrictlyOrdered(s)
    ensures DateSorted(s)
  {
    forall i, j | 0 <= i < j < |s| ensures s[i].date <= s[j].date {
      assert Before(s[i], s[j]);
    }
  }

  /** In the strict ordering, events on the same date keep push order. */
  lemma OrderedTies(s: seq<Event>)
    requires StrictlyOrdered(s)
    ensures forall i, j :: 0 <= i < j < |s| && s[i].date == s[j].date ==> Rank(s[i].kind) < Rank(s[j].kind)
  {
    forall i, j | 0 <= i < j < |s| && s[i].date == s[j].date ensures Rank(s[i].kind) < Rank(s[j].kind) {
      assert Before(s[i], s[j]);
    }
  }

  /** In a strictly ordered list where each event is determined by its kind, no kind repeats. */
  lemma OrderedDistinct(t: Transaction, s: seq<Event>)
    requires StrictlyOrdered(s)
    requires forall e :: e in s ==> Genuine(t, e)
    ensures forall i, j :: 0 <= i < j < |s| ==> s[i].kind != s[j].kind
  {
    forall i, j | 0 <= i < j < |s| ensures s[i].kind != s[j].kind {
      assert Before(s[i], s[j]);
      assert Genuine(t, s[i]) && Genuine(t, s[j]);
    }
  }

  /**
   * Where `Insert` puts `x`: just after the last element not later than it,
   * every element from `j` on being later.
   */
  lemma {:induction false} InsertAt(s: seq<Event>, j: nat, x: Event)
    requires j <= |s| && (j == 0 || s[j - 1].date <= x.date)
    requires forall k :: j <= k < |s| ==> s[k].date > x.date
    ensures Insert(s, x) == s[..j] + [x] + s[j..]
    decreases |s|
  {
    if j == |s| {
      assert s[..j] == s && s[j..] == [];
    } else {
      var init, last := s[..|s| - 1], s[|s| - 1];
      assert last.date > x.date;
      InsertAt(init, j, x);
      assert init[..j] == s[..j];
      assert init[j..] + [last] == s[j..];
    }
  }

  /** Where each element lands when `x` is placed at position `j`. */
  lemma PlacedAt(sorted: seq<Event>, j: nat, x: Event, k: nat)
    requires j <= |sorted| && k <= |sorted|
    ensures (sorted[..j] + [x] + sorted[j..])[k] == if k < j then sorted[k] else if k == j then x else sorted[k - 1]
  {
  }

  /** The array after the shift and the final write, read as a sequence. */
  lemma Placed(cur: seq<Event>, orig: seq<Event>, i: nat, j: nat, x: Event)
    requires |cur| == |orig| && j <= i < |cur|
    requires forall k :: 0 <= k < j ==> cur[k] == orig[k]
    requires cur[j] == x
    requires forall k :: j < k <= i ==> cur[k] == orig[k - 1]
    requires forall k :: i < k < |cur| ==> cur[k] == orig[k]
    ensures cur[..i + 1] == orig[..i][..j] + [x] + orig[..i][j..]
    ensures cur[i + 1..] == orig[i + 1..]
  {
    var sorted := orig[..i];
    forall k | 0 <= k <= i ensures cur[k] == (sorted[..j] + [x] + sorted[j..])[k] {
      PlacedAt(sorted, j, x, k);
    }
  }

  /**
   * One step of the insertion sort: move `a[i]` down past the later elements
   * of the sorted prefix `a[..i]`, shifting them up by one.
   */
  method InsertInPlace(a: array<Event>, i: nat)
    requires i < a.Length
    modifies a
    ensures a[..i + 1] == Insert(old(a[..i]), old(a[i]))
    ensures a[i + 1..] == old(a[i + 1..])
  {
    ghost var orig := a[..];
    ghost var sorted := a[..i];
    var x := a[i];
    var j := i;
    while j > 0 && a[j - 1].date > x.date
      invariant 0 <= j <= i
      invariant forall k :: 0 <= k < j ==> a[k] == sorted[k]
      invariant forall k :: j < k <= i ==> a[k] == sorted[k - 1]
      invariant forall k :: i < k < a.Length ==> a[k] == orig[k]
      invariant forall k :: j <= k < i ==> sorted[k].date > x.date
    {
      assert a[j - 1] == sorted[j - 1];
      a[j] := a[j - 1];
      j := j - 1;
    }
    InsertAt(sorted, j, x);
    a[j] := x;
    Placed(a[..], orig, i, j, x);
  }

  /** Stable insertion sort by date, in place. */
  method SortByDate(a: array<Event>)
    modifies a
    ensures a[..] == SortedByDate(old(a[..]))
  {
    ghost var orig := a[..];
    var i := 0;
    while i < a.Length
      invariant 0 <= i <= a.Length
      invariant a[..i] == SortedByDate(orig[..i])
      invariant a[i..] == orig[i..]
    {
      assert a[i] == orig[i];
      InsertInPlace(a, i);
      assert orig[..i + 1][..i] == orig[..i];
      i := i + 1;
    }
    assert a[..] == a[..a.Length] && orig == orig[..a.Length];
  }

  /** The pushes of the builder, in order, each under the source's condition. */
  method CollectEvents(t: Transaction) returns (list: seq<Event>)
    ensures list == Pushed(t)
  {
    list := [];
    assert list == PushedUpTo(t, 0);
    if t.created_at.Some? {
      list := list + [EventOf(t, Created)];
    }
    assert list == PushedUpTo(t, 1);
    if Truthy(t.mpesa_code) && t.status == PENDING_PAYMENT {
      list := list + [EventOf(t, PaymentRequested)];
    }
    assert list == PushedUpTo(t, 2);
    if t.paid_at.Some? {
      list := list + [EventOf(t, PaymentReceived)];
    }
    assert list == PushedUpTo(t, 3);
    if t.disputed_at.Some? {
      list := list + [EventOf(t, DisputeRaised)];
    }
    assert list == PushedUpTo(t, 4);
    if t.refunded_at.Some? {
      list := list + [EventOf(t, RefundProcessed)];
    }
    assert list == PushedUpTo(t, 5);
    if t.completed_at.Some? {
      list := list + [EventOf(t, Completed)];
    }
  }

  /**
   * `TransactionTimeline`'s event list: each event pushed when its condition
   * holds, in a fixed order, then sorted by date.
   */
  method BuildTimeline(t: Transaction) returns (events: seq<Event>)
    ensures forall k :: Shown(t, k) <==> (exists i :: 0 <= i < |events| && events[i].kind == k)
    ensures forall i :: 0 <= i < |events| ==> events[i] == EventOf(t, events[i].kind)
    ensures DateSorted(events)
    ensures forall i, j :: 0 <= i < j < |events| && events[i].date == events[j].date ==>
      Rank(events[i].kind) < Rank(events[j].kind)
    ensures forall i, j :: 0 <= i < j < |events| ==> events[i].kind != events[j].kind
    ensures |events| <= 6
    ensures multiset(events) == multiset(Pushed(t))
  {
    var list := CollectEvents(t);
    var a := new Event[|list|](i requires 0 <= i < |list| => list[i]);
    assert a[..] == list;
    SortByDate(a);
    events := a[..];
    TimelineContents(t);
    TimelineOrdered(t);
    SortPermutes(Pushed(t));
  }

  /** Every event of the sorted list is genuine. */
  lemma TimelineSound(t: Transaction)
    ensures forall e :: e in SortedByDate(Pushed(t)) ==> Genuine(t, e)
  {
    var p := Pushed(t);
    var r := SortedByDate(p);
    PushedUpToSound(t, 6);
    SortPermutes(p);
    forall e | e in r ensures Genuine(t, e) {
      assert e in multiset(r);
      assert e in multiset(p);
    }
  }

  /** Every shown kind has its event in the sorted list. */
  lemma TimelineComplete(t: Transaction, k: Kind)
    requires Shown(t, k)
    ensures EventOf(t, k) in SortedByDate(Pushed(t))
  {
    var p := Pushed(t);
    PushedUpToComplete(t, 6, k);
    SortPermutes(p);
    assert EventOf(t, k) in multiset(p);
    assert EventOf(t, k) in multiset(SortedByDate(p));
  }

  /** The sorted list holds exactly the shown events, each with its column's data. */
  lemma TimelineContents(t: Transaction)
    ensures var r := SortedByDate(Pushed(t));
      && (forall k :: Shown(t, k) <==> (exists i :: 0 <= i < |r| && r[i].kind == k))
      && (forall i :: 0 <= i < |r| ==> r[i] == EventOf(t, r[i].kind))
  {
    TimelineSound(t);
    var r := SortedByDate(Pushed(t));
    forall i | 0 <= i < |r| ensures Shown(t, r[i].kind) && r[i] == EventOf(t, r[i].kind) {
      assert r[i] in r;
    }
    forall k ensures Shown(t, k) <==> (exists i :: 0 <= i < |r| && r[i].kind == k) {
      if Shown(t, k) {
        TimelineComplete(t, k);
        var i :| 0 <= i < |r| && r[i] == EventOf(t, k);
        assert r[i].kind == k;
      }
      if exists i :: 0 <= i < |r| && r[i].kind == k {
        var i :| 0 <= i < |r| && r[i].kind == k;
        assert Shown(t, r[i].kind);
      }
    }
  }

  /** The sorted list is ordered by date, then by push order, with no kind twice. */
  lemma TimelineOrdered(t: Transaction)
    ensures var r := SortedByDate(Pushed(t));
      && StrictlyOrdered(r) && DateSorted(r)
      && (forall i, j :: 0 <= i < j < |r| && r[i].date == r[j].date ==> Rank(r[i].kind) < Rank(r[j].kind))
      && (forall i, j :: 0 <= i < j < |r| ==> r[i].kind != r[j].kind)
      && |r| <= 6
  {
    var p := Pushed(t);
    var r := SortedByDate(p);
    PushedUpToIncreasing(t, 6);
    SortOrdered(p);
    OrderedDateSorted(r);
    OrderedTies(r);
    TimelineSound(t);
    OrderedDistinct(t, r);
  }
}
