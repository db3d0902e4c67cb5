/** Round-robin placement: which controller gets the next instance, and how fair that is over many requests. */
module Placement {
  import opened Wrappers

  /** `++base % controllers.size()`. */
  function AdvanceModulo(base: nat, size: nat): nat
    requires size > 0
  { (base + 1) % size }

  datatype Placed = Placed(chosen: Option<nat>, next: nat)

  /** The placement loop with `tries` turns left: advance, and stop at the first controller that offers. */
  function Place(next: nat, offers: seq<bool>, tries: nat): Placed
    requires tries <= |offers|
    decreases tries
  {
    if tries == 0 then Placed(None, next)
    else
      var n := AdvanceModulo(next, |offers|);
      if offers[n] then Placed(Some(n), n) else Place(n, offers, tries - 1)
  }

  /** How many controllers come before `c` in the cyclic order that starts after `next`. */
  function Distance(next: nat, c: nat, size: nat): nat
    requires next < size && c < size
  {
    if c > next then c - next - 1 else c + size - next - 1
  }

  predicate InRange(next: nat, offers: seq<bool>) { offers != [] ==> next < |offers| }

  lemma {:induction false} AdvanceIs(base: nat, size: nat)
    requires base < size
    ensures AdvanceModulo(base, size) == if base + 1 == size then 0 else base + 1
  {
    if base + 1 < size { SmallMod(base + 1, size); }
  }

  lemma {:induction false} SmallMod(a: nat, m: nat)
    requires a < m
    ensures a % m == a
  {
  }

  /** `tries` turns look at exactly the `tries` controllers after `next`, nearest first. */
  lemma {:induction false} PlaceVisits(next: nat, offers: seq<bool>, tries: nat)
    requires tries <= |offers| && next < |offers|
    ensures var p := Place(next, offers, tries);
            && p.next < |offers|
            && (p.chosen.Some? ==>
                  var c := p.chosen.value;
                  && c == p.next && offers[c] && Distance(next, c, |offers|) < tries
                  && forall d :: 0 <= d < |offers| && Distance(next, d, |offers|) < Distance(next, c, |offers|) ==>
                     !offers[d])
            && (p.chosen.None? ==>
                  && (forall d :: 0 <= d < |offers| && Distance(next, d, |offers|) < tries ==> !offers[d])
                  && (if tries == 0 then p.next == next else Distance(next, p.next, |offers|) == tries - 1))
    decreases tries
  {
    if tries > 0 {
      AdvanceIs(next, |offers|);
      var n := AdvanceModulo(next, |offers|);
      assert Distance(next, n, |offers|) == 0;
      assert forall d :: 0 <= d < |offers| && d != n ==> Distance(next, d, |offers|) == Distance(n, d, |offers|) + 1;
      if !offers[n] {
        PlaceVisits(n, offers, tries - 1);
      }
    }
  }

  /**
   A full lap succeeds exactly when some controller offers the template; then the one nearest after `next` is
   chosen and becomes `next`. An unsuccessful lap visits everyone and leaves `next` where it was.
   */
  lemma {:induction false} FullLap(next: nat, offers: seq<bool>)
    requires InRange(next, offers)
    ensures var p := Place(next, offers, |offers|);
            && InRange(p.next, offers)
            && (p.chosen.Some? <==> exists c :: 0 <= c < |offers| && offers[c])
            && (p.chosen.None? ==> p.next == next)
            && (p.chosen.Some? ==>
                  && p.chosen.value < |offers| && p.next == p.chosen.value && offers[p.chosen.value]
                  && forall d :: 0 <= d < |offers| && offers[d] ==>
                       Distance(next, p.chosen.value, |offers|) <= Distance(next, d, |offers|))
  {
    if offers != [] {
      PlaceVisits(next, offers, |offers|);
      assert forall d :: 0 <= d < |offers| ==> Distance(next, d, |offers|) < |offers|;
    }
  }

  // ----- many requests -----

  /**
   Requests one after the other: true asks for a template that `offers` describes, false for one that no
   controller has. `served` lists the controllers chosen, oldest first.
   */
  datatype Tally = Tally(served: seq<nat>, next: nat)

  function NoOffers(size: nat): (offers: seq<bool>)
    ensures |offers| == size && forall i :: 0 <= i < size ==> !offers[i]
  { seq(size, i => false) }

  function Requests(next: nat, offers: seq<bool>, asks: seq<bool>): Tally {
    if asks == [] then Tally([], next)
    else
      var n := |asks| - 1;
      var before := Requests(next, offers, asks[..n]);
      var p := Place(before.next, if asks[n] then offers else NoOffers(|offers|), |offers|);
      Tally(if p.chosen.Some? then before.served + [p.chosen.value] else before.served, p.next)
  }

  function Count(served: seq<nat>, c: nat): nat { multiset(served)[c] }

  /** A controller that is nearer has had as many instances as one further on, or one fewer. */
  ghost predicate Balanced(r: Tally, offers: seq<bool>) {
    && InRange(r.next, offers)
    && (forall c :: c in r.served ==> c < |offers| && offers[c])
    && (forall a, b | 0 <= a < |offers| && 0 <= b < |offers| && offers[a] && offers[b] ::
          Distance(r.next, a, |offers|) < Distance(r.next, b, |offers|) ==>
            Count(r.served, a) <= Count(r.served, b) <= Count(r.served, a) + 1)
  }

  lemma {:induction false} BalancedStep(r: Tally, offers: seq<bool>, c: nat)
    requires Balanced(r, offers) && Place(r.next, offers, |offers|) == Placed(Some(c), c)
    ensures Balanced(Tally(r.served + [c], c), offers)
  {
    FullLap(r.next, offers);
    var s, n := r.served + [c], |offers|;
    assert forall x :: x != c ==> Count(s, x) == Count(r.served, x);
    assert Count(s, c) == Count(r.served, c) + 1;
    forall a, b | 0 <= a < n && 0 <= b < n && offers[a] && offers[b] && Distance(c, a, n) < Distance(c, b, n)
      ensures Count(s, a) <= Count(s, b) <= Count(s, a) + 1
    {
      assert Distance(c, c, n) == n - 1;
      assert a != c;
      assert Distance(r.next, c, n) < Distance(r.next, a, n);
      if b != c {
        assert Distance(r.next, a, n) < Distance(r.next, b, n);
      }
    }
  }

  lemma {:induction false} RequestsBalanced(next: nat, offers: seq<bool>, asks: seq<bool>)
    requires InRange(next, offers)
    ensures Balanced(Requests(next, offers, asks), offers)
    decreases |asks|
  {
    hide Balanced, Place;
    if asks == [] {
      assert Balanced(Tally([], next), offers) by { NothingServed(next, offers); }
    } else {
      var n := |asks| - 1;
      RequestsBalanced(next, offers, asks[..n]);
      var before := Requests(next, offers, asks[..n]);
      assert InRange(before.next, offers) by { BalancedInRange(before, offers); }
      var p := Place(before.next, if asks[n] then offers else NoOffers(|offers|), |offers|);
      FullLap(before.next, if asks[n] then offers else NoOffers(|offers|));
      if p.chosen.Some? {
        BalancedStep(before, offers, p.chosen.value);
      }
    }
  }

  lemma {:induction false} NothingServed(next: nat, offers: seq<bool>)
    requires InRange(next, offers)
    ensures Balanced(Tally([], next), offers)
  {
  }

  lemma {:induction false} BalancedInRange(r: Tally, offers: seq<bool>)
    requires Balanced(r, offers)
    ensures InRange(r.next, offers)
  {
  }

  /**
   Over any requests for one template, mixed with any that nobody can serve, two controllers that offer it never
   differ by more than one instance.
   */
  lemma {:induction false} FairPlacement(next: nat, offers: seq<bool>, asks: seq<bool>, a: nat, b: nat)
    requires InRange(next, offers) && a < |offers| && b < |offers| && offers[a] && offers[b]
    ensures var s := Requests(next, offers, asks).served;
            -1 <= Count(s, a) - Count(s, b) <= 1
  {
    RequestsBalanced(next, offers, asks);
    var r := Requests(next, offers, asks);
    if a < b {
      assert Distance(r.next, a, |offers|) != Distance(r.next, b, |offers|);
    }
  }

  function Offering(offers: seq<bool>): set<nat> { set c: nat | c < |offers| && offers[c] }

  function Hits(s: seq<nat>): set<nat> { set x | x in s }

  lemma {:induction false} CountOneMore(f: seq<nat>, z: nat)
    ensures forall x :: Count(f + [z], x) == Count(f, x) + if x == z then 1 else 0
    ensures Hits(f + [z]) == Hits(f) + {z}
    ensures Count(f, z) >= 1 <==> z in f
  {
  }

  /** A list that hits nobody twice and misses someone is shorter than the number of those it might hit. */
  lemma {:induction false} SomebodyMissed(s: seq<nat>, all: set<nat>, c: nat)
    requires (forall x :: x in s ==> x in all && Count(s, x) <= 1) && c in all && c !in s
    ensures |s| < |all|
    decreases |s|
  {
    if s != [] {
      var f, z := s[..|s| - 1], s[|s| - 1];
      assert s == f + [z];
      CountOneMore(f, z);
      assert z in s && z !in f;
      forall x | x in f ensures x in all - {z} && Count(f, x) <= 1 { assert x in s; }
      SomebodyMissed(f, all - {z}, c);
    } else {
      assert all == (all - {c}) + {c};
    }
  }

  lemma {:induction false} SetIsSmaller(s: seq<nat>)
    ensures |Hits(s)| <= |s|
  {
    if s != [] {
      var f, z := s[..|s| - 1], s[|s| - 1];
      assert s == f + [z];
      CountOneMore(f, z);
      SetIsSmaller(f);
      SizeOneMore(Hits(f), z);
    }
  }

  lemma {:induction false} SizeOneMore<T>(a: set<T>, z: T)
    ensures |a + {z}| <= |a| + 1
  {
    if z in a { assert a + {z} == a; }
  }

  /** A list that hits everyone and someone twice is longer. */
  lemma {:induction false} SomebodyTwice(s: seq<nat>, c: nat)
    requires Count(s, c) >= 2
    ensures |Hits(s)| < |s|
    decreases |s|
  {
    var f, z := s[..|s| - 1], s[|s| - 1];
    assert s == f + [z];
    CountOneMore(f, z);
    if c == z {
      SetIsSmaller(f);
      assert Hits(s) == Hits(f);
    } else {
      SomebodyTwice(f, c);
      SizeOneMore(Hits(f), z);
    }
  }

  /** Any block of as many successes as there are controllers offering the template hits each exactly once. */
  lemma {:induction false} EachOncePerBlock(next: nat, offers: seq<bool>, asks: seq<bool>)
    requires InRange(next, offers) && |Requests(next, offers, asks).served| == |Offering(offers)|
    ensures forall c :: c in Offering(offers) ==> Count(Requests(next, offers, asks).served, c) == 1
  {
    hide Requests;
    var s, all := Requests(next, offers, asks).served, Offering(offers);
    RequestsBalanced(next, offers, asks);
    assert forall x :: x in s ==> x in all && Count(s, x) >= 1;
    forall c | c in all ensures Count(s, c) == 1 {
      forall d | d in all ensures -1 <= Count(s, c) - Count(s, d) <= 1 {
        FairPlacement(next, offers, asks, c, d);
      }
      if Count(s, c) == 0 {
        SomebodyMissed(s, all, c);
      }
      if Count(s, c) >= 2 {
        assert all == Hits(s) by { assert forall d :: d in all ==> Count(s, d) >= 1; }
        SomebodyTwice(s, c);
      }
    }
  }

  /** A run of requests can be cut anywhere: the rest goes on from where the first part left `next`. */
  lemma {:induction false} RequestsSplit(next: nat, offers: seq<bool>, a: seq<bool>, b: seq<bool>)
    ensures var before := Requests(next, offers, a); var after := Requests(before.next, offers, b);
            Requests(next, offers, a + b) == Tally(before.served + after.served, after.next)
    decreases |b|
  {
    hide Place;
    if b == [] {
      assert a + b == a;
    } else {
      var n := |b| - 1;
      RequestsSplit(next, offers, a, b[..n]);
      assert (a + b)[..|a + b| - 1] == a + b[..n];
    }
  }

  /** So the block may begin anywhere in a run. */
  lemma {:induction false} EachOnceInAnyBlock(next: nat, offers: seq<bool>, a: seq<bool>, b: seq<bool>)
    requires InRange(next, offers)
    requires |Requests(next, offers, a + b).served| == |Requests(next, offers, a).served| + |Offering(offers)|
    ensures var k := |Requests(next, offers, a).served|; var served := Requests(next, offers, a + b).served;
            k <= |served| && forall c :: c in Offering(offers) ==> Count(served[k..], c) == 1
  {
    hide Requests;
    RequestsSplit(next, offers, a, b);
    RequestsBalanced(next, offers, a);
    EachOncePerBlock(Requests(next, offers, a).next, offers, b);
    var before := Requests(next, offers, a);
    assert Requests(next, offers, a + b).served[|before.served|..] == Requests(before.next, offers, b).served;
  }
}
