/**
 Dialing a host with several addresses in go_backend/dns_doh.go: the order in
 which they are tried (section 4 of RFC 8305) and the race of overlapping
 attempts, in which no connection may get lost.
 */
module DialRace {
  import opened Options

  // ---------------------------------------------------------------- the order

  datatype Ip = Ip(v4: bool, id: nat)

  datatype Network = AnyFamily | OnlyV4 | OnlyV6

  predicate Dialable(ip: Option<Ip>, network: Network, v4: bool) {
    ip.Some? && ip.value.v4 == v4 && (if v4 then network != OnlyV6 else network != OnlyV4)
  }

  /** The addresses of one family the network allows, in the resolver's order. */
  function Family(ips: seq<Option<Ip>>, network: Network, v4: bool): seq<Ip> {
    if ips == [] then []
    else
      var rest := Family(ips[..|ips| - 1], network, v4);
      var last := ips[|ips| - 1];
      if Dialable(last, network, v4) then rest + [last.value] else rest
  }

  /** One from each in turn, then what is left of the longer one. */
  function Alternate(a: seq<Ip>, b: seq<Ip>): seq<Ip> {
    if a == [] then b
    else if b == [] then a
    else [a[0], b[0]] + Alternate(a[1..], b[1..])
  }

  /** The family of the resolver's first address. */
  function FirstIsV4(ips: seq<Option<Ip>>): bool {
    if ips == [] then false else if ips[0].Some? then ips[0].value.v4 else FirstIsV4(ips[1..])
  }

  function Interleaved(ips: seq<Option<Ip>>, network: Network): seq<Ip> {
    var v4, v6 := Family(ips, network, true), Family(ips, network, false);
    if FirstIsV4(ips) then Alternate(v4, v6) else Alternate(v6, v4)
  }

  function OfFamily(ips: seq<Ip>, v4: bool): seq<Ip> {
    if ips == [] then [] else (if ips[0].v4 == v4 then [ips[0]] else []) + OfFamily(ips[1..], v4)
  }

  ghost predicate AllOf(ips: seq<Ip>, v4: bool) {
    forall i :: 0 <= i < |ips| ==> ips[i].v4 == v4
  }

  lemma {:induction false} FamilyIsOf(ips: seq<Option<Ip>>, network: Network, v4: bool)
    ensures AllOf(Family(ips, network, v4), v4)
    decreases |ips|
  {
    if ips != [] { FamilyIsOf(ips[..|ips| - 1], network, v4); }
  }

  lemma {:induction false} OfOneFamily(a: seq<Ip>, v4: bool)
    requires AllOf(a, v4)
    ensures OfFamily(a, v4) == a && OfFamily(a, !v4) == []
    decreases |a|
  {
    if a != [] {
      OfOneFamily(a[1..], v4);
      assert a == [a[0]] + a[1..];
    }
  }

  lemma {:induction false} AlternateAll(a: seq<Ip>, b: seq<Ip>)
    ensures multiset(Alternate(a, b)) == multiset(a) + multiset(b)
    decreases |a|
  {
    if a != [] && b != [] {
      AlternateAll(a[1..], b[1..]);
      assert a == [a[0]] + a[1..] && b == [b[0]] + b[1..];
    }
  }

  /** Alternating keeps the order within each family. */
  lemma {:induction false} AlternateKeeps(a: seq<Ip>, b: seq<Ip>, v4: bool)
    requires AllOf(a, v4) && AllOf(b, !v4)
    ensures OfFamily(Alternate(a, b), v4) == a && OfFamily(Alternate(a, b), !v4) == b
    decreases |a|
  {
    hide OfFamily;
    if a == [] {
      OfOneFamily(b, !v4);
      NoneOf();
    } else if b == [] {
      OfOneFamily(a, v4);
    } else {
      AlternateKeeps(a[1..], b[1..], v4);
      TwoInFront(a[0], b[0], Alternate(a[1..], b[1..]), v4);
      assert a == [a[0]] + a[1..] && b == [b[0]] + b[1..];
    }
  }

  lemma {:induction false} NoneOf()
    ensures OfFamily([], true) == [] && OfFamily([], false) == []
  {
  }

  lemma {:induction false} TwoInFront(x: Ip, y: Ip, rest: seq<Ip>, v4: bool)
    requires x.v4 == v4 && y.v4 != v4
    ensures OfFamily([x, y] + rest, v4) == [x] + OfFamily(rest, v4)
    ensures OfFamily([x, y] + rest, !v4) == [y] + OfFamily(rest, !v4)
  {
    var s := [x, y] + rest;
    assert s[1..] == [y] + rest && s[1..][1..] == rest;
  }

  /** The families take turns until one of them is used up. */
  lemma {:induction false} TakesTurns(a: seq<Ip>, b: seq<Ip>, v4: bool, i: nat)
    requires AllOf(a, v4) && AllOf(b, !v4) && i < 2 * |a| && i < 2 * |b|
    ensures i < |Alternate(a, b)| && (Alternate(a, b)[i].v4 == v4 <==> i % 2 == 0)
    decreases |a|
  {
    if i >= 2 { TakesTurns(a[1..], b[1..], v4, i - 2); }
  }

  /**
   Every dialable address once, each family in the resolver's order, the resolver's
   first family first, then in turns.
   */
  lemma {:induction false} InterleavedOrder(ips: seq<Option<Ip>>, network: Network)
    ensures var r, v4, v6 := Interleaved(ips, network), Family(ips, network, true), Family(ips, network, false);
      && multiset(r) == multiset(v4) + multiset(v6)
      && OfFamily(r, true) == v4 && OfFamily(r, false) == v6
      && forall i :: 0 <= i < 2 * |v4| && i < 2 * |v6| ==>
           i < |r| && (r[i].v4 == FirstIsV4(ips) <==> i % 2 == 0)
  {
    var v4, v6 := Family(ips, network, true), Family(ips, network, false);
    FamilyIsOf(ips, network, true);
    FamilyIsOf(ips, network, false);
    if FirstIsV4(ips) {
      AlternateKeeps(v4, v6, true);
      AlternateAll(v4, v6);
    } else {
      AlternateKeeps(v6, v4, false);
      AlternateAll(v6, v4);
    }
    forall i | 0 <= i < 2 * |v4| && i < 2 * |v6|
      ensures i < |Interleaved(ips, network)| && (Interleaved(ips, network)[i].v4 == FirstIsV4(ips) <==> i % 2 == 0)
    {
      if FirstIsV4(ips) { TakesTurns(v4, v6, true, i); } else { TakesTurns(v6, v4, false, i); }
    }
  }

  method InterleaveDialIPs(ips: seq<Option<Ip>>, network: Network) returns (ordered: seq<Ip>)
    ensures ordered == Interleaved(ips, network)
  {
    var v4: seq<Ip>, v6: seq<Ip> := [], [];
    for i := 0 to |ips|
      invariant v4 == Family(ips[..i], network, true) && v6 == Family(ips[..i], network, false)
    {
      assert ips[..i + 1][..i] == ips[..i];
      var ip := ips[i];
      if ip.Some? {
        if ip.value.v4 {
          if network != OnlyV6 { v4 := v4 + [ip.value]; }
        } else if network != OnlyV4 {
          v6 := v6 + [ip.value];
        }
      }
    }
    assert ips[..|ips|] == ips;
    if |v4| == 0 { EmptyEnd(v6); return v6; }
    if |v6| == 0 { EmptyEnd(v4); return v4; }
    var firstV4 := FirstFamily(ips);
    ordered := TakeTurns(v4, v6, firstV4);
  }

  method FirstFamily(ips: seq<Option<Ip>>) returns (firstV4: bool)
    ensures firstV4 == FirstIsV4(ips)
  {
    var j := 0;
    while j < |ips|
      invariant j <= |ips| && FirstIsV4(ips) == FirstIsV4(ips[j..])
    {
      if ips[j].Some? { return ips[j].value.v4; }
      assert ips[j..][1..] == ips[j + 1..];
      j := j + 1;
    }
    return false;
  }

  /** The loop that appends one address of each family in turn. */
  method TakeTurns(only4: seq<Ip>, only6: seq<Ip>, firstV4: bool) returns (ordered: seq<Ip>)
    ensures ordered == if firstV4 then Alternate(only4, only6) else Alternate(only6, only4)
  {
    hide Alternate;
    var v4, v6 := only4, only6;
    ordered := [];
    EmptyEnd([]);
    while |v4| > 0 || |v6| > 0
      invariant (if firstV4 then Alternate(only4, only6) else Alternate(only6, only4))
        == ordered + if firstV4 then Alternate(v4, v6) else Alternate(v6, v4)
      decreases |v4| + |v6|
    {
      if firstV4 {
        Turn(ordered, v4, v6);
        ordered, v4 := TakeOne(ordered, v4);
        ordered, v6 := TakeOne(ordered, v6);
      } else {
        Turn(ordered, v6, v4);
        ordered, v6 := TakeOne(ordered, v6);
        ordered, v4 := TakeOne(ordered, v4);
      }
    }
  }

  method TakeOne(ordered: seq<Ip>, a: seq<Ip>) returns (o: seq<Ip>, rest: seq<Ip>)
    ensures o == ordered + Head(a) && rest == Tail(a)
  {
    o, rest := ordered, a;
    if |a| > 0 { o, rest := ordered + [a[0]], a[1..]; }
  }

  lemma {:induction false} EmptyEnd(a: seq<Ip>)
    ensures Alternate(a, []) == a && Alternate([], a) == a
  {
  }

  function Head(a: seq<Ip>): seq<Ip> {
    if a == [] then [] else [a[0]]
  }

  function Tail(a: seq<Ip>): seq<Ip> {
    if a == [] then [] else a[1..]
  }

  /** One pass of the loop takes one address from each list that still has one. */
  lemma {:induction false} Turn(done: seq<Ip>, a: seq<Ip>, b: seq<Ip>)
    ensures done + Alternate(a, b) == (done + Head(a) + Head(b)) + Alternate(Tail(a), Tail(b))
    ensures a != [] || b != [] ==> |Tail(a)| + |Tail(b)| < |a| + |b|
  {
    if a != [] && b != [] {
      assert [a[0], b[0]] == [a[0]] + [b[0]];
    } else if a != [] {
      EmptyEnd(a[1..]);
      assert a == [a[0]] + a[1..];
    } else if b != [] {
      EmptyEnd(b[1..]);
      assert b == [b[0]] + b[1..];
    }
  }
}
