/** Wire: the arithmetic server `max(now, available) + delay`, its closed form, and the
    order of its deliveries. */
module Wire {
  import opened Options

  /** Nanoseconds to transmit `size` bytes at `bps` bits a second; 0 means no limit. */
  function TransDelay(size: nat, bps: nat): nat {
    if bps == 0 then 0 else size * 8 * 1_000_000_000 / bps
  }

  /** It is the whole number of nanoseconds in size * 8 bits at `bps` bits a second, the
      fraction dropped. */
  lemma TransDelayIs(size: nat, bps: nat)
    ensures bps == 0 ==> TransDelay(size, bps) == 0
    ensures bps > 0 ==> TransDelay(size, bps) * bps <= size * 8 * 1_000_000_000 < (TransDelay(size, bps) + 1) * bps
  {
    if bps > 0 {
      QuotientBounds(size * 8 * 1_000_000_000, bps);
    }
  }

  lemma QuotientBounds(bits: nat, bps: nat)
    requires bps > 0
    ensures (bits / bps) * bps <= bits < (bits / bps + 1) * bps
  {
  }

  function Max(a: nat, b: nat): nat {
    if a > b then a else b
  }

  /** One packet entering the wire: when, and how long it takes to transmit. */
  datatype Arrival = Arrival(time: nat, delay: nat)

  /** The wire's recursion: the value of nextAvailable after the given packets. */
  function Avail(init: nat, xs: seq<Arrival>): nat
    decreases |xs|
  {
    if xs == [] then init
    else Max(xs[|xs| - 1].time, Avail(init, xs[..|xs| - 1])) + xs[|xs| - 1].delay
  }

  function DelaysFrom(xs: seq<Arrival>, k: nat): nat
    requires k <= |xs|
    decreases |xs| - k
  {
    if k == |xs| then 0 else xs[k].delay + DelaysFrom(xs, k + 1)
  }

  lemma {:induction false} DelaysExtend(xs: seq<Arrival>, x: Arrival, k: nat)
    requires k <= |xs|
    ensures DelaysFrom(xs + [x], k) == DelaysFrom(xs, k) + x.delay
    decreases |xs| - k
  {
    if k < |xs| {
      DelaysExtend(xs, x, k + 1);
    } else {
      assert DelaysFrom(xs + [x], k + 1) == 0;
    }
  }

  /** nextAvailable is the largest of: the initial value plus all delays, and for each
      packet its arrival plus its own and all later delays. */
  ghost predicate IsBusyPeriodMax(init: nat, xs: seq<Arrival>, v: nat) {
    && init + DelaysFrom(xs, 0) <= v
    && (forall k :: 0 <= k < |xs| ==> xs[k].time + DelaysFrom(xs, k) <= v)
    && (v == init + DelaysFrom(xs, 0) || exists k :: 0 <= k < |xs| && v == xs[k].time + DelaysFrom(xs, k))
  }

  lemma {:induction false} ClosedForm(init: nat, xs: seq<Arrival>)
    ensures IsBusyPeriodMax(init, xs, Avail(init, xs))
    decreases |xs|
  {
    if xs != [] {
      var n := |xs| - 1;
      var ys, x := xs[..n], xs[n];
      assert xs == ys + [x];
      ClosedForm(init, ys);
      var u, v := Avail(init, ys), Avail(init, xs);
      forall k | 0 <= k <= n ensures DelaysFrom(xs, k) == DelaysFrom(ys, k) + x.delay {
        DelaysExtend(ys, x, k);
      }
      forall k | 0 <= k < |xs| ensures xs[k].time + DelaysFrom(xs, k) <= v {
        if k < n {
          assert ys[k].time + DelaysFrom(ys, k) <= u;
        }
      }
      if x.time > u {
        assert v == xs[n].time + DelaysFrom(xs, n);
      } else if u != init + DelaysFrom(ys, 0) {
        var k :| 0 <= k < |ys| && u == ys[k].time + DelaysFrom(ys, k);
        assert v == xs[k].time + DelaysFrom(xs, k);
      }
    }
  }

  /** The closed form determines the value. */
  lemma ClosedFormIsUnique(init: nat, xs: seq<Arrival>, v: nat)
    ensures IsBusyPeriodMax(init, xs, v) <==> v == Avail(init, xs)
  {
    ClosedForm(init, xs);
  }

  /** A starting value no later than the first packet makes no difference. */
  lemma {:induction false} InitialValueIsIrrelevant(init: nat, xs: seq<Arrival>)
    requires xs != [] && init <= xs[0].time
    ensures Avail(init, xs) == Avail(0, xs)
    decreases |xs|
  {
    var n := |xs| - 1;
    if n > 0 {
      InitialValueIsIrrelevant(init, xs[..n]);
    } else {
      assert xs[..0] == [];
      assert Avail(init, []) == init && Avail(0, []) == 0;
    }
  }

  // ----- Delivery order -----

  datatype Settings = Settings(propagation: nat, limited: bool)

  ghost predicate InOrder(xs: seq<Arrival>) {
    forall i, j :: 0 <= i < j < |xs| ==> xs[i].time <= xs[j].time
  }

  /** When packet `i` reaches the other end. */
  function DeliveryTime(s: Settings, init: nat, xs: seq<Arrival>, i: nat): nat
    requires i < |xs|
  {
    (if s.limited then Avail(init, xs[..i + 1]) else xs[i].time) + s.propagation
  }

  lemma {:induction false} AvailGrows(init: nat, xs: seq<Arrival>, i: nat, j: nat)
    requires i <= j <= |xs|
    ensures Avail(init, xs[..i]) <= Avail(init, xs[..j])
    decreases j - i
  {
    if i < j {
      AvailGrows(init, xs, i, j - 1);
      assert xs[..j][..j - 1] == xs[..j - 1];
    }
  }

  lemma DeliveriesNeverOvertake(s: Settings, init: nat, xs: seq<Arrival>, i: nat, j: nat)
    requires InOrder(xs) && i < j < |xs|
    ensures DeliveryTime(s, init, xs, i) <= DeliveryTime(s, init, xs, j)
  {
    AvailGrows(init, xs, i + 1, j + 1);
  }

  /** The delay given to the scheduler when the line is busy until `avail`. */
  function SendDelay(s: Settings, avail: nat, now: nat): nat
    requires avail >= now
  {
    if s.limited then avail + s.propagation - now else s.propagation
  }

  /** The end (0 is the left one) a sender's packets come out at; 0 is also no module. */
  function Opposite(left: nat, right: nat, from: nat): (d: Option<nat>)
    ensures d == Some(1) ==> left == from && right != 0
    ensures d == Some(0) ==> right == from && left != from && left != 0
    ensures d.Some? ==> d.value < 2
    ensures d.None? ==> (left == from ==> right == 0) && (right == from && left != from ==> left == 0)
  {
    var d := if left == from then 1 else if right == from then 0 else 2;
    if d == 2 || (if d == 0 then left else right) == 0 then None else Some(d)
  }

  // ----- The class -----

  function Arrivals(sizes: seq<nat>, times: seq<nat>, bps: nat): (xs: seq<Arrival>)
    requires |sizes| == |times|
    ensures |xs| == |sizes|
  {
    seq(|sizes|, i requires 0 <= i < |sizes| => Arrival(times[i], TransDelay(sizes[i], bps)))
  }

  datatype Delivery = Delivery(to: nat, delay: nat)

  class Wire {
    const connected: seq<nat>    // two module ids; 0 is no module
    var nextAvailable: array<nat>
    var propagationDelay: nat
    var bps: nat
    var limitSpeed: bool

    ghost predicate Valid()
      reads this
    {
      |connected| == 2 && nextAvailable.Length == 2
    }

    constructor (left: nat, right: nat, now: nat, propagationDelay: nat, bps: nat, limitSpeed: bool)
      ensures Valid() && connected == [left, right] && fresh(nextAvailable)
      ensures nextAvailable[0] == nextAvailable[1] == now
      ensures this.propagationDelay == propagationDelay && this.bps == bps && this.limitSpeed == limitSpeed
    {
      connected := [left, right];
      var a := new nat[2];
      a[0], a[1] := now, now;
      nextAvailable := a;
      this.propagationDelay, this.bps, this.limitSpeed := propagationDelay, bps, limitSpeed;
    }

    function Destination(from: nat): (d: Option<nat>)
      requires |connected| == 2
      ensures d.Some? ==> d.value < 2 && connected[1 - d.value] == from && connected[d.value] != 0
      ensures d.None? ==> from !in connected || 0 in connected
    {
      Opposite(connected[0], connected[1], from)
    }

    /** messageReceived.  The unsigned subtraction in the delay never underflows, and the
        receiver gets the packet `propagationDelay` after the transmission ends (or after
        now, without the speed limit). */
    method Receive(from: nat, size: nat, now: nat) returns (out: Option<Delivery>)
      requires Valid()
      modifies nextAvailable
      ensures out.Some? <==> Destination(from).Some?
      ensures out.None? ==> nextAvailable[..] == old(nextAvailable[..])
      ensures out.Some? ==> var d := Destination(from).value;
        && nextAvailable[d] == Max(now, old(nextAvailable[d])) + TransDelay(size, bps)
        && nextAvailable[1 - d] == old(nextAvailable[1 - d])
        && out.value.to == connected[d]
        && nextAvailable[d] >= now && out.value.delay == SendDelay(Settings(propagationDelay, limitSpeed), nextAvailable[d], now)
        && now + out.value.delay == (if limitSpeed then nextAvailable[d] else now) + propagationDelay
    {
      var destination := Destination(from);
      if destination.None? {
        return None;
      }
      var d := destination.value;
      var available := nextAvailable[d];
      if now > available {
        available := now;
      }
      available := available + TransDelay(size, bps);
      nextAvailable[d] := available;
      if limitSpeed {
        assert available + propagationDelay >= now;
        out := Some(Delivery(connected[d], available + propagationDelay - now));
      } else {
        out := Some(Delivery(connected[d], propagationDelay));
      }
    }

    /** A whole stream of packets in one direction: nextAvailable ends at the wire's
        recursion, and every packet is delivered at the time DeliveryTime says. */
    method ReceiveAll(from: nat, sizes: seq<nat>, times: seq<nat>) returns (delivered: seq<nat>)
      requires Valid() && Destination(from).Some? && |sizes| == |times|
      modifies nextAvailable
      ensures var d := Destination(from).value;
              var xs := Arrivals(sizes, times, bps);
        && nextAvailable[d] == Avail(old(nextAvailable[d]), xs)
        && nextAvailable[1 - d] == old(nextAvailable[1 - d])
        && |delivered| == |sizes|
        && forall i :: 0 <= i < |sizes| ==>
             delivered[i] == DeliveryTime(Settings(propagationDelay, limitSpeed), old(nextAvailable[d]), xs, i)
    {
      var d := Destination(from).value;
      ghost var init := nextAvailable[d];
      ghost var xs := Arrivals(sizes, times, bps);
      delivered := [];
      var n := 0;
      while n < |sizes|
        invariant n == |delivered| <= |sizes|
        invariant nextAvailable[d] == Avail(init, xs[..n]) && nextAvailable[1 - d] == old(nextAvailable[1 - d])
        invariant forall i :: 0 <= i < n ==> delivered[i] == DeliveryTime(Settings(propagationDelay, limitSpeed), init, xs, i)
      {
        var out := Receive(from, sizes[n], times[n]);
        assert xs[..n + 1][..n] == xs[..n] && xs[..n + 1][n] == Arrival(times[n], TransDelay(sizes[n], bps));
        delivered := delivered + [times[n] + out.value.delay];
        n := n + 1;
      }
      assert xs[..n] == xs;
    }
  }
}
