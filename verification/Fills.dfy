/** What an order's fills mean to a wallet: the per-fill events with their
    running totals, the one-shot feedback, and the later lifecycle updates. */
module Fills {
  import opened Prelude
  import opened Text

  datatype RawFill = RawFill(qty: real, price: real, fee: real, status: string)

  datatype Order = Order(id: string, side: string, origQty: real, status: string, price: real, avgPrice: real)

  /** The wallet-facing report of one fill; `qty` is signed, the rest is not. */
  datatype FillEvent = FillEvent(orderId: string, side: string, qty: real, fillPrice: real, status: string,
                                 fee: real, origQty: real, executedQty: real, remainingQty: real, price: real)

  const FUTURES_MARKETS := {"futures", "future", "usdm_futures", "perpetual_futures", "perp", "delivery_futures"}
  const MARKETS := FUTURES_MARKETS + {"spot"}
  const FILLED := "FILLED"
  const PARTIALLY_FILLED := "PARTIALLY_FILLED"
  const EXCHANGES := {"binance", "okx"}

  predicate IsFutures(market: string) { Lower(Strip(market)) in FUTURES_MARKETS }

  datatype Direction = Up | Down

  function Signed(direction: Direction, q: real): real { if direction.Up? then q else -q }

  /** Which way a fill of this side moves the wallet's quantity. A spot fill counts
      upwards on either side; a futures fill needs a proper side. */
  function DirectionOf(side: string, market: string): Option<Direction> {
    if !IsFutures(market) || Strip(Upper(side)) == "BUY" then Some(Up)
    else if Strip(Upper(side)) == "SELL" then Some(Down)
    else None
  }

  /** A futures fill goes down on SELL, up on BUY and nowhere otherwise; any other
      fill goes up. */
  lemma DirectionMeans(side: string, market: string)
    ensures var futures := Lower(Strip(market)) in
                             {"futures", "future", "usdm_futures", "perpetual_futures", "perp", "delivery_futures"};
            DirectionOf(side, market) ==
              if futures && Strip(Upper(side)) == "SELL" then Some(Down)
              else if futures && Strip(Upper(side)) != "BUY" then None
              else Some(Up)
    ensures forall q: real :: Signed(Up, q) == q && Signed(Down, q) == -q
  {
    hide Strip, Upper, Lower;
    assert "BUY"[0] != "SELL"[0];
  }

  /** The signed quantity of a fill on its way into the wallet. */
  method WalletQty(qty: real, side: string, market: string) returns (r: Result<real>)
    ensures r.Raised? <==> DirectionOf(side, market).None?
    ensures r.Ok? ==> r.value == Signed(DirectionOf(side, market).value, Abs(qty))
    ensures r.Ok? ==> Abs(r.value) == Abs(qty)
    ensures var futures := Lower(Strip(market)) in
                             {"futures", "future", "usdm_futures", "perpetual_futures", "perp", "delivery_futures"};
            && (!futures ==> r == Ok(Abs(qty)))
            && (futures && Strip(Upper(side)) == "BUY" ==> r == Ok(Abs(qty)))
            && (futures && Strip(Upper(side)) == "SELL" ==> r == Ok(-Abs(qty)))
            && (futures && Strip(Upper(side)) !in {"BUY", "SELL"} ==> r.Raised?)
  {
    DirectionMeans(side, market);
    hide Strip, Upper, Lower;
    var q := Abs(qty);
    if !IsFutures(market) {
      return Ok(q);
    }
    var sideUpper := Strip(Upper(side));
    if sideUpper == "BUY" {
      return Ok(q);
    }
    if sideUpper == "SELL" {
      return Ok(-q);
    }
    return Raised("unsupported order side");
  }

  // ----- what the fills of an order mean -----

  /** A fill whose fee or quantity is still to come. */
  predicate Pending(fill: RawFill) {
    Upper(Strip(fill.status)) in {"FEE_MISSING", "FILL_PENDING"}
  }

  function OrderSide(order: Order, fallbackSide: string): string {
    Strip(if order.side != "" then order.side else fallbackSide)
  }

  /** The total filled by `fills`, sign ignored. */
  function Executed(fills: seq<RawFill>): (total: real)
    ensures total >= 0.0
  {
    if fills == [] then 0.0 else Executed(fills[..|fills| - 1]) + Abs(fills[|fills| - 1].qty)
  }

  function FinalStatus(order: Order): string { Upper(Strip(order.status)) }

  /** Only the very last raw fill may carry FILLED. */
  function StatusOf(order: Order, isLast: bool): (status: string)
    ensures status == FILLED <==> FinalStatus(order) == FILLED && isLast
    ensures status != ""
    ensures FinalStatus(order) != FILLED && FinalStatus(order) != "" ==> status == FinalStatus(order)
  {
    assert FILLED[0] != PARTIALLY_FILLED[0];
    if FinalStatus(order) == "" || (FinalStatus(order) == FILLED && !isLast) then PARTIALLY_FILLED
    else FinalStatus(order)
  }

  /** The event of fill `k`: the totals count everything up to and with it. */
  function EventOf(order: Order, side: string, direction: Direction, fills: seq<RawFill>, k: nat): FillEvent
    requires k < |fills|
  {
    var orig, done := Abs(order.origQty), Executed(fills[..k + 1]);
    FillEvent(order.id, side, Signed(direction, Abs(fills[k].qty)), fills[k].price,
              StatusOf(order, k + 1 == |fills|),
              fills[k].fee, orig, done,
              if orig > done then orig - done else 0.0, order.price)
  }

  /** The events of the first `n` fills: one for each that moves anything. */
  function EventsUpTo(order: Order, side: string, direction: Direction, fills: seq<RawFill>, n: nat): seq<FillEvent>
    requires n <= |fills|
  {
    if n == 0 then []
    else EventsUpTo(order, side, direction, fills, n - 1)
         + (if fills[n - 1].qty == 0.0 then [] else [EventOf(order, side, direction, fills, n - 1)])
  }

  lemma EventsSnoc(order: Order, side: string, direction: Direction, fills: seq<RawFill>, n: nat)
    requires n < |fills|
    ensures EventsUpTo(order, side, direction, fills, n + 1)
         == if fills[n].qty == 0.0 then EventsUpTo(order, side, direction, fills, n)
            else EventsUpTo(order, side, direction, fills, n) + [EventOf(order, side, direction, fills, n)]
    ensures Executed(fills[..n + 1]) == Executed(fills[..n]) + Abs(fills[n].qty)
  {
    assert fills[..n + 1][..n] == fills[..n];
  }

  ghost predicate Moves(fills: seq<RawFill>) { exists k :: 0 <= k < |fills| && fills[k].qty != 0.0 }

  ghost predicate AnyPending(fills: seq<RawFill>) { exists k :: 0 <= k < |fills| && Pending(fills[k]) }

  /** The event of one fill, from the total so far. */
  method MakeEvent(order: Order, side: string, market: string, fills: seq<RawFill>, k: nat, executed: real)
    returns (r: Result<FillEvent>)
    requires k < |fills| && executed == Executed(fills[..k + 1])
    ensures r.Raised? <==> DirectionOf(side, market).None?
    ensures r.Ok? ==> r.value == EventOf(order, side, DirectionOf(side, market).value, fills, k)
  {
    hide Strip, Upper, Executed, IsFutures, DirectionOf;
    var orig, finalStatus := Abs(order.origQty), FinalStatus(order);
    var remaining := 0.0;
    if orig > 0.0 && orig - executed > 0.0 {
      remaining := orig - executed;
    }
    var status := finalStatus;
    if k < |fills| - 1 && finalStatus == FILLED {
      status := PARTIALLY_FILLED;
    }
    if status == "" {
      status := PARTIALLY_FILLED;
    }
    assert status == StatusOf(order, k + 1 == |fills|);
    var qty := WalletQty(Abs(fills[k].qty), side, market);
    if qty.Raised? {
      return Raised(qty.error);
    }
    return Ok(FillEvent(order.id, side, qty.value, fills[k].price, status, fills[k].fee,
                        orig, executed, remaining, order.price));
  }

  /** Nothing while any fill is pending; otherwise one event for each fill that
      moves something. It raises exactly for a futures order without a side. */
  method BuildFillEvents(order: Order, fills: seq<RawFill>, fallbackSide: string, market: string)
    returns (r: Result<seq<FillEvent>>)
    ensures r.Raised? <==>
              !AnyPending(fills) && Moves(fills) && DirectionOf(OrderSide(order, fallbackSide), market).None?
    ensures AnyPending(fills) ==> r == Ok([])
    ensures !Moves(fills) ==> r == Ok([])
    ensures r.Ok? && !AnyPending(fills) && Moves(fills) ==>
              r.value == EventsUpTo(order, OrderSide(order, fallbackSide),
                                    DirectionOf(OrderSide(order, fallbackSide), market).value, fills, |fills|)
    ensures var pending :=
              (exists k :: 0 <= k < |fills| && Upper(Strip(fills[k].status)) in {"FEE_MISSING", "FILL_PENDING"});
            var moves := exists k :: 0 <= k < |fills| && fills[k].qty != 0.0;
            var side := Strip(if order.side != "" then order.side else fallbackSide);
            var futures := Lower(Strip(market)) in
                             {"futures", "future", "usdm_futures", "perpetual_futures", "perp", "delivery_futures"};
            && (r.Raised? <==> !pending && moves && futures && Strip(Upper(side)) !in {"BUY", "SELL"})
            && (pending ==> r == Ok([]))
  {
    hide *;
    var side := OrderSide(order, fallbackSide);
    var pending := HasPending(fills);
    ghost var direction := DirectionOf(side, market);
    PlainFills(order, fills, fallbackSide);
    DirectionMeans(side, market);
    if pending {
      return Ok([]);
    }
    var events, executed := [], 0.0;
    SoFarStart(order, side, direction, fills);
    for index := 0 to |fills|
      invariant SoFar(order, side, direction, fills, index, events, executed)
    {
      var raw := Abs(fills[index].qty);
      SoFarStep(order, side, direction, fills, index, events, executed);
      if raw > 0.0 {
        executed := executed + raw;
        var e := MakeEvent(order, side, market, fills, index, executed);
        if e.Raised? {
          MovesMonotone(fills, index + 1);
          return Raised(e.error);
        }
        events := events + [e.value];
      }
    }
    SoFarEnd(order, side, direction, fills, events, executed);
    return Ok(events);
  }

  /** Pending fills, moving fills and the order's side, spelled out. */
  lemma PlainFills(order: Order, fills: seq<RawFill>, fallbackSide: string)
    ensures AnyPending(fills) <==>
              exists k :: 0 <= k < |fills| && Upper(Strip(fills[k].status)) in {"FEE_MISSING", "FILL_PENDING"}
    ensures Moves(fills) <==> exists k :: 0 <= k < |fills| && fills[k].qty != 0.0
    ensures OrderSide(order, fallbackSide) == Strip(if order.side != "" then order.side else fallbackSide)
    ensures FinalStatus(order) == Upper(Strip(order.status))
  {
    hide Upper, Strip;
    if k :| 0 <= k < |fills| && Upper(Strip(fills[k].status)) in {"FEE_MISSING", "FILL_PENDING"} {
      assert Pending(fills[k]);
    }
  }

  /** What an event says of its fill, given the total before it. */
  ghost predicate Reports(e: FillEvent, before: real, order: Order, side: string, direction: Direction, fill: RawFill,
                          isLast: bool)
  {
    && e.orderId == order.id && e.side == side && e.price == order.price
    && e.fillPrice == fill.price && e.fee == fill.fee
    && e.qty == (if direction == Down then -Abs(fill.qty) else Abs(fill.qty))
    && e.executedQty == before + Abs(fill.qty)
    && e.origQty == Abs(order.origQty)
    && e.remainingQty == (if e.origQty > e.executedQty then e.origQty - e.executedQty else 0.0)
    && e.status == if FinalStatus(order) == "" || (FinalStatus(order) == "FILLED" && !isLast) then "PARTIALLY_FILLED"
                   else FinalStatus(order)
  }

  lemma EventReports(order: Order, side: string, direction: Direction, fills: seq<RawFill>, k: nat)
    requires k < |fills|
    ensures Reports(EventOf(order, side, direction, fills, k), Executed(fills[..k]), order, side, direction, fills[k],
                    k + 1 == |fills|)
  {
    EventsSnoc(order, side, direction, fills, k);
    hide FinalStatus, Executed, EventsUpTo;
  }

  /** `idx` lists the moving ones among the first `n` fills, in order. */
  ghost predicate MovingOnes(fills: seq<RawFill>, n: nat, idx: seq<nat>)
    requires n <= |fills|
  {
    && (forall i, j :: 0 <= i < j < |idx| ==> idx[i] < idx[j])
    && (forall i :: 0 <= i < |idx| ==> idx[i] < n)
    && (forall k: nat :: k < n ==> (fills[k].qty != 0.0 <==> k in idx))
  }

  /** Each event reports the fill that `idx` names. */
  ghost predicate AllReport(order: Order, side: string, direction: Direction, fills: seq<RawFill>,
                            events: seq<FillEvent>, idx: seq<nat>)
  {
    && |idx| == |events|
    && forall i: nat :: i < |events| ==>
         idx[i] < |fills|
         && Reports(events[i], TotalBefore(events, i), order, side, direction, fills[idx[i]], idx[i] + 1 == |fills|)
  }

  ghost function TotalBefore(events: seq<FillEvent>, i: nat): real
    requires i <= |events|
  {
    if i == 0 then 0.0 else events[i - 1].executedQty
  }

  lemma {:induction false} PlainEvents(order: Order, side: string, direction: Direction, fills: seq<RawFill>, n: nat)
    returns (idx: seq<nat>)
    requires n <= |fills|
    ensures MovingOnes(fills, n, idx)
    ensures AllReport(order, side, direction, fills, EventsUpTo(order, side, direction, fills, n), idx)
  {
    hide *;
    NoEvents(order, side, direction, fills);
    idx := [];
    if n == 0 {
      NothingReported(order, side, direction, fills);
    } else {
      idx := PlainEvents(order, side, direction, fills, n - 1);
      EventsSnoc(order, side, direction, fills, n - 1);
      EventReports(order, side, direction, fills, n - 1);
      TotalsAddUp(order, side, direction, fills, n - 1);
      OneMoreMoving(fills, n - 1, idx);
      OneMoreReported(order, side, direction, fills, n - 1, EventsUpTo(order, side, direction, fills, n - 1), idx,
                      EventOf(order, side, direction, fills, n - 1));
      if fills[n - 1].qty != 0.0 {
        idx := idx + [n - 1];
      }
    }
  }

  lemma NothingReported(order: Order, side: string, direction: Direction, fills: seq<RawFill>)
    ensures MovingOnes(fills, 0, []) && AllReport(order, side, direction, fills, [], [])
  {
  }

  lemma OneMoreMoving(fills: seq<RawFill>, n: nat, idx: seq<nat>)
    requires n < |fills| && MovingOnes(fills, n, idx)
    ensures MovingOnes(fills, n + 1, if fills[n].qty == 0.0 then idx else idx + [n])
  {
    var longer := idx + [n];
    assert longer[|idx|] == n && n !in idx;
    assert forall k :: k in longer <==> k in idx || k == n;
  }

  lemma OneMoreReported(order: Order, side: string, direction: Direction, fills: seq<RawFill>, n: nat,
                        events: seq<FillEvent>, idx: seq<nat>, e: FillEvent)
    requires n < |fills| && AllReport(order, side, direction, fills, events, idx)
    requires Reports(e, LastExecuted(events), order, side, direction, fills[n], n + 1 == |fills|)
    ensures AllReport(order, side, direction, fills, events + [e], idx + [n])
  {
    hide Reports;
    var longer, more := idx + [n], events + [e];
    forall i: nat | i < |more|
      ensures longer[i] < |fills|
              && Reports(more[i], TotalBefore(more, i), order, side, direction, fills[longer[i]],
                         longer[i] + 1 == |fills|)
    {
      assert TotalBefore(more, i) == TotalBefore(events, i);
      assert TotalBefore(events, |events|) == LastExecuted(events);
      hide TotalBefore, LastExecuted;
      if i < |events| {
        assert more[i] == events[i] && longer[i] == idx[i];
      }
    }
  }

  /** The events in plain terms: one for each fill that moves something, in order
      (`idx` says which). Every event quotes its own fill and the order, its quantity
      goes down only for a futures SELL, and its total is the one before it plus its
      own size. */
  lemma EventsInPlainTerms(order: Order, fallbackSide: string, market: string, fills: seq<RawFill>)
    returns (events: seq<FillEvent>, idx: seq<nat>)
    requires DirectionOf(OrderSide(order, fallbackSide), market).Some?
    ensures events == EventsUpTo(order, OrderSide(order, fallbackSide),
                                 DirectionOf(OrderSide(order, fallbackSide), market).value, fills, |fills|)
    ensures var side := Strip(if order.side != "" then order.side else fallbackSide);
            var futures := Lower(Strip(market)) in
                             {"futures", "future", "usdm_futures", "perpetual_futures", "perp", "delivery_futures"};
            && |idx| == |events|
            && (forall i, j :: 0 <= i < j < |idx| ==> idx[i] < idx[j])
            && (forall k: nat :: k < |fills| ==> (fills[k].qty != 0.0 <==> k in idx))
            && (forall i: nat :: i < |events| ==>
                  && idx[i] < |fills|
                  && var e, fill := events[i], fills[idx[i]];
                  && e.orderId == order.id && e.side == side && e.price == order.price
                  && e.fillPrice == fill.price && e.fee == fill.fee
                  && e.qty == (if futures && Strip(Upper(side)) == "SELL" then -Abs(fill.qty) else Abs(fill.qty))
                  && e.executedQty == (if i == 0 then 0.0 else events[i - 1].executedQty) + Abs(fill.qty)
                  && e.origQty == Abs(order.origQty)
                  && (e.origQty > e.executedQty ==> e.remainingQty == e.origQty - e.executedQty)
                  && (e.origQty <= e.executedQty ==> e.remainingQty == 0.0)
                  && var final := Upper(Strip(order.status));
                     e.status == if final == "" || (final == "FILLED" && idx[i] + 1 < |fills|)
                                 then "PARTIALLY_FILLED" else final)
  {
    hide FinalStatus, OrderSide, DirectionOf, Strip, Upper, Lower, EventsUpTo;
    PlainFills(order, fills, fallbackSide);
    DirectionMeans(OrderSide(order, fallbackSide), market);
    var direction := DirectionOf(OrderSide(order, fallbackSide), market).value;
    events := EventsUpTo(order, OrderSide(order, fallbackSide), direction, fills, |fills|);
    idx := PlainEvents(order, OrderSide(order, fallbackSide), direction, fills, |fills|);
    forall i: nat | i < |events|
      ensures idx[i] < |fills|
              && Reports(events[i], if i == 0 then 0.0 else events[i - 1].executedQty, order,
                         OrderSide(order, fallbackSide), DirectionOf(OrderSide(order, fallbackSide), market).value,
                         fills[idx[i]], idx[i] + 1 == |fills|)
    {
      assert TotalBefore(events, i) == if i == 0 then 0.0 else events[i - 1].executedQty;
    }
  }

  method HasPending(fills: seq<RawFill>) returns (any: bool)
    ensures any <==> AnyPending(fills)
  {
    for k := 0 to |fills|
      invariant forall i :: 0 <= i < k ==> !Pending(fills[i])
    {
      if Pending(fills[k]) {
        return true;
      }
    }
    return false;
  }

  /** What the loop has built after the first `n` fills. */
  ghost predicate SoFar(order: Order, side: string, direction: Option<Direction>, fills: seq<RawFill>, n: nat,
                        events: seq<FillEvent>, executed: real)
    requires n <= |fills|
  {
    && executed == Executed(fills[..n])
    && (direction.Some? ==> events == EventsUpTo(order, side, direction.value, fills, n))
    && (direction.None? ==> !Moves(fills[..n]))
    && (!Moves(fills[..n]) ==> events == [])
  }

  lemma SoFarStart(order: Order, side: string, direction: Option<Direction>, fills: seq<RawFill>)
    ensures SoFar(order, side, direction, fills, 0, [], 0.0)
  {
    assert fills[..0] == [];
  }

  lemma SoFarEnd(order: Order, side: string, direction: Option<Direction>, fills: seq<RawFill>,
                 events: seq<FillEvent>, executed: real)
    requires SoFar(order, side, direction, fills, |fills|, events, executed)
    ensures direction.Some? ==> events == EventsUpTo(order, side, direction.value, fills, |fills|)
    ensures direction.None? ==> !Moves(fills)
    ensures !Moves(fills) ==> events == []
  {
    assert fills[..|fills|] == fills;
  }

  lemma SoFarStep(order: Order, side: string, direction: Option<Direction>, fills: seq<RawFill>, n: nat,
                  events: seq<FillEvent>, executed: real)
    requires n < |fills| && SoFar(order, side, direction, fills, n, events, executed)
    ensures Abs(fills[n].qty) <= 0.0 ==> SoFar(order, side, direction, fills, n + 1, events, executed)
    ensures Abs(fills[n].qty) > 0.0 ==>
              && Moves(fills[..n + 1])
              && executed + Abs(fills[n].qty) == Executed(fills[..n + 1])
              && (direction.Some? ==>
                    SoFar(order, side, direction, fills, n + 1,
                          events + [EventOf(order, side, direction.value, fills, n)], executed + Abs(fills[n].qty)))
  {
    MovesSnoc(fills, n);
    assert fills[..n + 1][..n] == fills[..n];
    if direction.Some? {
      EventsSnoc(order, side, direction.value, fills, n);
    }
    hide EventsUpTo, Moves, EventOf;
  }

  lemma MovesSnoc(fills: seq<RawFill>, k: nat)
    requires k < |fills|
    ensures Moves(fills[..k + 1]) <==> Moves(fills[..k]) || fills[k].qty != 0.0
  {
    var longer := fills[..k + 1];
    if Moves(fills[..k]) {
      var i :| 0 <= i < k && fills[..k][i].qty != 0.0;
      assert longer[i].qty != 0.0;
    }
    assert longer[k] == fills[k];
    if Moves(longer) && fills[k].qty == 0.0 {
      var i :| 0 <= i < |longer| && longer[i].qty != 0.0;
      assert fills[..k][i].qty != 0.0;
    }
  }

  lemma MovesMonotone(fills: seq<RawFill>, k: nat)
    requires k <= |fills| && Moves(fills[..k])
    ensures Moves(fills)
  {
    var i :| 0 <= i < k && fills[..k][i].qty != 0.0;
    assert fills[i].qty != 0.0;
  }

  // ----- what the events add up to -----

  /** The last total reported, or zero. */
  function LastExecuted(events: seq<FillEvent>): real {
    if events == [] then 0.0 else events[|events| - 1].executedQty
  }

  /** Each event's total is the one before it plus its own fill. */
  ghost predicate RunningTotals(events: seq<FillEvent>) {
    forall i :: 0 <= i < |events| ==>
      events[i].executedQty == LastExecuted(events[..i]) + Abs(events[i].qty) && Abs(events[i].qty) > 0.0
  }

  lemma RunningTotalsSnoc(events: seq<FillEvent>, e: FillEvent)
    requires RunningTotals(events) && e.executedQty == LastExecuted(events) + Abs(e.qty) && Abs(e.qty) > 0.0
    ensures RunningTotals(events + [e])
  {
    var longer := events + [e];
    forall i | 0 <= i < |longer|
      ensures longer[i].executedQty == LastExecuted(longer[..i]) + Abs(longer[i].qty) && Abs(longer[i].qty) > 0.0
    {
      assert longer[..i] == events[..i];
      assert events[..|events|] == events;
    }
  }

  /** What one more fill adds: nothing, or one event of its own size. */
  lemma EventStep(order: Order, side: string, direction: Direction, fills: seq<RawFill>, n: nat)
    returns (before: seq<FillEvent>, e: FillEvent)
    requires n < |fills|
    ensures before == EventsUpTo(order, side, direction, fills, n)
    ensures fills[n].qty == 0.0 ==>
              && EventsUpTo(order, side, direction, fills, n + 1) == before
              && Executed(fills[..n + 1]) == Executed(fills[..n])
    ensures fills[n].qty != 0.0 ==>
              && EventsUpTo(order, side, direction, fills, n + 1) == before + [e]
              && e.executedQty == Executed(fills[..n + 1]) == Executed(fills[..n]) + Abs(e.qty)
              && Abs(e.qty) > 0.0 && e.qty == Signed(direction, Abs(e.qty))
  {
    before := EventsUpTo(order, side, direction, fills, n);
    e := EventOf(order, side, direction, fills, n);
    EventsSnoc(order, side, direction, fills, n);
    hide EventsUpTo, Executed, StatusOf;
  }

  /** The totals run strictly upwards by each fill's size and end at the sum of
      all fills: no fill is lost or counted twice. */
  lemma {:induction false} TotalsAddUp(order: Order, side: string, direction: Direction, fills: seq<RawFill>, n: nat)
    requires n <= |fills|
    ensures RunningTotals(EventsUpTo(order, side, direction, fills, n))
    ensures LastExecuted(EventsUpTo(order, side, direction, fills, n)) == Executed(fills[..n])
  {
    if n > 0 {
      TotalsAddUp(order, side, direction, fills, n - 1);
      var before, e := EventStep(order, side, direction, fills, n - 1);
      hide *;
      if fills[n - 1].qty != 0.0 {
        RunningTotalsSnoc(before, e);
        LastOfSnoc(before, e);
      }
    }
  }

  lemma LastOfSnoc(events: seq<FillEvent>, e: FillEvent)
    ensures LastExecuted(events + [e]) == e.executedQty
  {
    assert (events + [e])[|events|] == e;
  }

  lemma {:induction false} TotalsIncrease(events: seq<FillEvent>, i: nat, j: nat)
    requires RunningTotals(events) && i < j < |events|
    ensures events[i].executedQty < events[j].executedQty
    decreases j
  {
    assert LastExecuted(events[..j]) == events[j - 1].executedQty;
    if i < j - 1 {
      TotalsIncrease(events, i, j - 1);
    }
  }

  lemma NoEvents(order: Order, side: string, direction: Direction, fills: seq<RawFill>)
    ensures EventsUpTo(order, side, direction, fills, 0) == []
  {
  }

  /** Every event is the event of one fill that moves something. */
  lemma {:induction false} EventsComeFromFills(order: Order, side: string, direction: Direction,
                                               fills: seq<RawFill>, n: nat, i: nat)
    returns (k: nat)
    requires n <= |fills| && i < |EventsUpTo(order, side, direction, fills, n)|
    ensures k < n && fills[k].qty != 0.0
    ensures EventsUpTo(order, side, direction, fills, n)[i] == EventOf(order, side, direction, fills, k)
  {
    hide *;
    NoEvents(order, side, direction, fills);
    EventsSnoc(order, side, direction, fills, n - 1);
    if i < |EventsUpTo(order, side, direction, fills, n - 1)| {
      k := EventsComeFromFills(order, side, direction, fills, n - 1, i);
    } else {
      k := n - 1;
    }
  }

  /** What is left and what is done make up the order, until it is overfilled;
      from then on nothing is left. Without an order size nothing is left. */
  lemma RemainingIsTheRest(order: Order, side: string, direction: Direction, fills: seq<RawFill>, i: nat)
    requires i < |EventsUpTo(order, side, direction, fills, |fills|)|
    ensures var e := EventsUpTo(order, side, direction, fills, |fills|)[i];
            && e.origQty == Abs(order.origQty)
            && (e.executedQty <= e.origQty ==> e.executedQty + e.remainingQty == e.origQty)
            && (e.executedQty >= e.origQty ==> e.remainingQty == 0.0)
  {
    var k := EventsComeFromFills(order, side, direction, fills, |fills|, i);
    hide EventsUpTo, Executed, StatusOf;
  }

  /** The signed total of some events. */
  function TotalQty(events: seq<FillEvent>): real {
    if events == [] then 0.0 else TotalQty(events[..|events| - 1]) + events[|events| - 1].qty
  }

  function TotalFee(events: seq<FillEvent>): real {
    if events == [] then 0.0 else TotalFee(events[..|events| - 1]) + events[|events| - 1].fee
  }

  lemma TotalsSnoc(events: seq<FillEvent>, e: FillEvent)
    ensures TotalQty(events + [e]) == TotalQty(events) + e.qty
    ensures TotalFee(events + [e]) == TotalFee(events) + e.fee
    ensures TotalQty([]) == TotalFee([]) == 0.0
  {
    assert (events + [e])[..|events|] == events;
  }

  /** The signed total is the sum of all fills, with one sign. */
  lemma {:induction false} SignedTotal(order: Order, side: string, direction: Direction, fills: seq<RawFill>, n: nat)
    requires n <= |fills|
    ensures TotalQty(EventsUpTo(order, side, direction, fills, n)) == Signed(direction, Executed(fills[..n]))
  {
    hide *;
    if n > 0 {
      SignedTotal(order, side, direction, fills, n - 1);
      var before, e := EventStep(order, side, direction, fills, n - 1);
      SignedAdds(direction, Executed(fills[..n - 1]), Abs(e.qty));
      if fills[n - 1].qty != 0.0 {
        TotalsSnoc(before, e);
      }
    } else {
      NoEvents(order, side, direction, fills);
      NothingFilled(direction);
      assert fills[..n] == [];
    }
  }

  lemma NothingFilled(direction: Direction)
    ensures Executed([]) == 0.0 && TotalQty([]) == 0.0 && Signed(direction, 0.0) == 0.0
  {
  }

  lemma SignedAdds(direction: Direction, a: real, b: real)
    ensures Signed(direction, a + b) == Signed(direction, a) + Signed(direction, b)
  {
  }

  /** An event says FILLED exactly if the order ended FILLED and its last raw
      fill moved something, and then only the last event says so. An order whose
      last raw fill has no quantity never reports FILLED. */
  lemma {:induction false} WhoSaysFilled(order: Order, side: string, direction: Direction, fills: seq<RawFill>, n: nat)
    requires n <= |fills|
    ensures var events := EventsUpTo(order, side, direction, fills, n);
            forall i :: 0 <= i < |events| ==>
              (events[i].status == FILLED <==>
                 FinalStatus(order) == FILLED && n == |fills| && fills[n - 1].qty != 0.0 && i == |events| - 1)
  {
    hide *;
    NoEvents(order, side, direction, fills);
    if n > 0 {
      WhoSaysFilled(order, side, direction, fills, n - 1);
      EventsSnoc(order, side, direction, fills, n - 1);
      StatusOfEvent(order, side, direction, fills, n - 1);
    }
  }

  lemma StatusOfEvent(order: Order, side: string, direction: Direction, fills: seq<RawFill>, k: nat)
    requires k < |fills|
    ensures EventOf(order, side, direction, fills, k).status == FILLED <==>
              FinalStatus(order) == FILLED && k + 1 == |fills|
  {
    hide StatusOf, FinalStatus, Executed;
  }

  lemma FilledNeedsLastFill(order: Order, side: string, direction: Direction, fills: seq<RawFill>)
    ensures var events := EventsUpTo(order, side, direction, fills, |fills|);
            (exists i :: 0 <= i < |events| && events[i].status == FILLED) <==>
            FinalStatus(order) == FILLED && fills != [] && fills[|fills| - 1].qty != 0.0
  {
    WhoSaysFilled(order, side, direction, fills, |fills|);
    var events := EventsUpTo(order, side, direction, fills, |fills|);
    if fills != [] && fills[|fills| - 1].qty != 0.0 {
      EventsSnoc(order, side, direction, fills, |fills| - 1);
      assert events[|events| - 1] == EventOf(order, side, direction, fills, |fills| - 1);
    }
  }

  /** An order that ended FILLED after a real fill and an empty one: its only event
      says PARTIALLY_FILLED. */
  lemma EmptyLastFillHidesFilled()
    ensures var order := Order("1", "BUY", 1.0, "FILLED", 0.0, 0.0);
            var fills := [RawFill(1.0, 10.0, 0.0, ""), RawFill(0.0, 10.0, 0.0, "")];
            var events := EventsUpTo(order, "BUY", Up, fills, |fills|);
            FinalStatus(order) == FILLED && |events| == 1 && events[0].status == PARTIALLY_FILLED
  {
    var order := Order("1", "BUY", 1.0, "FILLED", 0.0, 0.0);
    var fills := [RawFill(1.0, 10.0, 0.0, ""), RawFill(0.0, 10.0, 0.0, "")];
    assert Strip("FILLED") == "FILLED" && Upper("FILLED") == "FILLED";
    hide Strip, Upper;
    EventsSnoc(order, "BUY", Up, fills, 1);
    EventsSnoc(order, "BUY", Up, fills, 0);
    NoEvents(order, "BUY", Up, fills);
  }

  lemma LastTotal(events: seq<FillEvent>)
    ensures LastExecuted(events) == if events == [] then 0.0 else events[|events| - 1].executedQty
    ensures events == [] ==> TotalQty(events) == TotalFee(events) == 0.0
  {
  }

  // ----- the one-shot feedback -----

  datatype Feedback = Feedback(fillCount: nat, deltaQty: real, fee: real, fillPrice: real, events: seq<FillEvent>)

  /** The feedback of a response that carries an order. Its delta is everything
      filled, signed by side and market, and equals the last total it reports. */
  method FeedbackFromResponse(order: Order, fills: seq<RawFill>, decisionSide: string, market: string)
    returns (r: Result<Feedback>)
    ensures r.Raised? <==>
              !AnyPending(fills) && Moves(fills) && DirectionOf(OrderSide(order, decisionSide), market).None?
    ensures r.Ok? && AnyPending(fills) ==> r.value.events == [] && r.value.deltaQty == 0.0 && r.value.fee == 0.0
    ensures r.Ok? && !AnyPending(fills) && Moves(fills) ==>
              var direction := DirectionOf(OrderSide(order, decisionSide), market).value;
              && r.value.deltaQty == Signed(direction, Executed(fills))
              && r.value.deltaQty == Signed(direction, LastExecuted(r.value.events))
              && RunningTotals(r.value.events)
    ensures r.Ok? && !Moves(fills) ==> r.value.events == [] && r.value.deltaQty == 0.0 && r.value.fee == 0.0
    ensures r.Ok? ==> r.value.fillCount == |r.value.events| && r.value.fee == TotalFee(r.value.events)
    ensures r.Ok? ==>
              var events := r.value.events;
              var filled := if events == [] then 0.0 else events[|events| - 1].executedQty;
              var side := Strip(if order.side != "" then order.side else decisionSide);
              var futures := Lower(Strip(market)) in
                               {"futures", "future", "usdm_futures", "perpetual_futures", "perp", "delivery_futures"};
              r.value.deltaQty == if futures && Strip(Upper(side)) == "SELL" then -filled else filled
    ensures r.Ok? ==> r.value.fillPrice ==
                        if r.value.events != [] && r.value.events[|r.value.events| - 1].fillPrice != 0.0
                        then r.value.events[|r.value.events| - 1].fillPrice else order.avgPrice
  {
    hide *;
    PlainFills(order, fills, decisionSide);
    DirectionMeans(OrderSide(order, decisionSide), market);
    var built := BuildFillEvents(order, fills, decisionSide, market);
    if built.Raised? {
      return Raised(built.error);
    }
    var events := built.value;
    LastTotal(events);
    var price := order.avgPrice;
    if events != [] && events[|events| - 1].fillPrice != 0.0 {
      price := events[|events| - 1].fillPrice;
    }
    ghost var side := OrderSide(order, decisionSide);
    if DirectionOf(side, market).Some? {
      SignedTotal(order, side, DirectionOf(side, market).value, fills, |fills|);
      TotalsAddUp(order, side, DirectionOf(side, market).value, fills, |fills|);
      assert fills[..|fills|] == fills;
    }
    return Ok(Feedback(|events|, TotalQty(events), TotalFee(events), price, events));
  }

  // ----- the same fill, arriving later as a lifecycle update -----

  datatype UpdateFill = UpdateFill(qty: real, price: real, fee: real, feeMissing: bool)

  datatype Update = Update(kind: string, exchange: string, market: string, side: string, orderId: string,
                           orderStatus: string, fill: Option<UpdateFill>,
                           origQty: real, executedQty: real, remainingQty: real, avgPrice: real)

  predicate IsFillUpdate(u: Update) {
    && Lower(Strip(u.kind)) in {"fill", "liquidation"}
    && u.fill.Some? && !u.fill.value.feeMissing && u.fill.value.qty != 0.0
  }

  predicate KnownRoute(u: Update) {
    && Lower(Strip(u.exchange)) in EXCHANGES && Lower(Strip(u.market)) in MARKETS
    && DirectionOf(u.side, u.market).Some?
  }

  /** The wallet change an update stands for, with the missing totals filled in:
      nothing for other updates, an error for an unknown route or side. */
  method OrderResponseFromUpdate(u: Update) returns (r: Result<Option<FillEvent>>)
    ensures r.Raised? <==> IsFillUpdate(u) && !KnownRoute(u)
    ensures !IsFillUpdate(u) ==> r == Ok(None)
    ensures r.Ok? && r.value.Some? ==> IsFillUpdate(u) && KnownRoute(u)
    ensures IsFillUpdate(u) && KnownRoute(u) ==> r == Ok(Some(UpdateEvent(u)))
  {
    hide Strip, StripLeft, StripRight, Lower, Upper;
    if Lower(Strip(u.kind)) !in {"fill", "liquidation"} || u.fill.None? {
      return Ok(None);
    }
    if u.fill.value.feeMissing {
      return Ok(None);
    }
    var raw := Abs(u.fill.value.qty);
    if raw <= 0.0 {
      return Ok(None);
    }
    if Lower(Strip(u.exchange)) !in EXCHANGES {
      return Raised("unsupported exchange");
    }
    if Lower(Strip(u.market)) !in MARKETS {
      return Raised("unsupported market");
    }
    var walletQty := WalletQty(raw, u.side, u.market);
    if walletQty.Raised? {
      return Raised(walletQty.error);
    }
    var orig, executed, remaining := Abs(u.origQty), Abs(u.executedQty), Abs(u.remainingQty);
    if executed <= 0.0 {
      executed := raw;
    }
    if orig <= 0.0 {
      orig := if remaining > 0.0 then executed + remaining else raw;
    }
    if remaining <= 0.0 && orig > executed {
      remaining := orig - executed;
    }
    return Ok(Some(FillEvent(u.orderId, u.side, walletQty.value, u.fill.value.price,
                             if u.orderStatus == "" then FILLED else u.orderStatus,
                             u.fill.value.fee, orig, executed, remaining, u.avgPrice)));
  }

  /** The totals an update reports: its own where given, else the fill's. */
  function UpdateEvent(u: Update): FillEvent
    requires IsFillUpdate(u) && KnownRoute(u)
  {
    var raw := Abs(u.fill.value.qty);
    var executed := if u.executedQty == 0.0 then raw else Abs(u.executedQty);
    var orig := if u.origQty != 0.0 then Abs(u.origQty)
                else if u.remainingQty != 0.0 then executed + Abs(u.remainingQty) else raw;
    FillEvent(u.orderId, u.side, Signed(DirectionOf(u.side, u.market).value, raw), u.fill.value.price,
              if u.orderStatus == "" then FILLED else u.orderStatus, u.fill.value.fee, orig, executed,
              if u.remainingQty != 0.0 then Abs(u.remainingQty)
              else if orig > executed then orig - executed else 0.0, u.avgPrice)
  }

  /** Updates in plain terms: which ones count, which routes are known, and what
      the report quotes or fills in. */
  lemma UpdateInPlainTerms(u: Update)
    ensures IsFillUpdate(u) <==>
              && Lower(Strip(u.kind)) in {"fill", "liquidation"}
              && u.fill.Some? && !u.fill.value.feeMissing && u.fill.value.qty != 0.0
    ensures var futures := Lower(Strip(u.market)) in
                             {"futures", "future", "usdm_futures", "perpetual_futures", "perp", "delivery_futures"};
            KnownRoute(u) <==>
              && Lower(Strip(u.exchange)) in {"binance", "okx"}
              && (futures || Lower(Strip(u.market)) == "spot")
              && (futures ==> Strip(Upper(u.side)) in {"BUY", "SELL"})
    ensures IsFillUpdate(u) && KnownRoute(u) ==>
              var e, fill := UpdateEvent(u), u.fill.value;
              && e.orderId == u.orderId && e.side == u.side && e.price == u.avgPrice
              && e.fillPrice == fill.price && e.fee == fill.fee
              && e.status == (if u.orderStatus == "" then "FILLED" else u.orderStatus)
              && e.qty == (if Lower(Strip(u.market)) != "spot" && Strip(Upper(u.side)) == "SELL"
                           then -Abs(fill.qty) else Abs(fill.qty))
              && e.executedQty == (if u.executedQty != 0.0 then Abs(u.executedQty) else Abs(fill.qty))
              && e.origQty == (if u.origQty != 0.0 then Abs(u.origQty)
                               else if u.remainingQty != 0.0 then e.executedQty + Abs(u.remainingQty)
                               else Abs(fill.qty))
              && (u.remainingQty != 0.0 ==> e.remainingQty == Abs(u.remainingQty))
              && (u.remainingQty == 0.0 && e.origQty > e.executedQty ==>
                    e.remainingQty == e.origQty - e.executedQty)
              && (u.remainingQty == 0.0 && e.origQty <= e.executedQty ==> e.remainingQty == 0.0)
  {
    hide Strip, Lower, Upper, DirectionOf;
    DirectionMeans(u.side, u.market);
    assert "spot"[0] == 's';
    assert forall m :: m in FUTURES_MARKETS ==> m != "spot";
  }

  /** The update that reports fill `k` of an order with the order's totals after
      that fill. */
  function UpdateFor(e: FillEvent, exchange: string, market: string, avgPrice: real): Update {
    Update("fill", exchange, market, e.side, e.orderId, e.status,
           Some(UpdateFill(e.qty, e.fillPrice, e.fee, false)), e.origQty, e.executedQty, e.remainingQty, avgPrice)
  }

  /** A fill reported by the order response and by a lifecycle update means the
      same to the wallet exactly if the order states its size; for an order without
      one only the sizes differ. (The response quotes the order's price where the
      update quotes its average price.) */
  lemma UpdateAgreesWithResponse(order: Order, side: string, market: string, exchange: string,
                                 avgPrice: real, fills: seq<RawFill>, i: nat)
    requires DirectionOf(side, market).Some?
    requires Lower(Strip(exchange)) in EXCHANGES && Lower(Strip(market)) in MARKETS
    requires i < |EventsUpTo(order, side, DirectionOf(side, market).value, fills, |fills|)|
    ensures var e := EventsUpTo(order, side, DirectionOf(side, market).value, fills, |fills|)[i];
            var u := UpdateFor(e, exchange, market, avgPrice);
            && IsFillUpdate(u) && KnownRoute(u)
            && (UpdateEvent(u).(price := e.price) == e <==> order.origQty != 0.0)
            && UpdateEvent(u).(price := e.price, origQty := e.origQty) == e
  {
    var direction := DirectionOf(side, market).value;
    var events := EventsUpTo(order, side, direction, fills, |fills|);
    var k := EventsComeFromFills(order, side, direction, fills, |fills|, i);
    var e := events[i];
    ExecutedCovers(fills, k);
    FillIsAFill();
    hide Strip, Upper, Executed, StatusOf, EventsUpTo, FinalStatus, Lower, IsFutures, DirectionOf, EXCHANGES, MARKETS;
    assert Signed(direction, Abs(e.qty)) == e.qty;
    assert e.status != "";
    assert e.executedQty >= Abs(e.qty) > 0.0;
  }

  lemma ExecutedCovers(fills: seq<RawFill>, k: nat)
    requires k < |fills|
    ensures Executed(fills[..k + 1]) >= Abs(fills[k].qty)
  {
    assert fills[..k + 1][..k] == fills[..k];
  }

  lemma FillIsAFill()
    ensures Lower(Strip("fill")) == "fill"
  {
    assert Strip("fill") == "fill";
    hide Strip, StripLeft, StripRight;
  }

  /** A fill of an order without a size: the response reports size zero, the later
      update the size of the fill. */
  lemma SizelessOrderDisagrees()
    ensures var e := FillEvent("1", "BUY", 2.0, 10.0, FILLED, 0.0, 0.0, 2.0, 0.0, 0.0);
            var u := UpdateFor(e, "binance", "spot", 0.0);
            IsFillUpdate(u) && KnownRoute(u) && e.origQty == 0.0 && UpdateEvent(u).origQty == 2.0
  {
    FillIsAFill();
    assert Strip("binance") == "binance" && Strip("spot") == "spot";
    assert Lower("binance") == "binance" && Lower("spot") == "spot";
    hide Strip, Lower;
  }
}
