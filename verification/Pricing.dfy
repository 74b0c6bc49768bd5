/** Tick bands, price alignment and order validation. */
module Pricing {
  import opened Arithmetic
  import opened Wrappers

  /** The price step of each band. */
  function TickSize(price: int): int {
    if price < 2000 then 1
    else if price < 5000 then 5
    else if price < 20000 then 10
    else if price < 50000 then 50
    else if price < 200000 then 100
    else if price < 500000 then 500
    else 1000
  }

  /** Rounds down to the step of the band; the division truncates toward zero. */
  function AlignPrice(price: int): int {
    TruncDiv(price, TickSize(price)) * TickSize(price)
  }

  datatype OrderSide = Buy | Sell

  datatype OrderType = Limit | Market | ConditionalLimit | BestOpposite | BestOwn | BeforeMarket | AfterMarket
  {
    predicate RequiresPrice() {
      Limit? || ConditionalLimit?
    }
  }

  datatype OrderRequest = OrderRequest(stockCode: string, side: OrderSide, orderType: OrderType, quantity: nat, price: int)

  datatype OrderError =
    | QuantityMissing
    | PriceMissing
    | OffTick(price: int, tick: int, suggested: int)

  function Validate(o: OrderRequest): Result<(), OrderError> {
    if o.quantity == 0 then Err(QuantityMissing)
    else if o.orderType.RequiresPrice() then
      if o.price <= 0 then Err(PriceMissing)
      else
        var tick := TickSize(o.price);
        if o.price % tick != 0 then Err(OffTick(o.price, tick, AlignPrice(o.price))) else Ok(())
    else Ok(())
  }

  /** A price a limit order may carry. */
  predicate Accepted(price: int) {
    Validate(OrderRequest("", Buy, Limit, 1, price)).Ok?
  }

  /** The lowest price of the band of a positive price. */
  function BandStart(price: int): int {
    if price < 2000 then 0
    else if price < 5000 then 2000
    else if price < 20000 then 5000
    else if price < 50000 then 20000
    else if price < 200000 then 50000
    else if price < 500000 then 200000
    else 500000
  }

  lemma BandsStartOnTheirStep(p: int)
    requires p >= 1
    ensures BandStart(p) <= p && BandStart(p) % TickSize(p) == 0
    ensures forall q :: BandStart(p) <= q <= p ==> TickSize(q) == TickSize(p)
  {
  }

  lemma RoundDown(p: nat, tick: nat, start: nat)
    requires tick >= 1 && start <= p && start % tick == 0
    ensures start <= p / tick * tick <= p < p / tick * tick + tick
    ensures p / tick * tick % tick == 0
  {
    FloorToMultiple(p, tick);
    DivMono(start, p, tick);
    DivMod(start, tick);
    MultipleHasNoRemainder(p / tick, tick);
  }

  /** Bands begin on a multiple of their own step, so rounding down stays inside the band. */
  lemma RoundingStaysInBand(p: int)
    requires p >= 1
    ensures TickSize(AlignPrice(p)) == TickSize(p)
    ensures AlignPrice(p) <= p < AlignPrice(p) + TickSize(p)
    ensures AlignPrice(p) % TickSize(p) == 0 && AlignPrice(p) >= 1
  {
    BandsStartOnTheirStep(p);
    RoundDown(p, TickSize(p), BandStart(p));
    if p < 2000 {
      assert TickSize(p) == 1;
    }
  }

  lemma NothingAcceptedBetween(p: int, q: int)
    requires p >= 1 && AlignPrice(p) < q <= p
    ensures !Accepted(q)
  {
    RoundingStaysInBand(p);
    assert TickSize(q) == TickSize(p);
  }

  /** The aligned price is the greatest price up to p that a limit order may carry. */
  lemma AlignedIsGreatestAccepted(p: int, q: int)
    requires p >= 1
    ensures Accepted(AlignPrice(p)) && AlignPrice(p) <= p
    ensures q <= p && Accepted(q) ==> q <= AlignPrice(p)
  {
    RoundingStaysInBand(p);
    if AlignPrice(p) < q <= p {
      NothingAcceptedBetween(p, q);
    }
  }

  /** An accepted price is exactly a positive price that alignment leaves alone. */
  lemma AcceptedIsFixpoint(p: int)
    ensures Accepted(p) <==> p >= 1 && AlignPrice(p) == p
  {
    if p >= 1 {
      RoundingStaysInBand(p);
    }
  }

  lemma AlignmentIsIdempotent(p: int)
    ensures AlignPrice(AlignPrice(p)) == AlignPrice(p)
  {
    if p >= 1 {
      AlignedIsGreatestAccepted(p, p);
      AcceptedIsFixpoint(AlignPrice(p));
    }
  }

  /** Alignment is monotone across all bands. */
  lemma AlignmentIsMonotone(p: int, q: int)
    requires p <= q
    ensures AlignPrice(p) <= AlignPrice(q)
  {
    if p >= 1 {
      AlignedIsGreatestAccepted(p, p);
      AlignedIsGreatestAccepted(q, AlignPrice(p));
    } else if q >= 1 {
      RoundingStaysInBand(q);
    }
  }

  /** The suggestion in the rejection of an off-tick limit order is itself acceptable. */
  lemma SuggestionIsAccepted(o: OrderRequest)
    requires Validate(o).Err? && Validate(o).error.OffTick?
    ensures var s := Validate(o).error.suggested;
            Validate(o.(price := s)).Ok? && s < o.price
  {
    RoundingStaysInBand(o.price);
  }

  /** The price steps by band. */
  lemma StepsByBand(price: int)
    ensures TickSize(price) == 1 <==> price < 2000
    ensures TickSize(price) == 5 <==> 2000 <= price < 5000
    ensures TickSize(price) == 10 <==> 5000 <= price < 20000
    ensures TickSize(price) == 50 <==> 20000 <= price < 50000
    ensures TickSize(price) == 100 <==> 50000 <= price < 200000
    ensures TickSize(price) == 500 <==> 200000 <= price < 500000
    ensures TickSize(price) == 1000 <==> price >= 500000
  {
  }

  /** Which orders pass, and which error the others get: quantity first, then a missing price, then the step. */
  lemma ValidationExact(o: OrderRequest)
    ensures Validate(o).Ok? <==>
              o.quantity >= 1 && (o.orderType in {Limit, ConditionalLimit} ==> o.price >= 1 && AlignPrice(o.price) == o.price)
    ensures Validate(o) == Err(QuantityMissing) <==> o.quantity == 0
    ensures Validate(o) == Err(PriceMissing) <==>
              o.quantity >= 1 && o.orderType in {Limit, ConditionalLimit} && o.price <= 0
    ensures Validate(o).Err? && Validate(o).error.OffTick? ==>
              Validate(o).error == OffTick(o.price, TickSize(o.price), AlignPrice(o.price))
  {
    AcceptedIsFixpoint(o.price);
    hide TickSize, AlignPrice;
  }
}
