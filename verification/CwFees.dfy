/**
 Fees of the CosmWasm contract: the quote, the payment and its split between the connections
 and the fee handler. Amounts are 128-bit; an addition past that panics.
 */
module CwFees {
  import opened Wrappers

  type Addr = string

  const U128: nat := 0x1_0000_0000_0000_0000_0000_0000_0000_0000

  datatype Coin = Coin(denom: string, amount: nat)

  datatype Error = NoDefaultConnection | QueryFailed | InsufficientFunds | Panicked

  datatype Outcome<+T> = Ok(value: T) | Err(error: Error) {
    predicate IsFailure() { Err? }

    function PropagateFailure<U>(): Outcome<U>
      requires Err?
    {
      Err(error)
    }

    function Extract(): T
      requires Ok?
    {
      value
    }
  }

  /** What is paid out: each connection's funds in order, and the rest for the fee handler. */
  datatype Payout = Payout(funds: seq<nat>, handler: nat)

  /** A connection's fee, or nothing when the query fails. */
  type Quote = Addr -> Option<nat>

  function Route(sources: seq<Addr>, default: Option<Addr>): Outcome<seq<Addr>> {
    if sources != [] then Ok(sources) else if default.Some? then Ok([default.value]) else Err(NoDefaultConnection)
  }

  function Sum(s: seq<nat>): nat
    decreases |s|
  {
    if s == [] then 0 else Sum(s[..|s| - 1]) + s[|s| - 1]
  }

  /** The quotes of all connections; nothing when one query fails. */
  function Quotes(quote: Quote, sources: seq<Addr>): (r: Option<seq<nat>>)
    ensures r.Some? ==> |r.value| == |sources|
    decreases |sources|
  {
    if sources == [] then Some([]) else
    var front := Quotes(quote, sources[..|sources| - 1]);
    var last := quote(sources[|sources| - 1]);
    if front.None? || last.None? then None else Some(front.value + [last.value])
  }

  function Paid(coins: seq<Coin>, denom: string): nat
    decreases |coins|
  {
    if coins == [] then 0
    else Paid(coins[..|coins| - 1], denom) + (if coins[|coins| - 1].denom == denom then coins[|coins| - 1].amount
      else 0)
  }

  /** All connections answer and nothing overflows. */
  ghost predicate Quotable(quote: Quote, sources: seq<Addr>, default: Option<Addr>, protocolFee: nat) {
    && Route(sources, default).Ok? && Quotes(quote, Route(sources, default).value).Some?
    && protocolFee + Sum(Quotes(quote, Route(sources, default).value).value) < U128
  }

  /** Listed connections are used as they are; the default one only when none is listed. */
  lemma RouteMeans(sources: seq<Addr>, default: Option<Addr>)
    ensures sources != [] ==> Route(sources, default) == Ok(sources)
    ensures sources == [] && default.Some? ==> Route(sources, default) == Ok([default.value])
    ensures sources == [] && default.None? ==> Route(sources, default) == Err(NoDefaultConnection)
  {
  }

  /** The quotes are there exactly when every connection quotes, each in its place. */
  lemma {:induction false} QuotesMean(quote: Quote, sources: seq<Addr>, fees: seq<nat>)
    ensures Quotes(quote, sources) == Some(fees) <==>
      |fees| == |sources| && forall i :: 0 <= i < |sources| ==> quote(sources[i]) == Some(fees[i])
    decreases |sources|
  {
    if sources != [] {
      var n := |sources| - 1;
      if |fees| == |sources| {
        QuotesMean(quote, sources[..n], fees[..n]);
        assert fees == fees[..n] + [fees[n]];
      }
    }
  }

  /** Payment counts the coins of one denomination, all of them, each once. */
  lemma {:induction false} PaidMeans(a: seq<Coin>, b: seq<Coin>, coin: Coin, denom: string)
    ensures Paid([], denom) == 0
    ensures Paid([coin], denom) == if coin.denom == denom then coin.amount else 0
    ensures Paid(a + b, denom) == Paid(a, denom) + Paid(b, denom)
    decreases |b|
  {
    assert [coin][..0] == [];
    if b == [] {
      assert a + b == a;
    } else {
      PaidMeans(a, b[..|b| - 1], coin, denom);
      assert (a + b)[..|a + b| - 1] == a + b[..|b| - 1];
    }
  }

  lemma {:induction false} QuotesPrefix(quote: Quote, sources: seq<Addr>, i: nat)
    requires i <= |sources| && Quotes(quote, sources).Some?
    ensures Quotes(quote, sources[..i]) == Some(Quotes(quote, sources).value[..i])
    ensures Sum(Quotes(quote, sources).value[..i]) <= Sum(Quotes(quote, sources).value)
    decreases |sources|
  {
    var qs := Quotes(quote, sources).value;
    if i == |sources| {
      assert sources[..i] == sources && qs[..i] == qs;
    } else {
      var front := sources[..|sources| - 1];
      QuotesPrefix(quote, front, i);
      assert front[..i] == sources[..i] && qs[..|qs| - 1][..i] == qs[..i];
      assert Quotes(quote, front).value == qs[..|qs| - 1];
    }
  }

  lemma {:induction false} QuotesFail(quote: Quote, sources: seq<Addr>, i: nat)
    requires i < |sources| && quote(sources[i]).None?
    ensures Quotes(quote, sources).None?
    decreases |sources|
  {
    if i < |sources| - 1 { QuotesFail(quote, sources[..|sources| - 1], i); }
  }

  method TotalPaid(coins: seq<Coin>, denom: string) returns (r: Outcome<nat>)
    ensures Paid(coins, denom) < U128 ==> r == Ok(Paid(coins, denom))
    ensures Paid(coins, denom) >= U128 ==> r == Err(Panicked)
  {
    var total := 0;
    for i := 0 to |coins|
      invariant total == Paid(coins[..i], denom) < U128
    {
      assert coins[..i + 1][..i] == coins[..i];
      PaidPrefix(coins, denom, i + 1);
      if coins[i].denom == denom {
        if total + coins[i].amount >= U128 { return Err(Panicked); }
        total := total + coins[i].amount;
      }
    }
    assert coins[..|coins|] == coins;
    return Ok(total);
  }

  lemma {:induction false} PaidPrefix(coins: seq<Coin>, denom: string, i: nat)
    requires i <= |coins|
    ensures Paid(coins[..i], denom) <= Paid(coins, denom)
    decreases |coins|
  {
    if i == |coins| {
      assert coins[..i] == coins;
    } else {
      PaidPrefix(coins[..|coins| - 1], denom, i);
      assert coins[..|coins| - 1][..i] == coins[..i];
    }
  }

  /** The fee of a message: the protocol fee and every connection's quote, unless a connection is
      missing, a query fails or the sum does not fit. */
  function QuotedFee(quote: Quote, sources: seq<Addr>, default: Option<Addr>, protocolFee: nat): Outcome<nat> {
    var route :- Route(sources, default);
    match Quotes(quote, route)
    case None => Err(QueryFailed)
    case Some(fees) => if protocolFee + Sum(fees) < U128 then Ok(protocolFee + Sum(fees)) else Err(Panicked)
  }

  /** The quote a sender asks for. A reply is free: `reply` says that the message carries no rollback
      and answers the call in flight. */
  method GetFee(quote: Quote, sources: seq<Addr>, default: Option<Addr>, protocolFee: nat, reply: bool)
      returns (r: Outcome<nat>)
    ensures r == if reply then Ok(0) else QuotedFee(quote, sources, default, protocolFee)
  {
    if reply { return Ok(0); }
    var route :- Route(sources, default);
    var fees :- CollectFees(quote, route);
    var total :- AddUp(fees);
    if protocolFee + total >= U128 { return Err(Panicked); }
    return Ok(protocolFee + total);
  }

  /** Asks every connection. */
  method CollectFees(quote: Quote, route: seq<Addr>) returns (r: Outcome<seq<nat>>)
    ensures match Quotes(quote, route) case None => r == Err(QueryFailed) case Some(fees) => r == Ok(fees)
  {
    var fees: seq<nat> := [];
    for i := 0 to |route|
      invariant Quotes(quote, route[..i]) == Some(fees)
    {
      assert route[..i + 1][..i] == route[..i];
      var fee := quote(route[i]);
      if fee.None? {
        QuotesFail(quote, route, i);
        return Err(QueryFailed);
      }
      fees := fees + [fee.value];
    }
    assert route[..|route|] == route;
    return Ok(fees);
  }

  method AddUp(fees: seq<nat>) returns (r: Outcome<nat>)
    ensures r == if Sum(fees) < U128 then Ok(Sum(fees)) else Err(Panicked)
  {
    var total := 0;
    for i := 0 to |fees|
      invariant total == Sum(fees[..i]) < U128
    {
      assert fees[..i + 1][..i] == fees[..i];
      SumPrefix(fees, i + 1);
      if total + fees[i] >= U128 { return Err(Panicked); }
      total := total + fees[i];
    }
    assert fees[..|fees|] == fees;
    return Ok(total);
  }

  lemma {:induction false} SumPrefix(fees: seq<nat>, i: nat)
    requires i <= |fees|
    ensures Sum(fees[..i]) <= Sum(fees)
    decreases |fees|
  {
    if i == |fees| {
      assert fees[..i] == fees;
    } else {
      SumPrefix(fees[..|fees| - 1], i);
      assert fees[..|fees| - 1][..i] == fees[..i];
    }
  }

  /** Connection `i` is the first that does not quote, and the fees before it fit. */
  predicate QueryFails(quote: Quote, route: seq<Addr>, i: nat) {
    && i < |route| && quote(route[i]).None?
    && Quotes(quote, route[..i]).Some? && Sum(Quotes(quote, route[..i]).value) < U128
  }

  lemma NoQueryFails(quote: Quote, route: seq<Addr>, n: nat)
    requires n <= |route| && Quotes(quote, route[..n]).Some?
    requires n == |route| || Sum(Quotes(quote, route[..n]).value) >= U128
    ensures forall i :: !QueryFails(quote, route, i)
  {
    hide Quotes, Sum;
    forall i: nat | i < |route| ensures !QueryFails(quote, route, i) {
      if i < n {
        if quote(route[i]).None? {
          assert route[..n][i] == route[i];
          QuotesFail(quote, route[..n], i);
        }
      } else if Quotes(quote, route[..i]).Some? {
        QuotesPrefix(quote, route[..i], n);
        assert route[..i][..n] == route[..n];
      }
    }
  }

  /** Sending, outside the reply path: every connection gets its quoted fee, the handler the rest.
      Whenever quote and payment are within range, the call is refused for its funds exactly when
      the payment is below the quote; otherwise nothing is lost and nothing is made. */
  method SendCall(quote: Quote, sources: seq<Addr>, default: Option<Addr>, protocolFee: nat, coins: seq<Coin>,
      denom: string)
    returns (r: Outcome<Payout>)
    ensures Quotable(quote, sources, default, protocolFee) && Paid(coins, denom) < U128 ==>
      var fees := Quotes(quote, Route(sources, default).value).value;
      var paid := Paid(coins, denom);
      && (r == Err(InsufficientFunds) <==> paid < protocolFee + Sum(fees))
      && (r.Ok? <==> paid >= protocolFee + Sum(fees))
      && (r.Ok? ==>
            r.value.funds == fees && Sum(r.value.funds) + r.value.handler == paid && r.value.handler >= protocolFee)
    ensures r.Ok? ==> Sum(r.value.funds) + r.value.handler == Paid(coins, denom) && r.value.handler >= protocolFee
    ensures r.Ok? <==>
      && Quotable(quote, sources, default, protocolFee) && Paid(coins, denom) < U128
      && Paid(coins, denom) >= protocolFee + Sum(Quotes(quote, Route(sources, default).value).value)
    ensures Route(sources, default).Err? ==> r == Err(NoDefaultConnection)
    ensures Route(sources, default).Ok? ==>
      var route := Route(sources, default).value;
      && (r == Err(QueryFailed) <==> exists i :: QueryFails(quote, route, i))
      && (r == Err(Panicked) <==>
            && !(exists i :: QueryFails(quote, route, i))
            && (!Quotable(quote, sources, default, protocolFee) || Paid(coins, denom) >= U128))
  {
    hide Quotes, Paid, Sum, QueryFails;
    var route :- Route(sources, default);
    var spent :- Spend(quote, route);
    var (funds, totalSpent) := spent;
    var totalPaid :- TotalPaid(coins, denom);
    if protocolFee + totalSpent >= U128 { return Err(Panicked); }
    if totalPaid < protocolFee + totalSpent { return Err(InsufficientFunds); }
    return Ok(Payout(funds, totalPaid - totalSpent));
  }

  /** Asks each connection for its fee and adds up what the message costs. */
  method Spend(quote: Quote, route: seq<Addr>) returns (r: Outcome<(seq<nat>, nat)>)
    ensures r.Ok? ==> Quotes(quote, route) == Some(r.value.0) && r.value.1 == Sum(r.value.0)
    ensures r.Ok? <==> Quotes(quote, route).Some? && Sum(Quotes(quote, route).value) < U128
    ensures r == Err(QueryFailed) <==> exists i :: QueryFails(quote, route, i)
    ensures r.Err? ==> r == Err(QueryFailed) || r == Err(Panicked)
  {
    var totalSpent := 0;
    var funds: seq<nat> := [];
    for i := 0 to |route|
      invariant Quotes(quote, route[..i]) == Some(funds) && totalSpent == Sum(funds) < U128
    {
      assert route[..i + 1][..i] == route[..i];
      var fee := quote(route[i]);
      if fee.None? {
        QuotesFail(quote, route, i);
        assert QueryFails(quote, route, i);
        return Err(QueryFailed);
      }
      ghost var before := funds;
      funds := funds + [fee.value];
      assert funds[..|funds| - 1] == before;
      if Quotes(quote, route).Some? { QuotesPrefix(quote, route, i + 1); }
      if fee.value > 0 {
        if totalSpent + fee.value >= U128 {
          NoQueryFails(quote, route, i + 1);
          return Err(Panicked);
        }
        totalSpent := totalSpent + fee.value;
      }
    }
    assert route[..|route|] == route;
    NoQueryFails(quote, route, |route|);
    return Ok((funds, totalSpent));
  }
}
