/**
 * The value of a swap: src/App/Services/TxProcessor/Strategies/DexSwapProcessor.ts, and the first-match dispatch
 * over strategies of src/App/Services/TxProcessor/TxProcessor.ts.
 */
module SwapValues {
  import opened Options
  import opened Amounts

  const TRANSFER_SIGNATURE := "Transfer(address,address,uint256)"
  const SWAP_SIGNATURE := "Swap(address,uint256,uint256,uint256,uint256,address)"

  /** A decoded log; an argument that the event does not have is "". */
  datatype Log = Log(signature: string, address: string, to: string, from: string, value: string)

  /** The canonical form of an address. */
  type Checksum = string -> string

  predicate SameAddress(checksumed: Checksum, a: string, b: string) {
    a != "" && b != "" && checksumed(a) == checksumed(b)
  }

  /** `log` moves the token to or from the pair that emitted `swap`. */
  predicate TransferAt(checksumed: Checksum, token: string, swap: Log, log: Log) {
    && SameAddress(checksumed, log.address, token)
    && log.signature == TRANSFER_SIGNATURE
    && (SameAddress(checksumed, log.to, swap.address) || SameAddress(checksumed, log.from, swap.address))
  }

  predicate Pair(checksumed: Checksum, token: string, logs: seq<Log>, i: int, j: int) {
    && 0 <= i < |logs| && 0 <= j < |logs|
    && logs[i].signature == SWAP_SIGNATURE && TransferAt(checksumed, token, logs[i], logs[j])
  }

  /** The earliest swap that has a transfer, and its first transfer. */
  ghost predicate FirstPair(checksumed: Checksum, token: string, logs: seq<Log>, i: int, j: int) {
    && Pair(checksumed, token, logs, i, j)
    && (forall h, k :: 0 <= h < i ==> !Pair(checksumed, token, logs, h, k))
    && (forall k :: 0 <= k < j ==> !Pair(checksumed, token, logs, i, k))
  }

  /** The value of the first pair, or None when there is no pair. */
  ghost predicate IsTokenValue(checksumed: Checksum, token: string, logs: seq<Log>, value: Option<string>) {
    match value
    case Some(v) => exists i, j :: FirstPair(checksumed, token, logs, i, j) && logs[j].value == v
    case None => forall i, j :: !Pair(checksumed, token, logs, i, j)
  }

  lemma TokenValueUnique(checksumed: Checksum, token: string, logs: seq<Log>, v: Option<string>, w: Option<string>)
    requires IsTokenValue(checksumed, token, logs, v) && IsTokenValue(checksumed, token, logs, w)
    ensures v == w
  {
    if v.Some? && w.Some? {
      var i, j :| FirstPair(checksumed, token, logs, i, j) && logs[j].value == v.value;
      var h, k :| FirstPair(checksumed, token, logs, h, k) && logs[k].value == w.value;
      assert Pair(checksumed, token, logs, i, j) && Pair(checksumed, token, logs, h, k);
    }
  }

  /** The two events that are looked for, by their signatures. */
  lemma PairEvents(checksumed: Checksum, token: string, logs: seq<Log>, i: int, j: int)
    requires Pair(checksumed, token, logs, i, j)
    ensures logs[i].signature == "Swap(address,uint256,uint256,uint256,uint256,address)"
    ensures logs[j].signature == "Transfer(address,address,uint256)"
    ensures checksumed(logs[j].address) == checksumed(token)
  {
  }

  /** A transfer counts whichever way it goes: to or from the pair. */
  lemma DirectionIrrelevant(checksumed: Checksum, token: string, swap: Log, log: Log)
    ensures TransferAt(checksumed, token, swap, log)
       <==> TransferAt(checksumed, token, swap, log.(to := log.from, from := log.to))
    ensures token == log.address && swap.address == log.to && token != "" && swap.address != "" ==>
      (TransferAt(checksumed, token, swap, log) <==> log.signature == "Transfer(address,address,uint256)")
  {
  }

  /** Addresses that differ only in how they are written count alike; missing ones match nothing. */
  lemma SpellingIrrelevant(checksumed: Checksum, token: string, token': string, swap: Log, log: Log)
    requires token != "" && token' != "" && checksumed(token) == checksumed(token')
    ensures TransferAt(checksumed, token, swap, log) <==> TransferAt(checksumed, token', swap, log)
    ensures !TransferAt(checksumed, "", swap, log)
    ensures !TransferAt(checksumed, token, swap.(address := ""), log)
    ensures log.to == log.from == "" ==> !TransferAt(checksumed, token, swap, log)
    ensures checksumed(log.address) != checksumed(token) ==> !TransferAt(checksumed, token, swap, log)
  {
  }

  method GetTokenValueFromLogs(checksumed: Checksum, token: string, logs: seq<Log>) returns (value: Option<string>)
    ensures IsTokenValue(checksumed, token, logs, value)
  {
    for i := 0 to |logs|
      invariant forall h, k :: 0 <= h < i ==> !Pair(checksumed, token, logs, h, k)
    {
      if logs[i].signature != SWAP_SIGNATURE {
        continue;
      }
      for j := 0 to |logs|
        invariant forall k :: 0 <= k < j ==> !Pair(checksumed, token, logs, i, k)
      {
        if TransferAt(checksumed, token, logs[i], logs[j]) {
          assert FirstPair(checksumed, token, logs, i, j);
          return Some(logs[j].value);
        }
      }
    }
    return None;
  }

  /** A stable coin with a non-empty value in the logs. */
  ghost predicate Valued(checksumed: Checksum, stable: string, logs: seq<Log>, value: string) {
    value != "" && IsTokenValue(checksumed, stable, logs, Some(value))
  }

  /**
   * The stable coins are tried in list order; the answer is the first one valued in the logs, with its value
   * before formatting.
   */
  method GetStableValueFromLogs(checksumed: Checksum, stables: seq<string>, logs: seq<Log>)
    returns (found: Option<(nat, string)>)
    ensures found.Some? ==>
      && found.value.0 < |stables| && Valued(checksumed, stables[found.value.0], logs, found.value.1)
      && forall h, v :: 0 <= h < found.value.0 ==> !Valued(checksumed, stables[h], logs, v)
    ensures found.None? ==> forall h, v :: 0 <= h < |stables| ==> !Valued(checksumed, stables[h], logs, v)
  {
    for i := 0 to |stables|
      invariant forall h, v :: 0 <= h < i ==> !Valued(checksumed, stables[h], logs, v)
    {
      var value := GetTokenValueFromLogs(checksumed, stables[i], logs);
      if value.Some? && value.value != "" {
        return Some((i, value.value));
      }
      forall v | Valued(checksumed, stables[i], logs, v)
        ensures false
      {
        TokenValueUnique(checksumed, stables[i], logs, Some(v), value);
      }
    }
    return None;
  }

  /* The two values of a swap, with quotients rounded to 20 decimal places. */

  /** The price of one wrapped token: `digits` divided by 10^`places`. */
  datatype Price = Price(digits: nat, places: nat)

  /** The native value in units of 10^-20, and the usd value in such units at as many more places as the price has. */
  datatype SwapValue = SwapValue(nativeValue: int, usdValue: int)

  /**
   * How getDexSwapData completes what the logs give: `native` is in the wrapped token's smallest unit, of which
   * 10^`decimals` make one token; `usd` is formatted already, in units of 10^-20.
   */
  function Completed(native: Option<int>, usd: Option<int>, price: Price, decimals: nat): Option<SwapValue>
    requires price.digits > 0
  {
    PowPositive(decimals);
    match (native, usd)
    case (None, None) => None
    case (Some(n), None) =>
      var value := ToFormatted(n, decimals);
      Some(SwapValue(value, value * price.digits))
    case (Some(n), Some(u)) => Some(SwapValue(ToFormatted(n, decimals), u * Pow10(price.places)))
    case (None, Some(u)) =>
      var value := RoundedQuotient(u * Pow10(price.places), price.digits);
      Some(SwapValue(RoundedQuotient(value, Pow10(decimals)), u * Pow10(price.places)))
  }

  predicate ValuesAgree(v: SwapValue, price: Price) {
    v.nativeValue * price.digits == v.usdValue
  }

  /**
   * When only the native value was in the logs, the reported values agree at the price, and the usd value is the
   * exact worth of the amount exactly when its token has no more than 20 decimals or the amount loses none of its own.
   */
  lemma NativeValueExactIff(n: int, price: Price, decimals: nat)
    requires price.digits > 0
    ensures decimals > DECIMAL_PLACES ==> Pow10(decimals - DECIMAL_PLACES) > 0
    ensures
      var r := Completed(Some(n), None, price, decimals).value;
      && ValuesAgree(r, price)
      && (r.usdValue * Pow10(decimals) == n * Pow10(DECIMAL_PLACES) * price.digits
          <==> decimals <= DECIMAL_PLACES || n % Pow10(decimals - DECIMAL_PLACES) == 0)
  {
    RoundTripIff(n, decimals);
    var p, d, v := price.digits, Pow10(decimals), ToFormatted(n, decimals);
    Associate(v, p, d);
    if v * p * d == n * Pow10(DECIMAL_PLACES) * p {
      CancelRight(v * d, n * Pow10(DECIMAL_PLACES), p);
    }
  }

  /**
   * When both were, both are reported as they are, whatever the price: the native one formatted, the usd one as it was
   * found. When neither was, nothing is reported.
   */
  lemma BothValuesReported(n: int, u: int, price: Price, other: Price, decimals: nat)
    requires price.digits > 0 && other.digits > 0
    ensures Completed(None, None, price, decimals).None?
    ensures
      var r := Completed(Some(n), Some(u), price, decimals).value;
      var s := Completed(Some(n), Some(u), other, decimals).value;
      && r.nativeValue == s.nativeValue == ToFormatted(n, decimals)
      && r.usdValue == u * Pow10(price.places)
      && (ValuesAgree(r, price) <==> ToFormatted(n, decimals) * price.digits == u * Pow10(price.places))
  {
  }

  lemma NearItsMultiple(q: int, d: int)
    requires d > 2 && -d <= 2 * (q * d - q) <= d
    ensures q == 0
  {
    assert q * (d - 1) == q * d - q;
    SmallMultiple(q, d - 1);
  }

  /** Only zero is left unchanged by scaling it down. */
  lemma ScaledUnchanged(q: int, decimals: nat)
    requires decimals > 0
    ensures Pow10(decimals) > 0
    ensures RoundedQuotient(q, Pow10(decimals)) == q ==> q == 0
  {
    PowPositive(decimals - 1);
    var d := Pow10(decimals);
    if RoundedQuotient(q, d) == q {
      RoundingError(q, d);
      NearItsMultiple(q, d);
    }
  }

  lemma ExactQuotientIff(a: int, p: int)
    requires p > 0
    ensures RoundedQuotient(a, p) * p == a <==> a % p == 0
  {
    if a % p == 0 {
      ExactQuotient(a, p, a / p);
    }
    var q := RoundedQuotient(a, p);
    if q * p == a {
      MultipleRemainder(q, p);
    }
  }

  /** The same on plain numbers: `a` divided by the price's digits `p`, then scaled down. */
  lemma TwiceDivided(a: int, p: int, decimals: nat)
    requires p > 0
    ensures Pow10(decimals) > 0
    ensures RoundedQuotient(RoundedQuotient(a, p), Pow10(decimals)) * p == a
       <==> a == 0 || (decimals == 0 && a % p == 0)
  {
    PowPositive(decimals);
    ExactQuotientIff(a, p);
    var q := RoundedQuotient(a, p);
    var r := RoundedQuotient(q, Pow10(decimals));
    if decimals == 0 {
      ExactQuotient(q, 1, q);
    } else {
      ScaledUnchanged(q, decimals);
      if r * p == a {
        ExactQuotient(a, p, r);
      }
    }
    if a == 0 {
      ExactQuotient(a, p, 0);
      ExactQuotient(q, Pow10(decimals), 0);
    }
  }

  /**
   * When only a stable value was, they agree exactly for a zero value, or for a token without decimals whose price
   * divides the value within 20 places: the native value, computed in whole tokens, is scaled down once more.
   */
  lemma StableValueAgreesIff(u: int, price: Price, decimals: nat)
    requires price.digits > 0
    ensures
      ValuesAgree(Completed(None, Some(u), price, decimals).value, price)
      <==> u == 0 || (decimals == 0 && u * Pow10(price.places) % price.digits == 0)
  {
    var a := u * Pow10(price.places);
    PowPositive(price.places);
    TwiceDivided(a, price.digits, decimals);
    if a == 0 {
      CancelRight(u, 0, Pow10(price.places));
    }
  }

  /* Dispatch. */

  /** What a strategy makes of a transaction: None when it declines, leaving the transaction as it is. */
  type Strategy<!Tx> = Tx -> Option<Tx>

  /** The result of the first strategy that takes the transaction, or the transaction itself. */
  ghost predicate IsProcessed<Tx(!new)>(strategies: seq<Strategy<Tx>>, tx: Tx, processed: Tx) {
    || (exists i ::
          0 <= i < |strategies| && strategies[i](tx) == Some(processed)
          && forall j :: 0 <= j < i ==> strategies[j](tx).None?)
    || (processed == tx && forall i :: 0 <= i < |strategies| ==> strategies[i](tx).None?)
  }

  /** No two different strategies take the transaction. */
  ghost predicate Disjoint<Tx(!new)>(strategies: seq<Strategy<Tx>>, tx: Tx) {
    forall f, g :: f in strategies && g in strategies && f(tx).Some? && g(tx).Some? ==> f == g
  }

  ghost predicate Taken<Tx(!new)>(strategies: seq<Strategy<Tx>>, tx: Tx) {
    exists i :: 0 <= i < |strategies| && strategies[i](tx).Some?
  }

  lemma TakenByMember<Tx(!new)>(some: seq<Strategy<Tx>>, other: seq<Strategy<Tx>>, tx: Tx)
    requires forall f :: f in some ==> f in other
    ensures Taken(some, tx) ==> Taken(other, tx)
  {
    if i :| 0 <= i < |some| && some[i](tx).Some? {
      assert some[i] in other;
      var k :| 0 <= k < |other| && other[k] == some[i];
    }
  }

  /** The strategy that decided, when one took the transaction. */
  lemma Decider<Tx(!new)>(strategies: seq<Strategy<Tx>>, tx: Tx, processed: Tx) returns (f: Strategy<Tx>)
    requires Taken(strategies, tx) && IsProcessed(strategies, tx, processed)
    ensures f in strategies && f(tx) == Some(processed)
  {
    var i :| 0 <= i < |strategies| && strategies[i](tx) == Some(processed);
    f := strategies[i];
  }

  /** Under disjoint strategies the order, and any repetition, of the list does not matter. */
  lemma OrderIndependent<Tx(!new)>(some: seq<Strategy<Tx>>, other: seq<Strategy<Tx>>, tx: Tx, x: Tx, y: Tx)
    requires Disjoint(some, tx) && forall f :: f in some <==> f in other
    requires IsProcessed(some, tx, x) && IsProcessed(other, tx, y)
    ensures x == y
  {
    TakenByMember(some, other, tx);
    TakenByMember(other, some, tx);
    if Taken(some, tx) {
      var f := Decider(some, tx, x);
      var g := Decider(other, tx, y);
      assert f in some && g in some && f(tx).Some? && g(tx).Some?;
    }
  }

  datatype TxType = Unknown | EthTransfer | DexSwap

  datatype Tx = Tx(call: Option<string>, kind: TxType, data: Option<SwapValue>)

  /** NativeTransferProcessor: takes what is not a contract call. */
  function NativeTransfer(data: SwapValue): Strategy<Tx> {
    (tx: Tx) => if tx.call.Some? then None else Some(tx.(kind := EthTransfer, data := Some(data)))
  }

  /** DexSwapProcessor: takes calls of the router's swap methods whose value can be found. */
  function SwapStrategy(swapMethods: set<string>, data: Option<SwapValue>): Strategy<Tx> {
    (tx: Tx) =>
      if tx.call.None? || tx.call.value !in swapMethods || data.None? then None
      else Some(tx.(kind := DexSwap, data := data))
  }

  /** A registered strategy, with the data that it would find for the transaction at hand. */
  datatype Registered = Native(value: SwapValue) | Swap(swapMethods: set<string>, found: Option<SwapValue>)

  function StrategyOf(r: Registered): Strategy<Tx> {
    match r
    case Native(data) => NativeTransfer(data)
    case Swap(swapMethods, data) => SwapStrategy(swapMethods, data)
  }

  function StrategiesOf(rs: seq<Registered>): seq<Strategy<Tx>> {
    seq(|rs|, i requires 0 <= i < |rs| => StrategyOf(rs[i]))
  }

  /** The transaction as it is passed around: processing it writes its type and data. */
  class Transaction {
    const call: Option<string>
    var kind: TxType
    var data: Option<SwapValue>

    constructor (tx: Tx)
      ensures Raw() == tx
    {
      call, kind, data := tx.call, tx.kind, tx.data;
    }

    function Raw(): Tx
      reads this
    {
      Tx(call, kind, data)
    }

    method SetTypeAndData(kind: TxType, data: SwapValue)
      modifies this
      ensures this.kind == kind && this.data == Some(data)
    {
      this.kind := kind;
      this.data := Some(data);
    }
  }

  /** A strategy at work: it writes what its function says, and nothing when it declines. */
  method ProcessWith(strategy: Registered, tx: Transaction) returns (taken: bool)
    modifies tx
    ensures taken == StrategyOf(strategy)(old(tx.Raw())).Some?
    ensures tx.Raw() == StrategyOf(strategy)(old(tx.Raw())).GetOr(old(tx.Raw()))
  {
    taken := true;
    match strategy
    case Native(data) =>
      if tx.call.Some? {
        return false;
      }
      tx.SetTypeAndData(EthTransfer, data);
    case Swap(swapMethods, data) =>
      if tx.call.None? || tx.call.value !in swapMethods || data.None? {
        return false;
      }
      tx.SetTypeAndData(DexSwap, data.value);
  }

  /** TxProcessor.process: the transaction itself is changed, by the first strategy that takes it. */
  method Process(strategies: seq<Registered>, tx: Transaction)
    modifies tx
    ensures IsProcessed(StrategiesOf(strategies), old(tx.Raw()), tx.Raw())
  {
    for i := 0 to |strategies|
      invariant tx.Raw() == old(tx.Raw())
      invariant forall j :: 0 <= j < i ==> StrategiesOf(strategies)[j](old(tx.Raw())).None?
    {
      var taken := ProcessWith(strategies[i], tx);
      assert StrategiesOf(strategies)[i] == StrategyOf(strategies[i]);
      if taken {
        return;
      }
    }
  }

  /** The repository's two strategies give one result in either order. */
  lemma RegisteredStrategies(
    swapMethods: set<string>, native: SwapValue, swap: Option<SwapValue>, tx: Tx, x: Tx, y: Tx)
    requires IsProcessed(StrategiesOf([Native(native), Swap(swapMethods, swap)]), tx, x)
    requires IsProcessed(StrategiesOf([Swap(swapMethods, swap), Native(native)]), tx, y)
    ensures x == y
    ensures tx.call.None? ==> x == Tx(None, EthTransfer, Some(native))
    ensures tx.call.Some? && tx.call.value in swapMethods && swap.Some? ==> x == Tx(tx.call, DexSwap, swap)
    ensures tx.call.Some? && (tx.call.value !in swapMethods || swap.None?) ==> x == tx
  {
    var n, s := NativeTransfer(native), SwapStrategy(swapMethods, swap);
    assert StrategiesOf([Native(native), Swap(swapMethods, swap)]) == [n, s];
    assert StrategiesOf([Swap(swapMethods, swap), Native(native)]) == [s, n];
    OrderIndependent([n, s], [s, n], tx, x, y);
    assert n(tx) == if tx.call.Some? then None else Some(Tx(None, EthTransfer, Some(native)));
    assert tx.call.None? ==> s(tx).None?;
    assert tx.call.Some? && tx.call.value in swapMethods && swap.Some? ==> s(tx) == Some(Tx(tx.call, DexSwap, swap));
    assert [n, s][0] == n && [n, s][1] == s;
  }
}
