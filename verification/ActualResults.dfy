/** Observed outcomes and the simulated trades valued against them (database/repository.py,
    database/models.py), and the report join that must count each prediction once
    (notifications/result_report.py). */
module ActualResults {
  import opened Sequences
  import opened Wrappers

  datatype StockRow = StockRow(symbol: string, open: Option<real>, close: real, rawHash: string)

  datatype ResultStatus = ResultPending | ResultFinal | ResultCorrected

  datatype ActualResult = ActualResult(
    prediction: string, stock: Option<nat>, supersedes: Option<string>, version: int, status: ResultStatus,
    open: Option<real>, close: Option<real>, intradayReturn: Option<real>, difference: Option<real>,
    rawHash: Option<string>, observedAt: Option<int>, finalizedAt: Option<int>, key: string)

  datatype TradeStatus = NotTriggered | TradePending | TradeFinal | InsufficientConfig

  /** What a trade is worth; each part is absent until known. */
  datatype Valuation = Valuation(
    entry: Option<real>, exit: Option<real>, gross: Option<real>, commission: Option<real>, slippage: Option<real>,
    net: Option<real>, realized: Option<real>, openedAt: Option<int>, closedAt: Option<int>)
  {
    predicate Complete() {
      entry.Some? && exit.Some? && gross.Some? && commission.Some? && slippage.Some? && net.Some? && realized.Some?
      && openedAt.Some? && closedAt.Some?
    }
  }

  datatype Trade = Trade(
    prediction: string, result: Option<string>, status: TradeStatus, capital: real, shares: int,
    valuation: Valuation, strategy: string, key: string)

  /** The tables, rows by primary key, with the unique indexes on idempotency keys; a prediction
      is known by its ticker. */
  datatype Tables = Tables(
    predictions: map<string, string>, stocks: map<nat, StockRow>,
    results: map<string, ActualResult>, resultByKey: map<string, string>,
    trades: map<string, Trade>, tradeByKey: map<string, string>)

  // ------------------------------------------------------------------
  // save_actual_result
  // ------------------------------------------------------------------

  datatype ResultArgs = ResultArgs(
    prediction: string, stock: Option<nat>, supersedes: Option<string>, version: int, status: ResultStatus,
    open: Option<real>, close: Option<real>, observedAt: Option<int>, finalizedAt: Option<int>, key: string)

  /** The revision checks: the first is version 1, any other continues a row of its prediction. */
  function RevisionError(db: Tables, a: ResultArgs): Option<string> {
    if a.version <= 0 then Some("result_version must be positive")
    else match a.supersedes
      case None => if a.version != 1 then Some("the first actual-result revision must be version 1") else None
      case Some(prior) =>
        if prior !in db.results || db.results[prior].prediction != a.prediction then
          Some("superseded result must belong to this prediction")
        else if a.version != db.results[prior].version + 1 then Some("actual-result versions must be contiguous")
        else None
  }

  function StockError(db: Tables, a: ResultArgs): Option<string> {
    match a.stock
    case None => None
    case Some(id) =>
      if id !in db.stocks || a.prediction !in db.predictions
         || db.stocks[id].symbol != db.predictions[a.prediction] then
        Some("actual-result stock revision has the wrong ticker")
      else if a.open.Some? && a.open != db.stocks[id].open then Some("actual open differs from its raw stock revision")
      else if a.close.Some? && a.close.value != db.stocks[id].close then
        Some("actual close differs from its raw stock revision")
      else None
  }

  function OutcomeError(a: ResultArgs): Option<string> {
    if a.status == ResultPending then
      if a.close.Some? || a.finalizedAt.Some? then Some("pending outcome cannot contain final close values") else None
    else if a.open.None? || a.close.None? || a.open.value <= 0.0 || a.finalizedAt.None? then
      Some("final outcome requires positive open, close, and time")
    else None
  }

  /** The row built from accepted arguments. */
  function ResultRow(db: Tables, a: ResultArgs): ActualResult
    requires OutcomeError(a).None? && StockError(db, a).None?
  {
    var settled := a.status != ResultPending;
    ActualResult(a.prediction, a.stock, a.supersedes, a.version, a.status, a.open, a.close,
                 if settled then Some((a.close.value - a.open.value) / a.open.value) else None,
                 if settled then Some(a.close.value - a.open.value) else None,
                 if a.stock.Some? then Some(db.stocks[a.stock.value].rawHash) else None,
                 a.observedAt, a.finalizedAt, a.key)
  }

  /** The uniqueness and check rules of the table. */
  predicate ResultRowAllowed(db: Tables, id: string, row: ActualResult) {
    && id !in db.results
    && (forall q :: q in db.results ==>
          db.results[q].prediction != row.prediction || db.results[q].version != row.version)
    && (row.supersedes.Some? ==> forall q :: q in db.results ==> db.results[q].supersedes != row.supersedes)
    && (row.open.Some? ==> row.open.value > 0.0) && (row.close.Some? ==> row.close.value > 0.0)
  }

  /** `id` is the identifier drawn for the new row. */
  function SaveActualResult(db: Tables, id: string, a: ResultArgs): (Tables, Result<string>) {
    if a.key in db.resultByKey && db.resultByKey[a.key] in db.results then
      var existing := db.results[db.resultByKey[a.key]];
      if existing.prediction != a.prediction || existing.version != a.version then
        (db, Err("actual-result idempotency key has conflicting identity"))
      else (db, Ok(db.resultByKey[a.key]))
    else if a.prediction !in db.predictions then (db, Err("unknown prediction"))
    else if RevisionError(db, a).Some? then (db, Err(RevisionError(db, a).value))
    else if StockError(db, a).Some? then (db, Err(StockError(db, a).value))
    else if OutcomeError(a).Some? then (db, Err(OutcomeError(a).value))
    else if !ResultRowAllowed(db, id, ResultRow(db, a)) then (db, Err("integrity error"))
    else (db.(results := db.results[id := ResultRow(db, a)], resultByKey := db.resultByKey[a.key := id]), Ok(id))
  }

  // ------------------------------------------------------------------
  // save_simulated_trade
  // ------------------------------------------------------------------

  function TradeError(db: Tables, t: Trade): Option<string> {
    if t.prediction !in db.predictions then Some("unknown prediction")
    else if t.capital <= 0.0 || t.shares < 0 then Some("capital must be positive and shares non-negative")
    else if t.result.Some?
            && (t.result.value !in db.results || db.results[t.result.value].prediction != t.prediction) then
      Some("trade result must belong to its prediction")
    else if t.status == TradeFinal && (t.result.None? || !t.valuation.Complete()) then
      Some("final trade requires a result, prices, costs, and times")
    else if t.status == InsufficientConfig
            && (t.valuation.commission.Some? || t.valuation.slippage.Some? || t.valuation.net.Some?
                || t.valuation.realized.Some?) then
      Some("unconfirmed trading costs must remain null")
    else if t.valuation.openedAt.Some? && t.valuation.closedAt.Some?
            && t.valuation.closedAt.value < t.valuation.openedAt.value then
      Some("closed_at cannot precede opened_at")
    else None
  }

  /** Nulls never collide under the valuation uniqueness rule. */
  predicate TradeRowAllowed(db: Tables, id: string, t: Trade) {
    && id !in db.trades
    && (t.result.Some? ==> forall q :: q in db.trades ==>
          db.trades[q].prediction != t.prediction || db.trades[q].result != t.result
          || db.trades[q].strategy != t.strategy)
    && (t.valuation.commission.Some? ==> t.valuation.commission.value >= 0.0)
    && (t.valuation.slippage.Some? ==> t.valuation.slippage.value >= 0.0)
  }

  function SaveSimulatedTrade(db: Tables, id: string, t: Trade): (Tables, Result<string>) {
    if t.key in db.tradeByKey && db.tradeByKey[t.key] in db.trades then
      if db.trades[db.tradeByKey[t.key]].prediction != t.prediction then
        (db, Err("trade idempotency key has conflicting identity"))
      else (db, Ok(db.tradeByKey[t.key]))
    else if TradeError(db, t).Some? then (db, Err(TradeError(db, t).value))
    else if !TradeRowAllowed(db, id, t) then (db, Err("integrity error"))
    else (db.(trades := db.trades[id := t], tradeByKey := db.tradeByKey[t.key := id]), Ok(id))
  }

  // ------------------------------------------------------------------
  // Runs
  // ------------------------------------------------------------------

  datatype Call = SaveResult(id: string, a: ResultArgs) | SaveTrade(id: string, t: Trade)
                | Predict(prediction: string, ticker: string) | Observe(stock: nat, row: StockRow)

  /** New predictions and stock revisions arrive between the calls; neither is ever replaced. */
  function Step(db: Tables, c: Call): Tables {
    match c
    case SaveResult(id, a) => SaveActualResult(db, id, a).0
    case SaveTrade(id, t) => SaveSimulatedTrade(db, id, t).0
    case Predict(prediction, ticker) =>
      if prediction in db.predictions then db else db.(predictions := db.predictions[prediction := ticker])
    case Observe(stock, row) => if stock in db.stocks then db else db.(stocks := db.stocks[stock := row])
  }

  function Run(calls: seq<Call>): Tables {
    if calls == [] then Tables(map[], map[], map[], map[], map[], map[])
    else Step(Run(calls[..|calls| - 1]), calls[|calls| - 1])
  }

  /** Every row continues an earlier version of its own prediction, and no two rows of a
      prediction share a version. */
  ghost predicate Linked(db: Tables) {
    && (forall q :: q in db.results ==> LinkedRow(db, q))
    && (forall p, q :: p in db.results && q in db.results && p != q ==>
          db.results[p].prediction != db.results[q].prediction || db.results[p].version != db.results[q].version)
  }

  ghost predicate LinkedRow(db: Tables, q: string)
    requires q in db.results
  {
    var row := db.results[q];
    && row.version >= 1 && (row.version == 1 <==> row.supersedes.None?)
    && (row.supersedes.Some? ==>
          && row.supersedes.value in db.results
          && db.results[row.supersedes.value].prediction == row.prediction
          && db.results[row.supersedes.value].version == row.version - 1)
  }

  /** Trades are valued against results of their own prediction, once per result and strategy. */
  ghost predicate Valued(db: Tables) {
    && (forall t :: t in db.trades && db.trades[t].result.Some? ==>
          db.trades[t].result.value in db.results
          && db.results[db.trades[t].result.value].prediction == db.trades[t].prediction)
    && (forall t, u :: t in db.trades && u in db.trades && t != u && db.trades[t].result.Some? ==>
          db.trades[t].result != db.trades[u].result || db.trades[t].strategy != db.trades[u].strategy)
  }

  /** The derived columns of a settled row are its own price move. */
  ghost predicate Consistent(row: ActualResult) {
    if row.status == ResultPending then
      row.close.None? && row.intradayReturn.None? && row.difference.None? && row.finalizedAt.None?
    else row.open.Some? && row.open.value > 0.0 && row.close.Some? && row.finalizedAt.Some?
         && row.difference == Some(row.close.value - row.open.value)
         && row.intradayReturn.Some? && row.intradayReturn.value * row.open.value == row.difference.value
  }

  /** A saved result either changes nothing or appends one checked row. */
  lemma ResultEffect(db: Tables, id: string, a: ResultArgs, after: Tables) returns (appended: bool, row: ActualResult)
    requires after == SaveActualResult(db, id, a).0
    ensures !appended ==> after == db
    ensures appended ==>
              && after == db.(results := db.results[id := row], resultByKey := after.resultByKey)
              && row.prediction == a.prediction && row.supersedes == a.supersedes && row.version == a.version
              && RevisionError(db, a).None? && ResultRowAllowed(db, id, row) && Consistent(row)
  {
    appended := after != db;
    row := ActualResult("", None, None, 0, ResultPending, None, None, None, None, None, None, None, "");
    if appended { row := after.results[id]; }
  }

  lemma AppendKeepsLinked(db: Tables, id: string, row: ActualResult, after: Tables)
    requires Linked(db) && after.results == db.results[id := row] && ResultRowAllowed(db, id, row)
    requires row.version >= 1 && (row.version == 1 <==> row.supersedes.None?)
    requires row.supersedes.Some? ==>
               && row.supersedes.value in db.results && db.results[row.supersedes.value].prediction == row.prediction
               && db.results[row.supersedes.value].version == row.version - 1
    ensures Linked(after)
  {}

  lemma SameResultsKeepLinked(db: Tables, after: Tables)
    requires Linked(db) && after.results == db.results
    ensures Linked(after)
  {}

  lemma ResultStep(db: Tables, id: string, a: ResultArgs, after: Tables)
    requires Linked(db) && Valued(db) && after == SaveActualResult(db, id, a).0
    ensures Linked(after) && Valued(after)
  {
    var appended, row := ResultEffect(db, id, a, after);
    if appended {
      if a.supersedes.Some? { assert LinkedRow(db, a.supersedes.value); }
      AppendKeepsLinked(db, id, row, after);
    }
  }

  lemma TradeStep(db: Tables, id: string, t: Trade, after: Tables)
    requires Linked(db) && Valued(db) && after == SaveSimulatedTrade(db, id, t).0
    ensures Linked(after) && Valued(after)
  {
    SameResultsKeepLinked(db, after);
    if after != db {
      AppendKeepsValued(db, id, t, after);
    }
  }

  lemma AppendKeepsValued(db: Tables, id: string, t: Trade, after: Tables)
    requires Valued(db) && after.results == db.results && after.trades == db.trades[id := t]
    requires TradeRowAllowed(db, id, t)
    requires t.result.Some? ==> t.result.value in db.results && db.results[t.result.value].prediction == t.prediction
    ensures Valued(after)
  {}

  // ------------------------------------------------------------------
  // When a call succeeds, in the columns of the tables
  // ------------------------------------------------------------------

  ghost predicate KnownResult(db: Tables, key: string) {
    key in db.resultByKey && db.resultByKey[key] in db.results
  }

  ghost predicate KnownTrade(db: Tables, key: string) {
    key in db.tradeByKey && db.tradeByKey[key] in db.trades
  }

  /** Version one, or the next after the version it names of the same prediction, and not there yet. */
  ghost predicate NextVersion(db: Tables, a: ResultArgs) {
    && (a.supersedes == None ==> a.version == 1)
    && (a.supersedes.Some? ==>
          && a.supersedes.value in db.results
          && var prior := db.results[a.supersedes.value];
          prior.prediction == a.prediction && a.version == prior.version + 1 && 1 <= a.version)
    && (forall q :: q in db.results && db.results[q].prediction == a.prediction ==> db.results[q].version != a.version)
    && (forall q :: q in db.results && a.supersedes.Some? ==> db.results[q].supersedes != a.supersedes)
  }

  /** The stock row named is one of the prediction's own ticker, at the prices given. */
  ghost predicate CitesOwnStock(db: Tables, a: ResultArgs) {
    a.stock.Some? ==>
      && a.stock.value in db.stocks && a.prediction in db.predictions
      && var stock := db.stocks[a.stock.value];
      && stock.symbol == db.predictions[a.prediction]
      && (a.open.Some? ==> stock.open == Some(a.open.value)) && (a.close.Some? ==> Some(stock.close) == a.close)
  }

  ghost predicate PricesFit(a: ResultArgs) {
    && (a.open.Some? ==> 0.0 < a.open.value) && (a.close.Some? ==> 0.0 < a.close.value)
    && (a.status == ResultPending ==> a.close == None && a.finalizedAt == None)
    && (a.status != ResultPending ==> a.open.Some? && a.close.Some? && a.finalizedAt.Some?)
  }

  ghost predicate ResultWelcome(db: Tables, a: ResultArgs) {
    a.prediction in db.predictions && NextVersion(db, a) && CitesOwnStock(db, a) && PricesFit(a)
  }

  /** The row as given, with what follows from its prices and its stock row. */
  ghost predicate StoredAs(db: Tables, a: ResultArgs, row: ActualResult) {
    && row.prediction == a.prediction && row.stock == a.stock && row.supersedes == a.supersedes
    && row.version == a.version && row.status == a.status && row.open == a.open && row.close == a.close
    && row.observedAt == a.observedAt && row.finalizedAt == a.finalizedAt && row.key == a.key
    && (a.status == ResultPending ==> row.intradayReturn == row.difference == None)
    && (a.status != ResultPending ==>
          && a.open.Some? && a.close.Some? && row.difference == Some(a.close.value - a.open.value)
          && row.intradayReturn.Some? && row.intradayReturn.value * a.open.value == a.close.value - a.open.value)
    && (a.stock == None ==> row.rawHash == None)
    && (a.stock.Some? ==> a.stock.value in db.stocks && row.rawHash == Some(db.stocks[a.stock.value].rawHash))
  }

  lemma RevisionChecks(db: Tables, id: string, a: ResultArgs, row: ActualResult)
    requires row.prediction == a.prediction && row.version == a.version && row.supersedes == a.supersedes
    requires row.open == a.open && row.close == a.close && id !in db.results
    ensures RevisionError(db, a).None? && ResultRowAllowed(db, id, row)
       <==> && NextVersion(db, a) && (a.open.Some? ==> 0.0 < a.open.value) && (a.close.Some? ==> 0.0 < a.close.value)
  {}

  lemma StockChecks(db: Tables, a: ResultArgs)
    ensures StockError(db, a).None? <==> CitesOwnStock(db, a)
  {}

  lemma RowAsGiven(db: Tables, a: ResultArgs)
    requires OutcomeError(a).None? && StockError(db, a).None?
    ensures StoredAs(db, a, ResultRow(db, a))
  {}

  /** A result under a new key is stored, as given, exactly when it is the next version of its prediction,
      cites a stock row of that ticker at those prices, and its prices fit its status. */
  lemma ResultAccepted(db: Tables, id: string, a: ResultArgs)
    requires !KnownResult(db, a.key) && id !in db.results
    ensures var (after, r) := SaveActualResult(db, id, a);
            && (r == Ok(id) <==> ResultWelcome(db, a)) && (r.Err? <==> !ResultWelcome(db, a))
            && (r.Err? ==> after == db)
            && (r.Ok? ==>
                  && id in after.results && StoredAs(db, a, after.results[id])
                  && after == db.(results := db.results[id := after.results[id]],
                                  resultByKey := db.resultByKey[a.key := id]))
  {
    if a.prediction in db.predictions {
      ResultChecks(db, id, a);
    }
    if ResultWelcome(db, a) {
      RowAsGiven(db, a);
    }
  }

  lemma ResultChecks(db: Tables, id: string, a: ResultArgs)
    requires id !in db.results && a.prediction in db.predictions
    ensures ResultWelcome(db, a) <==>
            && RevisionError(db, a).None? && StockError(db, a).None? && OutcomeError(a).None?
            && ResultRowAllowed(db, id, ResultRow(db, a))
  {
    StockChecks(db, a);
    if OutcomeError(a).None? && StockError(db, a).None? {
      RevisionChecks(db, id, a, ResultRow(db, a));
    }
  }

  lemma ResultAnsweredAgain(db: Tables, id: string, a: ResultArgs)
    requires KnownResult(db, a.key)
    ensures var (after, r) := SaveActualResult(db, id, a);
            var e := db.results[db.resultByKey[a.key]];
            && after == db && (r.Ok? <==> e.prediction == a.prediction && e.version == a.version)
            && (r.Ok? ==> r == Ok(db.resultByKey[a.key]))
  {}

  ghost predicate TradeWelcome(db: Tables, t: Trade) {
    && t.prediction in db.predictions && 0.0 < t.capital && 0 <= t.shares
    && (t.result.Some? ==>
          && t.result.value in db.results && db.results[t.result.value].prediction == t.prediction
          && forall q ::
               q in db.trades && db.trades[q].prediction == t.prediction && db.trades[q].result == t.result ==>
               db.trades[q].strategy != t.strategy)
    && ValuationFits(t)
  }

  ghost predicate ValuationFits(t: Trade) {
    var v := t.valuation;
    && (t.status == TradeFinal ==>
          && t.result.Some? && v.entry.Some? && v.exit.Some? && v.gross.Some? && v.commission.Some? && v.slippage.Some?
          && v.net.Some? && v.realized.Some? && v.openedAt.Some? && v.closedAt.Some?)
    && (t.status == InsufficientConfig ==> v.commission == v.slippage == v.net == v.realized == None)
    && (v.openedAt.Some? && v.closedAt.Some? ==> v.openedAt.value <= v.closedAt.value)
    && (v.commission.Some? ==> 0.0 <= v.commission.value) && (v.slippage.Some? ==> 0.0 <= v.slippage.value)
  }

  lemma TradeAccepted(db: Tables, id: string, t: Trade)
    requires !KnownTrade(db, t.key) && id !in db.trades
    ensures var (after, r) := SaveSimulatedTrade(db, id, t);
            && (r == Ok(id) <==> TradeWelcome(db, t)) && (r.Err? <==> !TradeWelcome(db, t)) && (r.Err? ==> after == db)
            && (r.Ok? ==> after == db.(trades := db.trades[id := t], tradeByKey := db.tradeByKey[t.key := id]))
  {}

  lemma TradeAnsweredAgain(db: Tables, id: string, t: Trade)
    requires KnownTrade(db, t.key)
    ensures var (after, r) := SaveSimulatedTrade(db, id, t);
            && after == db && (r.Ok? <==> db.trades[db.tradeByKey[t.key]].prediction == t.prediction)
            && (r.Ok? ==> r == Ok(db.tradeByKey[t.key]))
  {}

  // ------------------------------------------------------------------
  // The repository object
  // ------------------------------------------------------------------

  /** One more result, and nothing else in the tables. */
  ghost predicate Appended(before: Tables, after: Tables, id: string) {
    && id !in before.results && id in after.results && after.results == before.results[id := after.results[id]]
    && after.predictions == before.predictions && after.stocks == before.stocks && after.trades == before.trades
  }

  /** A first version, or the next one after a current result of the same prediction. */
  ghost predicate Continues(db: Tables, row: ActualResult) {
    match row.supersedes
    case None => row.version == 1
    case Some(prior) =>
      IsCurrent(db, prior) && db.results[prior].prediction == row.prediction
      && row.version == db.results[prior].version + 1
  }

  /** A result not stored before: one row more, in its place in the chain, its columns consistent. */
  lemma SavedResult(before: Tables, id: string, a: ResultArgs, after: Tables)
    requires (after, Ok(id)) == SaveActualResult(before, id, a) && id !in before.results
    ensures Appended(before, after, id) && Continues(before, after.results[id]) && Consistent(after.results[id])
    ensures after.results[id].prediction == a.prediction && after.results[id].version == a.version
    ensures forall again :: SaveActualResult(after, again, a) == (after, Ok(id))
    ensures Linked(before) && Valued(before) ==> Linked(after) && Valued(after)
  {
    SavedResultContinues(before, id, a, after);
    SavedResultRepeats(before, id, a, after);
    if Linked(before) && Valued(before) {
      ResultStep(before, id, a, after);
    }
  }

  lemma SavedResultContinues(before: Tables, id: string, a: ResultArgs, after: Tables)
    requires (after, Ok(id)) == SaveActualResult(before, id, a) && id !in before.results
    ensures Appended(before, after, id) && Continues(before, after.results[id]) && Consistent(after.results[id])
    ensures after.results[id].prediction == a.prediction && after.results[id].version == a.version
  {
    var appended, row := ResultEffect(before, id, a, after);
    RowContinues(before, id, row, a);
  }

  lemma RowContinues(before: Tables, id: string, row: ActualResult, a: ResultArgs)
    requires row.prediction == a.prediction && row.supersedes == a.supersedes && row.version == a.version
    requires RevisionError(before, a).None? && ResultRowAllowed(before, id, row)
    ensures Continues(before, row)
  {}

  lemma SavedResultRepeats(before: Tables, id: string, a: ResultArgs, after: Tables)
    requires (after, Ok(id)) == SaveActualResult(before, id, a) && id !in before.results
    ensures forall again :: SaveActualResult(after, again, a) == (after, Ok(id))
  {
    SavedResultContinues(before, id, a, after);
    assert a.key in after.resultByKey && after.resultByKey[a.key] == id;
    forall again ensures SaveActualResult(after, again, a) == (after, Ok(id)) { StoredIsReturned(after, id, again, a); }
  }

  /** A key already stored with the same prediction and version answers with its row. */
  lemma StoredIsReturned(db: Tables, id: string, again: string, a: ResultArgs)
    requires a.key in db.resultByKey && db.resultByKey[a.key] == id && id in db.results
    requires db.results[id].prediction == a.prediction && db.results[id].version == a.version
    ensures SaveActualResult(db, again, a) == (db, Ok(id))
  {}

  lemma SavedTrade(before: Tables, id: string, t: Trade, after: Tables)
    requires (after, Ok(id)) == SaveSimulatedTrade(before, id, t) && id !in before.trades
    ensures after.trades == before.trades[id := t]
    ensures forall again :: SaveSimulatedTrade(after, again, t) == (after, Ok(id))
    ensures Linked(before) && Valued(before) ==> Linked(after) && Valued(after)
  {
    if Linked(before) && Valued(before) {
      TradeStep(before, id, t, after);
    }
  }

  /** The two tables as the repository appends to them. */
  class OutcomeRepository {
    var db: Tables

    constructor (predictions: map<string, string>, stocks: map<nat, StockRow>)
      ensures db == Tables(predictions, stocks, map[], map[], map[], map[])
    {
      db := Tables(predictions, stocks, map[], map[], map[], map[]);
    }

    /** One revision is appended, or the one already stored under the key is returned, or nothing
        happens; asking again changes nothing more, and the history stays one of linked versions. */
    method RecordResult(id: string, a: ResultArgs) returns (r: Result<string>)
      modifies this
      ensures (db, r) == SaveActualResult(old(db), id, a)
      ensures !KnownResult(old(db), a.key) && id !in old(db).results ==> (r == Ok(id) <==> ResultWelcome(old(db), a))
      ensures r == Ok(id) && id !in old(db).results ==> id in db.results && StoredAs(old(db), a, db.results[id])
      ensures r.Err? ==> db == old(db)
      ensures r.Ok? ==> r.value in db.results && db.results[r.value].prediction == a.prediction
                        && db.results[r.value].version == a.version
      ensures r.Ok? && db != old(db) ==>
                && r.value == id && Appended(old(db), db, id)
                && Continues(old(db), db.results[id]) && Consistent(db.results[id])
      ensures r.Ok? ==> forall again :: SaveActualResult(db, again, a) == (db, r)
      ensures Linked(old(db)) && Valued(old(db)) ==> Linked(db) && Valued(db)
    {
      if !KnownResult(db, a.key) && id !in db.results { ResultAccepted(db, id, a); }
      if a.key in db.resultByKey && db.resultByKey[a.key] in db.results {
        var existing := db.results[db.resultByKey[a.key]];
        if existing.prediction != a.prediction || existing.version != a.version {
          return Err("actual-result idempotency key has conflicting identity");
        }
        return Ok(db.resultByKey[a.key]);
      }
      if a.prediction !in db.predictions { return Err("unknown prediction"); }
      var refused := RevisionError(db, a);
      if refused.None? { refused := StockError(db, a); }
      if refused.None? { refused := OutcomeError(a); }
      if refused.Some? { return Err(refused.value); }
      var row := BuildRow(a);
      if !ResultRowAllowed(db, id, row) { return Err("integrity error"); }
      db := db.(results := db.results[id := row], resultByKey := db.resultByKey[a.key := id]);
      SavedResult(old(db), id, a, db);
      return Ok(id);
    }

    /** The row for accepted arguments, its return and difference derived from its prices. */
    method BuildRow(a: ResultArgs) returns (row: ActualResult)
      requires OutcomeError(a).None? && StockError(db, a).None?
      ensures row == ResultRow(db, a) && Consistent(row)
    {
      var rawHash := None;
      if a.stock.Some? { rawHash := Some(db.stocks[a.stock.value].rawHash); }
      var intradayReturn, difference := None, None;
      if a.status != ResultPending {
        difference := Some(a.close.value - a.open.value);
        intradayReturn := Some(difference.value / a.open.value);
      }
      row := ActualResult(a.prediction, a.stock, a.supersedes, a.version, a.status, a.open, a.close, intradayReturn,
                          difference, rawHash, a.observedAt, a.finalizedAt, a.key);
    }

    /** Likewise for trades: no result is touched, and no result is valued twice under one strategy. */
    method RecordTrade(id: string, t: Trade) returns (r: Result<string>)
      modifies this
      ensures (db, r) == SaveSimulatedTrade(old(db), id, t)
      ensures !KnownTrade(old(db), t.key) && id !in old(db).trades ==> (r == Ok(id) <==> TradeWelcome(old(db), t))
      ensures r.Err? ==> db == old(db)
      ensures r.Ok? ==> r.value in db.trades && db.trades[r.value].prediction == t.prediction
      ensures db == old(db)
              || (r == Ok(id) && id !in old(db).trades && db.trades == old(db).trades[id := t]
                  && (t.status == TradeFinal ==> t.result.Some? && t.valuation.Complete()))
      ensures db.results == old(db).results && db.predictions == old(db).predictions && db.stocks == old(db).stocks
      ensures r.Ok? ==> forall again :: SaveSimulatedTrade(db, again, t) == (db, r)
      ensures Linked(old(db)) && Valued(old(db)) ==> Linked(db) && Valued(db)
    {
      if !KnownTrade(db, t.key) && id !in db.trades { TradeAccepted(db, id, t); }
      if t.key in db.tradeByKey && db.tradeByKey[t.key] in db.trades {
        if db.trades[db.tradeByKey[t.key]].prediction != t.prediction {
          return Err("trade idempotency key has conflicting identity");
        }
        return Ok(db.tradeByKey[t.key]);
      }
      var refused := TradeError(db, t);
      if refused.Some? { return Err(refused.value); }
      if !TradeRowAllowed(db, id, t) { return Err("integrity error"); }
      db := db.(trades := db.trades[id := t], tradeByKey := db.tradeByKey[t.key := id]);
      SavedTrade(old(db), id, t, db);
      return Ok(id);
    }
  }

  lemma {:induction false} RunsKeepLinks(calls: seq<Call>)
    ensures Linked(Run(calls)) && Valued(Run(calls))
  {
    if calls == [] {
    } else {
      RunsKeepLinks(calls[..|calls| - 1]);
      StepKeepsLinks(Run(calls[..|calls| - 1]), calls[|calls| - 1], Run(calls));
    }
  }

  lemma StepKeepsLinks(db: Tables, c: Call, after: Tables)
    requires Linked(db) && Valued(db) && after == Step(db, c)
    ensures Linked(after) && Valued(after)
  {
    match c
    case SaveResult(id, a) => ResultStep(db, id, a, after);
    case SaveTrade(id, t) => TradeStep(db, id, t, after);
    case Predict(_, _) => SameResultsKeepLinked(db, after);
    case Observe(_, _) => SameResultsKeepLinked(db, after);
  }

  /** A call leaves every stored result as it is; a row it adds is consistent. */
  lemma StepOnResults(db: Tables, c: Call, after: Tables, q: string)
    requires after == Step(db, c)
    ensures q in db.results ==> q in after.results && after.results[q] == db.results[q]
    ensures q in after.results && q !in db.results ==> Consistent(after.results[q])
  {
    if c.SaveResult? {
      var appended, row := ResultEffect(db, c.id, c.a, after);
    }
  }

  /** A result with a stock row is of that row's ticker, at its prices and with its hash. */
  ghost predicate Cites(db: Tables, row: ActualResult) {
    match row.stock
    case None => row.rawHash == None
    case Some(id) =>
      && id in db.stocks && row.prediction in db.predictions
      && db.stocks[id].symbol == db.predictions[row.prediction] && row.rawHash == Some(db.stocks[id].rawHash)
      && (row.open.Some? ==> db.stocks[id].open == row.open)
      && (row.close.Some? ==> Some(db.stocks[id].close) == row.close)
  }

  /** Predictions and stock rows, once there, stay as they are. */
  ghost predicate SourcesKept(db: Tables, after: Tables) {
    && (forall p :: p in db.predictions ==> p in after.predictions && after.predictions[p] == db.predictions[p])
    && (forall id :: id in db.stocks ==> id in after.stocks && after.stocks[id] == db.stocks[id])
  }

  lemma StepKeepsSources(db: Tables, c: Call, after: Tables)
    requires after == Step(db, c)
    ensures SourcesKept(db, after)
  {}

  lemma NewResultCites(db: Tables, c: Call, after: Tables, q: string)
    requires after == Step(db, c) && q in after.results && q !in db.results
    ensures Cites(after, after.results[q])
  {
    if c.SaveResult? && after != db {
      SavedResultCites(db, c.id, c.a, after);
    }
  }

  lemma SavedResultCites(db: Tables, id: string, a: ResultArgs, after: Tables)
    requires after == SaveActualResult(db, id, a).0 && after != db
    ensures id !in db.results && id in after.results && Cites(after, after.results[id])
    ensures forall q :: q in after.results && q != id ==> q in db.results
  {
    assert id !in db.results && !KnownResult(db, a.key);
    ResultAccepted(db, id, a);
  }

  /** After any run every stored result with a stock row is of that row's ticker, at its prices. */
  lemma {:induction false} ResultsCiteTheirStock(calls: seq<Call>, q: string)
    requires q in Run(calls).results
    ensures Cites(Run(calls), Run(calls).results[q])
  {
    var init := calls[..|calls| - 1];
    StepOnResults(Run(init), calls[|calls| - 1], Run(calls), q);
    StepKeepsSources(Run(init), calls[|calls| - 1], Run(calls));
    if q in Run(init).results {
      ResultsCiteTheirStock(init, q);
    } else {
      NewResultCites(Run(init), calls[|calls| - 1], Run(calls), q);
    }
  }

  /** The derived columns of every stored result are its own price move. */
  lemma {:induction false} SettledRowsConsistent(calls: seq<Call>, q: string)
    requires q in Run(calls).results
    ensures Consistent(Run(calls).results[q])
  {
    var init := calls[..|calls| - 1];
    StepOnResults(Run(init), calls[|calls| - 1], Run(calls), q);
    if q in Run(init).results {
      SettledRowsConsistent(init, q);
    }
  }

  /** A stored result is never rewritten: corrections are new rows. */
  lemma {:induction false} ResultsNeverChange(calls: seq<Call>, more: seq<Call>, q: string)
    requires q in Run(calls).results
    ensures q in Run(calls + more).results && Run(calls + more).results[q] == Run(calls).results[q]
  {
    if more == [] {
      assert calls + more == calls;
    } else {
      var init, last := more[..|more| - 1], more[|more| - 1];
      ResultsNeverChange(calls, init, q);
      RunMore(calls + init, last);
      SplitLast(calls, more);
      StepOnResults(Run(calls + init), last, Run(calls + init + [last]), q);
    }
  }

  lemma RunMore(calls: seq<Call>, last: Call)
    ensures Run(calls + [last]) == Step(Run(calls), last)
  {}

  // ------------------------------------------------------------------
  // One chain per prediction
  // ------------------------------------------------------------------

  /** `ids` is the whole history of a prediction: versions 1, 2, ... each superseding the one
      before. */
  ghost predicate IsChain(db: Tables, prediction: string, ids: seq<string>) {
    && (forall q :: q in ids <==> q in db.results && db.results[q].prediction == prediction)
    && (forall i :: 0 <= i < |ids| ==>
          && ids[i] in db.results && db.results[ids[i]].version == i + 1
          && db.results[ids[i]].supersedes == if i == 0 then None else Some(ids[i - 1]))
  }

  /** The versions leading up to a row. */
  lemma {:induction false} ChainTo(db: Tables, q: string) returns (ids: seq<string>)
    requires Linked(db) && q in db.results
    ensures |ids| == db.results[q].version && ids[|ids| - 1] == q
    ensures forall i :: 0 <= i < |ids| ==>
              && ids[i] in db.results && db.results[ids[i]].prediction == db.results[q].prediction
              && db.results[ids[i]].version == i + 1
              && db.results[ids[i]].supersedes == if i == 0 then None else Some(ids[i - 1])
    decreases db.results[q].version
  {
    assert LinkedRow(db, q);
    if db.results[q].version == 1 {
      ids := [q];
    } else {
      var earlier := ChainTo(db, db.results[q].supersedes.value);
      ids := earlier + [q];
    }
  }

  /** Some row of the prediction has no higher version above it. */
  lemma LatestOf(db: Tables, prediction: string, candidates: set<string>) returns (latest: string)
    requires candidates != {} && forall q :: q in candidates ==>
              q in db.results && db.results[q].prediction == prediction
    ensures latest in candidates
    ensures forall q :: q in candidates ==> db.results[q].version <= db.results[latest].version
    decreases candidates
  {
    latest :| latest in candidates;
    if candidates != {latest} {
      var other := LatestOf(db, prediction, candidates - {latest});
      if db.results[other].version > db.results[latest].version {
        latest := other;
      }
    }
  }

  /** The results of each prediction form one chain with versions exactly 1 to n. */
  lemma OneChain(db: Tables, prediction: string) returns (ids: seq<string>)
    requires Linked(db)
    ensures IsChain(db, prediction, ids)
  {
    var all := set q | q in db.results && db.results[q].prediction == prediction;
    if all == {} {
      ids := [];
      assert forall q :: q in db.results && db.results[q].prediction == prediction ==> q in all;
    } else {
      var latest := LatestOf(db, prediction, all);
      ids := ChainTo(db, latest);
      forall q | q in db.results && db.results[q].prediction == prediction
        ensures q in ids
      {
        assert LinkedRow(db, q) && q in all;
        assert ids[db.results[q].version - 1] == q;
      }
    }
  }

  /** The report's current result: the one no other row supersedes. */
  ghost predicate IsCurrent(db: Tables, q: string) {
    q in db.results && forall p :: p in db.results ==> db.results[p].supersedes != Some(q)
  }

  /** After any run, the results of a prediction form exactly one chain. */
  lemma EveryRunIsOneChain(calls: seq<Call>, prediction: string) returns (ids: seq<string>)
    ensures IsChain(Run(calls), prediction, ids)
  {
    RunsKeepLinks(calls);
    ids := OneChain(Run(calls), prediction);
  }

  /** A row is current exactly when it has the highest version of its prediction. */
  lemma CurrentIsLastInChain(db: Tables, prediction: string, ids: seq<string>, q: string)
    requires Linked(db) && IsChain(db, prediction, ids) && q in ids
    ensures IsCurrent(db, q) <==> q == ids[|ids| - 1]
  {
    var i :| 0 <= i < |ids| && ids[i] == q;
    if i + 1 < |ids| {
      assert db.results[ids[i + 1]].supersedes == Some(q);
      assert ids[|ids| - 1] != q;
    } else {
      forall p | p in db.results
        ensures db.results[p].supersedes != Some(q)
      {
        assert LinkedRow(db, p);
        if db.results[p].prediction == prediction {
          assert p in ids;
        }
      }
    }
  }

  // ------------------------------------------------------------------
  // The report join
  // ------------------------------------------------------------------

  /** One line of the join: prediction, result, and the trade if there is one. */
  datatype Line = Line(prediction: string, result: string, trade: Option<string>)

  ghost predicate TradeOf(db: Tables, result: string, strategy: string, t: string) {
    t in db.trades && db.trades[t].result == Some(result) && db.trades[t].strategy == strategy
  }

  /** `JOIN actual_results ... LEFT JOIN simulated_trades ... AND NOT EXISTS superseding`. */
  ghost predicate InJoin(db: Tables, strategy: string, line: Line) {
    && line.prediction in db.predictions && IsCurrent(db, line.result)
    && db.results[line.result].prediction == line.prediction
    && match line.trade
       case Some(t) => TradeOf(db, line.result, strategy, t)
       case None => forall t :: !TradeOf(db, line.result, strategy, t)
  }

  lemma OneCurrent(db: Tables, prediction: string, q: string) returns (current: string)
    requires Linked(db) && q in db.results && db.results[q].prediction == prediction
    ensures IsCurrent(db, current) && db.results[current].prediction == prediction
    ensures forall p :: IsCurrent(db, p) && db.results[p].prediction == prediction ==> p == current
  {
    var ids := OneChain(db, prediction);
    assert q in ids;
    current := ids[|ids| - 1];
    assert current in ids;
    CurrentIsLastInChain(db, prediction, ids, current);
    forall p | IsCurrent(db, p) && db.results[p].prediction == prediction
      ensures p == current
    {
      assert p in ids;
      CurrentIsLastInChain(db, prediction, ids, p);
    }
  }

  lemma OneLine(db: Tables, strategy: string, prediction: string, q: string) returns (line: Line)
    requires Linked(db) && Valued(db) && prediction in db.predictions
    requires q in db.results && db.results[q].prediction == prediction
    ensures InJoin(db, strategy, line) && line.prediction == prediction
    ensures forall other :: InJoin(db, strategy, other) && other.prediction == prediction ==> other == line
  {
    var current := OneCurrent(db, prediction, q);
    line := CurrentLine(db, strategy, current);
    forall other | InJoin(db, strategy, other) && other.prediction == prediction
      ensures other == line
    {
      assert other.result == current;
    }
  }

  /** The left join gives a result its one trade of the strategy, or a line without one. */
  lemma CurrentLine(db: Tables, strategy: string, current: string) returns (line: Line)
    requires Valued(db) && IsCurrent(db, current) && db.results[current].prediction in db.predictions
    ensures InJoin(db, strategy, line) && line.prediction == db.results[current].prediction
    ensures forall other :: InJoin(db, strategy, other) && other.result == current ==> other == line
  {
    var prediction := db.results[current].prediction;
    if t :| TradeOf(db, current, strategy, t) {
      line := Line(prediction, current, Some(t));
      forall other | InJoin(db, strategy, other) && other.result == current
        ensures other == line
      {
        assert other.trade.Some? && TradeOf(db, current, strategy, other.trade.value);
      }
    } else {
      line := Line(prediction, current, None);
    }
  }

  /** However often its close was corrected or its trade revalued, a prediction with a result
      appears on exactly one line, so its profit is counted exactly once. */
  lemma OneLinePerPrediction(calls: seq<Call>, strategy: string, prediction: string, q: string) returns (line: Line)
    requires prediction in Run(calls).predictions
    requires q in Run(calls).results && Run(calls).results[q].prediction == prediction
    ensures InJoin(Run(calls), strategy, line) && line.prediction == prediction
    ensures forall other :: InJoin(Run(calls), strategy, other) && other.prediction == prediction ==> other == line
    ensures IsLatest(Run(calls), prediction, line.result)
    ensures var trades := Run(calls).trades;
            forall t :: t in trades && trades[t].result == Some(line.result) && trades[t].strategy == strategy <==>
              line.trade == Some(t)
  {
    RunsKeepLinks(calls);
    line := OneLine(Run(calls), strategy, prediction, q);
    LatestVersion(Run(calls), line.result);
    OneTrade(Run(calls), strategy, line);
  }

  lemma OneTrade(db: Tables, strategy: string, line: Line)
    requires Valued(db) && Linked(db) && InJoin(db, strategy, line)
    ensures forall t :: t in db.trades && db.trades[t].result == Some(line.result) && db.trades[t].strategy == strategy
                        <==> line.trade == Some(t)
  {
    forall t | t in db.trades && db.trades[t].result == Some(line.result) && db.trades[t].strategy == strategy
      ensures line.trade == Some(t)
    {
      assert TradeOf(db, line.result, strategy, t);
    }
  }

  /** The current result is the latest version: what the close pipeline looks up by descending
      version and what the reports select by absence of a successor are the same row. */
  lemma CurrentIsLatest(calls: seq<Call>, q: string)
    requires q in Run(calls).results
    ensures IsCurrent(Run(calls), q) <==> IsLatest(Run(calls), Run(calls).results[q].prediction, q)
  {
    RunsKeepLinks(calls);
    LatestVersion(Run(calls), q);
  }

  lemma LatestVersion(db: Tables, q: string)
    requires Linked(db) && q in db.results
    ensures IsCurrent(db, q) <==>
            forall p :: p in db.results && db.results[p].prediction == db.results[q].prediction ==>
              db.results[p].version <= db.results[q].version
  {
    var prediction := db.results[q].prediction;
    var ids := OneChain(db, prediction);
    assert q in ids;
    CurrentIsLastInChain(db, prediction, ids, q);
    var last := ids[|ids| - 1];
    assert last in ids && db.results[last].prediction == prediction && db.results[last].version == |ids|;
    assert forall p :: p in ids ==> db.results[p].version <= |ids|;
  }

  // ------------------------------------------------------------------
  // The profit the report adds up
  // ------------------------------------------------------------------

  ghost function Total<T(!new)>(s: set<T>, f: T -> real): real {
    if s == {} then 0.0 else var x :| x in s; f(x) + Total(s - {x}, f)
  }

  /** Whichever element the sum takes first. */
  lemma {:induction false} TotalWithout<T(!new)>(s: set<T>, x: T, f: T -> real)
    requires x in s
    ensures Total(s, f) == f(x) + Total(s - {x}, f)
  {
    var y :| y in s && Total(s, f) == f(y) + Total(s - {y}, f);
    if y != x {
      TotalWithout(s - {y}, x, f);
      TotalWithout(s - {x}, y, f);
      assert s - {y} - {x} == s - {x} - {y};
    }
  }

  function NetProfit(trade: Trade): real {
    if trade.valuation.net.Some? then trade.valuation.net.value else 0.0
  }

  ghost function LineProfit(db: Tables): Line -> real {
    (line: Line) =>
      if line.trade.Some? && line.trade.value in db.trades then NetProfit(db.trades[line.trade.value]) else 0.0
  }

  /** The lines of the join, as the finite set it is. */
  ghost function Join(db: Tables, strategy: string): (lines: set<Line>)
    ensures forall line :: line in lines <==> InJoin(db, strategy, line)
  {
    (set q, t | q in db.results && t in db.trades && InJoin(db, strategy, Line(db.results[q].prediction, q, Some(t)))
      :: Line(db.results[q].prediction, q, Some(t)))
    + (set q | q in db.results && InJoin(db, strategy, Line(db.results[q].prediction, q, None))
      :: Line(db.results[q].prediction, q, None))
  }

  /** The latest result of a prediction, told by its version alone. */
  ghost predicate IsLatest(db: Tables, prediction: string, q: string) {
    && q in db.results && db.results[q].prediction == prediction
    && forall p :: p in db.results && db.results[p].prediction == prediction ==>
         db.results[p].version <= db.results[q].version
  }

  ghost predicate ValuesLatest(db: Tables, strategy: string, prediction: string, q: string, t: string) {
    && IsLatest(db, prediction, q)
    && t in db.trades && db.trades[t].result == Some(q) && db.trades[t].strategy == strategy
  }

  /** What the trade of the strategy valued against a prediction's latest result made. */
  ghost function LatestTradeProfit(db: Tables, strategy: string, prediction: string): real {
    if q, t :| ValuesLatest(db, strategy, prediction, q, t) then
      match db.trades[t].valuation.net case Some(net) => net case None => 0.0
    else 0.0
  }

  ghost function LatestProfit(db: Tables, strategy: string): string -> real {
    prediction => LatestTradeProfit(db, strategy, prediction)
  }

  /** The known predictions with at least one result. */
  ghost function Scored(db: Tables): set<string> {
    set q | q in db.results && db.results[q].prediction in db.predictions :: db.results[q].prediction
  }

  ghost function LinesOf(db: Tables, strategy: string, predictions: set<string>): set<Line> {
    set line | line in Join(db, strategy) && line.prediction in predictions
  }

  lemma LineOfPrediction(db: Tables, strategy: string, prediction: string) returns (line: Line)
    requires Linked(db) && Valued(db) && prediction in Scored(db)
    ensures InJoin(db, strategy, line) && line.prediction == prediction
    ensures forall other :: InJoin(db, strategy, other) && other.prediction == prediction ==> other == line
    ensures LineProfit(db)(line) == LatestTradeProfit(db, strategy, prediction)
  {
    var q :| q in db.results && db.results[q].prediction == prediction;
    line := OneLine(db, strategy, prediction, q);
    LineMakesLatestProfit(db, strategy, prediction, line);
  }

  lemma LineMakesLatestProfit(db: Tables, strategy: string, prediction: string, line: Line)
    requires Linked(db) && InJoin(db, strategy, line) && line.prediction == prediction
    requires forall other :: InJoin(db, strategy, other) && other.prediction == prediction ==> other == line
    ensures LineProfit(db)(line) == LatestTradeProfit(db, strategy, prediction)
  {
    forall p, t | ValuesLatest(db, strategy, prediction, p, t)
      ensures line.trade == Some(t)
    {
      LatestTradeIsJoined(db, strategy, prediction, p, t);
    }
    if line.trade.Some? {
      LineIsOfLatest(db, strategy, line);
    }
  }

  lemma LineIsOfLatest(db: Tables, strategy: string, line: Line)
    requires Linked(db) && InJoin(db, strategy, line) && line.trade.Some?
    ensures ValuesLatest(db, strategy, line.prediction, line.result, line.trade.value)
  {
    LatestVersion(db, line.result);
  }

  lemma LatestTradeIsJoined(db: Tables, strategy: string, prediction: string, q: string, t: string)
    requires Linked(db) && prediction in db.predictions && ValuesLatest(db, strategy, prediction, q, t)
    ensures InJoin(db, strategy, Line(prediction, q, Some(t)))
  {
    LatestVersion(db, q);
  }

  lemma {:induction false} LinesAddUp(db: Tables, strategy: string, predictions: set<string>)
    requires Linked(db) && Valued(db) && predictions <= Scored(db)
    ensures Total(LinesOf(db, strategy, predictions), LineProfit(db)) == Total(predictions, LatestProfit(db, strategy))
  {
    if predictions == {} {
      assert LinesOf(db, strategy, predictions) == {};
    } else {
      var p :| p in predictions;
      var line := LineOfPrediction(db, strategy, p);
      LinesAddUp(db, strategy, predictions - {p});
      LinesWithout(db, strategy, predictions, p, line);
      TotalWithout(LinesOf(db, strategy, predictions), line, LineProfit(db));
      TotalWithout(predictions, p, LatestProfit(db, strategy));
    }
  }

  lemma LinesWithout(db: Tables, strategy: string, predictions: set<string>, p: string, line: Line)
    requires p in predictions && InJoin(db, strategy, line) && line.prediction == p
    requires forall other :: InJoin(db, strategy, other) && other.prediction == p ==> other == line
    ensures line in LinesOf(db, strategy, predictions)
    ensures LinesOf(db, strategy, predictions) - {line} == LinesOf(db, strategy, predictions - {p})
  {}

  /** After any run the profit over the join is the profit over the predictions, each counted once at
      the trade valued against its latest result. */
  lemma {:induction false} ProfitCountedOnce(calls: seq<Call>, strategy: string)
    ensures Total(Join(Run(calls), strategy), LineProfit(Run(calls)))
         == Total(Scored(Run(calls)), LatestProfit(Run(calls), strategy))
  {
    RunsKeepLinks(calls);
    var db := Run(calls);
    LinesAddUp(db, strategy, Scored(db));
    AllLinesScored(db, strategy);
  }

  lemma AllLinesScored(db: Tables, strategy: string)
    ensures LinesOf(db, strategy, Scored(db)) == Join(db, strategy)
  {}
}
